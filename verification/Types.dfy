/** The stock result of a lookup that may find nothing. */
module Options {
  datatype Option<+T> = None | Some(value: T)
}

/** The values the relay passes around: bids, payloads, registrations, duties and beacon blocks. */
module Types {
  import opened Options

  type byte = x: int | 0 <= x < 256
  type u64 = x: int | 0 <= x < 0x1_0000_0000_0000_0000
  type Bytes = seq<byte>

  const MAX_U64: u64 := 0xffff_ffff_ffff_ffff

  /** A 32-byte word: block hashes, state roots, Merkle nodes and signing domains. */
  type B256 = s: Bytes | |s| == 32 witness seq(32, _ => 0)

  function ZeroB256(): B256 {
    seq(32, _ => 0)
  }

  /** Keys, signatures, addresses and KZG commitments are opaque byte strings, compared by their serialisation. */
  datatype PublicKey = PublicKey(bytes: Bytes)
  datatype Signature = Signature(bytes: Bytes)
  datatype Address = Address(bytes: Bytes)
  datatype KzgCommitment = KzgCommitment(bytes: Bytes)

  datatype BidTrace = BidTrace(
    slot: u64,
    parentHash: B256,
    blockHash: B256,
    builderPubkey: PublicKey,
    proposerPubkey: PublicKey,
    proposerFeeRecipient: Address,
    gasLimit: u64,
    gasUsed: u64,
    value: nat)

  datatype Withdrawal = Withdrawal(index: u64, validatorIndex: u64, address: Address, amount: u64)

  datatype ExecutionPayload = ExecutionPayload(
    parentHash: B256,
    feeRecipient: Address,
    stateRoot: B256,
    receiptsRoot: B256,
    logsBloom: Bytes,
    prevRandao: B256,
    blockNumber: u64,
    gasLimit: u64,
    gasUsed: u64,
    timestamp: u64,
    extraData: Bytes,
    baseFeePerGas: nat,
    blockHash: B256,
    transactions: seq<Bytes>,
    withdrawals: seq<Withdrawal>,
    blobGasUsed: u64,
    excessBlobGas: u64)

  /** An execution payload with its two lists replaced by their roots. */
  datatype ExecutionPayloadHeader = ExecutionPayloadHeader(
    parentHash: B256,
    feeRecipient: Address,
    stateRoot: B256,
    receiptsRoot: B256,
    logsBloom: Bytes,
    prevRandao: B256,
    blockNumber: u64,
    gasLimit: u64,
    gasUsed: u64,
    timestamp: u64,
    extraData: Bytes,
    baseFeePerGas: nat,
    blockHash: B256,
    transactionsRoot: B256,
    withdrawalsRoot: B256,
    blobGasUsed: u64,
    excessBlobGas: u64)

  /** How many blob commitments a block may carry. */
  const MAX_BLOB_COMMITMENTS := 4096

  datatype BlobsBundle = BlobsBundle(
    commitments: seq<KzgCommitment>,
    proofs: seq<KzgCommitment>,
    blobs: seq<Bytes>)

  /** What the relay hands a proposer in exchange for a signed header. */
  datatype BlindedBlockResponse = BlindedBlockResponse(
    executionPayload: ExecutionPayload,
    blobsBundle: BlobsBundle)

  datatype BidSubmission = BidSubmission(
    message: BidTrace,
    executionPayload: ExecutionPayload,
    blobsBundle: BlobsBundle,
    signature: Signature)
  {
    function ToBlindedBlockResponse(): BlindedBlockResponse {
      BlindedBlockResponse(executionPayload, blobsBundle)
    }
  }

  datatype ValidatorRegistrationMessage = ValidatorRegistrationMessage(
    feeRecipient: Address,
    gasLimit: u64,
    timestamp: u64,
    pubkey: PublicKey)

  datatype ValidatorRegistration = ValidatorRegistration(
    message: ValidatorRegistrationMessage,
    signature: Signature)

  /** A proposer duty joined with the registration of its validator. */
  datatype Validator = Validator(slot: u64, validatorIndex: u64, entry: ValidatorRegistration)

  /** A duty as the beacon node reports it. */
  datatype ProposerDutiesData = ProposerDutiesData(slot: u64, pubkey: PublicKey, validatorIndex: u64)

  /** The signing domains computed from the fork data of the chain. */
  datatype ForkDatas = ForkDatas(builderDomain: B256, proposerDomain: B256)

  datatype ValidationError = InvalidSlot | InvalidPrevRandao

  datatype PayloadAttributes = PayloadAttributes(
    proposalSlot: u64,
    parentBlockNumber: u64,
    parentHash: B256,
    prevRandao: B256)
  {
    /** None when a bid for `slot` with `randao` matches the attributes, else the first mismatch. */
    function ValidateBid(slot: u64, randao: B256): Option<ValidationError> {
      if proposalSlot != slot then Some(InvalidSlot)
      else if prevRandao != randao then Some(InvalidPrevRandao)
      else None
    }
  }

  datatype BeaconEvent = PayloadAttribute(attributes: PayloadAttributes) | Head(slot: u64)

  /** 64-bit successor, which wraps at the last slot. */
  predicate IsNextSlot(head: u64, slot: u64) {
    if head == MAX_U64 then slot == 0 else head + 1 == slot
  }

  /** The fields of a beacon block body that unblinding carries over, as SSZ bytes per field. */
  datatype BodyFields = BodyFields(
    randaoReveal: Bytes,
    eth1Data: Bytes,
    graffiti: B256,
    proposerSlashings: Bytes,
    attesterSlashings: Bytes,
    attestations: Bytes,
    deposits: Bytes,
    voluntaryExits: Bytes,
    syncAggregate: Bytes,
    blsToExecutionChanges: Bytes,
    blobKzgCommitments: seq<KzgCommitment>)

  datatype BlindedBlockBody = BlindedBlockBody(fields: BodyFields, executionPayloadHeader: ExecutionPayloadHeader)

  datatype BlindedBlock = BlindedBlock(
    slot: u64,
    proposerIndex: u64,
    parentRoot: B256,
    stateRoot: B256,
    body: BlindedBlockBody)

  datatype SignedBlindedBlock = SignedBlindedBlock(message: BlindedBlock, signature: Signature)

  datatype BeaconBlockBody = BeaconBlockBody(fields: BodyFields, executionPayload: ExecutionPayload)

  datatype BeaconBlock = BeaconBlock(
    slot: u64,
    proposerIndex: u64,
    parentRoot: B256,
    stateRoot: B256,
    body: BeaconBlockBody)

  datatype SignedBeaconBlock = SignedBeaconBlock(message: BeaconBlock, signature: Signature)

  datatype SignedBeaconBlockContent = SignedBeaconBlockContent(
    signedBlock: SignedBeaconBlock,
    kzgProofs: seq<KzgCommitment>,
    blobs: seq<Bytes>)

  /** The bid message served to a proposer; the relay's own signature over it is not modelled. */
  datatype Header = Header(
    header: ExecutionPayloadHeader,
    blobKzgCommitments: seq<KzgCommitment>,
    value: nat)

  /** The foreign cryptography the handlers call: signature checks and hash-tree roots. */
  datatype Crypto = Crypto(
    verify: (PublicKey, B256, Signature) -> bool,
    signingRoot: (B256, B256) -> B256,
    bidRoot: BidTrace -> B256,
    registrationRoot: ValidatorRegistrationMessage -> B256,
    blockRoot: BlindedBlock -> B256,
    headerOf: ExecutionPayload -> ExecutionPayloadHeader)
  {
    predicate VerifyBid(bid: BidTrace, signature: Signature, domain: B256) {
      verify(bid.builderPubkey, signingRoot(bidRoot(bid), domain), signature)
    }

    predicate VerifyRegistration(registration: ValidatorRegistration, domain: B256) {
      verify(registration.message.pubkey, signingRoot(registrationRoot(registration.message), domain),
             registration.signature)
    }

    predicate VerifyBlindedBlock(key: PublicKey, signed: SignedBlindedBlock, domain: B256) {
      verify(key, signingRoot(blockRoot(signed.message), domain), signed.signature)
    }
  }
}
