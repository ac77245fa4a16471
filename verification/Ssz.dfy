/**
Hash-tree roots of the payload, the header and the blocks, over an abstract hash.  The chunk of every leaf is spelled
out except for the body fields that unblinding carries over, whose roots are an abstract function of their bytes.
 */
module Ssz {
  import opened Types
  import opened Merkle
  import opened MerkleLoops

  datatype BodyField =
    | RandaoReveal | Eth1Data | ProposerSlashings | AttesterSlashings | Attestations | Deposits | VoluntaryExits
    | SyncAggregate | BlsToExecutionChanges

  /** The foreign parts: the hash of two chunks, and the roots of the opaque body fields. */
  datatype Ssz = Ssz(hash: Hash2, fieldRoot: (BodyField, Bytes) -> B256)

  // ----- Leaves

  /** The `width` low bytes of a number, least significant first. */
  function LittleEndian(x: nat, width: nat): (bytes: Bytes)
    ensures |bytes| == width
    decreases width
  {
    if width == 0 then [] else [x % 256] + LittleEndian(x / 256, width - 1)
  }

  function NumberRoot(x: nat): B256 {
    LittleEndian(x, 32)
  }

  function AddressRoot(address: Address): B256 {
    PadChunk(address.bytes)
  }

  /** A fixed-length byte vector. */
  function VectorRoot(hash: Hash2, bytes: Bytes, chunkLimit: nat): B256 {
    if DivCeil(|bytes|, 32) <= Capacity(chunkLimit) then Merkleize(Sha(hash), Chunks(bytes), chunkLimit) else ZeroB256()
  }

  function MixInLength(hash: Hash2, root: B256, length: nat): B256 {
    hash(root, NumberRoot(length))
  }

  function ByteListRoot(hash: Hash2, bytes: Bytes, chunkLimit: nat): B256 {
    MixInLength(hash, VectorRoot(hash, bytes, chunkLimit), |bytes|)
  }

  /** A list of composite items, given by their roots. */
  function RootListRoot(hash: Hash2, roots: seq<B256>, limit: nat): B256 {
    MixInLength(hash, if |roots| <= Capacity(limit) then Merkleize(Sha(hash), roots, limit) else ZeroB256(), |roots|)
  }

  function ContainerRoot(hash: Hash2, fields: seq<B256>): B256 {
    Merkleize(Sha(hash), fields, |fields|)
  }

  // ----- The execution payload

  const MAX_TRANSACTIONS := 1048576
  const MAX_TRANSACTION_CHUNKS := 33554432
  const MAX_WITHDRAWALS := 16
  const LOGS_BLOOM_CHUNKS := 8

  function TransactionRoots(hash: Hash2, transactions: seq<Bytes>): seq<B256> {
    if transactions == [] then []
    else [ByteListRoot(hash, transactions[0], MAX_TRANSACTION_CHUNKS)] + TransactionRoots(hash, transactions[1..])
  }

  function TransactionsRoot(hash: Hash2, transactions: seq<Bytes>): B256 {
    RootListRoot(hash, TransactionRoots(hash, transactions), MAX_TRANSACTIONS)
  }

  /** The field roots of a withdrawal, in declaration order. */
  function WithdrawalLeaves(w: Withdrawal): seq<B256> {
    [NumberRoot(w.index), NumberRoot(w.validatorIndex), AddressRoot(w.address), NumberRoot(w.amount)]
  }

  function WithdrawalRoot(hash: Hash2, w: Withdrawal): B256 {
    ContainerRoot(hash, WithdrawalLeaves(w))
  }

  function WithdrawalRoots(hash: Hash2, withdrawals: seq<Withdrawal>): seq<B256> {
    if withdrawals == [] then []
    else [WithdrawalRoot(hash, withdrawals[0])] + WithdrawalRoots(hash, withdrawals[1..])
  }

  function WithdrawalsRoot(hash: Hash2, withdrawals: seq<Withdrawal>): B256 {
    RootListRoot(hash, WithdrawalRoots(hash, withdrawals), MAX_WITHDRAWALS)
  }

  /** The field roots of the payload, in declaration order. */
  function PayloadLeaves(hash: Hash2, p: ExecutionPayload): seq<B256> {
    [p.parentHash, AddressRoot(p.feeRecipient), p.stateRoot, p.receiptsRoot,
     VectorRoot(hash, p.logsBloom, LOGS_BLOOM_CHUNKS), p.prevRandao, NumberRoot(p.blockNumber), NumberRoot(p.gasLimit),
     NumberRoot(p.gasUsed), NumberRoot(p.timestamp), ByteListRoot(hash, p.extraData, 1), NumberRoot(p.baseFeePerGas),
     p.blockHash, TransactionsRoot(hash, p.transactions), WithdrawalsRoot(hash, p.withdrawals),
     NumberRoot(p.blobGasUsed), NumberRoot(p.excessBlobGas)]
  }

  /** The field roots of the header, in declaration order: the two list roots are fields themselves. */
  function HeaderLeaves(hash: Hash2, h: ExecutionPayloadHeader): seq<B256> {
    [h.parentHash, AddressRoot(h.feeRecipient), h.stateRoot, h.receiptsRoot,
     VectorRoot(hash, h.logsBloom, LOGS_BLOOM_CHUNKS), h.prevRandao, NumberRoot(h.blockNumber), NumberRoot(h.gasLimit),
     NumberRoot(h.gasUsed), NumberRoot(h.timestamp), ByteListRoot(hash, h.extraData, 1), NumberRoot(h.baseFeePerGas),
     h.blockHash, h.transactionsRoot, h.withdrawalsRoot, NumberRoot(h.blobGasUsed), NumberRoot(h.excessBlobGas)]
  }

  function PayloadRoot(hash: Hash2, p: ExecutionPayload): B256 {
    ContainerRoot(hash, PayloadLeaves(hash, p))
  }

  function HeaderRoot(hash: Hash2, h: ExecutionPayloadHeader): B256 {
    ContainerRoot(hash, HeaderLeaves(hash, h))
  }

  /** `From<ExecutionPayload> for ExecutionPayloadHeader`. */
  function HeaderOf(hash: Hash2, p: ExecutionPayload): ExecutionPayloadHeader {
    ExecutionPayloadHeader(p.parentHash, p.feeRecipient, p.stateRoot, p.receiptsRoot, p.logsBloom, p.prevRandao,
                           p.blockNumber, p.gasLimit, p.gasUsed, p.timestamp, p.extraData, p.baseFeePerGas, p.blockHash,
                           TransactionsRoot(hash, p.transactions), WithdrawalsRoot(hash, p.withdrawals), p.blobGasUsed,
                           p.excessBlobGas)
  }

  /** The header built from a payload has the payload's root. */
  lemma HeaderKeepsRoot(hash: Hash2, payload: ExecutionPayload)
    ensures HeaderRoot(hash, HeaderOf(hash, payload)) == PayloadRoot(hash, payload)
  {
    assert HeaderLeaves(hash, HeaderOf(hash, payload)) == PayloadLeaves(hash, payload);
  }

  // ----- Blocks

  function CommitmentRoots(hash: Hash2, commitments: seq<KzgCommitment>): seq<B256> {
    if commitments == [] then []
    else [VectorRoot(hash, commitments[0].bytes, 2)] + CommitmentRoots(hash, commitments[1..])
  }

  /** The field roots of a block body; the tenth is that of the payload, or of the header standing for it. */
  function BodyLeaves(ssz: Ssz, f: BodyFields, payloadRoot: B256): seq<B256> {
    [ssz.fieldRoot(RandaoReveal, f.randaoReveal), ssz.fieldRoot(Eth1Data, f.eth1Data), f.graffiti,
     ssz.fieldRoot(ProposerSlashings, f.proposerSlashings), ssz.fieldRoot(AttesterSlashings, f.attesterSlashings),
     ssz.fieldRoot(Attestations, f.attestations), ssz.fieldRoot(Deposits, f.deposits),
     ssz.fieldRoot(VoluntaryExits, f.voluntaryExits), ssz.fieldRoot(SyncAggregate, f.syncAggregate), payloadRoot,
     ssz.fieldRoot(BlsToExecutionChanges, f.blsToExecutionChanges),
     RootListRoot(ssz.hash, CommitmentRoots(ssz.hash, f.blobKzgCommitments), MAX_BLOB_COMMITMENTS)]
  }

  function BlindedBodyRoot(ssz: Ssz, body: BlindedBlockBody): B256 {
    ContainerRoot(ssz.hash, BodyLeaves(ssz, body.fields, HeaderRoot(ssz.hash, body.executionPayloadHeader)))
  }

  function BodyRoot(ssz: Ssz, body: BeaconBlockBody): B256 {
    ContainerRoot(ssz.hash, BodyLeaves(ssz, body.fields, PayloadRoot(ssz.hash, body.executionPayload)))
  }

  function BlockLeaves(slot: u64, proposerIndex: u64, parentRoot: B256, stateRoot: B256, bodyRoot: B256): seq<B256> {
    [NumberRoot(slot), NumberRoot(proposerIndex), parentRoot, stateRoot, bodyRoot]
  }

  function BlindedBlockRoot(ssz: Ssz, b: BlindedBlock): B256 {
    ContainerRoot(ssz.hash,
                  BlockLeaves(b.slot, b.proposerIndex, b.parentRoot, b.stateRoot, BlindedBodyRoot(ssz, b.body)))
  }

  function BlockRoot(ssz: Ssz, b: BeaconBlock): B256 {
    ContainerRoot(ssz.hash, BlockLeaves(b.slot, b.proposerIndex, b.parentRoot, b.stateRoot, BodyRoot(ssz, b.body)))
  }

  // ----- Signed messages

  /** `signing_root`: the root of the two-field container of an object's root and the domain. */
  function SigningRoot(hash: Hash2, objectRoot: B256, domain: B256): B256 {
    ContainerRoot(hash, [objectRoot, domain])
  }

  function BidLeaves(hash: Hash2, b: BidTrace): seq<B256> {
    [NumberRoot(b.slot), b.parentHash, b.blockHash, VectorRoot(hash, b.builderPubkey.bytes, 2),
     VectorRoot(hash, b.proposerPubkey.bytes, 2), AddressRoot(b.proposerFeeRecipient), NumberRoot(b.gasLimit),
     NumberRoot(b.gasUsed), NumberRoot(b.value)]
  }

  function BidRoot(hash: Hash2, b: BidTrace): B256 {
    ContainerRoot(hash, BidLeaves(hash, b))
  }

  function RegistrationLeaves(hash: Hash2, r: ValidatorRegistrationMessage): seq<B256> {
    [AddressRoot(r.feeRecipient), NumberRoot(r.gasLimit), NumberRoot(r.timestamp),
     VectorRoot(hash, r.pubkey.bytes, 2)]
  }

  function RegistrationRoot(hash: Hash2, r: ValidatorRegistrationMessage): B256 {
    ContainerRoot(hash, RegistrationLeaves(hash, r))
  }

  /** The cryptography of the handlers, with these roots. */
  function SszCrypto(ssz: Ssz, verify: (PublicKey, B256, Signature) -> bool): Crypto {
    Crypto(verify,
           (root, domain) => SigningRoot(ssz.hash, root, domain),
           bid => BidRoot(ssz.hash, bid),
           registration => RegistrationRoot(ssz.hash, registration),
           block => BlindedBlockRoot(ssz, block),
           payload => HeaderOf(ssz.hash, payload))
  }
}
