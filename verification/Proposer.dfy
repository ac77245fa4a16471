/** The proposer's two requests: fetching a header, and handing in a signed blinded block to be unblinded. */
module Proposer {
  import opened Options
  import opened Types
  import opened Storage

  // ----- get_header

  datatype HeaderPc = HeaderAtRegistration | HeaderAtHead | HeaderAtBid | HeaderReturned(served: Option<Header>)

  datatype HeaderHandler = HeaderHandler(slot: u64, parentHash: B256, pubkey: PublicKey, pc: HeaderPc)

  /** The header of a bid; a bundle with more commitments than the list admits has none. */
  function SignedHeaderOf(crypto: Crypto, bid: BidSubmission): Option<Header> {
    if |bid.blobsBundle.commitments| > MAX_BLOB_COMMITMENTS then None
    else Some(Header(crypto.headerOf(bid.executionPayload), bid.blobsBundle.commitments, bid.message.value))
  }

  function HeaderCall(handler: HeaderHandler): Option<Call> {
    match handler.pc
    case HeaderAtRegistration => Some(ReadValidatorRegistration(handler.pubkey))
    case HeaderAtHead => Some(ReadHeadSlot)
    case HeaderAtBid => Some(ReadBestBid(handler.slot, handler.parentHash, handler.pubkey))
    case HeaderReturned(_) => None
  }

  function HeaderResume(crypto: Crypto, handler: HeaderHandler, reply: Reply): HeaderHandler {
    match (handler.pc, reply)
    case (HeaderAtRegistration, RegistrationReply(registration)) =>
      handler.(pc := if registration.None? then HeaderReturned(None) else HeaderAtHead)
    case (HeaderAtHead, SlotReply(head)) =>
      handler.(pc := if IsNextSlot(head, handler.slot) then HeaderAtBid else HeaderReturned(None))
    case (HeaderAtBid, BidReply(bid)) =>
      handler.(pc := HeaderReturned(if bid.None? then None else SignedHeaderOf(crypto, bid.value)))
    case _ => handler
  }

  /** `get_header` without interruption. */
  function GetHeader(crypto: Crypto, store: Store, slot: u64, parentHash: B256, pubkey: PublicKey): Option<Header> {
    var bid := Lookup(store.bestBidPerSlot, SlotHashKey(slot, parentHash, pubkey));
    if pubkey in store.validatorRegistrations && IsNextSlot(store.slot, slot) && bid.Some?
    then SignedHeaderOf(crypto, bid.value)
    else None
  }

  method GetHeaderHandler(crypto: Crypto, storage: InMemoryStorage, slot: u64, parentHash: B256, pubkey: PublicKey)
    returns (served: Option<Header>)
    ensures served == GetHeader(crypto, storage.View(), slot, parentHash, pubkey)
  {
    if pubkey !in storage.validatorRegistrations {
      return None;
    }
    if !IsNextSlot(storage.slot, slot) {
      return None;
    }
    var bid := storage.ReadBestBid(slot, parentHash, pubkey);
    if bid.None? {
      return None;
    }
    served := SignedHeaderOf(crypto, bid.value);
  }

  // ----- Building the full block

  function NewBeaconBlockBody(payload: ExecutionPayload, body: BlindedBlockBody): BeaconBlockBody {
    BeaconBlockBody(body.fields, payload)
  }

  function NewBeaconBlock(payload: ExecutionPayload, block: BlindedBlock): BeaconBlock {
    BeaconBlock(block.slot, block.proposerIndex, block.parentRoot, block.stateRoot,
                NewBeaconBlockBody(payload, block.body))
  }

  function NewBlockContent(payload: ExecutionPayload, block: BlindedBlock, signature: Signature, blobs: BlobsBundle)
    : SignedBeaconBlockContent
  {
    SignedBeaconBlockContent(SignedBeaconBlock(NewBeaconBlock(payload, block), signature), blobs.proofs, blobs.blobs)
  }

  // ----- blinded_blocks

  datatype UnblindError =
    | NoDutyFound
    | IndexMismatch(expected: u64, actual: u64)
    | Unauthorized
    | InvalidSignature
    | NoPayload

  /** What a successful unblinding returns, together with the block it hands over for publishing. */
  datatype Unblinded = Unblinded(response: BlindedBlockResponse, published: SignedBeaconBlockContent)

  datatype UnblindPc =
    | UnblindAtDuty
    | UnblindAtForkData(key: PublicKey)
    | UnblindAtRegistration(key: PublicKey, domain: B256)
    | UnblindAtPayload(key: PublicKey)
    | UnblindAtCount(result: Unblinded)
    | UnblindAtPush(result: Unblinded)
    | UnblindReturned(result: Unblinded)
    | UnblindFailed(error: UnblindError)

  datatype UnblindHandler = UnblindHandler(block: SignedBlindedBlock, pc: UnblindPc)

  function UnblindedBy(response: BlindedBlockResponse, block: SignedBlindedBlock): Unblinded {
    Unblinded(response,
              NewBlockContent(response.executionPayload, block.message, block.signature, response.blobsBundle))
  }

  function BlockHash(content: SignedBeaconBlockContent): B256 {
    content.signedBlock.message.body.executionPayload.blockHash
  }

  function UnblindCall(handler: UnblindHandler): Option<Call> {
    match handler.pc
    case UnblindAtDuty => Some(FindDutyBySlot(handler.block.message.slot))
    case UnblindAtForkData(_) => Some(ReadForkData)
    case UnblindAtRegistration(key, _) => Some(ReadValidatorRegistration(key))
    case UnblindAtPayload(key) => Some(ReadBlindedBlockResponse(key))
    case UnblindAtCount(_) => Some(CountBlindedBlock)
    case UnblindAtPush(result) => Some(PushDeliveredBlock(BlockHash(result.published)))
    case _ => None
  }

  function UnblindResume(crypto: Crypto, handler: UnblindHandler, reply: Reply): UnblindHandler {
    var block := handler.block;
    match (handler.pc, reply)
    case (UnblindAtDuty, DutyReply(duty)) =>
      handler.(pc :=
                 if duty.None? then UnblindFailed(NoDutyFound)
                 else if duty.value.validatorIndex != block.message.proposerIndex
                 then UnblindFailed(IndexMismatch(duty.value.validatorIndex, block.message.proposerIndex))
                 else UnblindAtForkData(duty.value.entry.message.pubkey))
    case (UnblindAtForkData(key), ForkReply(forkData)) =>
      handler.(pc := UnblindAtRegistration(key, forkData.proposerDomain))
    case (UnblindAtRegistration(key, domain), RegistrationReply(registration)) =>
      handler.(pc :=
                 if registration.None? then UnblindFailed(Unauthorized)
                 else if !crypto.VerifyBlindedBlock(key, block, domain) then UnblindFailed(InvalidSignature)
                 else UnblindAtPayload(key))
    case (UnblindAtPayload(_), ResponseReply(response)) =>
      handler.(pc := if response.None? then UnblindFailed(NoPayload)
                     else UnblindAtCount(UnblindedBy(response.value, block)))
    case (UnblindAtCount(result), Ack) => handler.(pc := UnblindAtPush(result))
    case (UnblindAtPush(result), Ack) => handler.(pc := UnblindReturned(result))
    case _ => handler
  }

  datatype UnblindResult = Delivered(result: Unblinded) | Refused(error: UnblindError)

  /** The unblinding request without interruption: its checks in order, then the payload stored for the duty's key. */
  function Unblind(crypto: Crypto, store: Store, block: SignedBlindedBlock): UnblindResult {
    var duty := FindDuty(store.proposerDuties, block.message.slot);
    if duty.None? then Refused(NoDutyFound)
    else if duty.value.validatorIndex != block.message.proposerIndex
    then Refused(IndexMismatch(duty.value.validatorIndex, block.message.proposerIndex))
    else
      var key := duty.value.entry.message.pubkey;
      if key !in store.validatorRegistrations then Refused(Unauthorized)
      else if !crypto.VerifyBlindedBlock(key, block, store.forkData.proposerDomain) then Refused(InvalidSignature)
      else if key !in store.blindedBlockResp then Refused(NoPayload)
      else Delivered(UnblindedBy(store.blindedBlockResp[key], block))
  }

  /** Delivering counts and records the hash of the payload that is returned and published. */
  method UnblindRequest(crypto: Crypto, storage: InMemoryStorage, block: SignedBlindedBlock)
    returns (outcome: UnblindResult)
    modifies storage
    ensures outcome == Unblind(crypto, old(storage.View()), block)
    ensures storage.View() == if outcome.Delivered?
                              then var hash := outcome.result.response.executionPayload.blockHash;
                                   Exec(Exec(old(storage.View()), CountBlindedBlock), PushDeliveredBlock(hash))
                              else old(storage.View())
  {
    var duty := storage.FindDutyBySlot(block.message.slot);
    if duty.None? {
      return Refused(NoDutyFound);
    }
    if duty.value.validatorIndex != block.message.proposerIndex {
      return Refused(IndexMismatch(duty.value.validatorIndex, block.message.proposerIndex));
    }
    var key := duty.value.entry.message.pubkey;
    if key !in storage.validatorRegistrations {
      return Refused(Unauthorized);
    }
    if !crypto.VerifyBlindedBlock(key, block, storage.forkData.proposerDomain) {
      return Refused(InvalidSignature);
    }
    if key !in storage.blindedBlockResp {
      return Refused(NoPayload);
    }
    var result := UnblindedBy(storage.blindedBlockResp[key], block);
    storage.SetDeliveredBlocks(BlockHash(result.published));
    outcome := Delivered(result);
  }
}
