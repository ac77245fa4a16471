/**
The in-memory storage of the relay.  `Store` is its value, `Call` one use of the `Storage` trait that takes the lock
once (or bumps one counter), and `Exec` what that use does.  `InMemoryStorage` is the object the handlers share.
 */
module Storage {
  import opened Options
  import opened Types

  datatype SlotHashKey = SlotHashKey(slot: u64, hash: B256, validator: PublicKey)

  datatype Metrics = Metrics(relayedBlocks: nat, nonRelayedBlocks: nat, blindedBlocks: nat)

  datatype Store = Store(
    slot: u64,
    payloadAttributes: PayloadAttributes,
    proposerDuties: seq<Validator>,
    validatorRegistrations: map<PublicKey, ValidatorRegistration>,
    wlistBuilders: seq<PublicKey>,
    bestBidPerSlot: map<SlotHashKey, BidSubmission>,
    bestBidBySlot: map<u64, BidSubmission>,
    bestBidByBlockNumber: map<u64, BidSubmission>,
    forkData: ForkDatas,
    blindedBlockResp: map<PublicKey, BlindedBlockResponse>,
    deliveredBlocks: seq<B256>,
    metrics: Metrics)

  function Lookup<K(==), V>(m: map<K, V>, k: K): Option<V> {
    if k in m then Some(m[k]) else None
  }

  /** The key a bid is stored and looked up under. */
  function KeyOf(bid: BidTrace): SlotHashKey {
    SlotHashKey(bid.slot, bid.parentHash, bid.proposerPubkey)
  }

  /** The first duty listed for a slot. */
  function FindDuty(duties: seq<Validator>, slot: u64): (found: Option<Validator>)
    ensures found.Some? ==> found.value in duties && found.value.slot == slot
    ensures found.None? <==> forall duty :: duty in duties ==> duty.slot != slot
  {
    if duties == [] then None
    else if duties[0].slot == slot then Some(duties[0])
    else FindDuty(duties[1..], slot)
  }

  ghost predicate FirstFor(duties: seq<Validator>, slot: u64, i: int) {
    && 0 <= i < |duties|
    && duties[i].slot == slot
    && forall j :: 0 <= j < i ==> duties[j].slot != slot
  }

  /** A lookup finds the first duty for the slot, in list order. */
  lemma {:induction false} FirstDutyIsFound(duties: seq<Validator>, slot: u64)
    ensures FindDuty(duties, slot).Some?
            ==> exists i :: FirstFor(duties, slot, i) && duties[i] == FindDuty(duties, slot).value
  {
    if duties != [] && duties[0].slot != slot {
      FirstDutyIsFound(duties[1..], slot);
      if FindDuty(duties, slot).Some? {
        var i :| FirstFor(duties[1..], slot, i) && duties[1..][i] == FindDuty(duties, slot).value;
        assert forall j :: 0 < j <= i + 1 ==> duties[j] == duties[1..][j - 1];
        assert FirstFor(duties, slot, i + 1);
      }
    } else if duties != [] {
      assert FirstFor(duties, slot, 0);
    }
  }

  datatype Call =
    | ReadBestBid(slot: u64, parentHash: B256, validator: PublicKey)
    | ReadBestBidBySlot(slot: u64)
    | ReadBestBidByBlockNumber(blockNumber: u64)
    | IsWhitelistedBuilder(key: PublicKey)
    | ReadHeadSlot
    | ReadPayloadAttributes
    | FindDutyBySlot(slot: u64)
    | ReadForkData
    | SetBestBid(slot: u64, bid: BidSubmission)
    | SetBlindedBlockResponse(proposer: PublicKey, response: BlindedBlockResponse)
    | ReadBlindedBlockResponse(proposer: PublicKey)
    | ReadValidatorRegistration(key: PublicKey)
    | EmptyValidatorRegs
    | SetValidatorRegistrations(registrations: map<PublicKey, ValidatorRegistration>)
    | SetProposerDuties(duties: seq<Validator>)
    | SetHeadSlot(slot: u64)
    | IsDelivered(hash: B256)
    | CountMinedBlock(relayed: bool)
    | WritePayloadAttributes(attributes: PayloadAttributes)
    | CountBlindedBlock
    | PushDeliveredBlock(hash: B256)

  datatype Reply =
    | BidReply(bid: Option<BidSubmission>)
    | BoolReply(answer: bool)
    | SlotReply(slot: u64)
    | AttributesReply(attributes: PayloadAttributes)
    | DutyReply(duty: Option<Validator>)
    | ForkReply(forkData: ForkDatas)
    | ResponseReply(response: Option<BlindedBlockResponse>)
    | RegistrationReply(registration: Option<ValidatorRegistration>)
    | Ack

  /** What a call answers in a store. */
  function Answer(store: Store, call: Call): Reply {
    match call
    case ReadBestBid(slot, hash, validator) =>
      BidReply(Lookup(store.bestBidPerSlot, SlotHashKey(slot, hash, validator)))
    case ReadBestBidBySlot(slot) => BidReply(Lookup(store.bestBidBySlot, slot))
    case ReadBestBidByBlockNumber(number) => BidReply(Lookup(store.bestBidByBlockNumber, number))
    case IsWhitelistedBuilder(key) => BoolReply(key in store.wlistBuilders)
    case ReadHeadSlot => SlotReply(store.slot)
    case ReadPayloadAttributes => AttributesReply(store.payloadAttributes)
    case FindDutyBySlot(slot) => DutyReply(FindDuty(store.proposerDuties, slot))
    case ReadForkData => ForkReply(store.forkData)
    case ReadBlindedBlockResponse(proposer) => ResponseReply(Lookup(store.blindedBlockResp, proposer))
    case ReadValidatorRegistration(key) => RegistrationReply(Lookup(store.validatorRegistrations, key))
    case EmptyValidatorRegs => BoolReply(store.validatorRegistrations == map[])
    case IsDelivered(hash) => BoolReply(hash in store.deliveredBlocks)
    case _ => Ack
  }

  /** The store a call leaves behind. */
  function Exec(store: Store, call: Call): Store {
    match call
    case SetBestBid(slot, bid) =>
      store.(bestBidPerSlot :=
               store.bestBidPerSlot[SlotHashKey(slot, bid.message.parentHash, bid.message.proposerPubkey) := bid],
             bestBidByBlockNumber := store.bestBidByBlockNumber[bid.executionPayload.blockNumber := bid])
    case SetBlindedBlockResponse(proposer, response) =>
      store.(blindedBlockResp := store.blindedBlockResp[proposer := response])
    case SetValidatorRegistrations(registrations) => store.(validatorRegistrations := registrations)
    case SetProposerDuties(duties) => store.(proposerDuties := duties)
    case SetHeadSlot(slot) => store.(slot := slot)
    case CountMinedBlock(relayed) =>
      if relayed then store.(metrics := store.metrics.(relayedBlocks := store.metrics.relayedBlocks + 1))
      else store.(metrics := store.metrics.(nonRelayedBlocks := store.metrics.nonRelayedBlocks + 1))
    case WritePayloadAttributes(attributes) => store.(payloadAttributes := attributes)
    case CountBlindedBlock => store.(metrics := store.metrics.(blindedBlocks := store.metrics.blindedBlocks + 1))
    case PushDeliveredBlock(hash) => store.(deliveredBlocks := store.deliveredBlocks + [hash])
    case _ => store
  }

  /** A store as it is created at start-up: no bid, payload or delivery yet. */
  predicate Fresh(store: Store) {
    && store.bestBidPerSlot == map[]
    && store.bestBidBySlot == map[]
    && store.bestBidByBlockNumber == map[]
    && store.blindedBlockResp == map[]
    && store.deliveredBlocks == []
    && store.metrics == Metrics(0, 0, 0)
  }

  /** The shared storage object. */
  class InMemoryStorage {
    var slot: u64
    var payloadAttributes: PayloadAttributes
    var proposerDuties: seq<Validator>
    var validatorRegistrations: map<PublicKey, ValidatorRegistration>
    const wlistBuilders: seq<PublicKey>
    var bestBidPerSlot: map<SlotHashKey, BidSubmission>
    var bestBidBySlot: map<u64, BidSubmission>
    var bestBidByBlockNumber: map<u64, BidSubmission>
    const forkData: ForkDatas
    var blindedBlockResp: map<PublicKey, BlindedBlockResponse>
    var deliveredBlocks: seq<B256>
    var metrics: Metrics

    ghost function View(): Store
      reads this
    {
      Store(slot, payloadAttributes, proposerDuties, validatorRegistrations, wlistBuilders, bestBidPerSlot,
            bestBidBySlot, bestBidByBlockNumber, forkData, blindedBlockResp, deliveredBlocks, metrics)
    }

    constructor (slot: u64, payloadAttributes: PayloadAttributes, wlistBuilders: seq<PublicKey>, forkData: ForkDatas,
                 validatorRegistrations: map<PublicKey, ValidatorRegistration>, proposerDuties: seq<Validator>)
      ensures Fresh(View())
      ensures View().slot == slot && View().payloadAttributes == payloadAttributes
      ensures View().wlistBuilders == wlistBuilders && View().forkData == forkData
      ensures View().validatorRegistrations == validatorRegistrations && View().proposerDuties == proposerDuties
    {
      this.slot := slot;
      this.payloadAttributes := payloadAttributes;
      this.proposerDuties := proposerDuties;
      this.validatorRegistrations := validatorRegistrations;
      this.wlistBuilders := wlistBuilders;
      this.bestBidPerSlot := map[];
      this.bestBidBySlot := map[];
      this.bestBidByBlockNumber := map[];
      this.forkData := forkData;
      this.blindedBlockResp := map[];
      this.deliveredBlocks := [];
      this.metrics := Metrics(0, 0, 0);
    }

    /** Inserts a bid under its key and under its block number; the by-slot index is not written. */
    method SetBestBid(slot: u64, bid: BidSubmission)
      modifies this
      ensures View() == Exec(old(View()), Call.SetBestBid(slot, bid))
    {
      var trace := bid.message;
      bestBidPerSlot := bestBidPerSlot[SlotHashKey(slot, trace.parentHash, trace.proposerPubkey) := bid];
      bestBidByBlockNumber := bestBidByBlockNumber[bid.executionPayload.blockNumber := bid];
    }

    method ReadBestBid(slot: u64, parentHash: B256, validator: PublicKey) returns (bid: Option<BidSubmission>)
      ensures BidReply(bid) == Answer(View(), Call.ReadBestBid(slot, parentHash, validator))
    {
      bid := Lookup(bestBidPerSlot, SlotHashKey(slot, parentHash, validator));
    }

    method SetBlindedBlockResponse(proposer: PublicKey, response: BlindedBlockResponse)
      modifies this
      ensures View() == Exec(old(View()), Call.SetBlindedBlockResponse(proposer, response))
    {
      blindedBlockResp := blindedBlockResp[proposer := response];
    }

    /** The linear search of the duty list. */
    method FindDutyBySlot(slot: u64) returns (duty: Option<Validator>)
      ensures DutyReply(duty) == Answer(View(), Call.FindDutyBySlot(slot))
    {
      var i := 0;
      while i < |proposerDuties|
        invariant 0 <= i <= |proposerDuties|
        invariant FindDuty(proposerDuties, slot) == FindDuty(proposerDuties[i..], slot)
      {
        if proposerDuties[i].slot == slot {
          return Some(proposerDuties[i]);
        }
        i := i + 1;
      }
      duty := None;
    }

    method SetValidatorRegistrations(registrations: map<PublicKey, ValidatorRegistration>)
      modifies this
      ensures View() == Exec(old(View()), Call.SetValidatorRegistrations(registrations))
    {
      validatorRegistrations := registrations;
    }

    method SetProposerDuties(duties: seq<Validator>)
      modifies this
      ensures View() == Exec(old(View()), Call.SetProposerDuties(duties))
    {
      proposerDuties := duties;
    }

    method SetHeadSlot(slot: u64)
      modifies this
      ensures View() == Exec(old(View()), Call.SetHeadSlot(slot))
    {
      this.slot := slot;
    }

    /** Counts the mined parent block as relayed or not, then stores the attributes. */
    method SetPayloadAttributes(attributes: PayloadAttributes)
      modifies this
      ensures View() == Exec(Exec(old(View()), CountMinedBlock(attributes.parentHash in old(deliveredBlocks))),
                             WritePayloadAttributes(attributes))
    {
      RecordRelayedBlock(attributes.parentHash);
      payloadAttributes := attributes;
    }

    method RecordRelayedBlock(blockHash: B256)
      modifies this`metrics
      ensures View() == Exec(old(View()), CountMinedBlock(blockHash in old(deliveredBlocks)))
    {
      if blockHash in deliveredBlocks {
        metrics := metrics.(relayedBlocks := metrics.relayedBlocks + 1);
      } else {
        metrics := metrics.(nonRelayedBlocks := metrics.nonRelayedBlocks + 1);
      }
    }

    /** Counts a delivery, then records it. */
    method SetDeliveredBlocks(blockHash: B256)
      modifies this
      ensures View() == Exec(Exec(old(View()), CountBlindedBlock), PushDeliveredBlock(blockHash))
    {
      metrics := metrics.(blindedBlocks := metrics.blindedBlocks + 1);
      deliveredBlocks := deliveredBlocks + [blockHash];
    }
  }
}
