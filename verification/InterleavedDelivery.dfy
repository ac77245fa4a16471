/**
Unblinding among interleaved handlers: what a delivered payload is and where it came from, and what the delivery and
mined-block counters count.
 */
module InterleavedDelivery {
  import opened Options
  import opened Types
  import opened Storage
  import opened Proposer
  import opened System
  import opened SubmissionHistory
  import opened InterleavedAuction

  // ----- The history of an unblinding request

  predicate IndexPassed(block: SignedBlindedBlock, e: Exchange, key: PublicKey) {
    && e.call == FindDutyBySlot(block.message.slot)
    && DutyKeyIs(e, key)
    && e.reply.duty.value.validatorIndex == block.message.proposerIndex
  }

  predicate RegisteredPassed(e: Exchange, key: PublicKey) {
    e.call == ReadValidatorRegistration(key) && e.reply.RegistrationReply? && e.reply.registration.Some?
  }

  /** The block's signature verifies, under the key, over the block's root in a proposer domain. */
  predicate BlockSigned(crypto: Crypto, block: SignedBlindedBlock, domain: B256, key: PublicKey) {
    crypto.verify(key, crypto.signingRoot(crypto.blockRoot(block.message), domain), block.signature)
  }

  predicate BlockSignaturePassed(crypto: Crypto, block: SignedBlindedBlock, e: Exchange, key: PublicKey) {
    && e.call == ReadForkData && e.reply.ForkReply?
    && BlockSigned(crypto, block, e.reply.forkData.proposerDomain, key)
  }

  /** The four exchanges before the payload is handed out, for the key of the duty found. */
  predicate PayloadRead(crypto: Crypto, block: SignedBlindedBlock, history: seq<Exchange>, key: PublicKey,
                        result: Unblinded) {
    && |history| >= 4
    && IndexPassed(block, history[0], key)
    && BlockSignaturePassed(crypto, block, history[1], key)
    && RegisteredPassed(history[2], key)
    && history[3] == Exchange(ReadBlindedBlockResponse(key), ResponseReply(Some(result.response)))
    && result == UnblindedBy(result.response, block)
  }

  /** The key whose payload was read. */
  function KeyRead(history: seq<Exchange>): PublicKey
    requires |history| >= 4 && history[3].call.ReadBlindedBlockResponse?
  {
    history[3].call.proposer
  }

  predicate DeliveryRead(crypto: Crypto, block: SignedBlindedBlock, history: seq<Exchange>, result: Unblinded) {
    && |history| >= 4 && history[3].call.ReadBlindedBlockResponse?
    && PayloadRead(crypto, block, history, KeyRead(history), result)
  }

  predicate UnblindExplained(crypto: Crypto, block: SignedBlindedBlock, pc: UnblindPc, history: seq<Exchange>) {
    match pc
    case UnblindAtDuty => |history| == 0
    case UnblindAtForkData(key) => |history| == 1 && IndexPassed(block, history[0], key)
    case UnblindAtRegistration(key, domain) =>
      && |history| == 2 && IndexPassed(block, history[0], key)
      && history[1].call == ReadForkData && history[1].reply.ForkReply?
         && history[1].reply.forkData.proposerDomain == domain
    case UnblindAtPayload(key) =>
      && |history| == 3 && IndexPassed(block, history[0], key)
      && BlockSignaturePassed(crypto, block, history[1], key) && RegisteredPassed(history[2], key)
    case UnblindAtCount(result) => |history| == 4 && DeliveryRead(crypto, block, history, result)
    case UnblindAtPush(result) => |history| == 5 && DeliveryRead(crypto, block, history, result)
    case UnblindReturned(result) =>
      && |history| == 6 && DeliveryRead(crypto, block, history, result)
      && history[5].call == PushDeliveredBlock(BlockHash(result.published))
    case UnblindFailed(_) => true
  }

  lemma UnblindStep(crypto: Crypto, handler: UnblindHandler, history: seq<Exchange>)
    requires history != []
    requires UnblindExplained(crypto, handler.block, handler.pc, history[..|history| - 1])
    requires var last := history[|history| - 1]; UnblindCall(handler) == Some(last.call) && Fits(last.call, last.reply)
    ensures UnblindExplained(crypto, handler.block, UnblindResume(crypto, handler, history[|history| - 1].reply).pc,
                             history)
  {
    var front := history[..|history| - 1];
    assert forall k :: 0 <= k < |front| ==> front[k] == history[k];
  }

  lemma {:induction false} UnblindHistory(crypto: Crypto, start: Process, history: seq<Exchange>)
    requires start.UnblindBlock? && start.unblind.pc == UnblindAtDuty
    requires Follows(crypto, start, history)
    ensures var process := After(crypto, start, history);
            && process.UnblindBlock? && process.unblind.block == start.unblind.block
            && UnblindExplained(crypto, start.unblind.block, process.unblind.pc, history)
  {
    if history != [] {
      UnblindHistory(crypto, start, history[..|history| - 1]);
      UnblindStep(crypto, After(crypto, start, history[..|history| - 1]).unblind, history);
    }
  }

  // ----- What a successful unblinding delivers

  /** Entry `j` commits a submission's bid, and entry `i` of the same process its payload, under the key. */
  ghost predicate AcceptedPayload(init: Store, log: seq<Entry>, i: int, j: int, key: PublicKey,
                                  response: BlindedBlockResponse) {
    && 0 <= j < i < |log|
    && log[i].tid == log[j].tid
    && log[i].call == SetBlindedBlockResponse(key, response)
    && log[j].call.SetBestBid?
    && log[j].call.bid.ToBlindedBlockResponse() == response
    && WasChecked(init, log, j)
  }

  /** Every payload in the map was written by an accepted submission. */
  lemma PayloadsAreAccepted(crypto: Crypto, init: Store, starts: map<nat, Process>, log: seq<Entry>, key: PublicKey)
    requires Fresh(init) && IsRun(crypto, init, starts, log)
    requires key in StoreAfter(init, log).blindedBlockResp
    ensures exists i, j :: AcceptedPayload(init, log, i, j, key, StoreAfter(init, log).blindedBlockResp[key])
  {
    PayloadMapIsFold(init, log, key);
    var i := LastPayload(log, key).value;
    assert EntryFits(crypto, init, starts, log, i);
    var tid := log[i].tid;
    var history := Own(log[..i], tid);
    RunPrefix(crypto, init, starts, log, i);
    OwnFollows(crypto, init, starts, log[..i], tid);
    PayloadFollowsBid(crypto, init, starts[tid], history, key, log[i].call.response);
    var j := EarlierExchange(crypto, init, starts, log, tid, i, |history| - 1);
    CommitsAreChecked(crypto, init, starts, log, j);
    assert AcceptedPayload(init, log, i, j, key, log[i].call.response);
  }

  /** The duty found when process `tid` asked for one is of the block's proposer index, and its key is `key`. */
  ghost predicate DutyAt(init: Store, log: seq<Entry>, d: int, block: SignedBlindedBlock, key: PublicKey)
    requires 0 <= d < |log|
  {
    var duty := FindDuty(StoreAfter(init, log[..d]).proposerDuties, block.message.slot);
    && log[d].call == FindDutyBySlot(block.message.slot)
    && duty.Some?
    && duty.value.validatorIndex == block.message.proposerIndex
    && duty.value.entry.message.pubkey == key
  }

  ghost predicate RegisteredAt(init: Store, log: seq<Entry>, r: int, key: PublicKey)
    requires 0 <= r < |log|
  {
    key in StoreAfter(init, log[..r]).validatorRegistrations
  }

  /**
  The delivery of process `tid`, in four entries: `d` finds the duty, of the block's proposer index, whose key signed
  the block; `r` finds that key registered; `p` reads for it the payload of a submission accepted before; and `q`
  records the delivery.
   */
  ghost predicate DeliveredFrom(crypto: Crypto, init: Store, log: seq<Entry>, tid: nat, block: SignedBlindedBlock,
                                result: Unblinded, d: int, r: int, p: int, q: int) {
    && 0 <= d < r < p < q < |log|
    && log[d].tid == log[r].tid == log[p].tid == log[q].tid == tid
    && log[p].call.ReadBlindedBlockResponse?
    && var key := log[p].call.proposer;
    && DutyAt(init, log, d, block, key)
    && RegisteredAt(init, log, r, key)
    && BlockSigned(crypto, block, init.forkData.proposerDomain, key)
    && (exists i, j :: AcceptedPayload(init, log[..p], i, j, key, result.response))
    && log[q].call == PushDeliveredBlock(result.response.executionPayload.blockHash)
  }

  /** The entries at which a finished request found its duty and its key, read the payload and recorded the delivery. */
  lemma DeliveryEntries(crypto: Crypto, init: Store, starts: map<nat, Process>, log: seq<Entry>, tid: nat,
                        result: Unblinded)
    returns (d: nat, r: nat, p: nat, q: nat)
    requires IsRun(crypto, init, starts, log)
    requires tid in starts && starts[tid].UnblindBlock?
    requires After(crypto, starts[tid], Own(log, tid))
             == UnblindBlock(UnblindHandler(starts[tid].unblind.block, UnblindReturned(result)))
    ensures d < r < p < q < |log| && log[d].tid == log[r].tid == log[p].tid == log[q].tid == tid
    ensures log[p].call.ReadBlindedBlockResponse?
    ensures DutyAt(init, log, d, starts[tid].unblind.block, log[p].call.proposer)
    ensures RegisteredAt(init, log, r, log[p].call.proposer)
    ensures Answer(StoreAfter(init, log[..p]), log[p].call) == ResponseReply(Some(result.response))
    ensures result == UnblindedBy(result.response, starts[tid].unblind.block)
    ensures BlockSigned(crypto, starts[tid].unblind.block, init.forkData.proposerDomain, log[p].call.proposer)
    ensures log[q].call == PushDeliveredBlock(BlockHash(result.published))
  {
    FinishedHistory(crypto, init, starts, log, tid, result);
    var f;
    d, f, r, p, q := ExchangeEntries(crypto, init, starts, log, tid);
    BlockIsVerified(crypto, init, log, tid, starts[tid].unblind.block, f, KeyRead(Own(log, tid)));
    CheckedEntries(init, log, tid, starts[tid].unblind.block, d, r, KeyRead(Own(log, tid)));
  }

  lemma CheckedEntries(init: Store, log: seq<Entry>, tid: nat, block: SignedBlindedBlock, d: nat, r: nat,
                       key: PublicKey)
    requires |Own(log, tid)| > 2 && d < |log| && r < |log|
    requires IsExchange(init, log, tid, d, Own(log, tid)[0]) && IsExchange(init, log, tid, r, Own(log, tid)[2])
    requires IndexPassed(block, Own(log, tid)[0], key) && RegisteredPassed(Own(log, tid)[2], key)
    ensures DutyAt(init, log, d, block, key) && RegisteredAt(init, log, r, key)
  {
  }

  /** The fork data a block's signature was checked against is that of the start. */
  lemma BlockIsVerified(crypto: Crypto, init: Store, log: seq<Entry>, tid: nat, block: SignedBlindedBlock, f: nat,
                        key: PublicKey)
    requires |Own(log, tid)| > 1 && f < |log| && IsExchange(init, log, tid, f, Own(log, tid)[1])
    requires BlockSignaturePassed(crypto, block, Own(log, tid)[1], key)
    ensures BlockSigned(crypto, block, init.forkData.proposerDomain, key)
  {
    ForkDataIsConstant(init, log[..f]);
  }

  /** The six exchanges of a request that has returned a result. */
  lemma FinishedHistory(crypto: Crypto, init: Store, starts: map<nat, Process>, log: seq<Entry>, tid: nat,
                        result: Unblinded)
    requires IsRun(crypto, init, starts, log)
    requires tid in starts && starts[tid].UnblindBlock?
    requires var block := starts[tid].unblind.block;
             After(crypto, starts[tid], Own(log, tid)) == UnblindBlock(UnblindHandler(block, UnblindReturned(result)))
    ensures UnblindExplained(crypto, starts[tid].unblind.block, UnblindReturned(result), Own(log, tid))
  {
    OwnFollows(crypto, init, starts, log, tid);
    UnblindHistory(crypto, starts[tid], Own(log, tid));
  }

  /** The entries of the exchanges of a process that has had six, but for the fifth. */
  lemma ExchangeEntries(crypto: Crypto, init: Store, starts: map<nat, Process>, log: seq<Entry>, tid: nat)
    returns (d: nat, f: nat, r: nat, p: nat, q: nat)
    requires IsRun(crypto, init, starts, log) && |Own(log, tid)| == 6
    ensures d < f < r < p < q < |log|
    ensures IsExchange(init, log, tid, d, Own(log, tid)[0])
    ensures IsExchange(init, log, tid, f, Own(log, tid)[1])
    ensures IsExchange(init, log, tid, r, Own(log, tid)[2])
    ensures IsExchange(init, log, tid, p, Own(log, tid)[3])
    ensures IsExchange(init, log, tid, q, Own(log, tid)[5])
  {
    assert log[..|log|] == log;
    q := EarlierExchange(crypto, init, starts, log, tid, |log|, 5);
    p := EarlierExchange(crypto, init, starts, log, tid, q, 3);
    r := EarlierExchange(crypto, init, starts, log, tid, p, 2);
    f := EarlierExchange(crypto, init, starts, log, tid, r, 1);
    d := EarlierExchange(crypto, init, starts, log, tid, f, 0);
  }

  /** A payload that was read had been written by an accepted submission. */
  lemma ReadPayloadIsAccepted(crypto: Crypto, init: Store, starts: map<nat, Process>, log: seq<Entry>, p: nat,
                              response: BlindedBlockResponse)
    requires Fresh(init) && IsRun(crypto, init, starts, log) && p < |log|
    requires log[p].call.ReadBlindedBlockResponse?
    requires Answer(StoreAfter(init, log[..p]), log[p].call) == ResponseReply(Some(response))
    ensures exists i, j :: AcceptedPayload(init, log[..p], i, j, log[p].call.proposer, response)
  {
    RunPrefix(crypto, init, starts, log, p);
    PayloadsAreAccepted(crypto, init, starts, log[..p], log[p].call.proposer);
  }

  /**
  A successful unblinding returns, hands over for publishing and records the same payload, and that payload came from a
  submission that had been accepted.
   */
  lemma DeliveriesAreAccepted(crypto: Crypto, init: Store, starts: map<nat, Process>, log: seq<Entry>, tid: nat,
                              result: Unblinded)
    requires Fresh(init) && IsRun(crypto, init, starts, log)
    requires tid in starts && starts[tid].UnblindBlock?
    requires After(crypto, starts[tid], Own(log, tid))
             == UnblindBlock(UnblindHandler(starts[tid].unblind.block, UnblindReturned(result)))
    ensures result.published.signedBlock.message.body.executionPayload == result.response.executionPayload
    ensures result.published.signedBlock.signature == starts[tid].unblind.block.signature
    ensures result.published.kzgProofs == result.response.blobsBundle.proofs
    ensures result.published.blobs == result.response.blobsBundle.blobs
    ensures exists d, r, p, q :: DeliveredFrom(crypto, init, log, tid, starts[tid].unblind.block, result, d, r, p, q)
  {
    var d, r, p, q := DeliveryEntries(crypto, init, starts, log, tid, result);
    ReadPayloadIsAccepted(crypto, init, starts, log, p, result.response);
    assert DeliveredFrom(crypto, init, log, tid, starts[tid].unblind.block, result, d, r, p, q);
  }

  // ----- Conservation of the delivery counter

  /** The requests that have counted a delivery and not yet recorded it. */
  ghost function BetweenCountAndPush(crypto: Crypto, starts: map<nat, Process>, log: seq<Entry>): set<nat> {
    set tid | tid in starts && AtPush(After(crypto, starts[tid], Own(log, tid)))
  }

  predicate AtPush(process: Process) {
    process.UnblindBlock? && process.unblind.pc.UnblindAtPush?
  }

  lemma ResumeAtPush(crypto: Crypto, process: Process, reply: Reply)
    requires NextCall(process).Some? && Fits(NextCall(process).value, reply)
    ensures AtPush(Resume(crypto, process, reply)) <==> NextCall(process).value.CountBlindedBlock?
    ensures AtPush(process) <==> NextCall(process).value.PushDeliveredBlock?
  {
    match process {
      case GrpcSubmit(grpc) =>
      case HttpSubmit(http) =>
      case FetchHeader(header) =>
      case UnblindBlock(unblind) =>
      case RegisterBatch(register) =>
      case RefreshEpoch(refresh) =>
      case Beacon(loop) =>
    }
  }

  /** The state of each process after one more entry. */
  lemma AfterEntry(crypto: Crypto, init: Store, starts: map<nat, Process>, log: seq<Entry>, tid: nat)
    requires IsRun(crypto, init, starts, log) && log != [] && tid in starts
    ensures var (n, before) := (|log| - 1, After(crypto, starts[tid], Own(log[..|log| - 1], tid)));
            if log[n].tid == tid
            then && NextCall(before) == Some(log[n].call)
                 && Fits(log[n].call, log[n].reply)
                 && After(crypto, starts[tid], Own(log, tid)) == Resume(crypto, before, log[n].reply)
            else After(crypto, starts[tid], Own(log, tid)) == before
  {
    var n := |log| - 1;
    assert EntryFits(crypto, init, starts, log, n);
    var own := Own(log[..n], tid);
    if log[n].tid == tid {
      AfterExtends(crypto, starts[tid], own, Exchange(log[n].call, log[n].reply));
    } else {
      assert own + [] == own;
    }
  }

  /** A set that at most one element enters or leaves. */
  lemma SizeChanges(before: set<nat>, after: set<nat>, x: nat, enters: bool, leaves: bool)
    requires forall t :: t != x ==> (t in after <==> t in before)
    requires (x in before <==> leaves) && (x in after <==> enters)
    ensures |after| == |before| + (if enters then 1 else 0) - (if leaves then 1 else 0)
  {
    assert after == if enters then (before - {x}) + {x} else before - {x};
  }

  lemma DeliveryCounts(store: Store, call: Call)
    ensures Exec(store, call).metrics.blindedBlocks
            == store.metrics.blindedBlocks + if call.CountBlindedBlock? then 1 else 0
    ensures Exec(store, call).deliveredBlocks
         == if call.PushDeliveredBlock? then store.deliveredBlocks + [call.hash] else store.deliveredBlocks
  {
  }

  /** In every run the delivery counter exceeds the recorded list by the requests between counting and recording. */
  lemma {:induction false} DeliveriesConserved(crypto: Crypto, init: Store, starts: map<nat, Process>, log: seq<Entry>)
    requires Fresh(init) && IsRun(crypto, init, starts, log)
    ensures var store := StoreAfter(init, log);
            store.metrics.blindedBlocks == |store.deliveredBlocks| + |BetweenCountAndPush(crypto, starts, log)|
  {
    if log == [] {
      assert BetweenCountAndPush(crypto, starts, log) == {};
    } else {
      var n := |log| - 1;
      RunPrefix(crypto, init, starts, log, n);
      DeliveriesConserved(crypto, init, starts, log[..n]);
      DeliveryCounts(StoreAfter(init, log[..n]), log[n].call);
      BetweenAfterEntry(crypto, init, starts, log);
    }
  }

  lemma BetweenAfterEntry(crypto: Crypto, init: Store, starts: map<nat, Process>, log: seq<Entry>)
    requires IsRun(crypto, init, starts, log) && log != []
    ensures var n := |log| - 1;
            && |BetweenCountAndPush(crypto, starts, log)|
               == |BetweenCountAndPush(crypto, starts, log[..n])|
                  + (if log[n].call.CountBlindedBlock? then 1 else 0)
                  - (if log[n].call.PushDeliveredBlock? then 1 else 0)
  {
    var n := |log| - 1;
    var tid := log[n].tid;
    var before, after := BetweenCountAndPush(crypto, starts, log[..n]), BetweenCountAndPush(crypto, starts, log);
    forall t | t != tid
      ensures t in after <==> t in before
    {
      PushMembershipHolds(crypto, init, starts, log, t);
    }
    PushMembershipHolds(crypto, init, starts, log, tid);
    SizeChanges(before, after, tid, log[n].call.CountBlindedBlock?, log[n].call.PushDeliveredBlock?);
  }

  /** How one entry changes whether process `t` stands between counting and recording. */
  ghost predicate PushMembership(crypto: Crypto, starts: map<nat, Process>, log: seq<Entry>, t: nat)
    requires log != []
  {
    var n := |log| - 1;
    var before, after := BetweenCountAndPush(crypto, starts, log[..n]), BetweenCountAndPush(crypto, starts, log);
    if t == log[n].tid
    then (t in before <==> log[n].call.PushDeliveredBlock?) && (t in after <==> log[n].call.CountBlindedBlock?)
    else t in after <==> t in before
  }

  lemma PushMembershipHolds(crypto: Crypto, init: Store, starts: map<nat, Process>, log: seq<Entry>, t: nat)
    requires IsRun(crypto, init, starts, log) && log != []
    ensures PushMembership(crypto, starts, log, t)
  {
    var n := |log| - 1;
    assert EntryFits(crypto, init, starts, log, n);
    if t in starts {
      AfterEntry(crypto, init, starts, log, t);
      if t == log[n].tid {
        ResumeAtPush(crypto, After(crypto, starts[t], Own(log[..n], t)), log[n].reply);
      }
    }
  }

  /** The delivered list only grows. */
  lemma {:induction false} DeliveredListGrows(init: Store, log: seq<Entry>, n: nat)
    requires n <= |log|
    ensures StoreAfter(init, log[..n]).deliveredBlocks <= StoreAfter(init, log).deliveredBlocks
  {
    if n == |log| {
      assert log[..n] == log;
    } else {
      var m := |log| - 1;
      assert log[..m][..n] == log[..n];
      DeliveredListGrows(init, log[..m], n);
      DeliveryCounts(StoreAfter(init, log[..m]), log[m].call);
    }
  }

  // ----- Conservation of the mined-block counters

  function AttributeUpdates(log: seq<Entry>): nat {
    if log == [] then 0
    else AttributeUpdates(log[..|log| - 1]) + if log[|log| - 1].call.WritePayloadAttributes? then 1 else 0
  }

  /** The event loops that have counted a mined block and not yet stored its attributes. */
  ghost function BetweenCountAndWrite(crypto: Crypto, starts: map<nat, Process>, log: seq<Entry>): set<nat> {
    set tid | tid in starts && AtWrite(After(crypto, starts[tid], Own(log, tid)))
  }

  predicate AtWrite(process: Process) {
    && process.Beacon? && process.loop.events != [] && process.loop.events[0].PayloadAttribute?
    && process.loop.pc.AtWriteAttributes?
  }

  predicate LoopInOrder(process: Process) {
    process.Beacon? && (process.loop.events == [] || process.loop.events[0].Head?) ==> process.loop.pc.AtNextEvent?
  }

  lemma ResumeAtWrite(crypto: Crypto, process: Process, reply: Reply)
    requires LoopInOrder(process)
    requires NextCall(process).Some? && Fits(NextCall(process).value, reply)
    ensures LoopInOrder(Resume(crypto, process, reply))
    ensures AtWrite(Resume(crypto, process, reply)) <==> NextCall(process).value.CountMinedBlock?
    ensures AtWrite(process) <==> NextCall(process).value.WritePayloadAttributes?
  {
    match process {
      case GrpcSubmit(grpc) =>
      case HttpSubmit(http) =>
      case FetchHeader(header) =>
      case UnblindBlock(unblind) =>
      case RegisterBatch(register) =>
      case RefreshEpoch(refresh) =>
      case Beacon(loop) =>
    }
  }

  lemma {:induction false} LoopsStayInOrder(crypto: Crypto, init: Store, start: Process, history: seq<Exchange>)
    requires IsStart(init, start) && Follows(crypto, start, history)
    ensures LoopInOrder(After(crypto, start, history))
  {
    if history != [] {
      var n := |history| - 1;
      LoopsStayInOrder(crypto, init, start, history[..n]);
      ResumeAtWrite(crypto, After(crypto, start, history[..n]), history[n].reply);
    }
  }

  lemma MinedCounts(store: Store, call: Call)
    ensures Exec(store, call).metrics.relayedBlocks
         == store.metrics.relayedBlocks + if call.CountMinedBlock? && call.relayed then 1 else 0
    ensures Exec(store, call).metrics.nonRelayedBlocks
         == store.metrics.nonRelayedBlocks + if call.CountMinedBlock? && !call.relayed then 1 else 0
  {
  }

  /** Relayed and other blocks together are the attribute updates stored, plus those counted and not yet stored. */
  lemma {:induction false} MinedBlocksConserved(crypto: Crypto, init: Store, starts: map<nat, Process>, log: seq<Entry>)
    requires Fresh(init) && IsRun(crypto, init, starts, log)
    ensures var metrics := StoreAfter(init, log).metrics;
            metrics.relayedBlocks + metrics.nonRelayedBlocks
            == AttributeUpdates(log) + |BetweenCountAndWrite(crypto, starts, log)|
  {
    if log == [] {
      assert BetweenCountAndWrite(crypto, starts, log) == {};
    } else {
      var n := |log| - 1;
      RunPrefix(crypto, init, starts, log, n);
      MinedBlocksConserved(crypto, init, starts, log[..n]);
      MinedCounts(StoreAfter(init, log[..n]), log[n].call);
      BetweenWritesAfterEntry(crypto, init, starts, log);
    }
  }

  lemma BetweenWritesAfterEntry(crypto: Crypto, init: Store, starts: map<nat, Process>, log: seq<Entry>)
    requires IsRun(crypto, init, starts, log) && log != []
    ensures var n := |log| - 1;
            && |BetweenCountAndWrite(crypto, starts, log)|
               == |BetweenCountAndWrite(crypto, starts, log[..n])|
                  + (if log[n].call.CountMinedBlock? then 1 else 0)
                  - (if log[n].call.WritePayloadAttributes? then 1 else 0)
  {
    var n := |log| - 1;
    var tid := log[n].tid;
    var before, after := BetweenCountAndWrite(crypto, starts, log[..n]), BetweenCountAndWrite(crypto, starts, log);
    forall t | t != tid
      ensures t in after <==> t in before
    {
      WriteMembershipHolds(crypto, init, starts, log, t);
    }
    WriteMembershipHolds(crypto, init, starts, log, tid);
    SizeChanges(before, after, tid, log[n].call.CountMinedBlock?, log[n].call.WritePayloadAttributes?);
  }

  /** How one entry changes whether process `t` stands between counting a mined block and storing its attributes. */
  ghost predicate WriteMembership(crypto: Crypto, starts: map<nat, Process>, log: seq<Entry>, t: nat)
    requires log != []
  {
    var n := |log| - 1;
    var before, after := BetweenCountAndWrite(crypto, starts, log[..n]), BetweenCountAndWrite(crypto, starts, log);
    if t == log[n].tid
    then (t in before <==> log[n].call.WritePayloadAttributes?) && (t in after <==> log[n].call.CountMinedBlock?)
    else t in after <==> t in before
  }

  lemma WriteMembershipHolds(crypto: Crypto, init: Store, starts: map<nat, Process>, log: seq<Entry>, t: nat)
    requires IsRun(crypto, init, starts, log) && log != []
    ensures WriteMembership(crypto, starts, log, t)
  {
    var n := |log| - 1;
    assert EntryFits(crypto, init, starts, log, n);
    if t in starts {
      AfterEntry(crypto, init, starts, log, t);
      if t == log[n].tid {
        RunPrefix(crypto, init, starts, log, n);
        OwnFollows(crypto, init, starts, log[..n], t);
        LoopsStayInOrder(crypto, init, starts[t], Own(log[..n], t));
        ResumeAtWrite(crypto, After(crypto, starts[t], Own(log[..n], t)), log[n].reply);
      }
    }
  }

  /** A loop about to count a mined block has just asked whether that block's parent was delivered. */
  lemma {:induction false} CountFollowsQuestion(crypto: Crypto, init: Store, start: Process, history: seq<Exchange>)
    requires IsStart(init, start) && Follows(crypto, start, history)
    ensures var process := After(crypto, start, history);
            process.Beacon? && process.loop.events != [] && process.loop.events[0].PayloadAttribute?
              && process.loop.pc.AtCountMined?
            ==> && history != []
                && history[|history| - 1] == Exchange(IsDelivered(process.loop.events[0].attributes.parentHash),
                                                      BoolReply(process.loop.pc.relayed))
  {
    if history != [] {
      var n := |history| - 1;
      LoopsStayInOrder(crypto, init, start, history[..n]);
    }
  }

  /** At entry `j` a loop counts the block its event names as parent; at entry `i` it had asked for that hash. */
  ghost predicate AskedBefore(crypto: Crypto, init: Store, starts: map<nat, Process>, log: seq<Entry>, i: int, j: int) {
    && 0 <= i < j < |log|
    && log[i].tid == log[j].tid
    && log[j].tid in starts
    && log[j].call.CountMinedBlock?
    && var process := After(crypto, starts[log[j].tid], Own(log[..j], log[j].tid));
    && process.Beacon? && process.loop.events != [] && process.loop.events[0].PayloadAttribute?
    && log[i].call == IsDelivered(process.loop.events[0].attributes.parentHash)
    && (log[j].call.relayed <==> log[i].call.hash in StoreAfter(init, log[..i]).deliveredBlocks)
  }

  lemma OnlyLoopsCount(process: Process)
    requires NextCall(process).Some? && NextCall(process).value.CountMinedBlock?
    ensures process.Beacon? && process.loop.events != [] && process.loop.events[0].PayloadAttribute?
    ensures process.loop.pc == AtCountMined(NextCall(process).value.relayed)
  {
  }

  /** A parent block is counted as relayed exactly when its hash was in the delivered list when the loop asked. */
  lemma MinedCountIsJustified(crypto: Crypto, init: Store, starts: map<nat, Process>, log: seq<Entry>, j: nat)
    requires IsRun(crypto, init, starts, log) && j < |log| && log[j].call.CountMinedBlock?
    ensures exists i :: AskedBefore(crypto, init, starts, log, i, j)
  {
    assert EntryFits(crypto, init, starts, log, j);
    var tid := log[j].tid;
    var history := Own(log[..j], tid);
    RunPrefix(crypto, init, starts, log, j);
    OwnFollows(crypto, init, starts, log[..j], tid);
    OnlyLoopsCount(After(crypto, starts[tid], history));
    CountFollowsQuestion(crypto, init, starts[tid], history);
    var i := EarlierExchange(crypto, init, starts, log, tid, j, |history| - 1);
    assert AskedBefore(crypto, init, starts, log, i, j);
  }
}
