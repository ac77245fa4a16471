/**
Headers among interleaved handlers: what is served in exchange for a request is the header of the last bid committed for
its key when it was read, and a request is refused only for a check that failed.
 */
module InterleavedHeaders {
  import opened Options
  import opened Types
  import opened Storage
  import opened Proposer
  import opened System
  import opened SubmissionHistory
  import opened InterleavedAuction

  // ----- The history of a header request

  predicate KnownPassed(handler: HeaderHandler, e: Exchange) {
    e.call == ReadValidatorRegistration(handler.pubkey) && e.reply.RegistrationReply?
  }

  predicate HeadRead(e: Exchange) {
    e.call == ReadHeadSlot && e.reply.SlotReply?
  }

  predicate BidRead(handler: HeaderHandler, e: Exchange) {
    e.call == ReadBestBid(handler.slot, handler.parentHash, handler.pubkey) && e.reply.BidReply?
  }

  predicate IsSuccessor(head: u64, slot: u64) {
    slot == if head == 0xffff_ffff_ffff_ffff then 0 else head + 1
  }

  /** What is served for a bid that was read. */
  predicate Serves(crypto: Crypto, bid: Option<BidSubmission>, served: Option<Header>) {
    if bid.Some? && |bid.value.blobsBundle.commitments| <= 4096
    then served == Some(Header(crypto.headerOf(bid.value.executionPayload), bid.value.blobsBundle.commitments,
                               bid.value.message.value))
    else served == None
  }

  predicate PassedRegistration(handler: HeaderHandler, history: seq<Exchange>) {
    |history| >= 1 && KnownPassed(handler, history[0]) && history[0].reply.registration.Some?
  }

  predicate PassedHead(handler: HeaderHandler, history: seq<Exchange>) {
    && |history| >= 2 && PassedRegistration(handler, history)
    && HeadRead(history[1]) && IsSuccessor(history[1].reply.slot, handler.slot)
  }

  /** The answer, by the reads made: it was the first read that refused, or the last that was served. */
  predicate Answered(crypto: Crypto, handler: HeaderHandler, history: seq<Exchange>, served: Option<Header>) {
    || (&& |history| == 1 && served == None
        && KnownPassed(handler, history[0]) && history[0].reply.registration.None?)
    || (&& |history| == 2 && served == None && PassedRegistration(handler, history)
        && HeadRead(history[1]) && !IsSuccessor(history[1].reply.slot, handler.slot))
    || (&& |history| == 3 && PassedHead(handler, history)
        && BidRead(handler, history[2]) && Serves(crypto, history[2].reply.bid, served))
  }

  predicate HeaderExplained(crypto: Crypto, handler: HeaderHandler, pc: HeaderPc, history: seq<Exchange>) {
    match pc
    case HeaderAtRegistration => history == []
    case HeaderAtHead => |history| == 1 && PassedRegistration(handler, history)
    case HeaderAtBid => |history| == 2 && PassedHead(handler, history)
    case HeaderReturned(served) => Answered(crypto, handler, history, served)
  }

  lemma HeaderStep(crypto: Crypto, handler: HeaderHandler, history: seq<Exchange>)
    requires history != []
    requires HeaderExplained(crypto, handler, handler.pc, history[..|history| - 1])
    requires var last := history[|history| - 1]; HeaderCall(handler) == Some(last.call) && Fits(last.call, last.reply)
    ensures HeaderExplained(crypto, handler, HeaderResume(crypto, handler, history[|history| - 1].reply).pc, history)
  {
    var front := history[..|history| - 1];
    assert forall k :: 0 <= k < |front| ==> front[k] == history[k];
  }

  lemma {:induction false} HeaderHistory(crypto: Crypto, start: Process, history: seq<Exchange>)
    requires start.FetchHeader? && start.header.pc == HeaderAtRegistration
    requires Follows(crypto, start, history)
    ensures var process := After(crypto, start, history);
            && process.FetchHeader? && process.header == start.header.(pc := process.header.pc)
            && HeaderExplained(crypto, start.header, process.header.pc, history)
  {
    if history != [] {
      HeaderHistory(crypto, start, history[..|history| - 1]);
      HeaderStep(crypto, After(crypto, start, history[..|history| - 1]).header, history);
    }
  }

  // ----- What is served

  /**
  Entries `a`, `b` and `c` of process `tid` find its key registered, the head before its slot, and the last bid
  committed for its key, whose header is what is served.
   */
  ghost predicate ServedFrom(crypto: Crypto, init: Store, log: seq<Entry>, tid: nat, handler: HeaderHandler,
                             served: Header, a: int, b: int, c: int) {
    && 0 <= a < b < c < |log|
    && log[a].tid == log[b].tid == log[c].tid == tid
    && handler.pubkey in StoreAfter(init, log[..a]).validatorRegistrations
    && IsSuccessor(StoreAfter(init, log[..b]).slot, handler.slot)
    && var last := LastBid(log[..c], SlotHashKey(handler.slot, handler.parentHash, handler.pubkey));
       last.Some? && Serves(crypto, Some(log[last.value].call.bid), Some(served))
  }

  /** In every run a header is served only from three steps of its handler, in order, each with its check passing. */
  lemma ServedInRun(crypto: Crypto, init: Store, starts: map<nat, Process>, log: seq<Entry>, tid: nat, served: Header)
    requires Fresh(init) && IsRun(crypto, init, starts, log) && tid in starts && starts[tid].FetchHeader?
    requires After(crypto, starts[tid], Own(log, tid))
             == FetchHeader(starts[tid].header.(pc := HeaderReturned(Some(served))))
    ensures exists a, b, c :: ServedFrom(crypto, init, log, tid, starts[tid].header, served, a, b, c)
  {
    var handler, history := starts[tid].header, Own(log, tid);
    OwnFollows(crypto, init, starts, log, tid);
    HeaderHistory(crypto, starts[tid], history);
    var a, b, c := ReadEntries(crypto, init, starts, log, tid);
    BidMapIsFold(init, log[..c], SlotHashKey(handler.slot, handler.parentHash, handler.pubkey));
    assert ServedFrom(crypto, init, log, tid, handler, served, a, b, c);
  }

  lemma ReadEntries(crypto: Crypto, init: Store, starts: map<nat, Process>, log: seq<Entry>, tid: nat)
    returns (a: nat, b: nat, c: nat)
    requires IsRun(crypto, init, starts, log) && |Own(log, tid)| == 3
    ensures a < b < c < |log|
    ensures IsExchange(init, log, tid, a, Own(log, tid)[0])
    ensures IsExchange(init, log, tid, b, Own(log, tid)[1])
    ensures IsExchange(init, log, tid, c, Own(log, tid)[2])
  {
    assert log[..|log|] == log;
    c := EarlierExchange(crypto, init, starts, log, tid, |log|, 2);
    b := EarlierExchange(crypto, init, starts, log, tid, c, 1);
    a := EarlierExchange(crypto, init, starts, log, tid, b, 0);
  }
}
