/**
Headers and payloads among interleaved submissions.  A submission writes its bid and its payload in two steps, so the
last payload written for a proposer need not belong to the last bid: exactly when it does, and exactly when not.
 */
module InterleavedPayload {
  import opened Options
  import opened Types
  import opened Storage
  import opened Submission
  import opened System
  import opened SubmissionHistory
  import opened InterleavedAuction

  // ----- The bid a payload was written with

  /** The last entry of a process. */
  function LastOf(log: seq<Entry>, tid: nat): (last: Option<nat>)
    ensures last.Some? ==> last.value < |log| && log[last.value].tid == tid
    ensures forall i :: 0 <= i < |log| && log[i].tid == tid ==> last.Some? && i <= last.value
  {
    if log == [] then None
    else if log[|log| - 1].tid == tid then Some(|log| - 1)
    else LastOf(log[..|log| - 1], tid)
  }

  /** The entry before entry `i` of the same process; for a payload write, the bid write of the same submission. */
  function BidOf(log: seq<Entry>, i: nat): (j: Option<nat>)
    requires i < |log|
    ensures j.Some? ==> j.value < i && log[j.value].tid == log[i].tid
  {
    LastOf(log[..i], log[i].tid)
  }

  lemma {:induction false} OwnPrefix(log: seq<Entry>, tid: nat, c: nat)
    requires c <= |log|
    ensures |Own(log[..c], tid)| <= |Own(log, tid)|
    ensures Own(log[..c], tid) == Own(log, tid)[..|Own(log[..c], tid)|]
  {
    if c == |log| {
      assert log[..c] == log;
    } else {
      assert log[..|log| - 1][..c] == log[..c];
      OwnPrefix(log[..|log| - 1], tid, c);
    }
  }

  /** More of a history lies behind a later point of the log. */
  lemma LongerIsLater(log: seq<Entry>, tid: nat, a: nat, b: nat)
    requires a <= |log| && b <= |log|
    ensures |Own(log[..a], tid)| < |Own(log[..b], tid)| ==> a < b
  {
    if b <= a {
      assert log[..a][..b] == log[..b];
      OwnPrefix(log[..a], tid, b);
    }
  }

  /** The entry whose process has made one call since it is that process's last. */
  lemma OneCallAgo(log: seq<Entry>, tid: nat, c: nat, i: nat)
    requires c < i <= |log| && log[c].tid == tid
    requires |Own(log[..i], tid)| == |Own(log[..c], tid)| + 1
    ensures LastOf(log[..i], tid) == Some(c)
  {
    var last := LastOf(log[..i], tid).value;
    if c < last {
      assert log[..last][..c] == log[..c] && log[..i][..last] == log[..last];
      OwnPosition(log[..last], tid, c);
      OwnPosition(log[..i], tid, last);
    }
  }

  /** A payload is written with the bid its process wrote just before. */
  lemma PayloadHasBid(crypto: Crypto, init: Store, starts: map<nat, Process>, log: seq<Entry>, i: nat)
    requires IsRun(crypto, init, starts, log) && i < |log| && log[i].call.SetBlindedBlockResponse?
    ensures BidOf(log, i).Some?
    ensures var j := BidOf(log, i).value;
            && log[j].call.SetBestBid? && log[j].call.slot == log[j].call.bid.message.slot
            && log[i].call.response == log[j].call.bid.ToBlindedBlockResponse()
  {
    assert EntryFits(crypto, init, starts, log, i);
    var tid := log[i].tid;
    var history := Own(log[..i], tid);
    RunPrefix(crypto, init, starts, log, i);
    OwnFollows(crypto, init, starts, log[..i], tid);
    PayloadFollowsBid(crypto, init, starts[tid], history, log[i].call.proposer, log[i].call.response);
    var j := EarlierExchange(crypto, init, starts, log, tid, i, |history| - 1);
    OneCallAgo(log, tid, j, i);
  }

  /** The key of the bid that the payload at entry `i` was written with. */
  function KeyWith(log: seq<Entry>, i: nat): SlotHashKey
    requires i < |log| && BidOf(log, i).Some? && log[BidOf(log, i).value].call.SetBestBid?
  {
    KeyOf(log[BidOf(log, i).value].call.bid.message)
  }

  /** The payload that goes with the bid of entry `j`. */
  function ResponseAt(log: seq<Entry>, j: nat): BlindedBlockResponse
    requires j < |log| && log[j].call.SetBestBid?
  {
    log[j].call.bid.ToBlindedBlockResponse()
  }

  // ----- When header and payload agree

  /** The bid that the last payload for a proposer was written with, and the last bid for that bid's key. */
  ghost predicate LastWrites(log: seq<Entry>, proposer: PublicKey, i: nat, j: nat, last: nat) {
    && LastPayload(log, proposer) == Some(i)
    && BidOf(log, i) == Some(j) && j <= last < |log|
    && log[j].call.SetBestBid? && log[last].call.SetBestBid?
    && LastBid(log, KeyWith(log, i)) == Some(last)
  }

  lemma LastWritesExist(crypto: Crypto, init: Store, starts: map<nat, Process>, log: seq<Entry>, proposer: PublicKey)
    returns (i: nat, j: nat, last: nat)
    requires IsRun(crypto, init, starts, log) && LastPayload(log, proposer).Some?
    ensures LastWrites(log, proposer, i, j, last)
  {
    i := LastPayload(log, proposer).value;
    PayloadHasBid(crypto, init, starts, log, i);
    j := BidOf(log, i).value;
    assert WritesKey(log[j], KeyWith(log, i));
    last := LastBid(log, KeyWith(log, i)).value;
  }

  /**
  In every run, the payload stored for a proposer is that of the bid served for the key of the bid it was written with,
  exactly when that bid is the last one written for its key, or the last one carries the same payload.
   */
  lemma PayloadAgreesExactly(crypto: Crypto, init: Store, starts: map<nat, Process>, log: seq<Entry>,
                             proposer: PublicKey, i: nat, j: nat, last: nat)
    requires Fresh(init) && IsRun(crypto, init, starts, log) && LastWrites(log, proposer, i, j, last)
    ensures var store := StoreAfter(init, log);
            && Lookup(store.bestBidPerSlot, KeyWith(log, i)) == Some(log[last].call.bid)
            && Lookup(store.blindedBlockResp, proposer) == Some(ResponseAt(log, j))
            && (Lookup(store.blindedBlockResp, proposer) == Some(ResponseAt(log, last)) <==>
                  last == j || ResponseAt(log, last) == ResponseAt(log, j))
  {
    PayloadHasBid(crypto, init, starts, log, i);
    BidMapIsFold(init, log, KeyWith(log, i));
    PayloadMapIsFold(init, log, proposer);
  }

  /**
  In every run, a header fetched after `m` entries for any key, built from the bid of entry `w`, and the payload handed
  out to any proposer after `r` entries: they agree exactly when the last payload written for the proposer by then was
  written with that very bid, or with one that carries the same payload.
   */
  lemma HeaderThenUnblindInRun(crypto: Crypto, init: Store, starts: map<nat, Process>, log: seq<Entry>, m: nat, r: nat,
                               key: SlotHashKey, w: nat, proposer: PublicKey)
    requires Fresh(init) && IsRun(crypto, init, starts, log) && m <= |log| && r <= |log|
    requires LastBid(log[..m], key) == Some(w)
    ensures log[w].call.SetBestBid? && Lookup(StoreAfter(init, log[..m]).bestBidPerSlot, key) == Some(log[w].call.bid)
    ensures var i := LastPayload(log[..r], proposer);
            && (i.Some? ==> BidOf(log, i.value).Some? && log[BidOf(log, i.value).value].call.SetBestBid?)
            && (Lookup(StoreAfter(init, log[..r]).blindedBlockResp, proposer) == Some(ResponseAt(log, w)) <==>
                  i.Some? && var j := BidOf(log, i.value).value; j == w || ResponseAt(log, j) == ResponseAt(log, w))
  {
    BidMapIsFold(init, log[..m], key);
    PayloadMapIsFold(init, log[..r], proposer);
    var i := LastPayload(log[..r], proposer);
    if i.Some? {
      PayloadHasBid(crypto, init, starts, log, i.value);
    }
  }

  // ----- Crossed commits

  /** A submission that has written its bid and not its payload. */
  predicate BetweenWrites(process: Process) {
    NextCall(process).Some? && NextCall(process).value.SetBlindedBlockResponse?
  }

  ghost predicate Quiet(crypto: Crypto, starts: map<nat, Process>, log: seq<Entry>) {
    forall tid :: tid in starts ==> !BetweenWrites(After(crypto, starts[tid], Own(log, tid)))
  }

  /** The payload at entry `i` is written for the proposer its bid names. */
  predicate NamesDutyAt(log: seq<Entry>, i: nat)
    requires i < |log|
  {
    log[i].call.SetBlindedBlockResponse? && BidOf(log, i).Some? && log[BidOf(log, i).value].call.SetBestBid? ==>
      log[BidOf(log, i).value].call.bid.message.proposerPubkey == log[i].call.proposer
  }

  ghost predicate PayloadsNameDuties(log: seq<Entry>) {
    forall i :: 0 <= i < |log| ==> NamesDutyAt(log, i)
  }

  lemma BidThenPayload(crypto: Crypto, process: Process, reply: Reply)
    requires NextCall(process).Some? && NextCall(process).value.SetBestBid? && reply.Ack?
    ensures BetweenWrites(Resume(crypto, process, reply))
  {
  }

  /** The process of a bid write, one exchange later. */
  lemma BetweenAfterBid(crypto: Crypto, init: Store, starts: map<nat, Process>, log: seq<Entry>, j: nat)
    requires IsRun(crypto, init, starts, log) && j < |log| && log[j].call.SetBestBid?
    ensures log[j].tid in starts && |Own(log[..j], log[j].tid)| < |Own(log, log[j].tid)|
    ensures var (tid, p) := (log[j].tid, |Own(log[..j], log[j].tid)|);
            BetweenWrites(After(crypto, starts[tid], Own(log, tid)[..p + 1]))
  {
    var tid := log[j].tid;
    assert EntryFits(crypto, init, starts, log, j);
    assert log[..j + 1][..j] == log[..j];
    OwnPosition(log, tid, j);
    OwnPrefix(log, tid, j + 1);
    AfterExtends(crypto, starts[tid], Own(log[..j], tid), Exchange(log[j].call, log[j].reply));
    BidThenPayload(crypto, After(crypto, starts[tid], Own(log[..j], tid)), log[j].reply);
  }

  /** With no submission between its writes, the process of a bid write has made another call. */
  lemma MovesOn(crypto: Crypto, init: Store, starts: map<nat, Process>, log: seq<Entry>, j: nat)
    requires IsRun(crypto, init, starts, log) && Quiet(crypto, starts, log)
    requires j < |log| && log[j].call.SetBestBid?
    ensures |Own(log[..j], log[j].tid)| + 1 < |Own(log, log[j].tid)|
  {
    BetweenAfterBid(crypto, init, starts, log, j);
    var own := Own(log, log[j].tid);
    assert own[..|own|] == own;
  }

  /** The next call after a bid write is the payload write. */
  lemma NextWrites(crypto: Crypto, init: Store, starts: map<nat, Process>, log: seq<Entry>, j: nat, i: nat)
    requires IsRun(crypto, init, starts, log) && i < |log| && j < |log|
    requires log[j].call.SetBestBid? && log[i].tid == log[j].tid
    requires var (own, p) := (Own(log, log[j].tid), |Own(log[..j], log[j].tid)|);
             p + 1 <= |own| && Own(log[..i], log[i].tid) == own[..p + 1]
    ensures log[i].call.SetBlindedBlockResponse?
  {
    BetweenAfterBid(crypto, init, starts, log, j);
    assert EntryFits(crypto, init, starts, log, i);
  }

  /** So every bid write is followed by its payload write. */
  lemma PayloadFollows(crypto: Crypto, init: Store, starts: map<nat, Process>, log: seq<Entry>, j: nat) returns (i: nat)
    requires IsRun(crypto, init, starts, log) && Quiet(crypto, starts, log)
    requires j < |log| && log[j].call.SetBestBid?
    ensures j < i < |log| && log[i].call.SetBlindedBlockResponse? && BidOf(log, i) == Some(j)
  {
    MovesOn(crypto, init, starts, log, j);
    i := OwnIndex(log, log[j].tid, |Own(log[..j], log[j].tid)| + 1);
    NextWrites(crypto, init, starts, log, j, i);
    LongerIsLater(log, log[j].tid, j, i);
    OneCallAgo(log, log[j].tid, j, i);
  }

  /** Another submission for the key writes its bid and its payload between the two writes at `j` and `i`. */
  ghost predicate Nested(log: seq<Entry>, key: SlotHashKey, j: int, i: int, j': int, i': int) {
    && 0 <= j < j' < i' < i < |log|
    && WritesKey(log[j'], key)
    && log[i'].call.SetBlindedBlockResponse? && BidOf(log, i') == Some(j')
  }

  /** A later bid for the key and its payload lie between the two writes, since the last payload is the one at `i`. */
  lemma LaterBidNests(log: seq<Entry>, proposer: PublicKey, i: nat, j: nat, last: nat, i': nat)
    requires LastWrites(log, proposer, i, j, last) && last != j
    requires NamesDutyAt(log, i) && i' < |log| && NamesDutyAt(log, i')
    requires log[i'].call.SetBlindedBlockResponse? && BidOf(log, i') == Some(last)
    ensures Nested(log, KeyWith(log, i), j, i, last, i')
  {
    assert log[i'].call.proposer == KeyWith(log, i).validator;
    assert WritesPayload(log[i'], proposer);
  }

  lemma NestedIsLater(log: seq<Entry>, proposer: PublicKey, i: nat, j: nat, last: nat, j': int, i': int)
    requires LastWrites(log, proposer, i, j, last) && Nested(log, KeyWith(log, i), j, i, j', i')
    ensures last != j
  {
    assert WritesKey(log[j'], KeyWith(log, i));
  }

  /**
  In every run at whose end no submission stands between its writes, and in which payloads are written for the proposers
  their bids name: the bid that the last payload for a proposer was written with is not the last for its key exactly
  when another submission's two writes nest between its own.
   */
  lemma CrossedExactly(crypto: Crypto, init: Store, starts: map<nat, Process>, log: seq<Entry>, proposer: PublicKey,
                       i: nat, j: nat, last: nat)
    requires IsRun(crypto, init, starts, log) && Quiet(crypto, starts, log) && PayloadsNameDuties(log)
    requires LastWrites(log, proposer, i, j, last)
    ensures last != j <==> exists j', i' :: Nested(log, KeyWith(log, i), j, i, j', i')
  {
    if last != j {
      var i' := PayloadFollows(crypto, init, starts, log, last);
      assert NamesDutyAt(log, i) && NamesDutyAt(log, i');
      LaterBidNests(log, proposer, i, j, last, i');
    }
    forall j', i' | Nested(log, KeyWith(log, i), j, i, j', i')
      ensures last != j
    {
      NestedIsLater(log, proposer, i, j, last, j', i');
    }
  }
}
