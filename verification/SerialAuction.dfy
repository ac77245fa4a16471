/**
Runs in which no handler interrupts a submission: which bid ends up stored, why the arrival order does not matter, how
the payload map agrees with the bids the headers are built from, and when an entry can no longer change.
 */
module SerialAuction {
  import opened Options
  import opened Types
  import opened Storage
  import opened Submission
  import opened SerialSubmission

  predicate WritesBids(call: Call) {
    call.SetBestBid? || call.SetBlindedBlockResponse?
  }

  /** Any storage call of the other handlers and of the beacon event loop. */
  type OtherCall = call: Call | !WritesBids(call) witness ReadHeadSlot

  datatype Op = Bid(submission: BidSubmission) | Other(call: OtherCall)

  function Apply(crypto: Crypto, store: Store, op: Op): Store {
    match op
    case Bid(submission) => Submit(crypto, store, submission)
    case Other(call) => Exec(store, call)
  }

  function Run(crypto: Crypto, init: Store, ops: seq<Op>): Store {
    if ops == [] then init else Apply(crypto, Run(crypto, init, ops[..|ops| - 1]), ops[|ops| - 1])
  }

  // ----- What one op changes

  lemma OtherCallKeepsBids(store: Store, call: OtherCall)
    ensures Exec(store, call).bestBidPerSlot == store.bestBidPerSlot
    ensures Exec(store, call).blindedBlockResp == store.blindedBlockResp
  {
    assert !WritesBids(call);
  }

  lemma CommitStores(store: Store, submission: BidSubmission, dutyKey: PublicKey, key: SlotHashKey)
    ensures Lookup(Commit(store, submission, dutyKey).bestBidPerSlot, key)
         == if KeyOf(submission.message) == key then Some(submission) else Lookup(store.bestBidPerSlot, key)
  {
  }

  /** The entry of a key changes only through a valid submission for it, and then to the higher of the two bids. */
  lemma EntryAfter(crypto: Crypto, store: Store, op: Op, key: SlotHashKey)
    ensures var stored := Lookup(store.bestBidPerSlot, key);
            Lookup(Apply(crypto, store, op).bestBidPerSlot, key)
            == if op.Bid? && KeyOf(op.submission.message) == key && Valid(crypto, store, op.submission)
                  && IsBidHigher(op.submission.message, stored)
               then Some(op.submission) else stored
  {
    match op {
      case Bid(submission) =>
        if Accepts(crypto, store, submission) {
          CommitStores(store, submission, DutyKey(store, submission), key);
        }
      case Other(call) => OtherCallKeepsBids(store, call);
    }
  }

  // ----- The stored bid is the earliest of greatest value

  /** Op `i` is a submission for `key` that passes every check but the best-bid one when it arrives. */
  ghost predicate ValidOnArrival(crypto: Crypto, init: Store, ops: seq<Op>, key: SlotHashKey, i: int)
    requires 0 <= i < |ops|
  {
    && ops[i].Bid?
    && KeyOf(ops[i].submission.message) == key
    && Valid(crypto, Run(crypto, init, ops[..i]), ops[i].submission)
  }

  /** The submissions for a key that were valid on arrival, whether or not they were turned away as not higher. */
  ghost function Eligible(crypto: Crypto, init: Store, ops: seq<Op>, key: SlotHashKey): set<int> {
    set i | 0 <= i < |ops| && ValidOnArrival(crypto, init, ops, key, i)
  }

  function Value(op: Op): nat {
    if op.Bid? then op.submission.message.value else 0
  }

  /** Among `candidates`, op `w` has the greatest value, and no earlier one reaches it. */
  ghost predicate EarliestGreatest(ops: seq<Op>, candidates: set<int>, w: int) {
    && w in candidates
    && 0 <= w < |ops|
    && forall j :: j in candidates && 0 <= j < |ops| ==>
         Value(ops[j]) <= Value(ops[w]) && (j < w ==> Value(ops[j]) < Value(ops[w]))
  }

  ghost predicate IsWinner(ops: seq<Op>, candidates: set<int>, stored: Option<BidSubmission>) {
    if stored.None? then candidates == {}
    else exists w :: EarliestGreatest(ops, candidates, w) && ops[w] == Bid(stored.value)
  }

  /**
  The bid stored for a key is the earliest submission of greatest value among all those for the key that were valid on
  arrival; nothing is stored exactly when there was none.
   */
  lemma {:induction false} StoredBidIsWinner(crypto: Crypto, init: Store, ops: seq<Op>, key: SlotHashKey)
    requires Fresh(init)
    ensures IsWinner(ops, Eligible(crypto, init, ops, key), Lookup(Run(crypto, init, ops).bestBidPerSlot, key))
  {
    if ops == [] {
      NoWinnerAtStart(crypto, init, key);
    } else {
      var front := ops[..|ops| - 1];
      StoredBidIsWinner(crypto, init, front, key);
      WinnerExtends(crypto, init, front, ops[|ops| - 1], key);
      SplitLast(ops);
    }
  }

  lemma SplitLast(ops: seq<Op>)
    requires ops != []
    ensures ops == ops[..|ops| - 1] + [ops[|ops| - 1]]
  {
  }

  lemma NoWinnerAtStart(crypto: Crypto, init: Store, key: SlotHashKey)
    requires Fresh(init)
    ensures IsWinner([], Eligible(crypto, init, [], key), Lookup(Run(crypto, init, []).bestBidPerSlot, key))
  {
  }

  lemma WinnerExtends(crypto: Crypto, init: Store, ops: seq<Op>, op: Op, key: SlotHashKey)
    requires IsWinner(ops, Eligible(crypto, init, ops, key), Lookup(Run(crypto, init, ops).bestBidPerSlot, key))
    ensures IsWinner(ops + [op], Eligible(crypto, init, ops + [op], key),
                     Lookup(Run(crypto, init, ops + [op]).bestBidPerSlot, key))
  {
    assert (ops + [op])[..|ops|] == ops;
    EligibleStep(crypto, init, ops + [op], key);
    WinnerAfter(crypto, Run(crypto, init, ops), ops, Eligible(crypto, init, ops, key), op, key);
  }

  /** One more op: a valid submission for the key is a new candidate, any other op leaves candidates and entry alone. */
  lemma WinnerAfter(crypto: Crypto, store: Store, ops: seq<Op>, candidates: set<int>, op: Op, key: SlotHashKey)
    requires IsWinner(ops, candidates, Lookup(store.bestBidPerSlot, key))
    requires forall i :: i in candidates ==> 0 <= i < |ops|
    ensures var isNew := op.Bid? && KeyOf(op.submission.message) == key && Valid(crypto, store, op.submission);
            IsWinner(ops + [op], candidates + if isNew then {|ops|} else {},
                     Lookup(Apply(crypto, store, op).bestBidPerSlot, key))
  {
    var stored := Lookup(store.bestBidPerSlot, key);
    EntryAfter(crypto, store, op, key);
    if op.Bid? && KeyOf(op.submission.message) == key && Valid(crypto, store, op.submission) {
      WinnerStep(ops, candidates, op, stored);
    } else {
      WinnerSkip(ops, candidates, op, stored);
      assert candidates + {} == candidates;
    }
  }

  lemma EligibleStep(crypto: Crypto, init: Store, ops: seq<Op>, key: SlotHashKey)
    requires ops != []
    ensures Eligible(crypto, init, ops, key)
         == Eligible(crypto, init, ops[..|ops| - 1], key)
            + if ValidOnArrival(crypto, init, ops, key, |ops| - 1) then {|ops| - 1} else {}
  {
    var n := |ops| - 1;
    forall i | 0 <= i < n
      ensures ValidOnArrival(crypto, init, ops, key, i) <==> ValidOnArrival(crypto, init, ops[..n], key, i)
    {
      assert ops[..n][..i] == ops[..i];
    }
  }

  /** A new candidate takes over exactly when its value is strictly greater. */
  lemma WinnerStep(ops: seq<Op>, candidates: set<int>, op: Op, stored: Option<BidSubmission>)
    requires op.Bid?
    requires IsWinner(ops, candidates, stored)
    requires forall i :: i in candidates ==> 0 <= i < |ops|
    ensures IsWinner(ops + [op], candidates + {|ops|},
                     if IsBidHigher(op.submission.message, stored) then Some(op.submission) else stored)
  {
    if stored.Some? {
      var w :| EarliestGreatest(ops, candidates, w) && ops[w] == Bid(stored.value);
      assert (ops + [op])[w] == ops[w];
      if IsBidHigher(op.submission.message, stored) {
        assert EarliestGreatest(ops + [op], candidates + {|ops|}, |ops|);
      } else {
        assert EarliestGreatest(ops + [op], candidates + {|ops|}, w);
      }
    } else {
      assert EarliestGreatest(ops + [op], candidates + {|ops|}, |ops|);
    }
  }

  lemma WinnerSkip(ops: seq<Op>, candidates: set<int>, op: Op, stored: Option<BidSubmission>)
    requires IsWinner(ops, candidates, stored)
    requires forall i :: i in candidates ==> 0 <= i < |ops|
    ensures IsWinner(ops + [op], candidates, stored)
  {
    if stored.Some? {
      var w :| EarliestGreatest(ops, candidates, w) && ops[w] == Bid(stored.value);
      assert EarliestGreatest(ops + [op], candidates, w) && (ops + [op])[w] == Bid(stored.value);
    }
  }

  /** The key's earliest eligible submission of greatest value. */
  ghost predicate Wins(crypto: Crypto, init: Store, ops: seq<Op>, key: SlotHashKey, w: int) {
    EarliestGreatest(ops, Eligible(crypto, init, ops, key), w)
  }

  /** The stored bid is the winner; there is a winner whenever a bid is stored. */
  lemma WinnerIsStored(crypto: Crypto, init: Store, ops: seq<Op>, key: SlotHashKey)
    requires Fresh(init)
    ensures var stored := Lookup(Run(crypto, init, ops).bestBidPerSlot, key);
            && (forall w :: Wins(crypto, init, ops, key, w) ==> stored.Some? && ops[w] == Bid(stored.value))
            && (stored.Some? ==> exists w :: Wins(crypto, init, ops, key, w))
  {
    var stored := Lookup(Run(crypto, init, ops).bestBidPerSlot, key);
    StoredBidIsWinner(crypto, init, ops, key);
    if stored.Some? {
      var w :| EarliestGreatest(ops, Eligible(crypto, init, ops, key), w) && ops[w] == Bid(stored.value);
      assert Wins(crypto, init, ops, key, w);
    }
  }

  lemma EligiblePrefix(crypto: Crypto, init: Store, ops: seq<Op>, key: SlotHashKey, n: nat, i: int)
    requires 0 <= i < n <= |ops|
    ensures i in Eligible(crypto, init, ops[..n], key) <==> i in Eligible(crypto, init, ops, key)
  {
    assert ops[..n][..i] == ops[..i];
  }

  /** The winner was accepted when it arrived: what was stored for its key was an earlier candidate, and lower. */
  lemma WinnerWasAccepted(crypto: Crypto, init: Store, ops: seq<Op>, key: SlotHashKey, w: int)
    requires Fresh(init) && Wins(crypto, init, ops, key, w)
    ensures AcceptedAt(crypto, init, ops, w) && KeyOf(ops[w].submission.message) == key
  {
    StoredBidIsWinner(crypto, init, ops[..w], key);
    var stored := Lookup(Run(crypto, init, ops[..w]).bestBidPerSlot, key);
    if stored.Some? {
      var v :| EarliestGreatest(ops[..w], Eligible(crypto, init, ops[..w], key), v) && ops[..w][v] == Bid(stored.value);
      EligiblePrefix(crypto, init, ops, key, w, v);
    }
  }

  // ----- The arrival order does not matter

  ghost predicate HasValue(ops: seq<Op>, candidates: set<int>, value: nat) {
    exists i :: i in candidates && 0 <= i < |ops| && Value(ops[i]) == value
  }

  predicate SameValue(best: Option<BidSubmission>, best': Option<BidSubmission>) {
    best.Some? == best'.Some? && (best.Some? ==> best.value.message.value == best'.value.message.value)
  }

  /** If every value on offer in one run is on offer in another, the other winner is at least as good. */
  lemma WinnerDominates(ops: seq<Op>, c: set<int>, s: Option<BidSubmission>, ops': seq<Op>, c': set<int>,
                        s': Option<BidSubmission>)
    requires forall v :: HasValue(ops, c, v) ==> HasValue(ops', c', v)
    requires IsWinner(ops, c, s) && IsWinner(ops', c', s')
    ensures s.Some? ==> s'.Some? && s.value.message.value <= s'.value.message.value
  {
    if s.Some? {
      var w :| EarliestGreatest(ops, c, w) && ops[w] == Bid(s.value);
      assert HasValue(ops, c, Value(ops[w]));
      assert HasValue(ops', c', Value(ops[w]));
      if s'.Some? {
        var w' :| EarliestGreatest(ops', c', w') && ops'[w'] == Bid(s'.value);
      }
    }
  }

  /** Two runs whose valid submissions for a key offer the same values store the same value for it. */
  lemma StoredValueDependsOnValues(crypto: Crypto, init: Store, ops: seq<Op>, init': Store, ops': seq<Op>,
                                   key: SlotHashKey)
    requires Fresh(init) && Fresh(init')
    requires forall v :: HasValue(ops, Eligible(crypto, init, ops, key), v)
                    <==> HasValue(ops', Eligible(crypto, init', ops', key), v)
    ensures SameValue(Lookup(Run(crypto, init, ops).bestBidPerSlot, key),
                      Lookup(Run(crypto, init', ops').bestBidPerSlot, key))
  {
    StoredBidIsWinner(crypto, init, ops, key);
    StoredBidIsWinner(crypto, init', ops', key);
    var c, c' := Eligible(crypto, init, ops, key), Eligible(crypto, init', ops', key);
    var s := Lookup(Run(crypto, init, ops).bestBidPerSlot, key);
    var s' := Lookup(Run(crypto, init', ops').bestBidPerSlot, key);
    WinnerDominates(ops, c, s, ops', c', s');
    WinnerDominates(ops', c', s', ops, c, s);
  }

  /** Every submission of the run passes every check but the best-bid one when it arrives. */
  ghost predicate AllValidOnArrival(crypto: Crypto, init: Store, ops: seq<Op>) {
    forall i :: 0 <= i < |ops| ==> NoneOrValid(crypto, init, ops, i)
  }

  ghost predicate NoneOrValid(crypto: Crypto, init: Store, ops: seq<Op>, i: int)
    requires 0 <= i < |ops|
  {
    ops[i].Bid? ==> ValidOnArrival(crypto, init, ops, KeyOf(ops[i].submission.message), i)
  }

  predicate SameBids(ops: seq<Op>, ops': seq<Op>) {
    (forall op :: op in ops && op.Bid? ==> op in ops') && forall op :: op in ops' && op.Bid? ==> op in ops
  }

  lemma ValuesCarryOver(crypto: Crypto, init: Store, ops: seq<Op>, init': Store, ops': seq<Op>, key: SlotHashKey,
                        value: nat)
    requires AllValidOnArrival(crypto, init', ops') && SameBids(ops, ops')
    requires HasValue(ops, Eligible(crypto, init, ops, key), value)
    ensures HasValue(ops', Eligible(crypto, init', ops', key), value)
  {
    var i :| i in Eligible(crypto, init, ops, key) && 0 <= i < |ops| && Value(ops[i]) == value;
    assert ops[i] in ops';
    var j :| 0 <= j < |ops'| && ops'[j] == ops[i];
    assert ValidOnArrival(crypto, init, ops, key, i);
    assert NoneOrValid(crypto, init', ops', j);
    assert j in Eligible(crypto, init', ops', key);
  }

  /**
  Two runs with the same submissions, each valid when it arrives, store the same value for every key: whatever the order
  of arrival, however often each arrives, and whatever other calls come in between.
   */
  lemma ArrivalOrderIsIrrelevant(crypto: Crypto, init: Store, ops: seq<Op>, init': Store, ops': seq<Op>,
                                 key: SlotHashKey)
    requires Fresh(init) && Fresh(init')
    requires AllValidOnArrival(crypto, init, ops) && AllValidOnArrival(crypto, init', ops')
    requires SameBids(ops, ops')
    ensures SameValue(Lookup(Run(crypto, init, ops).bestBidPerSlot, key),
                      Lookup(Run(crypto, init', ops').bestBidPerSlot, key))
  {
    forall v | HasValue(ops, Eligible(crypto, init, ops, key), v)
      ensures HasValue(ops', Eligible(crypto, init', ops', key), v)
    {
      ValuesCarryOver(crypto, init, ops, init', ops', key, v);
    }
    forall v | HasValue(ops', Eligible(crypto, init', ops', key), v)
      ensures HasValue(ops, Eligible(crypto, init, ops, key), v)
    {
      ValuesCarryOver(crypto, init', ops', init, ops, key, v);
    }
    StoredValueDependsOnValues(crypto, init, ops, init', ops', key);
  }

  /** Submissions only, each valid in the store they all start from. */
  ghost predicate AllStayValid(crypto: Crypto, init: Store, ops: seq<Op>) {
    forall i :: 0 <= i < |ops| ==> ops[i].Bid? && Valid(crypto, init, ops[i].submission)
  }

  lemma {:induction false} SubmissionsLeaveEnvironment(crypto: Crypto, init: Store, ops: seq<Op>)
    requires AllStayValid(crypto, init, ops)
    ensures var store := Run(crypto, init, ops);
            store == init.(bestBidPerSlot := store.bestBidPerSlot, bestBidByBlockNumber := store.bestBidByBlockNumber,
                           blindedBlockResp := store.blindedBlockResp)
  {
    if ops != [] {
      SubmissionsLeaveEnvironment(crypto, init, ops[..|ops| - 1]);
    }
  }

  /** Submissions valid at the start, with nothing in between, are valid on arrival in every order. */
  lemma SubmissionsStayValid(crypto: Crypto, init: Store, ops: seq<Op>)
    requires AllStayValid(crypto, init, ops)
    ensures AllValidOnArrival(crypto, init, ops)
  {
    forall i | 0 <= i < |ops|
      ensures NoneOrValid(crypto, init, ops, i)
    {
      assert AllStayValid(crypto, init, ops[..i]);
      SubmissionsLeaveEnvironment(crypto, init, ops[..i]);
    }
  }

  /** The special case of one batch of submissions, in any two orders. */
  lemma PermutedSubmissionsAgree(crypto: Crypto, init: Store, ops: seq<Op>, ops': seq<Op>, key: SlotHashKey)
    requires Fresh(init) && AllStayValid(crypto, init, ops)
    requires multiset(ops) == multiset(ops')
    ensures SameValue(Lookup(Run(crypto, init, ops).bestBidPerSlot, key),
                      Lookup(Run(crypto, init, ops').bestBidPerSlot, key))
  {
    forall i | 0 <= i < |ops'|
      ensures ops'[i].Bid? && Valid(crypto, init, ops'[i].submission)
    {
      var j := SameElements(ops', ops, i);
    }
    forall op
      ensures op in ops <==> op in ops'
    {
      assert op in ops <==> op in multiset(ops);
      assert op in ops' <==> op in multiset(ops');
    }
    SubmissionsStayValid(crypto, init, ops);
    SubmissionsStayValid(crypto, init, ops');
    ArrivalOrderIsIrrelevant(crypto, init, ops, init, ops', key);
  }

  lemma SameElements(a: seq<Op>, b: seq<Op>, i: nat) returns (j: nat)
    requires multiset(a) == multiset(b) && i < |a|
    ensures j < |b| && b[j] == a[i]
  {
    assert a[i] in multiset(a);
    assert a[i] in b;
    j :| 0 <= j < |b| && b[j] == a[i];
  }

  // ----- The payload map agrees with the bids

  ghost predicate AcceptedAt(crypto: Crypto, init: Store, ops: seq<Op>, i: int) {
    0 <= i < |ops| && ops[i].Bid? && Accepts(crypto, Run(crypto, init, ops[..i]), ops[i].submission)
  }

  /** The op is accepted and committed under the duty key `proposer`. */
  predicate CommitsFor(crypto: Crypto, store: Store, op: Op, proposer: PublicKey) {
    op.Bid? && Accepts(crypto, store, op.submission) && DutyKey(store, op.submission) == proposer
  }

  /** If the op is an accepted bid, it names the key of the duty found for its slot; the relay does not check this. */
  predicate NamesDuty(crypto: Crypto, store: Store, op: Op) {
    op.Bid? && Accepts(crypto, store, op.submission) ==>
      CommitsFor(crypto, store, op, op.submission.message.proposerPubkey)
  }

  ghost predicate BidsNameDuties(crypto: Crypto, init: Store, ops: seq<Op>) {
    forall i :: 0 <= i < |ops| ==> NamesDuty(crypto, Run(crypto, init, ops[..i]), ops[i])
  }

  /** The latest op that commits for a proposer. */
  ghost function LatestCommit(crypto: Crypto, init: Store, ops: seq<Op>, proposer: PublicKey): (latest: Option<nat>)
    ensures latest.Some? ==> latest.value < |ops| && ops[latest.value].Bid?
  {
    if ops == [] then None
    else
      var n := |ops| - 1;
      if CommitsFor(crypto, Run(crypto, init, ops[..n]), ops[n], proposer) then Some(n)
      else LatestCommit(crypto, init, ops[..n], proposer)
  }

  ghost predicate CommitAt(crypto: Crypto, init: Store, ops: seq<Op>, proposer: PublicKey, i: int) {
    0 <= i < |ops| && CommitsFor(crypto, Run(crypto, init, ops[..i]), ops[i], proposer)
  }

  lemma CommitAtPrefix(crypto: Crypto, init: Store, ops: seq<Op>, proposer: PublicKey, n: nat, i: int)
    requires i < n <= |ops|
    ensures CommitAt(crypto, init, ops[..n], proposer, i) == CommitAt(crypto, init, ops, proposer, i)
  {
    if 0 <= i {
      assert ops[..n][..i] == ops[..i];
    }
  }

  lemma LatestUnfolds(crypto: Crypto, init: Store, ops: seq<Op>, proposer: PublicKey)
    requires ops != []
    ensures var n := |ops| - 1;
            LatestCommit(crypto, init, ops, proposer)
            == if CommitAt(crypto, init, ops, proposer, n) then Some(n)
               else LatestCommit(crypto, init, ops[..n], proposer)
  {
  }

  /** `LatestCommit` is the last index at which an op commits for the proposer. */
  lemma {:induction false} LatestCommitIsLast(crypto: Crypto, init: Store, ops: seq<Op>, proposer: PublicKey, i: int)
    requires CommitAt(crypto, init, ops, proposer, i)
    ensures var latest := LatestCommit(crypto, init, ops, proposer);
            latest.Some? && i <= latest.value && CommitAt(crypto, init, ops, proposer, latest.value)
  {
    if CommitAt(crypto, init, ops, proposer, |ops| - 1) {
      LatestUnfolds(crypto, init, ops, proposer);
    } else {
      CommitInFront(crypto, init, ops, proposer, i);
      LatestCommitIsLast(crypto, init, ops[..|ops| - 1], proposer, i);
      LatestUnfolds(crypto, init, ops, proposer);
      LatestOfFront(crypto, init, ops, proposer);
    }
  }

  lemma CommitInFront(crypto: Crypto, init: Store, ops: seq<Op>, proposer: PublicKey, i: int)
    requires CommitAt(crypto, init, ops, proposer, i) && !CommitAt(crypto, init, ops, proposer, |ops| - 1)
    ensures i < |ops| - 1 && CommitAt(crypto, init, ops[..|ops| - 1], proposer, i)
  {
    CommitAtPrefix(crypto, init, ops, proposer, |ops| - 1, i);
  }

  /** A commit that is the latest of all ops but the last is one of all ops. */
  lemma LatestOfFront(crypto: Crypto, init: Store, ops: seq<Op>, proposer: PublicKey)
    requires ops != []
    requires var front := ops[..|ops| - 1]; var latest := LatestCommit(crypto, init, front, proposer);
             latest.Some? && CommitAt(crypto, init, front, proposer, latest.value)
    ensures CommitAt(crypto, init, ops, proposer, LatestCommit(crypto, init, ops[..|ops| - 1], proposer).value)
  {
    var n := |ops| - 1;
    CommitAtPrefix(crypto, init, ops, proposer, n, LatestCommit(crypto, init, ops[..n], proposer).value);
  }

  /** The store holds, for `proposer`, the payload of the bid `get_header` serves for the key of `commit`. */
  ghost predicate Agrees(store: Store, commit: BidSubmission, proposer: PublicKey) {
    && commit.message.proposerPubkey == proposer
    && BestFor(store, commit.message).Some?
    && Lookup(store.blindedBlockResp, proposer) == Some(BestFor(store, commit.message).value.ToBlindedBlockResponse())
  }

  lemma CommitAgrees(crypto: Crypto, store: Store, op: Op, proposer: PublicKey)
    requires CommitsFor(crypto, store, op, proposer) && NamesDuty(crypto, store, op)
    ensures Agrees(Apply(crypto, store, op), op.submission, proposer)
  {
    CommitStores(store, op.submission, proposer, KeyOf(op.submission.message));
  }

  /** An op that does not commit for a proposer leaves its payload as it was. */
  lemma OtherOpKeepsPayload(crypto: Crypto, store: Store, op: Op, proposer: PublicKey)
    requires !CommitsFor(crypto, store, op, proposer)
    ensures Lookup(Apply(crypto, store, op).blindedBlockResp, proposer) == Lookup(store.blindedBlockResp, proposer)
  {
    match op {
      case Bid(submission) =>
      case Other(call) => OtherCallKeepsBids(store, call);
    }
  }

  /** ... and, if it names its duty when it is accepted, the bids stored for that proposer too. */
  lemma OtherOpKeepsBid(crypto: Crypto, store: Store, op: Op, key: SlotHashKey)
    requires !CommitsFor(crypto, store, op, key.validator) && NamesDuty(crypto, store, op)
    ensures Lookup(Apply(crypto, store, op).bestBidPerSlot, key) == Lookup(store.bestBidPerSlot, key)
  {
    EntryAfter(crypto, store, op, key);
    if op.Bid? && KeyOf(op.submission.message) == key && Valid(crypto, store, op.submission) {
      assert BestFor(store, op.submission.message) == Lookup(store.bestBidPerSlot, key);
    }
  }

  function ResponseOf(ops: seq<Op>, latest: Option<nat>): Option<BlindedBlockResponse>
    requires latest.Some? ==> latest.value < |ops| && ops[latest.value].Bid?
  {
    if latest.Some? then Some(ops[latest.value].submission.ToBlindedBlockResponse()) else None
  }

  /** In every serialised run a proposer's payload is that of its latest commit, whatever the bids name. */
  lemma {:induction false} PayloadIsLatestCommit(crypto: Crypto, init: Store, ops: seq<Op>, proposer: PublicKey)
    requires Fresh(init)
    ensures Lookup(Run(crypto, init, ops).blindedBlockResp, proposer)
         == ResponseOf(ops, LatestCommit(crypto, init, ops, proposer))
  {
    if ops != [] {
      var n := |ops| - 1;
      PayloadIsLatestCommit(crypto, init, ops[..n], proposer);
      if !CommitsFor(crypto, Run(crypto, init, ops[..n]), ops[n], proposer) {
        OtherOpKeepsPayload(crypto, Run(crypto, init, ops[..n]), ops[n], proposer);
      }
    }
  }

  /**
  In a run where every accepted bid names its duty's key, a proposer has a payload exactly when it has a commit; that
  payload is the one of the bid served for the key of its latest commit; and it is the one of a bid served for another
  key exactly when that bid carries the same payload as the latest commit.
   */
  lemma PayloadAgreesWithHeader(crypto: Crypto, init: Store, ops: seq<Op>, proposer: PublicKey)
    requires Fresh(init) && BidsNameDuties(crypto, init, ops)
    ensures var store, latest := Run(crypto, init, ops), LatestCommit(crypto, init, ops, proposer);
            && (latest.None? ==> Lookup(store.blindedBlockResp, proposer) == None)
            && (latest.Some? ==> Agrees(store, ops[latest.value].submission, proposer))
            && forall key :: key in store.bestBidPerSlot ==>
                 var served := store.bestBidPerSlot[key].ToBlindedBlockResponse();
                 (Lookup(store.blindedBlockResp, proposer) == Some(served) <==>
                  latest.Some? && ops[latest.value].submission.ToBlindedBlockResponse() == served)
  {
    LatestKeyAgrees(crypto, init, ops, proposer);
    PayloadIsLatestCommit(crypto, init, ops, proposer);
  }

  lemma {:induction false} LatestKeyAgrees(crypto: Crypto, init: Store, ops: seq<Op>, proposer: PublicKey)
    requires Fresh(init) && BidsNameDuties(crypto, init, ops)
    ensures var store, latest := Run(crypto, init, ops), LatestCommit(crypto, init, ops, proposer);
            && (latest.None? ==> Lookup(store.blindedBlockResp, proposer) == None)
            && (latest.Some? ==> Agrees(store, ops[latest.value].submission, proposer))
  {
    if ops != [] {
      var n := |ops| - 1;
      NamingPrefix(crypto, init, ops, n);
      LatestKeyAgrees(crypto, init, ops[..n], proposer);
      assert NamesDuty(crypto, Run(crypto, init, ops[..n]), ops[n]);
      AgreementStep(crypto, init, ops, proposer);
    }
  }

  lemma NamingPrefix(crypto: Crypto, init: Store, ops: seq<Op>, n: nat)
    requires BidsNameDuties(crypto, init, ops) && n <= |ops|
    ensures BidsNameDuties(crypto, init, ops[..n])
  {
    forall i | 0 <= i < n
      ensures NamesDuty(crypto, Run(crypto, init, ops[..n][..i]), ops[..n][i])
    {
      assert ops[..n][..i] == ops[..i];
    }
  }

  lemma AgreementStep(crypto: Crypto, init: Store, ops: seq<Op>, proposer: PublicKey)
    requires ops != [] && NamesDuty(crypto, Run(crypto, init, ops[..|ops| - 1]), ops[|ops| - 1])
    requires var front := ops[..|ops| - 1];
             var store, latest := Run(crypto, init, front), LatestCommit(crypto, init, front, proposer);
             && (latest.None? ==> Lookup(store.blindedBlockResp, proposer) == None)
             && (latest.Some? ==> Agrees(store, front[latest.value].submission, proposer))
    ensures var store, latest := Run(crypto, init, ops), LatestCommit(crypto, init, ops, proposer);
            && (latest.None? ==> Lookup(store.blindedBlockResp, proposer) == None)
            && (latest.Some? ==> Agrees(store, ops[latest.value].submission, proposer))
  {
    var n := |ops| - 1;
    var before := Run(crypto, init, ops[..n]);
    if CommitsFor(crypto, before, ops[n], proposer) {
      CommitAgrees(crypto, before, ops[n], proposer);
    } else {
      OtherOpKeepsPayload(crypto, before, ops[n], proposer);
      var latest := LatestCommit(crypto, init, ops[..n], proposer);
      if latest.Some? {
        OtherOpKeepsBid(crypto, before, ops[n], KeyOf(ops[latest.value].submission.message));
      }
    }
  }

  /** With no commit for a proposer in a stretch of a run, its payload stays what it was. */
  lemma {:induction false} PayloadStays(crypto: Crypto, init: Store, ops: seq<Op>, n: nat, proposer: PublicKey)
    requires n <= |ops|
    requires LatestCommit(crypto, init, ops, proposer) == LatestCommit(crypto, init, ops[..n], proposer)
    ensures Lookup(Run(crypto, init, ops).blindedBlockResp, proposer)
         == Lookup(Run(crypto, init, ops[..n]).blindedBlockResp, proposer)
  {
    if n == |ops| {
      assert ops[..n] == ops;
    } else {
      var m := |ops| - 1;
      var before := Run(crypto, init, ops[..m]);
      assert ops[..m][..n] == ops[..n];
      assert !CommitsFor(crypto, before, ops[m], proposer);
      OtherOpKeepsPayload(crypto, before, ops[m], proposer);
      PayloadStays(crypto, init, ops[..m], n, proposer);
    }
  }

  /**
  A header fetched after `n` ops for the key of the proposer's latest commit, and unblinded at the end of the run with
  no commit for the proposer in between: the payload returned is the one the header was built from.
   */
  lemma HeaderThenUnblind(crypto: Crypto, init: Store, ops: seq<Op>, n: nat, proposer: PublicKey)
    requires Fresh(init) && n <= |ops|
    requires BidsNameDuties(crypto, init, ops[..n])
    requires LatestCommit(crypto, init, ops[..n], proposer).Some?
    requires LatestCommit(crypto, init, ops, proposer) == LatestCommit(crypto, init, ops[..n], proposer)
    ensures var commit := ops[LatestCommit(crypto, init, ops, proposer).value].submission.message;
            var served := BestFor(Run(crypto, init, ops[..n]), commit);
            && served.Some?
            && commit.proposerPubkey == proposer
            && Lookup(Run(crypto, init, ops).blindedBlockResp, proposer) == Some(served.value.ToBlindedBlockResponse())
  {
    PayloadAgreesWithHeader(crypto, init, ops[..n], proposer);
    PayloadStays(crypto, init, ops, n, proposer);
  }

  /**
  A header fetched after `n` ops for any key, built from the bid of op `w`, and a payload read at the end of the run.
  For the proposer `w` was committed under: the payload is that of the header exactly when the latest commit for the
  proposer is `w` itself, or a later one that carries the same payload.  For any other proposer: exactly when its latest
  commit, another op, carries the same payload.
   */
  lemma HeaderThenUnblindExactly(crypto: Crypto, init: Store, ops: seq<Op>, n: nat, key: SlotHashKey, w: int,
                                 proposer: PublicKey)
    requires Fresh(init) && n <= |ops| && Wins(crypto, init, ops[..n], key, w)
    ensures AcceptedAt(crypto, init, ops, w)
    ensures var served := ops[w].submission.ToBlindedBlockResponse();
            var latest := LatestCommit(crypto, init, ops, proposer);
            var agree := Lookup(Run(crypto, init, ops).blindedBlockResp, proposer) == Some(served);
            && Lookup(Run(crypto, init, ops[..n]).bestBidPerSlot, key) == Some(ops[w].submission)
            && if CommitAt(crypto, init, ops, proposer, w) then
                 && latest.Some? && w <= latest.value
                 && (agree <==> latest.value == w || ops[latest.value].submission.ToBlindedBlockResponse() == served)
               else
                 && latest != Some(w)
                 && (agree <==> latest.Some? && ops[latest.value].submission.ToBlindedBlockResponse() == served)
  {
    WinnerIsStored(crypto, init, ops[..n], key);
    WinnerWasAccepted(crypto, init, ops[..n], key, w);
    assert ops[..n][..w] == ops[..w];
    PayloadIsLatestCommit(crypto, init, ops, proposer);
    if CommitAt(crypto, init, ops, proposer, w) {
      LatestCommitIsLast(crypto, init, ops, proposer, w);
    } else {
      LatestCommitCommits(crypto, init, ops, proposer);
    }
  }

  lemma {:induction false} LatestCommitCommits(crypto: Crypto, init: Store, ops: seq<Op>, proposer: PublicKey)
    ensures var latest := LatestCommit(crypto, init, ops, proposer);
            latest.Some? ==> CommitAt(crypto, init, ops, proposer, latest.value)
  {
    if ops != [] {
      var n := |ops| - 1;
      LatestUnfolds(crypto, init, ops, proposer);
      if !CommitAt(crypto, init, ops, proposer, n) {
        LatestCommitCommits(crypto, init, ops[..n], proposer);
        if LatestCommit(crypto, init, ops[..n], proposer).Some? {
          LatestOfFront(crypto, init, ops, proposer);
        }
      }
    }
  }

  /** What is served for any key, and handed out to any proposer, after an accepted bid. */
  lemma LookupsAfterCommit(crypto: Crypto, store: Store, submission: BidSubmission, key: SlotHashKey,
                           proposer: PublicKey)
    requires Accepts(crypto, store, submission)
    ensures var store' := Submit(crypto, store, submission);
            && Lookup(store'.bestBidPerSlot, key)
               == (if key == KeyOf(submission.message) then Some(submission) else Lookup(store.bestBidPerSlot, key))
            && Lookup(store'.blindedBlockResp, proposer)
               == (if proposer == DutyKey(store, submission) then Some(submission.ToBlindedBlockResponse())
                   else Lookup(store.blindedBlockResp, proposer))
  {
    CommitStores(store, submission, DutyKey(store, submission), key);
  }

  /** The bid is accepted; its proposer can fetch its header, but the payload is there only for another key. */
  ghost predicate Misplaced(crypto: Crypto, store: Store, submission: BidSubmission, other: PublicKey) {
    && Fresh(store) && Accepts(crypto, store, submission)
    && var store' := Submit(crypto, store, submission);
    && BestFor(store', submission.message) == Some(submission)
    && Lookup(store'.blindedBlockResp, submission.message.proposerPubkey) == None
    && Lookup(store'.blindedBlockResp, other) == Some(submission.ToBlindedBlockResponse())
  }

  /** A fresh store in which a bid passes every check, under a duty of some validator. */
  function StoreFor(submission: BidSubmission, forkData: ForkDatas, entry: ValidatorRegistration): Store
    requires submission.message.slot > 0
  {
    var bid, payload := submission.message, submission.executionPayload;
    Store(bid.slot - 1, PayloadAttributes(bid.slot, payload.blockNumber, bid.parentHash, payload.prevRandao),
          [Validator(bid.slot, 0, entry)], map[entry.message.pubkey := entry], [bid.builderPubkey], map[], map[], map[],
          forkData, map[], [], Metrics(0, 0, 0))
  }

  /** Without naming the duty's key, header and payload need not agree: every signed bid can be misplaced. */
  lemma AnyBidCanBeMisplaced(crypto: Crypto, submission: BidSubmission, forkData: ForkDatas,
                             entry: ValidatorRegistration)
    requires submission.message.slot > 0 && submission.message.value > 0
    requires crypto.VerifyBid(submission.message, submission.signature, forkData.builderDomain)
    requires entry.message.pubkey != submission.message.proposerPubkey
    ensures Misplaced(crypto, StoreFor(submission, forkData, entry), submission, entry.message.pubkey)
  {
    var store := StoreFor(submission, forkData, entry);
    assert FindDuty(store.proposerDuties, submission.message.slot)
           == Some(Validator(submission.message.slot, 0, entry));
    LookupsAfterCommit(crypto, store, submission, KeyOf(submission.message), submission.message.proposerPubkey);
  }

  /** Both bids pass every check in the same fresh store, under a duty of the proposer they name. */
  ghost predicate Rivals(crypto: Crypto, a: BidSubmission, b: BidSubmission, forkData: ForkDatas,
                         entry: ValidatorRegistration) {
    && a.message.slot == b.message.slot > 0
    && a.message.value > 0 && b.message.value > 0
    && a.message.builderPubkey == b.message.builderPubkey
    && a.message.proposerPubkey == b.message.proposerPubkey == entry.message.pubkey
    && a.executionPayload.prevRandao == b.executionPayload.prevRandao
    && crypto.VerifyBid(a.message, a.signature, forkData.builderDomain)
    && crypto.VerifyBid(b.message, b.signature, forkData.builderDomain)
    && a.ToBlindedBlockResponse() != b.ToBlindedBlockResponse()
  }

  /** After both bids: a is still served for its key, both name their duty, and the payload handed out is that of b. */
  ghost predicate PayloadOvertaken(crypto: Crypto, init: Store, a: BidSubmission, b: BidSubmission, n: nat)
    requires n <= 2
  {
    var ops := [Bid(a), Bid(b)];
    && Fresh(init) && BidsNameDuties(crypto, init, ops)
    && AcceptedAt(crypto, init, ops, 0) && AcceptedAt(crypto, init, ops, 1)
    && BestFor(Run(crypto, init, ops[..n]), a.message) == Some(a)
    && Lookup(Run(crypto, init, ops).blindedBlockResp, a.message.proposerPubkey) == Some(b.ToBlindedBlockResponse())
    && b.ToBlindedBlockResponse() != a.ToBlindedBlockResponse()
  }

  lemma RunOfTwo(crypto: Crypto, init: Store, a: Op, b: Op)
    ensures [a, b][..0] == [] && [a, b][..1] == [a] && [a, b][..2] == [a, b]
    ensures Run(crypto, init, [a]) == Apply(crypto, init, a)
    ensures Run(crypto, init, [a, b]) == Apply(crypto, Apply(crypto, init, a), b)
  {
    assert [a][..0] == [] && [a, b][..1] == [a];
  }

  lemma RivalsAccepted(crypto: Crypto, a: BidSubmission, b: BidSubmission, forkData: ForkDatas,
                       entry: ValidatorRegistration)
    requires Rivals(crypto, a, b, forkData, entry)
    requires KeyOf(a.message) == KeyOf(b.message) ==> a.message.value < b.message.value
    ensures var init := StoreFor(a, forkData, entry);
            && Accepts(crypto, init, a) && DutyKey(init, a) == entry.message.pubkey
            && Accepts(crypto, Submit(crypto, init, a), b)
               && DutyKey(Submit(crypto, init, a), b) == entry.message.pubkey
  {
    var init := StoreFor(a, forkData, entry);
    assert FindDuty(init.proposerDuties, a.message.slot) == Some(Validator(a.message.slot, 0, entry));
    CommitStores(init, a, entry.message.pubkey, KeyOf(b.message));
  }

  lemma RivalsNameDuties(crypto: Crypto, init: Store, a: BidSubmission, b: BidSubmission, key: PublicKey)
    requires Accepts(crypto, init, a) && DutyKey(init, a) == key == a.message.proposerPubkey
    requires var after := Submit(crypto, init, a);
             Accepts(crypto, after, b) && DutyKey(after, b) == key == b.message.proposerPubkey
    ensures var ops := [Bid(a), Bid(b)];
            && BidsNameDuties(crypto, init, ops)
            && AcceptedAt(crypto, init, ops, 0) && AcceptedAt(crypto, init, ops, 1)
  {
    var ops := [Bid(a), Bid(b)];
    RunOfTwo(crypto, init, Bid(a), Bid(b));
    forall i | 0 <= i < |ops|
      ensures NamesDuty(crypto, Run(crypto, init, ops[..i]), ops[i])
    {
      if i == 1 {
        assert CommitsFor(crypto, Submit(crypto, init, a), ops[1], key);
      }
    }
  }

  lemma RivalsStore(crypto: Crypto, init: Store, a: BidSubmission, b: BidSubmission, key: PublicKey)
    requires Accepts(crypto, init, a) && DutyKey(init, a) == key
    requires var after := Submit(crypto, init, a); Accepts(crypto, after, b) && DutyKey(after, b) == key
    ensures var after := Submit(crypto, init, a);
            && BestFor(after, a.message) == Some(a)
            && (KeyOf(a.message) != KeyOf(b.message) ==> BestFor(Submit(crypto, after, b), a.message) == Some(a))
            && Lookup(Submit(crypto, after, b).blindedBlockResp, key) == Some(b.ToBlindedBlockResponse())
  {
    CommitStores(init, a, key, KeyOf(a.message));
    CommitStores(Submit(crypto, init, a), b, key, KeyOf(a.message));
  }

  /**
  Two ways header and payload part although every bid names its duty.  Bids for two parent hashes: at the end (n = 2)
  the header served for the first parent is not that of the payload.  A higher bid for the same key: the header fetched
  before it (n = 1) is not that of the payload handed out after it.
   */
  lemma LaterCommitTakesPayload(crypto: Crypto, a: BidSubmission, b: BidSubmission, forkData: ForkDatas,
                                entry: ValidatorRegistration)
    requires Rivals(crypto, a, b, forkData, entry)
    ensures a.message.parentHash != b.message.parentHash
            ==> PayloadOvertaken(crypto, StoreFor(a, forkData, entry), a, b, 2)
    ensures a.message.parentHash == b.message.parentHash && a.message.value < b.message.value
            ==> PayloadOvertaken(crypto, StoreFor(a, forkData, entry), a, b, 1)
  {
    if a.message.parentHash != b.message.parentHash || a.message.value < b.message.value {
      var init := StoreFor(a, forkData, entry);
      var ops := [Bid(a), Bid(b)];
      RunOfTwo(crypto, init, Bid(a), Bid(b));
      RivalsAccepted(crypto, a, b, forkData, entry);
      RivalsStore(crypto, init, a, b, entry.message.pubkey);
      RivalsNameDuties(crypto, init, a, b, entry.message.pubkey);
    }
  }

  // ----- Entries freeze when the head reaches their slot

  /** The head slot never goes back and stays below the last 64-bit slot. */
  ghost predicate HeadsAdvance(crypto: Crypto, init: Store, ops: seq<Op>) {
    forall i, j :: 0 <= i <= j <= |ops| ==> HeadAdvances(crypto, init, ops, i, j)
  }

  ghost predicate HeadAdvances(crypto: Crypto, init: Store, ops: seq<Op>, i: nat, j: nat)
    requires i <= j <= |ops|
  {
    Run(crypto, init, ops[..i]).slot <= Run(crypto, init, ops[..j]).slot < MAX_U64
  }

  lemma CommitSlotsAdvance(crypto: Crypto, init: Store, ops: seq<Op>, i: nat, j: nat)
    requires HeadsAdvance(crypto, init, ops)
    requires i < j && AcceptedAt(crypto, init, ops, i) && AcceptedAt(crypto, init, ops, j)
    ensures ops[i].submission.message.slot <= ops[j].submission.message.slot
  {
    assert HeadAdvances(crypto, init, ops, i, j);
  }

  lemma HeadsAdvancePrefix(crypto: Crypto, init: Store, ops: seq<Op>, m: nat)
    requires HeadsAdvance(crypto, init, ops) && m <= |ops|
    ensures HeadsAdvance(crypto, init, ops[..m])
  {
    forall i, j | 0 <= i <= j <= m
      ensures HeadAdvances(crypto, init, ops[..m], i, j)
    {
      assert ops[..m][..i] == ops[..i] && ops[..m][..j] == ops[..j];
      assert HeadAdvances(crypto, init, ops, i, j);
    }
  }

  /** A single op leaves the entries of slots the head has reached alone. */
  lemma ReachedSlotKept(crypto: Crypto, store: Store, op: Op, key: SlotHashKey)
    requires key.slot <= store.slot < MAX_U64
    ensures Lookup(Apply(crypto, store, op).bestBidPerSlot, key) == Lookup(store.bestBidPerSlot, key)
  {
    EntryAfter(crypto, store, op, key);
  }

  /** Once the head has reached a key's slot, the entry for the key is frozen for the rest of the run. */
  lemma {:induction false} EntryFreezes(crypto: Crypto, init: Store, ops: seq<Op>, n: nat, key: SlotHashKey)
    requires HeadsAdvance(crypto, init, ops)
    requires n <= |ops| && key.slot <= Run(crypto, init, ops[..n]).slot
    ensures Lookup(Run(crypto, init, ops).bestBidPerSlot, key)
            == Lookup(Run(crypto, init, ops[..n]).bestBidPerSlot, key)
  {
    if n == |ops| {
      assert ops[..n] == ops;
    } else {
      var m := |ops| - 1;
      HeadsAdvancePrefix(crypto, init, ops, m);
      assert ops[..m][..n] == ops[..n];
      EntryFreezes(crypto, init, ops[..m], n, key);
      LastOpKeepsReached(crypto, init, ops, n, key);
    }
  }

  lemma LastOpKeepsReached(crypto: Crypto, init: Store, ops: seq<Op>, n: nat, key: SlotHashKey)
    requires HeadsAdvance(crypto, init, ops)
    requires n < |ops| && key.slot <= Run(crypto, init, ops[..n]).slot
    ensures Lookup(Run(crypto, init, ops).bestBidPerSlot, key)
         == Lookup(Run(crypto, init, ops[..|ops| - 1]).bestBidPerSlot, key)
  {
    HeadStaysReached(crypto, init, ops, n, |ops| - 1, key);
    ReachedSlotKept(crypto, Run(crypto, init, ops[..|ops| - 1]), ops[|ops| - 1], key);
  }

  lemma HeadStaysReached(crypto: Crypto, init: Store, ops: seq<Op>, n: nat, m: nat, key: SlotHashKey)
    requires HeadsAdvance(crypto, init, ops)
    requires n <= m <= |ops| && key.slot <= Run(crypto, init, ops[..n]).slot
    ensures key.slot <= Run(crypto, init, ops[..m]).slot < MAX_U64
  {
    assert HeadAdvances(crypto, init, ops, n, m);
  }
}
