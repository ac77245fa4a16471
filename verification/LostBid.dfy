/** The interleaving that loses a bid: a lower one that was checked before a higher one was committed replaces it. */
module LostBid {
  import opened Options
  import opened Types
  import opened Storage
  import opened Submission
  import opened SerialSubmission
  import opened System

  function At(submission: BidSubmission, pc: Pc): Process {
    HttpSubmit(HttpHandler(submission, pc))
  }

  lemma UpdateTwice<T>(m: map<nat, T>, tid: nat, a: T, b: T)
    ensures m[tid := a][tid := b] == m[tid := b]
  {
  }

  /** One step of an HTTP submission, which is at `pc` among other processes. */
  lemma SubmissionStep(crypto: Crypto, init: Store, starts: map<nat, Process>, state: State, others: map<nat, Process>,
                       tid: nat, submission: BidSubmission, pc: Pc)
    returns (state': State)
    requires Reachable(crypto, init, starts, state)
    requires state.processes == others[tid := At(submission, pc)]
    requires HttpCall(HttpHandler(submission, pc)).Some?
    ensures Reachable(crypto, init, starts, state')
    ensures var (http, call) := (HttpHandler(submission, pc), HttpCall(HttpHandler(submission, pc)).value);
            && state'.store == Exec(state.store, call)
            && state'.processes == others[tid := HttpSubmit(HttpResume(crypto, http, Answer(state.store, call)))]
  {
    StepIsReachable(crypto, init, starts, state, tid);
    state' := Step(crypto, state, tid);
    UpdateTwice(others, tid, At(submission, pc), state'.processes[tid]);
  }

  /** What the next read of an acceptable submission takes it to. */
  function Passed(store: Store, submission: BidSubmission, pc: Pc): Pc
    requires FindDuty(store.proposerDuties, submission.message.slot).Some?
  {
    match pc
    case AtBest => AtWhitelist
    case AtWhitelist => AtHead
    case AtHead => AtAttributes
    case AtAttributes => AtDuty
    case AtDuty => AtForkData(DutyKey(store, submission))
    case AtForkData(key) => AtCommitBid(key)
    case _ => pc
  }

  /** What a read of an acceptable submission returns lets it pass, and the read changes nothing. */
  lemma ReadPasses(crypto: Crypto, store: Store, submission: BidSubmission, pc: Pc)
    requires Accepts(crypto, store, submission)
    requires var call := HttpCall(HttpHandler(submission, pc)); call.Some? && !pc.AtCommitBid? && !pc.AtCommitPayload?
    ensures var (http, call) := (HttpHandler(submission, pc), HttpCall(HttpHandler(submission, pc)).value);
            && HttpResume(crypto, http, Answer(store, call)) == HttpHandler(submission, Passed(store, submission, pc))
            && Exec(store, call) == store
  {
  }

  lemma CheckPasses(crypto: Crypto, init: Store, starts: map<nat, Process>, state: State, others: map<nat, Process>,
                    tid: nat, submission: BidSubmission, pc: Pc)
    returns (state': State)
    requires Reachable(crypto, init, starts, state)
    requires state.processes == others[tid := At(submission, pc)]
    requires Accepts(crypto, state.store, submission)
    requires var call := HttpCall(HttpHandler(submission, pc)); call.Some? && !pc.AtCommitBid? && !pc.AtCommitPayload?
    ensures Reachable(crypto, init, starts, state')
    ensures state'.store == state.store
    ensures state'.processes == others[tid := At(submission, Passed(state.store, submission, pc))]
  {
    ReadPasses(crypto, state.store, submission, pc);
    state' := SubmissionStep(crypto, init, starts, state, others, tid, submission, pc);
  }

  /** A submission that would be accepted can be brought to the point where it is about to commit. */
  lemma ChecksPass(crypto: Crypto, init: Store, starts: map<nat, Process>, state: State, others: map<nat, Process>,
                   tid: nat, submission: BidSubmission)
    returns (state': State)
    requires Reachable(crypto, init, starts, state)
    requires state.processes == others[tid := At(submission, AtBest)]
    requires Accepts(crypto, state.store, submission)
    ensures Reachable(crypto, init, starts, state')
    ensures state'.store == state.store
    ensures state'.processes == others[tid := At(submission, AtCommitBid(DutyKey(state.store, submission)))]
  {
    state' := CheckPasses(crypto, init, starts, state, others, tid, submission, AtBest);
    state' := CheckPasses(crypto, init, starts, state', others, tid, submission, AtWhitelist);
    state' := CheckPasses(crypto, init, starts, state', others, tid, submission, AtHead);
    state' := CheckPasses(crypto, init, starts, state', others, tid, submission, AtAttributes);
    state' := LastChecksPass(crypto, init, starts, state', others, tid, submission);
  }

  lemma LastChecksPass(crypto: Crypto, init: Store, starts: map<nat, Process>, state: State, others: map<nat, Process>,
                       tid: nat, submission: BidSubmission)
    returns (state': State)
    requires Reachable(crypto, init, starts, state)
    requires state.processes == others[tid := At(submission, AtDuty)]
    requires Accepts(crypto, state.store, submission)
    ensures Reachable(crypto, init, starts, state')
    ensures state'.store == state.store
    ensures state'.processes == others[tid := At(submission, AtCommitBid(DutyKey(state.store, submission)))]
  {
    var key := DutyKey(state.store, submission);
    state' := CheckPasses(crypto, init, starts, state, others, tid, submission, AtDuty);
    state' := CheckPasses(crypto, init, starts, state', others, tid, submission, AtForkData(key));
  }

  /** The first of the two writes of an accepted submission ... */
  lemma WritesBid(crypto: Crypto, init: Store, starts: map<nat, Process>, state: State, others: map<nat, Process>,
                  tid: nat, submission: BidSubmission, key: PublicKey)
    returns (state': State)
    requires Reachable(crypto, init, starts, state)
    requires state.processes == others[tid := At(submission, AtCommitBid(key))]
    ensures Reachable(crypto, init, starts, state')
    ensures state'.store == Exec(state.store, SetBestBid(submission.message.slot, submission))
    ensures state'.processes == others[tid := At(submission, AtCommitPayload(key))]
  {
    state' := SubmissionStep(crypto, init, starts, state, others, tid, submission, AtCommitBid(key));
  }

  /** ... and the second. */
  lemma WritesPayload(crypto: Crypto, init: Store, starts: map<nat, Process>, state: State, others: map<nat, Process>,
                      tid: nat, submission: BidSubmission, key: PublicKey)
    returns (state': State)
    requires Reachable(crypto, init, starts, state)
    requires state.processes == others[tid := At(submission, AtCommitPayload(key))]
    ensures Reachable(crypto, init, starts, state')
    ensures state'.store == Exec(state.store, SetBlindedBlockResponse(key, submission.ToBlindedBlockResponse()))
    ensures state'.processes == others[tid := At(submission, Returned(Accepted))]
  {
    state' := SubmissionStep(crypto, init, starts, state, others, tid, submission, AtCommitPayload(key));
  }

  lemma Commits(crypto: Crypto, init: Store, starts: map<nat, Process>, state: State, others: map<nat, Process>,
                tid: nat, submission: BidSubmission, key: PublicKey)
    returns (state': State)
    requires Reachable(crypto, init, starts, state)
    requires state.processes == others[tid := At(submission, AtCommitBid(key))]
    ensures Reachable(crypto, init, starts, state')
    ensures state'.store == Commit(state.store, submission, key)
    ensures state'.processes == others[tid := At(submission, Returned(Accepted))]
  {
    state' := WritesBid(crypto, init, starts, state, others, tid, submission, key);
    state' := WritesPayload(crypto, init, starts, state', others, tid, submission, key);
  }

  // ----- Two submissions, process 0 and process 1

  function Both(low: BidSubmission, a: Pc, high: BidSubmission, b: Pc): map<nat, Process> {
    map[0 := At(low, a), 1 := At(high, b)]
  }

  /** The two processes, seen as one among the other. */
  lemma BothAsOne(low: BidSubmission, a: Pc, high: BidSubmission, b: Pc)
    ensures Both(low, a, high, b) == map[1 := At(high, b)][0 := At(low, a)] == map[0 := At(low, a)][1 := At(high, b)]
  {
  }

  lemma BothChecksPass(crypto: Crypto, init: Store, low: BidSubmission, high: BidSubmission) returns (state: State)
    requires Accepts(crypto, init, low) && Accepts(crypto, init, high)
    ensures Reachable(crypto, init, Both(low, AtBest, high, AtBest), state)
    ensures state.store == init
    ensures state.processes == Both(low, AtCommitBid(DutyKey(init, low)), high, AtCommitBid(DutyKey(init, high)))
  {
    var starts, key, key' := Both(low, AtBest, high, AtBest), DutyKey(init, low), DutyKey(init, high);
    state := Execute(crypto, init, starts, []);
    assert Reachable(crypto, init, starts, state);
    BothAsOne(low, AtBest, high, AtBest);
    state := ChecksPass(crypto, init, starts, state, map[1 := At(high, AtBest)], 0, low);
    BothAsOne(low, AtCommitBid(key), high, AtBest);
    state := ChecksPass(crypto, init, starts, state, map[0 := At(low, AtCommitBid(key))], 1, high);
    BothAsOne(low, AtCommitBid(key), high, AtCommitBid(key'));
  }

  lemma LaterCommitStays(store: Store, low: BidSubmission, high: BidSubmission, key: PublicKey)
    requires KeyOf(low.message) == KeyOf(high.message)
    ensures BestFor(Commit(store, low, key), high.message) == Some(low)
  {
  }

  /** Both submissions are reported as accepted, and the store holds the lower bid. */
  ghost predicate HigherBidLost(crypto: Crypto, init: Store, low: BidSubmission, high: BidSubmission, state: State) {
    && Reachable(crypto, init, Both(low, AtBest, high, AtBest), state)
    && state.processes == Both(low, Returned(Accepted), high, Returned(Accepted))
    && BestFor(state.store, high.message) == Some(low)
  }

  /**
  Any two valid submissions for one key can be interleaved so that both are accepted and the lower bid ends up stored:
  the best bid is not the greatest accepted one in every run.
   */
  lemma HigherBidCanBeLost(crypto: Crypto, init: Store, low: BidSubmission, high: BidSubmission)
    requires Fresh(init)
    requires Valid(crypto, init, low) && Valid(crypto, init, high)
    requires KeyOf(low.message) == KeyOf(high.message) && low.message.value < high.message.value
    ensures exists state :: HigherBidLost(crypto, init, low, high, state)
  {
    var starts, key, key' := Both(low, AtBest, high, AtBest), DutyKey(init, low), DutyKey(init, high);
    var s2 := BothChecksPass(crypto, init, low, high);
    BothAsOne(low, AtCommitBid(key), high, AtCommitBid(key'));
    var s3 := Commits(crypto, init, starts, s2, map[0 := At(low, AtCommitBid(key))], 1, high, key');
    BothAsOne(low, AtCommitBid(key), high, Returned(Accepted));
    var s4 := Commits(crypto, init, starts, s3, map[1 := At(high, Returned(Accepted))], 0, low, key);
    BothAsOne(low, Returned(Accepted), high, Returned(Accepted));
    LaterCommitStays(s3.store, low, high, key);
    assert HigherBidLost(crypto, init, low, high, s4);
  }

  // ----- The two writes of two submissions, crossed

  /** Both submissions are accepted; the header served is that of the higher bid, the payload that of the lower. */
  ghost predicate PayloadCrossed(crypto: Crypto, init: Store, low: BidSubmission, high: BidSubmission, state: State) {
    && Reachable(crypto, init, Both(low, AtBest, high, AtBest), state)
    && state.processes == Both(low, Returned(Accepted), high, Returned(Accepted))
    && BestFor(state.store, high.message) == Some(high)
    && Lookup(state.store.blindedBlockResp, high.message.proposerPubkey) == Some(low.ToBlindedBlockResponse())
    && low.ToBlindedBlockResponse() != high.ToBlindedBlockResponse()
  }

  lemma CrossedStore(init: Store, low: BidSubmission, high: BidSubmission, proposer: PublicKey)
    requires KeyOf(low.message) == KeyOf(high.message)
    ensures var committed := Commit(Exec(init, SetBestBid(low.message.slot, low)), high, proposer);
            var store := Exec(committed, SetBlindedBlockResponse(proposer, low.ToBlindedBlockResponse()));
            && BestFor(store, high.message) == Some(high)
            && Lookup(store.blindedBlockResp, proposer) == Some(low.ToBlindedBlockResponse())
  {
  }

  /**
  Any two valid submissions for one key, both naming the key of their duty, can be interleaved so that the higher is
  stored, as it should be, and the payload handed out is that of the lower: the lower writes its bid first and its
  payload last.
   */
  lemma PayloadCanBeCrossed(crypto: Crypto, init: Store, low: BidSubmission, high: BidSubmission)
    requires Fresh(init)
    requires Valid(crypto, init, low) && Valid(crypto, init, high)
    requires KeyOf(low.message) == KeyOf(high.message) && low.message.value < high.message.value
    requires DutyKey(init, low) == DutyKey(init, high) == high.message.proposerPubkey
    requires low.ToBlindedBlockResponse() != high.ToBlindedBlockResponse()
    ensures exists state :: PayloadCrossed(crypto, init, low, high, state)
  {
    var starts, proposer := Both(low, AtBest, high, AtBest), high.message.proposerPubkey;
    var state := BothChecksPass(crypto, init, low, high);
    BothAsOne(low, AtCommitBid(proposer), high, AtCommitBid(proposer));
    state := WritesBid(crypto, init, starts, state, map[1 := At(high, AtCommitBid(proposer))], 0, low, proposer);
    BothAsOne(low, AtCommitPayload(proposer), high, AtCommitBid(proposer));
    state := Commits(crypto, init, starts, state, map[0 := At(low, AtCommitPayload(proposer))], 1, high, proposer);
    BothAsOne(low, AtCommitPayload(proposer), high, Returned(Accepted));
    state := WritesPayload(crypto, init, starts, state, map[1 := At(high, Returned(Accepted))], 0, low, proposer);
    BothAsOne(low, Returned(Accepted), high, Returned(Accepted));
    CrossedStore(init, low, high, proposer);
    assert PayloadCrossed(crypto, init, low, high, state);
  }
}
