/**
Registrations and duties among interleaved handlers: every registration stands under its own key, and every stored duty
joins a beacon duty with a registration that was in the map when the refresh read it, even if batches replace the map.
 */
module InterleavedDuties {
  import opened Options
  import opened Types
  import opened Storage
  import opened Registration
  import opened Duties
  import opened System
  import opened SubmissionHistory
  import opened InterleavedAuction

  // ----- Registrations

  predicate WritesOwnKeys(process: Process) {
    process.RegisterBatch? && process.register.pc.RegisterAtWrite? ==> OwnKeys(process.register.pc.registrations)
  }

  lemma {:induction false} BatchesWriteOwnKeys(crypto: Crypto, init: Store, start: Process, history: seq<Exchange>)
    requires IsStart(init, start)
    ensures WritesOwnKeys(After(crypto, start, history))
  {
    if history != [] {
      var n := |history| - 1;
      BatchesWriteOwnKeys(crypto, init, start, history[..n]);
      var (before, reply) := (After(crypto, start, history[..n]), history[n].reply);
      if before.RegisterBatch? && reply.ForkReply? {
        RegistrationMapHasOwnKeys(crypto, reply.forkData.builderDomain, before.register.batch);
      }
    }
  }

  lemma OnlyBatchesRegister(process: Process)
    requires NextCall(process).Some? && NextCall(process).value.SetValidatorRegistrations?
    ensures process.RegisterBatch? && process.register.pc == RegisterAtWrite(NextCall(process).value.registrations)
  {
  }

  lemma RegistrationsAfter(store: Store, call: Call)
    ensures Exec(store, call).validatorRegistrations
         == if call.SetValidatorRegistrations? then call.registrations else store.validatorRegistrations
  {
  }

  lemma DutiesAfter(store: Store, call: Call)
    ensures Exec(store, call).proposerDuties == if call.SetProposerDuties? then call.duties else store.proposerDuties
  {
  }

  /** In every run every registration is stored under its own message's key. */
  lemma {:induction false} RegistrationsHaveOwnKeys(crypto: Crypto, init: Store, starts: map<nat, Process>,
                                                    log: seq<Entry>)
    requires IsRun(crypto, init, starts, log) && OwnKeys(init.validatorRegistrations)
    ensures OwnKeys(StoreAfter(init, log).validatorRegistrations)
  {
    if log != [] {
      var n := |log| - 1;
      RunPrefix(crypto, init, starts, log, n);
      RegistrationsHaveOwnKeys(crypto, init, starts, log[..n]);
      RegistrationsAfter(StoreAfter(init, log[..n]), log[n].call);
      if log[n].call.SetValidatorRegistrations? {
        assert EntryFits(crypto, init, starts, log, n);
        var start, history := starts[log[n].tid], Own(log[..n], log[n].tid);
        OnlyBatchesRegister(After(crypto, start, history));
        BatchesWriteOwnKeys(crypto, init, start, history);
      }
    }
  }

  /** What the history of a registration batch says, by where it stands. */
  predicate RegisterExplained(crypto: Crypto, batch: seq<Candidate>, pc: RegisterPc, history: seq<Exchange>) {
    match pc
    case RegisterAtForkData => history == []
    case RegisterAtWrite(registrations) =>
      && |history| == 1 && history[0].call == ReadForkData && history[0].reply.ForkReply?
      && registrations == RegistrationMap(crypto, history[0].reply.forkData.builderDomain, batch)
    case RegisterReturned => true
  }

  lemma {:induction false} RegisterHistory(crypto: Crypto, start: Process, history: seq<Exchange>)
    requires start.RegisterBatch? && start.register.pc == RegisterAtForkData
    requires Follows(crypto, start, history)
    ensures var process := After(crypto, start, history);
            && process.RegisterBatch? && process.register.batch == start.register.batch
            && RegisterExplained(crypto, start.register.batch, process.register.pc, history)
  {
    if history != [] {
      RegisterHistory(crypto, start, history[..|history| - 1]);
    }
  }

  /**
  In every run a batch writes a map that holds exactly the keys of its active candidates whose signatures verify in the
  builder domain, each with the last such candidate.
   */
  lemma BatchesWriteExactly(crypto: Crypto, init: Store, starts: map<nat, Process>, log: seq<Entry>, j: nat)
    requires IsRun(crypto, init, starts, log)
    requires j < |log| && log[j].call.SetValidatorRegistrations?
    ensures log[j].tid in starts && starts[log[j].tid].RegisterBatch?
    ensures RegistersExactly(crypto, init.forkData.builderDomain, starts[log[j].tid].register.batch,
                             log[j].call.registrations)
  {
    assert EntryFits(crypto, init, starts, log, j);
    var tid := log[j].tid;
    var start, history := starts[tid], Own(log[..j], tid);
    RunPrefix(crypto, init, starts, log, j);
    OwnFollows(crypto, init, starts, log[..j], tid);
    OnlyBatchesRegister(After(crypto, start, history));
    KindIsKept(crypto, start, history);
    RegisterHistory(crypto, start, history);
    var f := EarlierExchange(crypto, init, starts, log, tid, j, 0);
    ForkDataIsConstant(init, log[..f]);
    forall key
      ensures KeyRegistered(crypto, init.forkData.builderDomain, start.register.batch, log[j].call.registrations, key)
    {
      BatchRegisters(crypto, init.forkData.builderDomain, start.register.batch, key);
    }
  }

  /** ... and that map stays until the next batch writes. */
  lemma {:induction false} RegistrationsStay(init: Store, log: seq<Entry>, j: nat)
    requires j < |log| && log[j].call.SetValidatorRegistrations?
    requires forall i :: j < i < |log| ==> !log[i].call.SetValidatorRegistrations?
    ensures StoreAfter(init, log).validatorRegistrations == log[j].call.registrations
  {
    var n := |log| - 1;
    RegistrationsAfter(StoreAfter(init, log[..n]), log[n].call);
    if j < n {
      RegistrationsStay(init, log[..n], j);
    }
  }

  /** In every run the registrations are those of the last batch that has written, exactly. */
  lemma RegistrationsAreOfLastBatch(crypto: Crypto, init: Store, starts: map<nat, Process>, log: seq<Entry>, j: nat)
    requires IsRun(crypto, init, starts, log)
    requires j < |log| && log[j].call.SetValidatorRegistrations?
    requires forall i :: j < i < |log| ==> !log[i].call.SetValidatorRegistrations?
    ensures log[j].tid in starts && starts[log[j].tid].RegisterBatch?
    ensures RegistersExactly(crypto, init.forkData.builderDomain, starts[log[j].tid].register.batch,
                             StoreAfter(init, log).validatorRegistrations)
  {
    BatchesWriteExactly(crypto, init, starts, log, j);
    RegistrationsStay(init, log, j);
  }

  // ----- Duties

  function RegistrationFound(e: Exchange): Option<ValidatorRegistration> {
    if e.reply.RegistrationReply? then e.reply.registration else None
  }

  /** A join with one more duty looked up, given what was read for its key. */
  function JoinOne(joined: seq<Validator>, duty: ProposerDutiesData,
                   read: Option<ValidatorRegistration>): seq<Validator> {
    if read.Some? then joined + [Validator(duty.slot, duty.validatorIndex, read.value)] else joined
  }

  /** The join a refresh has built after looking up its first `n` duties, from the replies it got. */
  function JoinedOf(duties: seq<ProposerDutiesData>, history: seq<Exchange>, n: nat): seq<Validator>
    requires n <= |duties| && n < |history|
  {
    if n == 0 then []
    else JoinOne(JoinedOf(duties, history, n - 1), duties[n - 1], RegistrationFound(history[n]))
  }

  predicate LookedUp(duties: seq<ProposerDutiesData>, history: seq<Exchange>, n: nat) {
    && n <= |duties| && n < |history|
    && history[0].call == EmptyValidatorRegs
    && forall k :: 0 <= k < n ==> history[k + 1].call == ReadValidatorRegistration(duties[k].pubkey)
  }

  /** The refresh has looked up its first `n` duties and joined what it read. */
  predicate ReadSoFar(duties: seq<ProposerDutiesData>, joined: seq<Validator>, n: nat, history: seq<Exchange>) {
    |history| == n + 1 && LookedUp(duties, history, n) && joined == JoinedOf(duties, history, n)
  }

  predicate RefreshExplained(duties: seq<ProposerDutiesData>, pc: RefreshPc, history: seq<Exchange>) {
    match pc
    case RefreshAtEmpty => history == []
    case RefreshAtRead(joined, i) => i < |duties| && ReadSoFar(duties, joined, i, history)
    case RefreshAtWrite(joined) => joined != [] && ReadSoFar(duties, joined, |duties|, history)
    case RefreshReturned =>
      || (|history| == 1 && history[0].call == EmptyValidatorRegs)
      || ReadSoFar(duties, [], |duties|, history)
      || HasWritten(duties, history)
  }

  /** The refresh has looked up all its duties and written their join, which is not empty. */
  predicate HasWritten(duties: seq<ProposerDutiesData>, history: seq<Exchange>) {
    && |history| == |duties| + 2
    && history[|duties| + 1].call.SetProposerDuties? && history[|duties| + 1].call.duties != []
    && ReadSoFar(duties, history[|duties| + 1].call.duties, |duties|, history[..|duties| + 1])
  }

  lemma {:induction false} JoinedOfPrefix(duties: seq<ProposerDutiesData>, history: seq<Exchange>, n: nat)
    requires history != [] && n <= |duties| && n < |history| - 1
    ensures JoinedOf(duties, history[..|history| - 1], n) == JoinedOf(duties, history, n)
  {
    if n > 0 {
      JoinedOfPrefix(duties, history, n - 1);
    }
  }

  /** The lookups made so far, and their join, read off the history with one more exchange. */
  lemma LookupsExtend(duties: seq<ProposerDutiesData>, history: seq<Exchange>, n: nat)
    requires history != [] && LookedUp(duties, history[..|history| - 1], n)
    ensures LookedUp(duties, history, n)
            && JoinedOf(duties, history, n) == JoinedOf(duties, history[..|history| - 1], n)
  {
    JoinedOfPrefix(duties, history, n);
    forall k | 0 <= k < n
      ensures history[k + 1].call == ReadValidatorRegistration(duties[k].pubkey)
    {
      assert history[..|history| - 1][k + 1] == history[k + 1];
    }
  }

  /** A lookup that has been answered: duty `i` joins the others if it is registered. */
  lemma ReadOneMore(duties: seq<ProposerDutiesData>, joined: seq<Validator>, i: nat, history: seq<Exchange>)
    requires i < |duties| && |history| == i + 2 && ReadSoFar(duties, joined, i, history[..i + 1])
    requires history[i + 1].call == ReadValidatorRegistration(duties[i].pubkey)
    ensures ReadSoFar(duties, JoinOne(joined, duties[i], RegistrationFound(history[i + 1])), i + 1, history)
  {
    LookupsExtend(duties, history, i);
  }

  lemma NextExplained(duties: seq<ProposerDutiesData>, joined: seq<Validator>, n: nat, history: seq<Exchange>)
    requires n <= |duties| && ReadSoFar(duties, joined, n, history)
    ensures RefreshExplained(duties, RefreshNext(duties, joined, n), history)
  {
  }

  /** What an answered lookup makes of the machine. */
  lemma LookupResumes(handler: RefreshHandler, reply: Reply)
    requires handler.pc.RefreshAtRead? && handler.pc.index < |handler.duties| && reply.RegistrationReply?
    ensures var (joined, i) := (handler.pc.joined, handler.pc.index);
            RefreshResume(handler, reply).pc
            == RefreshNext(handler.duties, JoinOne(joined, handler.duties[i], reply.registration), i + 1)
  {
  }

  lemma RefreshStep(handler: RefreshHandler, history: seq<Exchange>)
    requires history != []
    requires RefreshExplained(handler.duties, handler.pc, history[..|history| - 1])
    requires var last := history[|history| - 1]; RefreshCall(handler) == Some(last.call) && Fits(last.call, last.reply)
    ensures RefreshExplained(handler.duties, RefreshResume(handler, history[|history| - 1].reply).pc, history)
  {
    if handler.pc.RefreshAtRead? {
      var (duties, joined, i) := (handler.duties, handler.pc.joined, handler.pc.index);
      ReadOneMore(duties, joined, i, history);
      LookupResumes(handler, history[i + 1].reply);
      NextExplained(duties, JoinOne(joined, duties[i], RegistrationFound(history[i + 1])), i + 1, history);
    } else if handler.pc.RefreshAtEmpty? {
      NextExplained(handler.duties, [], 0, history);
    }
  }

  lemma {:induction false} RefreshHistory(crypto: Crypto, start: Process, history: seq<Exchange>)
    requires start.RefreshEpoch? && start.refresh.pc == RefreshAtEmpty
    requires Follows(crypto, start, history)
    ensures var process := After(crypto, start, history);
            && process.RefreshEpoch? && process.refresh.duties == start.refresh.duties
            && RefreshExplained(start.refresh.duties, process.refresh.pc, history)
  {
    if history != [] {
      RefreshHistory(crypto, start, history[..|history| - 1]);
      RefreshStep(After(crypto, start, history[..|history| - 1]).refresh, history);
    }
  }

  lemma {:induction false} JoinedMember(duties: seq<ProposerDutiesData>, history: seq<Exchange>, n: nat, v: Validator)
    returns (k: nat)
    requires n <= |duties| && n < |history| && v in JoinedOf(duties, history, n)
    ensures k < n && RegistrationFound(history[k + 1]) == Some(v.entry)
    ensures v.slot == duties[k].slot && v.validatorIndex == duties[k].validatorIndex
  {
    if v in JoinedOf(duties, history, n - 1) {
      k := JoinedMember(duties, history, n - 1, v);
    } else {
      k := n - 1;
    }
  }

  lemma OnlyRefreshWrites(process: Process)
    requires NextCall(process).Some? && NextCall(process).value.SetProposerDuties?
    ensures process.RefreshEpoch? && process.refresh.pc == RefreshAtWrite(NextCall(process).value.duties)
  {
  }

  /**
  Entry `j` writes the duties of a refresh, `v` among them; `v` is the beacon's duty `k` with the registration that
  stood under that duty's key, its own, in the store the refresh read at entry `i`.
   */
  ghost predicate JoinedInRun(init: Store, starts: map<nat, Process>, log: seq<Entry>, v: Validator, i: int, j: int,
                              k: int) {
    && 0 <= i < j < |log|
    && log[j].call.SetProposerDuties? && v in log[j].call.duties
    && log[j].tid in starts && starts[log[j].tid].RefreshEpoch? && log[i].tid == log[j].tid
    && var duties := starts[log[j].tid].refresh.duties;
    && 0 <= k < |duties|
    && v.slot == duties[k].slot && v.validatorIndex == duties[k].validatorIndex
    && Lookup(StoreAfter(init, log[..i]).validatorRegistrations, duties[k].pubkey) == Some(v.entry)
    && v.entry.message.pubkey == duties[k].pubkey
  }

  /** A refresh writes exactly the join of its duties with the replies it got, one lookup per duty, in order. */
  lemma WrittenDutiesAreTheJoin(crypto: Crypto, init: Store, starts: map<nat, Process>, log: seq<Entry>, j: nat)
    requires IsRun(crypto, init, starts, log)
    requires j < |log| && log[j].call.SetProposerDuties?
    ensures log[j].tid in starts && starts[log[j].tid].RefreshEpoch?
    ensures var (duties, history) := (starts[log[j].tid].refresh.duties, Own(log[..j], log[j].tid));
            && |history| == |duties| + 1 && LookedUp(duties, history, |duties|)
            && log[j].call.duties == JoinedOf(duties, history, |duties|) != []
  {
    assert EntryFits(crypto, init, starts, log, j);
    var tid := log[j].tid;
    var start, history := starts[tid], Own(log[..j], tid);
    RunPrefix(crypto, init, starts, log, j);
    OwnFollows(crypto, init, starts, log[..j], tid);
    OnlyRefreshWrites(After(crypto, start, history));
    KindIsKept(crypto, start, history);
    RefreshHistory(crypto, start, history);
  }

  lemma WrittenDutiesAreJoined(crypto: Crypto, init: Store, starts: map<nat, Process>, log: seq<Entry>, j: nat,
                               v: Validator)
    requires IsRun(crypto, init, starts, log) && OwnKeys(init.validatorRegistrations)
    requires j < |log| && log[j].call.SetProposerDuties? && v in log[j].call.duties
    ensures exists i, k :: JoinedInRun(init, starts, log, v, i, j, k)
  {
    WrittenDutiesAreTheJoin(crypto, init, starts, log, j);
    var tid := log[j].tid;
    var duties, history := starts[tid].refresh.duties, Own(log[..j], tid);
    var k := JoinedMember(duties, history, |duties|, v);
    var i := EarlierExchange(crypto, init, starts, log, tid, j, k + 1);
    RunPrefix(crypto, init, starts, log, i);
    RegistrationsHaveOwnKeys(crypto, init, starts, log[..i]);
    assert JoinedInRun(init, starts, log, v, i, j, k);
  }

  /** In every run every stored duty that was not there at start-up was joined by a refresh of the run. */
  lemma {:induction false} StoredDutiesAreJoined(crypto: Crypto, init: Store, starts: map<nat, Process>,
                                                 log: seq<Entry>, v: Validator)
    requires IsRun(crypto, init, starts, log) && OwnKeys(init.validatorRegistrations)
    requires v in StoreAfter(init, log).proposerDuties && v !in init.proposerDuties
    ensures exists i, j, k :: JoinedInRun(init, starts, log, v, i, j, k)
  {
    var n := |log| - 1;
    DutiesAfter(StoreAfter(init, log[..n]), log[n].call);
    if log[n].call.SetProposerDuties? {
      WrittenDutiesAreJoined(crypto, init, starts, log, n, v);
    } else {
      RunPrefix(crypto, init, starts, log, n);
      StoredDutiesAreJoined(crypto, init, starts, log[..n], v);
      var i, j, k :| JoinedInRun(init, starts, log[..n], v, i, j, k);
      assert log[..n][..i] == log[..i];
      assert JoinedInRun(init, starts, log, v, i, j, k);
    }
  }

  // ----- A refresh that finds nothing

  /** A refresh looks up a key at entry `i` and finds it registered. */
  ghost predicate FindsAt(init: Store, starts: map<nat, Process>, log: seq<Entry>, tid: nat, i: int) {
    && 0 <= i < |log| && log[i].tid == tid
    && tid in starts && starts[tid].RefreshEpoch?
    && log[i].call.ReadValidatorRegistration?
    && log[i].call.key in StoreAfter(init, log[..i]).validatorRegistrations
  }

  /** A join is empty exactly when none of the duties looked up was found. */
  lemma {:induction false} EmptyJoin(duties: seq<ProposerDutiesData>, history: seq<Exchange>, n: nat)
    requires n <= |duties| && n < |history|
    ensures JoinedOf(duties, history, n) == [] <==> forall k :: 0 < k <= n ==> RegistrationFound(history[k]).None?
  {
    if n > 0 {
      EmptyJoin(duties, history, n - 1);
    }
  }

  /** A refresh writes only if it has found a registration. */
  lemma WriteNeedsFind(crypto: Crypto, init: Store, starts: map<nat, Process>, log: seq<Entry>, j: nat)
    requires IsRun(crypto, init, starts, log)
    requires j < |log| && log[j].call.SetProposerDuties?
    ensures exists i :: i < j && FindsAt(init, starts, log, log[j].tid, i)
  {
    WrittenDutiesAreTheJoin(crypto, init, starts, log, j);
    var tid := log[j].tid;
    var duties, history := starts[tid].refresh.duties, Own(log[..j], tid);
    EmptyJoin(duties, history, |duties|);
    var k :| 0 < k <= |duties| && RegistrationFound(history[k]).Some?;
    var i := LookupEntry(crypto, init, starts, log, tid, j, duties, k - 1);
    assert FindsAt(init, starts, log, tid, i);
  }

  /** In every run in which no refresh finds a registration the stored duties stay as they were. */
  lemma {:induction false} NothingFoundKeepsDuties(crypto: Crypto, init: Store, starts: map<nat, Process>,
                                                   log: seq<Entry>)
    requires IsRun(crypto, init, starts, log)
    requires forall tid, i :: !FindsAt(init, starts, log, tid, i)
    ensures StoreAfter(init, log).proposerDuties == init.proposerDuties
  {
    if log != [] {
      var n := |log| - 1;
      if log[n].call.SetProposerDuties? {
        WriteNeedsFind(crypto, init, starts, log, n);
      }
      DutiesAfter(StoreAfter(init, log[..n]), log[n].call);
      RunPrefix(crypto, init, starts, log, n);
      forall tid, i
        ensures !FindsAt(init, starts, log[..n], tid, i)
      {
        FindsInPrefix(init, starts, log, n, tid, i);
      }
      NothingFoundKeepsDuties(crypto, init, starts, log[..n]);
    }
  }

  lemma FindsInPrefix(init: Store, starts: map<nat, Process>, log: seq<Entry>, n: nat, tid: nat, i: int)
    requires n <= |log|
    ensures FindsAt(init, starts, log[..n], tid, i) ==> FindsAt(init, starts, log, tid, i)
  {
    if 0 <= i < n {
      assert log[..n][..i] == log[..i];
    }
  }

  /** A refresh that has returned has written duties if and only if it has found a registration. */
  lemma RefreshWritesExactly(crypto: Crypto, init: Store, starts: map<nat, Process>, log: seq<Entry>, tid: nat)
    requires IsRun(crypto, init, starts, log) && tid in starts && starts[tid].RefreshEpoch?
    requires NextCall(After(crypto, starts[tid], Own(log, tid))).None?
    ensures (exists i :: FindsAt(init, starts, log, tid, i))
            <==> exists j :: 0 <= j < |log| && log[j].tid == tid && log[j].call.SetProposerDuties?
  {
    forall j | 0 <= j < |log| && log[j].tid == tid && log[j].call.SetProposerDuties?
      ensures exists i :: FindsAt(init, starts, log, tid, i)
    {
      WriteNeedsFind(crypto, init, starts, log, j);
    }
    forall i | FindsAt(init, starts, log, tid, i)
      ensures exists j :: 0 <= j < |log| && log[j].tid == tid && log[j].call.SetProposerDuties?
    {
      var j := FindIsWritten(crypto, init, starts, log, tid, i);
    }
  }

  lemma FindIsWritten(crypto: Crypto, init: Store, starts: map<nat, Process>, log: seq<Entry>, tid: nat, i: nat)
    returns (j: nat)
    requires IsRun(crypto, init, starts, log) && tid in starts && starts[tid].RefreshEpoch?
    requires NextCall(After(crypto, starts[tid], Own(log, tid))).None?
    requires FindsAt(init, starts, log, tid, i)
    ensures j < |log| && log[j].tid == tid && log[j].call.SetProposerDuties?
  {
    var duties, history := starts[tid].refresh.duties, Own(log, tid);
    OwnFollows(crypto, init, starts, log, tid);
    RefreshHistory(crypto, starts[tid], history);
    NothingLeftToDo(duties, After(crypto, starts[tid], history).refresh.pc, history);
    FindInHistory(crypto, init, starts, log, tid, i);
    FindIsFollowed(duties, history, |Own(log[..i], tid)|);
    j := OwnIndex(log, tid, |duties| + 1);
  }

  lemma FindInHistory(crypto: Crypto, init: Store, starts: map<nat, Process>, log: seq<Entry>, tid: nat, i: nat)
    requires IsRun(crypto, init, starts, log) && FindsAt(init, starts, log, tid, i)
    ensures var (k, history) := (|Own(log[..i], tid)|, Own(log, tid));
            k < |history| && history[k].call.ReadValidatorRegistration? && RegistrationFound(history[k]).Some?
  {
    assert EntryFits(crypto, init, starts, log, i);
    OwnPosition(log, tid, i);
  }

  lemma NothingLeftToDo(duties: seq<ProposerDutiesData>, pc: RefreshPc, history: seq<Exchange>)
    requires RefreshExplained(duties, pc, history) && RefreshCall(RefreshHandler(duties, pc)).None?
    ensures RefreshExplained(duties, RefreshReturned, history)
  {
  }

  /** A refresh that has found a registration and returned has written. */
  lemma FindIsFollowed(duties: seq<ProposerDutiesData>, history: seq<Exchange>, k: nat)
    requires RefreshExplained(duties, RefreshReturned, history)
    requires k < |history| && history[k].call.ReadValidatorRegistration? && RegistrationFound(history[k]).Some?
    ensures HasWritten(duties, history)
  {
    if ReadSoFar(duties, [], |duties|, history) {
      EmptyJoin(duties, history, |duties|);
    }
  }

  // ----- What a lookup finds after a refresh

  /** What a duty contributes to the join, given what was read for its key. */
  function JoinedAs(duty: ProposerDutiesData, read: Option<ValidatorRegistration>): Option<Validator> {
    if read.Some? then Some(Validator(duty.slot, duty.validatorIndex, read.value)) else None
  }

  lemma {:induction false} FoundIsJoined(duties: seq<ProposerDutiesData>, history: seq<Exchange>, n: nat, k: nat)
    requires k < n <= |duties| && n < |history| && RegistrationFound(history[k + 1]).Some?
    ensures JoinedAs(duties[k], RegistrationFound(history[k + 1])).value in JoinedOf(duties, history, n)
  {
    if k < n - 1 {
      FoundIsJoined(duties, history, n - 1, k);
    }
  }

  /** With unique slots, a lookup in the join of a slot finds its duty with the registration read for it, if any. */
  lemma LookupInJoin(duties: seq<ProposerDutiesData>, history: seq<Exchange>, k: nat)
    requires UniqueSlots(duties) && k < |duties| < |history|
    ensures FindDuty(JoinedOf(duties, history, |duties|), duties[k].slot)
         == JoinedAs(duties[k], RegistrationFound(history[k + 1]))
  {
    var joined := JoinedOf(duties, history, |duties|);
    var found := FindDuty(joined, duties[k].slot);
    if found.Some? {
      var m := JoinedMember(duties, history, |duties|, found.value);
      assert m == k;
    } else if RegistrationFound(history[k + 1]).Some? {
      FoundIsJoined(duties, history, |duties|, k);
    }
  }

  lemma LookupMissesJoin(duties: seq<ProposerDutiesData>, history: seq<Exchange>, slot: u64)
    requires |duties| < |history| && !HasSlot(duties, slot)
    ensures FindDuty(JoinedOf(duties, history, |duties|), slot) == None
  {
    var found := FindDuty(JoinedOf(duties, history, |duties|), slot);
    if found.Some? {
      var m := JoinedMember(duties, history, |duties|, found.value);
    }
  }

  /** The duties stay what entry `j` wrote for as long as no other entry writes them. */
  lemma {:induction false} DutiesStay(init: Store, log: seq<Entry>, j: nat)
    requires j < |log| && log[j].call.SetProposerDuties?
    requires forall i :: j < i < |log| ==> !log[i].call.SetProposerDuties?
    ensures StoreAfter(init, log).proposerDuties == log[j].call.duties
  {
    var n := |log| - 1;
    DutiesAfter(StoreAfter(init, log[..n]), log[n].call);
    if j < n {
      DutiesStay(init, log[..n], j);
    }
  }

  /** At entry `i` the refresh of process `tid` looks up its duty `k`, after the emptiness check and `k` lookups. */
  ghost predicate LooksUp(log: seq<Entry>, tid: nat, duties: seq<ProposerDutiesData>, i: int, k: int) {
    && 0 <= i < |log| && 0 <= k < |duties|
    && log[i].tid == tid
    && log[i].call == ReadValidatorRegistration(duties[k].pubkey)
    && |Own(log[..i], tid)| == k + 1
  }

  /** What is found for the slot of duty `k` is that duty with the registration the refresh read for it at entry `i`. */
  ghost predicate FoundAsRead(init: Store, log: seq<Entry>, tid: nat, duties: seq<ProposerDutiesData>, slot: u64,
                              found: Option<Validator>, i: int, k: int) {
    && LooksUp(log, tid, duties, i, k)
    && duties[k].slot == slot
    && found == JoinedAs(duties[k], Lookup(StoreAfter(init, log[..i]).validatorRegistrations, duties[k].pubkey))
  }

  lemma LookupAtRefresh(crypto: Crypto, init: Store, starts: map<nat, Process>, log: seq<Entry>, j: nat, slot: u64)
    requires IsRun(crypto, init, starts, log)
    requires j < |log| && log[j].call.SetProposerDuties?
    requires log[j].tid in starts && starts[log[j].tid].RefreshEpoch? && UniqueSlots(starts[log[j].tid].refresh.duties)
    ensures var (tid, found) := (log[j].tid, FindDuty(log[j].call.duties, slot));
            var duties := starts[tid].refresh.duties;
            if HasSlot(duties, slot) then exists i, k :: i < j && FoundAsRead(init, log, tid, duties, slot, found, i, k)
            else found == None
  {
    WrittenDutiesAreTheJoin(crypto, init, starts, log, j);
    var tid := log[j].tid;
    var duties, history := starts[tid].refresh.duties, Own(log[..j], tid);
    if HasSlot(duties, slot) {
      var k :| 0 <= k < |duties| && duties[k].slot == slot;
      LookupInJoin(duties, history, k);
      var i := LookupEntry(crypto, init, starts, log, tid, j, duties, k);
      assert FoundAsRead(init, log, tid, duties, slot, FindDuty(log[j].call.duties, slot), i, k);
    } else {
      LookupMissesJoin(duties, history, slot);
    }
  }

  /** The entry at which a refresh that is about to write looked up its duty `k`, and what it read. */
  lemma LookupEntry(crypto: Crypto, init: Store, starts: map<nat, Process>, log: seq<Entry>, tid: nat, j: nat,
                    duties: seq<ProposerDutiesData>, k: nat) returns (i: nat)
    requires IsRun(crypto, init, starts, log) && j < |log| && k < |duties|
    requires LookedUp(duties, Own(log[..j], tid), |duties|)
    ensures i < j && LooksUp(log, tid, duties, i, k)
    ensures RegistrationFound(Own(log[..j], tid)[k + 1])
         == Lookup(StoreAfter(init, log[..i]).validatorRegistrations, duties[k].pubkey)
  {
    i := EarlierExchange(crypto, init, starts, log, tid, j, k + 1);
  }

  /** ... and a later one finds the same until duties are written again. */
  lemma LookupAfterRefresh(crypto: Crypto, init: Store, starts: map<nat, Process>, log: seq<Entry>, j: nat, slot: u64)
    requires IsRun(crypto, init, starts, log)
    requires j < |log| && log[j].call.SetProposerDuties?
    requires forall i :: j < i < |log| ==> !log[i].call.SetProposerDuties?
    requires log[j].tid in starts && starts[log[j].tid].RefreshEpoch? && UniqueSlots(starts[log[j].tid].refresh.duties)
    ensures var (tid, found) := (log[j].tid, FindDuty(StoreAfter(init, log).proposerDuties, slot));
            var duties := starts[tid].refresh.duties;
            if HasSlot(duties, slot) then exists i, k :: i < j && FoundAsRead(init, log, tid, duties, slot, found, i, k)
            else found == None
  {
    LookupAtRefresh(crypto, init, starts, log, j, slot);
    DutiesStay(init, log, j);
  }

  /**
  After any interleaved refresh at head `h` has written its duties, and until the next such write, a lookup finds for
  every slot of the two epochs the beacon's proposer with the registration that stood under its key when the refresh
  read it, or nothing if none did; and for every other slot nothing.  Registrations may change throughout.
   */
  lemma RefreshCoversWindowInRun(crypto: Crypto, init: Store, starts: map<nat, Process>, log: seq<Entry>, j: nat,
                                 slot: u64, head: u64, slotsPerEpoch: nat, current: seq<ProposerDutiesData>,
                                 next: seq<ProposerDutiesData>)
    requires IsRun(crypto, init, starts, log)
    requires j < |log| && log[j].call.SetProposerDuties?
    requires forall i :: j < i < |log| ==> !log[i].call.SetProposerDuties?
    requires log[j].tid in starts
             && starts[log[j].tid] == RefreshEpoch(RefreshHandler(MergeWith(current, next), RefreshAtEmpty))
    requires slotsPerEpoch > 0
    requires ListsEpoch(current, Epoch(head, slotsPerEpoch), slotsPerEpoch)
    requires ListsEpoch(next, Epoch(head, slotsPerEpoch) + 1, slotsPerEpoch)
    ensures var (tid, found) := (log[j].tid, FindDuty(StoreAfter(init, log).proposerDuties, slot));
            if InWindow(head, slotsPerEpoch, slot)
            then exists i, k :: i < j && FoundAsRead(init, log, tid, MergeWith(current, next), slot, found, i, k)
            else found == None
  {
    MergedReplies(current, next, Epoch(head, slotsPerEpoch), slotsPerEpoch);
    LookupAfterRefresh(crypto, init, starts, log, j, slot);
  }
}
