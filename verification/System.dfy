/**
All handlers over one storage, interleaved: any number of processes, each issuing one storage call at a time, in any
order.  A run is recorded as the log of its calls and replies.
 */
module System {
  import opened Options
  import opened Types
  import opened Storage
  import opened Submission
  import opened Proposer
  import opened Registration
  import opened Duties

  // ----- The beacon event loop as a machine

  datatype BeaconPc = AtNextEvent | AtCountMined(relayed: bool) | AtWriteAttributes

  datatype BeaconLoop = BeaconLoop(events: seq<BeaconEvent>, pc: BeaconPc)

  function BeaconCall(loop: BeaconLoop): Option<Call> {
    if loop.events == [] then None
    else
      match (loop.events[0], loop.pc)
      case (Head(slot), _) => Some(SetHeadSlot(slot))
      case (PayloadAttribute(attributes), AtNextEvent) => Some(IsDelivered(attributes.parentHash))
      case (PayloadAttribute(_), AtCountMined(relayed)) => Some(CountMinedBlock(relayed))
      case (PayloadAttribute(attributes), AtWriteAttributes) => Some(WritePayloadAttributes(attributes))
  }

  function BeaconResume(loop: BeaconLoop, reply: Reply): BeaconLoop {
    if loop.events == [] then loop
    else
      match (loop.events[0], loop.pc, reply)
      case (Head(_), _, Ack) => BeaconLoop(loop.events[1..], AtNextEvent)
      case (PayloadAttribute(_), AtNextEvent, BoolReply(delivered)) => loop.(pc := AtCountMined(delivered))
      case (PayloadAttribute(_), AtCountMined(_), Ack) => loop.(pc := AtWriteAttributes)
      case (PayloadAttribute(_), AtWriteAttributes, Ack) => BeaconLoop(loop.events[1..], AtNextEvent)
      case _ => loop
  }

  // ----- Processes

  datatype Process =
    | GrpcSubmit(grpc: GrpcHandler)
    | HttpSubmit(http: HttpHandler)
    | FetchHeader(header: HeaderHandler)
    | UnblindBlock(unblind: UnblindHandler)
    | RegisterBatch(register: RegisterHandler)
    | RefreshEpoch(refresh: RefreshHandler)
    | Beacon(loop: BeaconLoop)

  /** A process as it starts: any request, batch, reply of the beacon node or stream of events. */
  predicate IsStart(init: Store, process: Process) {
    match process
    case GrpcSubmit(grpc) => grpc == GrpcStart(grpc.request, init.forkData)
    case HttpSubmit(http) => http.pc == AtBest
    case FetchHeader(header) => header.pc == HeaderAtRegistration
    case UnblindBlock(unblind) => unblind.pc == UnblindAtDuty
    case RegisterBatch(register) => register.pc == RegisterAtForkData
    case RefreshEpoch(refresh) => refresh.pc == RefreshAtEmpty
    case Beacon(loop) => loop.pc == AtNextEvent
  }

  function NextCall(process: Process): Option<Call> {
    match process
    case GrpcSubmit(grpc) => GrpcCall(grpc)
    case HttpSubmit(http) => HttpCall(http)
    case FetchHeader(header) => HeaderCall(header)
    case UnblindBlock(unblind) => UnblindCall(unblind)
    case RegisterBatch(register) => RegisterCall(register)
    case RefreshEpoch(refresh) => RefreshCall(refresh)
    case Beacon(loop) => BeaconCall(loop)
  }

  function Resume(crypto: Crypto, process: Process, reply: Reply): Process {
    match process
    case GrpcSubmit(grpc) => GrpcSubmit(GrpcResume(crypto, grpc, reply))
    case HttpSubmit(http) => HttpSubmit(HttpResume(crypto, http, reply))
    case FetchHeader(header) => FetchHeader(HeaderResume(crypto, header, reply))
    case UnblindBlock(unblind) => UnblindBlock(UnblindResume(crypto, unblind, reply))
    case RegisterBatch(register) => RegisterBatch(RegisterResume(crypto, register, reply))
    case RefreshEpoch(refresh) => RefreshEpoch(RefreshResume(refresh, reply))
    case Beacon(loop) => Beacon(BeaconResume(loop, reply))
  }

  // ----- The state machine

  datatype Entry = Entry(tid: nat, call: Call, reply: Reply)

  datatype State = State(store: Store, processes: map<nat, Process>, log: seq<Entry>)

  /** Process `tid` issues its next call, atomically; a process that has none, or does not exist, does nothing. */
  function Step(crypto: Crypto, state: State, tid: nat): State {
    if tid !in state.processes || NextCall(state.processes[tid]).None? then state
    else
      var call := NextCall(state.processes[tid]).value;
      var reply := Answer(state.store, call);
      State(Exec(state.store, call), state.processes[tid := Resume(crypto, state.processes[tid], reply)],
            state.log + [Entry(tid, call, reply)])
  }

  function Execute(crypto: Crypto, init: Store, starts: map<nat, Process>, schedule: seq<nat>): State {
    if schedule == [] then State(init, starts, [])
    else Step(crypto, Execute(crypto, init, starts, schedule[..|schedule| - 1]), schedule[|schedule| - 1])
  }

  // ----- Runs as logs

  function StoreAfter(init: Store, log: seq<Entry>): Store {
    if log == [] then init else Exec(StoreAfter(init, log[..|log| - 1]), log[|log| - 1].call)
  }

  datatype Exchange = Exchange(call: Call, reply: Reply)

  /** The calls of one process and the replies it got, in order. */
  function Own(log: seq<Entry>, tid: nat): seq<Exchange> {
    if log == [] then []
    else
      var last := log[|log| - 1];
      Own(log[..|log| - 1], tid) + if last.tid == tid then [Exchange(last.call, last.reply)] else []
  }

  function After(crypto: Crypto, process: Process, exchanges: seq<Exchange>): Process {
    if exchanges == [] then process
    else Resume(crypto, After(crypto, process, exchanges[..|exchanges| - 1]), exchanges[|exchanges| - 1].reply)
  }

  /** Entry `i` is the next call of its process, answered by the store as it then is. */
  predicate EntryFits(crypto: Crypto, init: Store, starts: map<nat, Process>, log: seq<Entry>, i: nat)
    requires i < |log|
  {
    var (before, entry) := (log[..i], log[i]);
    && entry.tid in starts
    && NextCall(After(crypto, starts[entry.tid], Own(before, entry.tid))) == Some(entry.call)
    && entry.reply == Answer(StoreAfter(init, before), entry.call)
  }

  ghost predicate IsRun(crypto: Crypto, init: Store, starts: map<nat, Process>, log: seq<Entry>) {
    && (forall tid :: tid in starts ==> IsStart(init, starts[tid]))
    && forall i :: 0 <= i < |log| ==> EntryFits(crypto, init, starts, log, i)
  }

  lemma RunPrefix(crypto: Crypto, init: Store, starts: map<nat, Process>, log: seq<Entry>, n: nat)
    requires IsRun(crypto, init, starts, log) && n <= |log|
    ensures IsRun(crypto, init, starts, log[..n])
  {
    forall i | 0 <= i < n
      ensures EntryFits(crypto, init, starts, log[..n], i)
    {
      assert log[..n][..i] == log[..i];
      assert EntryFits(crypto, init, starts, log, i);
    }
  }

  lemma RunExtends(crypto: Crypto, init: Store, starts: map<nat, Process>, log: seq<Entry>, entry: Entry)
    requires IsRun(crypto, init, starts, log)
    requires entry.tid in starts
    requires NextCall(After(crypto, starts[entry.tid], Own(log, entry.tid))) == Some(entry.call)
    requires entry.reply == Answer(StoreAfter(init, log), entry.call)
    ensures IsRun(crypto, init, starts, log + [entry])
    ensures StoreAfter(init, log + [entry]) == Exec(StoreAfter(init, log), entry.call)
    ensures forall tid :: Own(log + [entry], tid)
                       == Own(log, tid) + if tid == entry.tid then [Exchange(entry.call, entry.reply)] else []
  {
    var log' := log + [entry];
    assert log'[..|log|] == log;
    forall i | 0 <= i < |log'|
      ensures EntryFits(crypto, init, starts, log', i)
    {
      if i < |log| {
        assert log'[..i] == log[..i];
        assert EntryFits(crypto, init, starts, log, i);
      }
    }
  }

  /** What the state of the machine has to do with its log. */
  ghost predicate Recorded(crypto: Crypto, init: Store, starts: map<nat, Process>, state: State) {
    && IsRun(crypto, init, starts, state.log)
    && state.store == StoreAfter(init, state.log)
    && ProcessesRecorded(crypto, starts, state.processes, state.log)
  }

  /** Every process is where the log takes it. */
  ghost predicate ProcessesRecorded(crypto: Crypto, starts: map<nat, Process>, processes: map<nat, Process>,
                                    log: seq<Entry>) {
    && processes.Keys == starts.Keys
    && forall tid :: tid in starts ==> ProcessRecorded(crypto, starts[tid], processes[tid], log, tid)
  }

  predicate ProcessRecorded(crypto: Crypto, start: Process, process: Process, log: seq<Entry>, tid: nat) {
    process == After(crypto, start, Own(log, tid))
  }

  lemma AfterExtends(crypto: Crypto, process: Process, exchanges: seq<Exchange>, last: Exchange)
    ensures After(crypto, process, exchanges + [last]) == Resume(crypto, After(crypto, process, exchanges), last.reply)
  {
    assert (exchanges + [last])[..|exchanges|] == exchanges;
  }

  /** The store and the log after a step that issues `call`. */
  lemma StoreStaysRecorded(crypto: Crypto, init: Store, starts: map<nat, Process>, state: State, tid: nat, call: Call)
    requires Recorded(crypto, init, starts, state)
    requires tid in state.processes && NextCall(state.processes[tid]) == Some(call)
    ensures var entry := Entry(tid, call, Answer(state.store, call));
            && IsRun(crypto, init, starts, state.log + [entry])
            && StoreAfter(init, state.log + [entry]) == Exec(state.store, call)
  {
    RunExtends(crypto, init, starts, state.log, Entry(tid, call, Answer(state.store, call)));
  }

  /** An entry of the log takes its own process forward and leaves the others alone. */
  lemma OwnProcessResumes(crypto: Crypto, start: Process, log: seq<Entry>, entry: Entry)
    ensures After(crypto, start, Own(log + [entry], entry.tid))
         == Resume(crypto, After(crypto, start, Own(log, entry.tid)), entry.reply)
  {
    assert (log + [entry])[..|log|] == log;
    AfterExtends(crypto, start, Own(log, entry.tid), Exchange(entry.call, entry.reply));
  }

  lemma OtherProcessStays(crypto: Crypto, start: Process, process: Process, log: seq<Entry>, entry: Entry, tid: nat)
    requires tid != entry.tid && ProcessRecorded(crypto, start, process, log, tid)
    ensures ProcessRecorded(crypto, start, process, log + [entry], tid)
  {
    assert (log + [entry])[..|log|] == log;
    assert Own(log, tid) + [] == Own(log, tid);
  }

  lemma ProcessesStayRecorded(crypto: Crypto, starts: map<nat, Process>, processes: map<nat, Process>,
                              log: seq<Entry>, entry: Entry, resumed: Process)
    requires ProcessesRecorded(crypto, starts, processes, log) && entry.tid in starts
    requires ProcessRecorded(crypto, starts[entry.tid], resumed, log + [entry], entry.tid)
    ensures ProcessesRecorded(crypto, starts, processes[entry.tid := resumed], log + [entry])
  {
    var processes' := processes[entry.tid := resumed];
    forall t | t in starts
      ensures ProcessRecorded(crypto, starts[t], processes'[t], log + [entry], t)
    {
      if t != entry.tid {
        OtherProcessStays(crypto, starts[t], processes[t], log, entry, t);
      }
    }
  }

  lemma StepKeepsRecord(crypto: Crypto, init: Store, starts: map<nat, Process>, state: State, tid: nat)
    requires Recorded(crypto, init, starts, state)
    ensures Recorded(crypto, init, starts, Step(crypto, state, tid))
  {
    if tid in state.processes && NextCall(state.processes[tid]).Some? {
      var call := NextCall(state.processes[tid]).value;
      StoreStaysRecorded(crypto, init, starts, state, tid, call);
      var entry := Entry(tid, call, Answer(state.store, call));
      OwnProcessResumes(crypto, starts[tid], state.log, entry);
      ProcessesStayRecorded(crypto, starts, state.processes, state.log, entry,
                            Resume(crypto, state.processes[tid], entry.reply));
    }
  }

  /** Whatever the schedule, the log is a run, and store and processes are what the log says. */
  lemma {:induction false} ExecutionsAreRuns(crypto: Crypto, init: Store, starts: map<nat, Process>, schedule: seq<nat>)
    requires forall tid :: tid in starts ==> IsStart(init, starts[tid])
    ensures Recorded(crypto, init, starts, Execute(crypto, init, starts, schedule))
  {
    if schedule != [] {
      ExecutionsAreRuns(crypto, init, starts, schedule[..|schedule| - 1]);
      StepKeepsRecord(crypto, init, starts, Execute(crypto, init, starts, schedule[..|schedule| - 1]),
                      schedule[|schedule| - 1]);
    }
  }

  /** The schedule that produces a log. */
  function ScheduleOf(log: seq<Entry>): seq<nat> {
    if log == [] then [] else ScheduleOf(log[..|log| - 1]) + [log[|log| - 1].tid]
  }

  lemma ExecuteExtends(crypto: Crypto, init: Store, starts: map<nat, Process>, schedule: seq<nat>, tid: nat)
    ensures Execute(crypto, init, starts, schedule + [tid])
            == Step(crypto, Execute(crypto, init, starts, schedule), tid)
  {
    assert (schedule + [tid])[..|schedule|] == schedule;
  }

  /** From the state a log leads to, its process issues an entry that fits. */
  lemma FittingStep(crypto: Crypto, init: Store, starts: map<nat, Process>, state: State, log: seq<Entry>)
    requires log != [] && EntryFits(crypto, init, starts, log, |log| - 1)
    requires Recorded(crypto, init, starts, state) && state.log == log[..|log| - 1]
    ensures Step(crypto, state, log[|log| - 1].tid).log == log
  {
    assert log == log[..|log| - 1] + [log[|log| - 1]];
  }

  /** Every run is produced by some schedule. */
  lemma {:induction false} RunsAreExecutions(crypto: Crypto, init: Store, starts: map<nat, Process>, log: seq<Entry>)
    requires IsRun(crypto, init, starts, log)
    ensures Execute(crypto, init, starts, ScheduleOf(log)).log == log
  {
    if log != [] {
      var n := |log| - 1;
      var schedule := ScheduleOf(log[..n]);
      RunPrefix(crypto, init, starts, log, n);
      RunsAreExecutions(crypto, init, starts, log[..n]);
      ExecutionsAreRuns(crypto, init, starts, schedule);
      assert EntryFits(crypto, init, starts, log, n);
      FittingStep(crypto, init, starts, Execute(crypto, init, starts, schedule), log);
      ExecuteExtends(crypto, init, starts, schedule, log[n].tid);
    }
  }

  /** A state some schedule leads to. */
  ghost predicate Reachable(crypto: Crypto, init: Store, starts: map<nat, Process>, state: State) {
    exists schedule :: Execute(crypto, init, starts, schedule) == state
  }

  lemma StepIsReachable(crypto: Crypto, init: Store, starts: map<nat, Process>, state: State, tid: nat)
    requires Reachable(crypto, init, starts, state)
    ensures Reachable(crypto, init, starts, Step(crypto, state, tid))
  {
    var schedule :| Execute(crypto, init, starts, schedule) == state;
    ExecuteExtends(crypto, init, starts, schedule, tid);
  }

  // ----- One process within a run

  /** The reply has the shape its call is answered with. */
  predicate Fits(call: Call, reply: Reply) {
    match call
    case ReadBestBid(_, _, _) => reply.BidReply?
    case ReadBestBidBySlot(_) => reply.BidReply?
    case ReadBestBidByBlockNumber(_) => reply.BidReply?
    case IsWhitelistedBuilder(_) => reply.BoolReply?
    case ReadHeadSlot => reply.SlotReply?
    case ReadPayloadAttributes => reply.AttributesReply?
    case FindDutyBySlot(_) => reply.DutyReply?
    case ReadForkData => reply.ForkReply?
    case ReadBlindedBlockResponse(_) => reply.ResponseReply?
    case ReadValidatorRegistration(_) => reply.RegistrationReply?
    case EmptyValidatorRegs => reply.BoolReply?
    case IsDelivered(_) => reply.BoolReply?
    case _ => reply.Ack?
  }

  /** A history a process can have: each call is its next one, each reply of the right shape. */
  predicate Follows(crypto: Crypto, process: Process, exchanges: seq<Exchange>) {
    exchanges == [] ||
    (var n := |exchanges| - 1;
     && Follows(crypto, process, exchanges[..n])
     && NextCall(After(crypto, process, exchanges[..n])) == Some(exchanges[n].call)
     && Fits(exchanges[n].call, exchanges[n].reply))
  }

  lemma {:induction false} OwnFollows(crypto: Crypto, init: Store, starts: map<nat, Process>, log: seq<Entry>, tid: nat)
    requires IsRun(crypto, init, starts, log) && tid in starts
    ensures Follows(crypto, starts[tid], Own(log, tid))
  {
    if log != [] {
      var n := |log| - 1;
      RunPrefix(crypto, init, starts, log, n);
      OwnFollows(crypto, init, starts, log[..n], tid);
      assert EntryFits(crypto, init, starts, log, n);
      var own := Own(log[..n], tid);
      if log[n].tid == tid {
        assert (own + [Exchange(log[n].call, log[n].reply)])[..|own|] == own;
      } else {
        assert own + [] == own;
      }
    }
  }

  /** The log index of the k-th call of a process: before it, the process has made exactly its first k calls. */
  lemma {:induction false} OwnIndex(log: seq<Entry>, tid: nat, k: nat) returns (i: nat)
    requires k < |Own(log, tid)|
    ensures i < |log| && log[i].tid == tid
    ensures Exchange(log[i].call, log[i].reply) == Own(log, tid)[k]
    ensures Own(log[..i], tid) == Own(log, tid)[..k]
  {
    var n := |log| - 1;
    var front := Own(log[..n], tid);
    if log[n].tid == tid && k == |front| {
      i := n;
    } else {
      i := OwnIndex(log[..n], tid, k);
      assert log[..n][..i] == log[..i];
      assert Own(log, tid)[..k] == front[..k];
    }
  }

  /** Nothing writes the fork data. */
  lemma {:induction false} ForkDataIsConstant(init: Store, log: seq<Entry>)
    ensures StoreAfter(init, log).forkData == init.forkData
    ensures StoreAfter(init, log).wlistBuilders == init.wlistBuilders
  {
    if log != [] {
      ForkDataIsConstant(init, log[..|log| - 1]);
      ExecKeepsForkData(StoreAfter(init, log[..|log| - 1]), log[|log| - 1].call);
    }
  }

  lemma ExecKeepsForkData(store: Store, call: Call)
    ensures Exec(store, call).forkData == store.forkData && Exec(store, call).wlistBuilders == store.wlistBuilders
  {
  }
}
