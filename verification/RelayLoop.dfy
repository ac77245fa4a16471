/**
The relay service: a future that takes events from the merged beacon stream, applies them to the storage, and opens a
new stream whenever the current one ends.  Connection attempts are a trace, like the sources of a stream, and handlers
may use the storage between any two polls.
 */
module RelayLoop {
  import opened Types
  import opened Storage
  import opened Duties
  import opened EventStream
  import Alone
  import System

  /** A connection attempt: how many polls it stays pending for and the stream it then opens, if it ever does. */
  datatype Connection = Opens(delay: nat, sources: Sources) | NeverOpens

  datatype Link = Streaming(sources: Sources) | Connecting(connection: Connection)

  /** The service as a value, with the attempts yet to come and the head slots it has spawned a duty refresh for. */
  datatype Service = Service(link: Link, store: Store, attempts: seq<Connection>, refreshes: seq<u64>)

  /** The two ways a poll may return; `woken` says that the service has asked to be polled again itself. */
  datatype Progress = Completed | Suspended(woken: bool)

  datatype ServicePolled = ServicePolled(service: Service, progress: Progress)

  function Deliver(store: Store, event: BeaconEvent): Store {
    match event
    case PayloadAttribute(attributes) =>
      Exec(Exec(store, CountMinedBlock(attributes.parentHash in store.deliveredBlocks)),
           WritePayloadAttributes(attributes))
    case Head(slot) => Exec(store, SetHeadSlot(slot))
  }

  function NextAttempt(attempts: seq<Connection>): Connection {
    if attempts == [] then NeverOpens else attempts[0]
  }

  function LaterAttempts(attempts: seq<Connection>): seq<Connection> {
    if attempts == [] then [] else attempts[1..]
  }

  function PollService(service: Service): ServicePolled {
    match service.link
    case Streaming(sources) => PollStreaming(service, PollMerged(sources))
    case Connecting(Opens(delay, sources)) =>
      if delay == 0 then ServicePolled(service.(link := Streaming(sources)), Suspended(true))
      else ServicePolled(service.(link := Connecting(Opens(delay - 1, sources))), Suspended(false))
    case Connecting(NeverOpens) => ServicePolled(service, Suspended(false))
  }

  function PollStreaming(service: Service, poll: Poll): ServicePolled {
    match poll.result
    case Ready(event) =>
      var spawned := if event.Head? && TriggersRefresh(event.slot) then [event.slot] else [];
      ServicePolled(Service(Streaming(poll.rest), Deliver(service.store, event), service.attempts,
                            service.refreshes + spawned),
                    Suspended(true))
    case Ended =>
      ServicePolled(service.(link := Connecting(NextAttempt(service.attempts)),
                             attempts := LaterAttempts(service.attempts)),
                    Suspended(true))
    case NotReady => ServicePolled(service.(link := Streaming(poll.rest)), Suspended(false))
  }

  datatype Inner = BeaconEvents(stream: BeaconEventsStream) | PendingConnection(connection: Connection)

  class RelayService {
    var inner: Inner
    const storage: InMemoryStorage
    var attempts: seq<Connection>
    var refreshes: seq<u64>

    ghost function Repr(): set<object>
      reads this
    {
      {this, storage} + if inner.BeaconEvents? then {inner.stream} else {}
    }

    ghost function View(): Service
      reads Repr()
    {
      var link := if inner.BeaconEvents? then Streaming(inner.stream.View()) else Connecting(inner.connection);
      Service(link, storage.View(), attempts, refreshes)
    }

    constructor (stream: BeaconEventsStream, storage: InMemoryStorage, attempts: seq<Connection>)
      ensures View() == Service(Streaming(stream.View()), storage.View(), attempts, [])
      ensures Repr() == {this, storage, stream}
    {
      this.inner := BeaconEvents(stream);
      this.storage := storage;
      this.attempts := attempts;
      this.refreshes := [];
    }

    method Poll() returns (progress: Progress)
      modifies Repr()
      ensures ServicePolled(View(), progress) == PollService(old(View()))
      ensures fresh(Repr() - old(Repr()))
    {
      match inner {
        case BeaconEvents(stream) =>
          var result := stream.PollNext();
          match result {
            case Ready(event) =>
              Handle(event);
              return Suspended(true);
            case Ended =>
              inner := PendingConnection(NextAttempt(attempts));
              attempts := LaterAttempts(attempts);
              return Suspended(true);
            case NotReady => return Suspended(false);
          }
        case PendingConnection(connection) =>
          match connection {
            case Opens(delay, sources) =>
              if delay == 0 {
                var stream := new BeaconEventsStream(sources.attributes, sources.heads);
                inner := BeaconEvents(stream);
                return Suspended(true);
              }
              inner := PendingConnection(Opens(delay - 1, sources));
              return Suspended(false);
            case NeverOpens => return Suspended(false);
          }
      }
    }

    /** Applies one event; a head slot divisible by 32 also spawns a refresh of the duties. */
    method Handle(event: BeaconEvent)
      modifies this`refreshes, storage
      ensures storage.View() == Deliver(old(storage.View()), event)
      ensures refreshes == old(refreshes) + if event.Head? && event.slot % 32 == 0 then [event.slot] else []
    {
      match event {
        case PayloadAttribute(attributes) => storage.SetPayloadAttributes(attributes);
        case Head(slot) =>
          storage.SetHeadSlot(slot);
          if TriggersRefresh(slot) {
            refreshes := refreshes + [slot];
          }
      }
    }
  }

  // ----- One poll

  /** The event a poll takes, if it takes one. */
  function Taken(service: Service): seq<BeaconEvent> {
    if service.link.Streaming? && PollMerged(service.link.sources).result.Ready?
    then [PollMerged(service.link.sources).result.event] else []
  }

  /** Every source the service still depends on answers that it has nothing yet. */
  predicate NothingYet(service: Service) {
    match service.link
    case Streaming(sources) =>
      && PollSource(sources.heads).answer.Pending?
      && (PollSource(sources.attributes).answer.Pending? || PollSource(sources.attributes).answer.End?)
    case Connecting(connection) => connection.NeverOpens? || connection.delay > 0
  }

  /**
  One poll: the service never completes; it wakes itself exactly when it took an event, lost its stream or opened one,
  and otherwise everything it waits for answered that it has nothing yet.
   */
  lemma PendingIsJustified(service: Service)
    ensures var polled := PollService(service);
            && polled.progress.Suspended?
            && (polled.progress.woken <==>
                  Taken(service) != [] || service.link.Streaming? != polled.service.link.Streaming?)
            && (!polled.progress.woken <==> NothingYet(service))
  {
  }

  /** The event loop of the interleaved machine, alone with the storage, at the next of its events. */
  function LoopAt(store: Store, events: seq<BeaconEvent>): Alone.Solo {
    Alone.Solo(store, System.Beacon(System.BeaconLoop(events, System.AtNextEvent)))
  }

  lemma LoopAloneTakesHead(crypto: Crypto, store: Store, slot: u64, later: seq<BeaconEvent>)
    ensures Alone.SoloSteps(crypto, LoopAt(store, [Head(slot)] + later), 1) == LoopAt(Deliver(store, Head(slot)), later)
  {
    var s0 := LoopAt(store, [Head(slot)] + later);
    var s1 := Alone.SoloStep(crypto, s0);
    assert ([Head(slot)] + later)[1..] == later;
    assert Alone.SoloSteps(crypto, s0, 1) == Alone.SoloSteps(crypto, s1, 0) == s1;
  }

  lemma LoopAloneTakesAttributes(crypto: Crypto, store: Store, attributes: PayloadAttributes, later: seq<BeaconEvent>)
    ensures Alone.SoloSteps(crypto, LoopAt(store, [PayloadAttribute(attributes)] + later), 3)
         == LoopAt(Deliver(store, PayloadAttribute(attributes)), later)
  {
    var events := [PayloadAttribute(attributes)] + later;
    var s0 := LoopAt(store, events);
    var s1, s2 := Alone.SoloStep(crypto, s0), Alone.SoloStep(crypto, Alone.SoloStep(crypto, s0));
    LoopAloneCounts(crypto, store, attributes, events);
    LoopAloneWrites(crypto, s2.store, attributes, events);
    assert events[1..] == later;
    assert Alone.SoloSteps(crypto, s0, 3) == Alone.SoloSteps(crypto, s1, 2) == Alone.SoloSteps(crypto, s2, 1)
        == Alone.SoloSteps(crypto, Alone.SoloStep(crypto, s2), 0);
  }

  lemma LoopAloneCounts(crypto: Crypto, store: Store, attributes: PayloadAttributes, events: seq<BeaconEvent>)
    requires events != [] && events[0] == PayloadAttribute(attributes)
    ensures Alone.SoloStep(crypto, Alone.SoloStep(crypto, LoopAt(store, events)))
         == Alone.Solo(Exec(store, CountMinedBlock(attributes.parentHash in store.deliveredBlocks)),
                       System.Beacon(System.BeaconLoop(events, System.AtWriteAttributes)))
  {
  }

  lemma LoopAloneWrites(crypto: Crypto, store: Store, attributes: PayloadAttributes, events: seq<BeaconEvent>)
    requires events != [] && events[0] == PayloadAttribute(attributes)
    ensures Alone.SoloStep(crypto,
                           Alone.Solo(store, System.Beacon(System.BeaconLoop(events, System.AtWriteAttributes))))
         == LoopAt(Exec(store, WritePayloadAttributes(attributes)), events[1..])
  {
  }

  /** What the service does with an event is what the interleaved loop does with it when nothing interferes. */
  lemma LoopAloneDelivers(crypto: Crypto, store: Store, event: BeaconEvent, later: seq<BeaconEvent>)
    ensures Alone.SoloSteps(crypto, LoopAt(store, [event] + later), if event.Head? then 1 else 3)
         == LoopAt(Deliver(store, event), later)
  {
    match event {
      case Head(slot) => LoopAloneTakesHead(crypto, store, slot, later);
      case PayloadAttribute(attributes) => LoopAloneTakesAttributes(crypto, store, attributes, later);
    }
  }

  // ----- Any number of polls, with other handlers in between

  datatype Turn = PollTurn | Interfere(call: Call)

  /**
  A run: the service, the events it has taken, how often it polled each of the streams it had before, and how often it
  has polled the current one.
   */
  datatype Run = Run(service: Service, taken: seq<BeaconEvent>, earlier: seq<nat>, polls: nat)

  /** A poll counts for the stream it polls; one that opens a stream starts a new count. */
  function Take(run: Run, turn: Turn): Run {
    match turn
    case PollTurn =>
      var service, taken := PollService(run.service).service, run.taken + Taken(run.service);
      if run.service.link.Streaming? then Run(service, taken, run.earlier, run.polls + 1)
      else if service.link.Streaming? then Run(service, taken, run.earlier + [run.polls], 0)
      else Run(service, taken, run.earlier, run.polls)
    case Interfere(call) => run.(service := run.service.(store := Exec(run.service.store, call)))
  }

  function Drive(start: Service, schedule: seq<Turn>): Run {
    if schedule == [] then Run(start, [], [], 0)
    else Take(Drive(start, schedule[..|schedule| - 1]), schedule[|schedule| - 1])
  }

  // ----- Every event once and in order, across reconnections

  /** The sources of the `i`-th stream: the one the service starts with, then those its attempts open. */
  function StreamOf(start: Service, i: nat): Sources
    requires start.link.Streaming? && i <= |start.attempts|
  {
    if i == 0 then start.link.sources
    else if start.attempts[i - 1].Opens? then start.attempts[i - 1].sources
    else Sources([], [])
  }

  /** What the first streams emit, one stream after the other, when each is polled as often as it says. */
  function Emitted(start: Service, polls: seq<nat>): seq<BeaconEvent>
    requires start.link.Streaming? && |polls| <= |start.attempts| + 1
  {
    if polls == [] then []
    else
      var k := |polls| - 1;
      Emitted(start, polls[..k]) + PollMany(StreamOf(start, k), polls[k]).events
  }

  /** Attempt `k` as it stands after some pending polls. */
  predicate IsAttempt(start: Service, k: nat, connection: Connection) {
    if k < |start.attempts| && start.attempts[k].Opens?
    then connection.Opens? && connection.sources == start.attempts[k].sources
      && connection.delay <= start.attempts[k].delay
    else connection.NeverOpens?
  }

  predicate OpenedInTurn(start: Service, earlier: seq<nat>)
    requires start.link.Streaming? && |earlier| <= |start.attempts|
  {
    forall i :: 0 <= i < |earlier| ==> Reconnected(start, earlier, i)
  }

  /** Stream `i` ended with the last poll of it, and attempt `i` has opened the next one. */
  predicate Reconnected(start: Service, earlier: seq<nat>, i: nat)
    requires start.link.Streaming? && i < |earlier| <= |start.attempts|
  {
    start.attempts[i].Opens? && PollMany(StreamOf(start, i), earlier[i]).ended
  }

  /** Stream `k`, the current one, stands where its polls have left it, or has ended and attempt `k` is under way. */
  predicate StandsAt(start: Service, service: Service, k: nat, n: nat)
    requires start.link.Streaming? && k <= |start.attempts|
  {
    var outcome := PollMany(StreamOf(start, k), n);
    match service.link
    case Streaming(sources) => !outcome.ended && sources == outcome.rest && service.attempts == start.attempts[k..]
    case Connecting(connection) =>
      && outcome.ended && IsAttempt(start, k, connection)
      && service.attempts == (if k < |start.attempts| then start.attempts[k + 1..] else [])
  }

  predicate Continues(start: Service, run: Run)
    requires start.link.Streaming?
  {
    && |run.earlier| <= |start.attempts|
    && OpenedInTurn(start, run.earlier)
    && run.taken == Emitted(start, run.earlier) + PollMany(StreamOf(start, |run.earlier|), run.polls).events
    && StandsAt(start, run.service, |run.earlier|, run.polls)
  }

  /** A poll of the current stream emits what the poll takes, and leaves the stream one poll further on. */
  lemma StreamPolled(start: Service, service: Service, k: nat, n: nat)
    requires start.link.Streaming? && k <= |start.attempts|
    requires service.link.Streaming? && StandsAt(start, service, k, n)
    ensures PollMany(StreamOf(start, k), n + 1).events == PollMany(StreamOf(start, k), n).events + Taken(service)
    ensures StandsAt(start, PollService(service).service, k, n + 1)
  {
    var before := PollMany(StreamOf(start, k), n);
    var poll := PollMerged(before.rest);
    assert PollMany(StreamOf(start, k), n + 1)
        == Outcome(before.events + Taken(service), poll.result.Ended?, poll.rest);
  }

  lemma Regroup(a: seq<BeaconEvent>, b: seq<BeaconEvent>, c: seq<BeaconEvent>)
    ensures (a + b) + c == a + (b + c)
  {
  }

  lemma PollContinues(start: Service, run: Run)
    requires start.link.Streaming? && Continues(start, run) && run.service.link.Streaming?
    ensures Continues(start, Take(run, PollTurn))
  {
    var k := |run.earlier|;
    StreamPolled(start, run.service, k, run.polls);
    Regroup(Emitted(start, run.earlier), PollMany(StreamOf(start, k), run.polls).events, Taken(run.service));
  }

  lemma EmittedExtend(start: Service, polls: seq<nat>, n: nat)
    requires start.link.Streaming? && |polls| <= |start.attempts|
    ensures Emitted(start, polls + [n]) == Emitted(start, polls) + PollMany(StreamOf(start, |polls|), n).events
  {
    assert (polls + [n])[..|polls|] == polls;
  }

  lemma OneMoreOpened(start: Service, earlier: seq<nat>, n: nat)
    requires start.link.Streaming? && |earlier| < |start.attempts| && OpenedInTurn(start, earlier)
    requires start.attempts[|earlier|].Opens? && PollMany(StreamOf(start, |earlier|), n).ended
    ensures OpenedInTurn(start, earlier + [n])
  {
    forall i | 0 <= i <= |earlier|
      ensures Reconnected(start, earlier + [n], i)
    {
      assert i < |earlier| ==> Reconnected(start, earlier, i);
    }
  }

  /** A poll of a connection attempt, which may open the next stream. */
  lemma ConnectContinues(start: Service, run: Run)
    requires start.link.Streaming? && Continues(start, run) && run.service.link.Connecting?
    ensures Continues(start, Take(run, PollTurn))
  {
    var next := Take(run, PollTurn);
    assert next.taken == run.taken;
    if next.service.link.Streaming? {
      EmittedExtend(start, run.earlier, run.polls);
      OneMoreOpened(start, run.earlier, run.polls);
      assert next.taken + [] == next.taken;
    }
  }

  lemma InterferenceContinues(start: Service, run: Run, call: Call)
    requires start.link.Streaming? && Continues(start, run)
    ensures Continues(start, Take(run, Interfere(call)))
  {
    var next := Take(run, Interfere(call));
    assert next.service.link == run.service.link && next.service.attempts == run.service.attempts;
  }

  /**
  Whatever the schedule and whatever other handlers do in between: the events taken are the events of the streams, one
  stream after the other, every stream but the current one having ended; and the current one stands exactly where the
  polls of it have left it.
   */
  lemma {:induction false} EventsSurviveReconnection(start: Service, schedule: seq<Turn>)
    requires start.link.Streaming?
    ensures Continues(start, Drive(start, schedule))
  {
    if schedule != [] {
      var n := |schedule| - 1;
      var before := Drive(start, schedule[..n]);
      EventsSurviveReconnection(start, schedule[..n]);
      match schedule[n] {
        case Interfere(call) => InterferenceContinues(start, before, call);
        case PollTurn =>
          if before.service.link.Streaming? {
            PollContinues(start, before);
          } else {
            ConnectContinues(start, before);
          }
      }
    }
  }

  // ----- Each event applied once

  function LastOr<T>(items: seq<T>, default: T): T {
    if items == [] then default else items[|items| - 1]
  }

  /** The head slots that spawn a refresh. */
  function Boundaries(heads: seq<u64>): seq<u64> {
    if heads == [] then []
    else
      var last := heads[|heads| - 1];
      Boundaries(heads[..|heads| - 1]) + if last % 32 == 0 then [last] else []
  }

  function MinedCount(store: Store): nat {
    store.metrics.relayedBlocks + store.metrics.nonRelayedBlocks
  }

  /** A call that writes neither head, attributes nor the counters of mined blocks. */
  predicate LeavesEventsAlone(call: Call) {
    !call.SetHeadSlot? && !call.WritePayloadAttributes? && !call.CountMinedBlock?
  }

  /** No handler but the beacon loop issues any other call. */
  lemma HandlersLeaveEventsAlone(process: System.Process)
    requires !process.Beacon? && System.NextCall(process).Some?
    ensures LeavesEventsAlone(System.NextCall(process).value)
  {
  }

  predicate UndisturbedBy(schedule: seq<Turn>) {
    forall i :: 0 <= i < |schedule| && schedule[i].Interfere? ==> LeavesEventsAlone(schedule[i].call)
  }

  /** What applying each of some events once, in order, leaves of a start. */
  predicate Applied(start: Service, service: Service, taken: seq<BeaconEvent>) {
    && service.store.slot == LastOr(HeadsOf(taken), start.store.slot)
    && service.store.payloadAttributes == LastOr(AttributesOf(taken), start.store.payloadAttributes)
    && service.refreshes == start.refreshes + Boundaries(HeadsOf(taken))
    && MinedCount(service.store) == MinedCount(start.store) + |AttributesOf(taken)|
  }

  lemma BoundariesExtend(heads: seq<u64>, last: u64)
    ensures Boundaries(heads + [last]) == Boundaries(heads) + if TriggersRefresh(last) then [last] else []
  {
    assert (heads + [last])[..|heads|] == heads;
  }

  /** `after` is `before` with some of the events a poll takes applied. */
  predicate AppliedOne(before: Service, after: Service, taken: seq<BeaconEvent>) {
    if taken == [] then after.store == before.store && after.refreshes == before.refreshes
    else
      && after.store == Deliver(before.store, taken[0])
      && after.refreshes == before.refreshes
         + if taken[0].Head? && TriggersRefresh(taken[0].slot) then [taken[0].slot] else []
  }

  /** A poll changes the storage by the event it takes, if any, and by nothing else. */
  lemma PollDelivers(service: Service)
    ensures AppliedOne(service, PollService(service).service, Taken(service))
  {
  }

  lemma CountMinedKeeps(store: Store, relayed: bool)
    ensures var store' := Exec(store, CountMinedBlock(relayed));
            store'.slot == store.slot && MinedCount(store') == MinedCount(store) + 1
  {
  }

  lemma WriteAttributesKeeps(store: Store, attributes: PayloadAttributes)
    ensures var store' := Exec(store, WritePayloadAttributes(attributes));
            && store'.slot == store.slot && MinedCount(store') == MinedCount(store)
            && store'.payloadAttributes == attributes
  {
  }

  lemma DeliverCounts(store: Store, event: BeaconEvent)
    ensures var store' := Deliver(store, event);
            && store'.slot == (if event.Head? then event.slot else store.slot)
            && store'.payloadAttributes == (if event.Head? then store.payloadAttributes else event.attributes)
            && MinedCount(store') == MinedCount(store) + if event.Head? then 0 else 1
  {
    match event {
      case Head(_) =>
      case PayloadAttribute(attributes) =>
        var relayed := attributes.parentHash in store.deliveredBlocks;
        CountMinedKeeps(store, relayed);
        WriteAttributesKeeps(Exec(store, CountMinedBlock(relayed)), attributes);
    }
  }

  lemma EventApplies(start: Service, service: Service, taken: seq<BeaconEvent>, event: BeaconEvent, after: Service)
    requires Applied(start, service, taken) && AppliedOne(service, after, [event])
    ensures Applied(start, after, taken + [event])
  {
    EventsExtend(taken, event);
    DeliverCounts(service.store, event);
    if event.Head? {
      RefreshesExtend(start.refreshes, HeadsOf(taken), event.slot);
    } else {
      assert service.refreshes + [] == service.refreshes;
    }
  }

  lemma RefreshesExtend(spawned: seq<u64>, heads: seq<u64>, last: u64)
    ensures (spawned + Boundaries(heads)) + (if TriggersRefresh(last) then [last] else [])
         == spawned + Boundaries(heads + [last])
  {
    BoundariesExtend(heads, last);
  }

  lemma PollApplies(start: Service, service: Service, taken: seq<BeaconEvent>)
    requires Applied(start, service, taken)
    ensures Applied(start, PollService(service).service, taken + Taken(service))
  {
    PollDelivers(service);
    if Taken(service) == [] {
      assert taken + Taken(service) == taken;
    } else {
      EventApplies(start, service, taken, Taken(service)[0], PollService(service).service);
    }
  }

  lemma InterferenceApplies(start: Service, service: Service, taken: seq<BeaconEvent>, call: Call)
    requires Applied(start, service, taken) && LeavesEventsAlone(call)
    ensures Applied(start, service.(store := Exec(service.store, call)), taken)
  {
    CallsKeepEvents(service.store, call);
  }

  lemma CallsKeepEvents(store: Store, call: Call)
    requires LeavesEventsAlone(call)
    ensures Exec(store, call).slot == store.slot && Exec(store, call).payloadAttributes == store.payloadAttributes
    ensures MinedCount(Exec(store, call)) == MinedCount(store)
  {
  }

  /**
  Whatever the schedule and whatever other handlers do in between, every event taken has been applied exactly once and
  in order: the stored head and attributes are the last taken of each kind, a refresh was spawned for each head slot
  divisible by 32, and as many parent blocks were counted as attributes were taken.
   */
  lemma {:induction false} EventsAreApplied(start: Service, schedule: seq<Turn>)
    requires UndisturbedBy(schedule)
    ensures var run := Drive(start, schedule); Applied(start, run.service, run.taken)
  {
    if schedule == [] {
      assert start.refreshes + [] == start.refreshes;
    } else {
      var n := |schedule| - 1;
      var before := Drive(start, schedule[..n]);
      EventsAreApplied(start, schedule[..n]);
      match schedule[n] {
        case PollTurn => PollApplies(start, before.service, before.taken);
        case Interfere(call) => InterferenceApplies(start, before.service, before.taken, call);
      }
    }
  }

  // ----- Progress

  function AttemptWork(attempt: Connection): nat {
    if attempt.Opens? then attempt.delay + 1 + |attempt.sources.attributes| + |attempt.sources.heads| else 0
  }

  function AttemptsWork(attempts: seq<Connection>): nat {
    if attempts == [] then 0 else AttemptWork(attempts[0]) + AttemptsWork(attempts[1..])
  }

  /** The polls that may still achieve something. */
  function Work(service: Service): nat {
    AttemptsWork(service.attempts)
    + match service.link
      case Streaming(sources) => |sources.attributes| + |sources.heads|
      case Connecting(connection) => AttemptWork(connection)
  }

  /** Nothing is left to take: all answers of the current stream have been, or no connection will open. */
  predicate RunDry(service: Service) {
    service.link == Streaming(Sources([], [])) || service.link == Connecting(NeverOpens)
  }

  lemma PollWorks(service: Service)
    ensures var service' := PollService(service).service;
            if RunDry(service) then RunDry(service') && service' == service else Work(service') < Work(service)
  {
    if service.link.Streaming? {
      var sources := service.link.sources;
      var rest := PollMerged(sources).rest;
      assert RunDry(service) <==> sources.attributes == [] && sources.heads == [];
      assert !RunDry(service) ==> |rest.attributes| + |rest.heads| < |sources.attributes| + |sources.heads|;
    }
  }

  function PollsIn(schedule: seq<Turn>): nat {
    if schedule == [] then 0
    else PollsIn(schedule[..|schedule| - 1]) + if schedule[|schedule| - 1].PollTurn? then 1 else 0
  }

  lemma {:induction false} PollsMakeProgress(start: Service, schedule: seq<Turn>)
    ensures var service := Drive(start, schedule).service;
            RunDry(service) || Work(service) + PollsIn(schedule) <= Work(start)
  {
    if schedule != [] {
      PollsMakeProgress(start, schedule[..|schedule| - 1]);
      PollWorks(Drive(start, schedule[..|schedule| - 1]).service);
    }
  }

  /** The last stream has been emptied: its good items are exactly the ones taken from it. */
  predicate Emptied(start: Service, run: Run)
    requires start.link.Streaming? && |run.earlier| <= |start.attempts|
  {
    var sources := StreamOf(start, |run.earlier|);
    var outcome := PollMany(sources, run.polls);
    AttributesOf(outcome.events) == Items(sources.attributes) && HeadsOf(outcome.events) == Items(sources.heads)
  }

  lemma EmptiedStream(start: Service, run: Run)
    requires start.link.Streaming? && Continues(start, run) && run.service.link == Streaming(Sources([], []))
    ensures Emptied(start, run)
  {
    DrainedStream(StreamOf(start, |run.earlier|), run.polls);
  }

  /**
  No event is left behind: polled often enough, the service has either taken every good item of its current stream, or
  waits for a connection that never opens.
   */
  lemma EveryEventIsTaken(start: Service, schedule: seq<Turn>)
    requires start.link.Streaming? && PollsIn(schedule) > Work(start)
    ensures var run := Drive(start, schedule);
            && |run.earlier| <= |start.attempts|
            && (run.service.link == Connecting(NeverOpens) || Emptied(start, run))
  {
    var run := Drive(start, schedule);
    PollsMakeProgress(start, schedule);
    EventsSurviveReconnection(start, schedule);
    if run.service.link.Streaming? {
      EmptiedStream(start, run);
    }
  }
}
