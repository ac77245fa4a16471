/**
The relay service as a task of an executor that polls it only when it has been woken.  A source that is polled while it
has nothing keeps the task's waker and wakes the task with its next answer; so does a connection attempt.  The polls are
those of `RelayLoop`; here answers arrive at any time, and what is proved is that no wake-up is lost.
 */
module WakeUps {
  import opened Types
  import opened Storage
  import opened EventStream
  import opened RelayLoop

  /** Which of the sources, and of the connection attempt, keep the task's waker. */
  datatype Wakers = Wakers(attributes: bool, heads: bool, connection: bool)

  const NO_WAKERS := Wakers(false, false, false)

  /**
  The task: the sources of the service's link hold the answers that have arrived and not been taken.  `due` says that
  the task has been woken and not polled since; `arrived` are all answers that have arrived on the current stream,
  `current` the events taken from it, and `past` those taken from earlier streams.
   */
  datatype Task = Task(
    service: Service,
    wakers: Wakers,
    due: bool,
    arrived: Sources,
    past: seq<BeaconEvent>,
    current: seq<BeaconEvent>)

  /** A connection that is not open yet, and one that is but has not been polled since. */
  const CLOSED := Connecting(NeverOpens)
  const OPENED := Connecting(Opens(0, NOTHING))
  const NOTHING := Sources([], [])

  /** A task as it is spawned: on a stream nothing has arrived on, and due. */
  function Spawned(store: Store): Task {
    Task(Service(Streaming(NOTHING), store, [], []), NO_WAKERS, true, NOTHING, [], [])
  }

  // ----- What happens to a task

  datatype Action =
    | AttributesArrive(attributes: Polled<PayloadAttributes>)
    | HeadArrives(head: Polled<u64>)
    | ConnectionOpens
    | Interfere(call: Call)
    | PollTask

  /** A source that has ended. */
  predicate HasEnded<E>(answers: seq<Polled<E>>) {
    answers != [] && answers[|answers| - 1].End?
  }

  /** An answer arrives on the stream, unless its source has ended, and wakes the task if the source keeps its waker. */
  function ArriveAttributes(task: Task, answer: Polled<PayloadAttributes>): Task {
    if !task.service.link.Streaming? || answer.Pending? || HasEnded(task.arrived.attributes) then task
    else
      var sources := task.service.link.sources;
      task.(service := task.service.(link := Streaming(sources.(attributes := sources.attributes + [answer]))),
            arrived := task.arrived.(attributes := task.arrived.attributes + [answer]),
            due := task.due || task.wakers.attributes,
            wakers := task.wakers.(attributes := false))
  }

  function ArriveHead(task: Task, answer: Polled<u64>): Task {
    if !task.service.link.Streaming? || answer.Pending? then task
    else
      var sources := task.service.link.sources;
      task.(service := task.service.(link := Streaming(sources.(heads := sources.heads + [answer]))),
            arrived := task.arrived.(heads := task.arrived.heads + [answer]),
            due := task.due || task.wakers.heads,
            wakers := task.wakers.(heads := false))
  }

  function OpenConnection(task: Task): Task {
    if task.service.link != CLOSED then task
    else task.(service := task.service.(link := OPENED), due := task.due || task.wakers.connection, wakers := NO_WAKERS)
  }

  /** The wakers after a poll of the stream: each source polled that had nothing keeps one, unless it has ended. */
  function StreamWakers(task: Task, sources: Sources): Wakers {
    var answer := PollSource(sources.attributes).answer;
    Wakers(task.wakers.attributes || (sources.attributes == [] && !HasEnded(task.arrived.attributes)),
           task.wakers.heads || (!answer.Item? && !answer.Err? && sources.heads == []),
           false)
  }

  /** A poll; the task is due again only if the service has woken itself. */
  function PollDue(task: Task): Task {
    var polled := PollService(task.service);
    var due := polled.progress.Suspended? && polled.progress.woken;
    match (task.service.link, polled.service.link)
    case (Streaming(sources), Streaming(_)) =>
      Task(polled.service, StreamWakers(task, sources), due, task.arrived, task.past,
           task.current + Taken(task.service))
    case (Streaming(_), Connecting(_)) => Task(polled.service, NO_WAKERS, due, NOTHING, task.past + task.current, [])
    case (Connecting(_), Streaming(_)) => Task(polled.service, NO_WAKERS, due, NOTHING, task.past, [])
    case (Connecting(_), Connecting(_)) =>
      task.(service := polled.service, wakers := NO_WAKERS.(connection := true), due := due)
  }

  function Act(task: Task, action: Action): Task {
    match action
    case AttributesArrive(answer) => ArriveAttributes(task, answer)
    case HeadArrives(answer) => ArriveHead(task, answer)
    case ConnectionOpens => OpenConnection(task)
    case Interfere(call) => task.(service := task.service.(store := Exec(task.service.store, call)))
    case PollTask => if task.due then PollDue(task) else task
  }

  function Acts(store: Store, actions: seq<Action>): Task {
    if actions == [] then Spawned(store)
    else Act(Acts(store, actions[..|actions| - 1]), actions[|actions| - 1])
  }

  // ----- No wake-up is lost

  /** Answers that arrive are answers, and nothing follows the end of the attribute source. */
  predicate Proper(arrived: Sources) {
    && (forall i :: 0 <= i < |arrived.attributes| ==> !arrived.attributes[i].Pending?)
    && (forall i :: 0 <= i < |arrived.attributes| - 1 ==> !arrived.attributes[i].End?)
    && forall i :: 0 <= i < |arrived.heads| ==> !arrived.heads[i].Pending?
  }

  /** What is left of one source, and the items taken from it, account for all that has arrived on it. */
  predicate AccountsFor<E(==)>(arrived: seq<Polled<E>>, rest: seq<Polled<E>>, items: seq<E>) {
    && |rest| <= |arrived|
    && rest == arrived[|arrived| - |rest|..]
    && items == Items(arrived[..|arrived| - |rest|])
  }

  predicate Accounts(arrived: Sources, rest: Sources, events: seq<BeaconEvent>) {
    && AccountsFor(arrived.attributes, rest.attributes, AttributesOf(events))
    && AccountsFor(arrived.heads, rest.heads, HeadsOf(events))
  }

  /** Everything the task waits for is empty and keeps its waker; an ended attribute source will not wake it. */
  predicate Waiting(task: Task) {
    match task.service.link
    case Streaming(sources) =>
      && sources == NOTHING
      && task.wakers.heads
      && (task.wakers.attributes || HasEnded(task.arrived.attributes))
    case Connecting(connection) => connection.NeverOpens? && task.wakers.connection
  }

  predicate Sound(task: Task) {
    && task.service.attempts == []
    && (task.due || Waiting(task))
    && match task.service.link
       case Streaming(sources) => Proper(task.arrived) && Accounts(task.arrived, sources, task.current)
       case Connecting(_) => (task.service.link == CLOSED || task.service.link == OPENED) && task.current == []
  }

  lemma AnswerArrives<E>(arrived: seq<Polled<E>>, rest: seq<Polled<E>>, answer: Polled<E>)
    requires |rest| <= |arrived| && rest == arrived[|arrived| - |rest|..]
    ensures var (a, arrived', rest') := (|arrived| - |rest|, arrived + [answer], rest + [answer]);
            a == |arrived'| - |rest'| && arrived'[..a] == arrived[..a] && rest' == arrived'[a..]
  {
  }

  lemma AttributesStayProper(arrived: Sources, answer: Polled<PayloadAttributes>)
    requires Proper(arrived) && !answer.Pending? && !HasEnded(arrived.attributes)
    ensures Proper(arrived.(attributes := arrived.attributes + [answer]))
  {
    var attributes' := arrived.attributes + [answer];
    forall i | 0 <= i < |attributes'| - 1
      ensures attributes'[i] == arrived.attributes[i] && !arrived.attributes[i].End?
    {
      assert i == |arrived.attributes| - 1 ==> !HasEnded(arrived.attributes);
    }
  }

  lemma AttributesKeepAccounts(arrived: Sources, rest: Sources, events: seq<BeaconEvent>,
                               answer: Polled<PayloadAttributes>)
    requires Accounts(arrived, rest, events)
    ensures Accounts(arrived.(attributes := arrived.attributes + [answer]),
                     rest.(attributes := rest.attributes + [answer]), events)
  {
    AnswerArrives(arrived.attributes, rest.attributes, answer);
  }

  lemma HeadKeepsAccounts(arrived: Sources, rest: Sources, events: seq<BeaconEvent>, answer: Polled<u64>)
    requires Accounts(arrived, rest, events)
    ensures Accounts(arrived.(heads := arrived.heads + [answer]), rest.(heads := rest.heads + [answer]), events)
  {
    AnswerArrives(arrived.heads, rest.heads, answer);
  }

  lemma AttributesKeepSound(task: Task, answer: Polled<PayloadAttributes>)
    requires Sound(task)
    ensures Sound(ArriveAttributes(task, answer))
  {
    if ArriveAttributes(task, answer) != task {
      AttributesStayProper(task.arrived, answer);
      AttributesKeepAccounts(task.arrived, task.service.link.sources, task.current, answer);
    }
  }

  lemma HeadKeepsSound(task: Task, answer: Polled<u64>)
    requires Sound(task)
    ensures Sound(ArriveHead(task, answer))
  {
    if ArriveHead(task, answer) != task {
      HeadKeepsAccounts(task.arrived, task.service.link.sources, task.current, answer);
    }
  }

  /** A poll of the merged stream takes an event exactly when it emits it: from the attribute source ... */
  lemma PollAccountsAttributes(arrived: Sources, rest: Sources, events: seq<BeaconEvent>)
    requires Accounts(arrived, rest, events) && PollSource(rest.attributes).answer.Item?
    ensures var poll := PollMerged(rest); Accounts(arrived, poll.rest, events + [poll.result.event])
  {
    AttributesAccount(arrived.attributes, rest.attributes, events);
    EventsExtend(events, PollMerged(rest).result.event);
  }

  /** ... or from the head source, or not at all. */
  lemma PollAccountsHeads(arrived: Sources, rest: Sources, events: seq<BeaconEvent>)
    requires Accounts(arrived, rest, events)
    requires var answer := PollSource(rest.attributes).answer; answer.Pending? || answer.End?
    ensures var poll := PollMerged(rest);
            && (poll.result.NotReady? ==> Accounts(arrived, poll.rest, events))
            && (poll.result.Ready? ==> Accounts(arrived, poll.rest, events + [poll.result.event]))
  {
    AttributesAccount(arrived.attributes, rest.attributes, events);
    HeadsAccount(arrived.heads, rest.heads, events);
    if PollMerged(rest).result.Ready? {
      EventsExtend(events, PollMerged(rest).result.event);
    }
  }

  /** The next answer of a source, taken: an item it brings is one more taken. */
  lemma AttributesAccount(arrived: seq<Polled<PayloadAttributes>>, rest: seq<Polled<PayloadAttributes>>,
                          events: seq<BeaconEvent>)
    requires AccountsFor(arrived, rest, AttributesOf(events))
    ensures var polled := PollSource(rest);
            AccountsFor(arrived, polled.rest,
                        AttributesOf(events) + if polled.answer.Item? then [polled.answer.event] else [])
  {
    var a := TakeAttribute(Sources(arrived, []), |arrived| - |rest|);
  }

  lemma HeadsAccount(arrived: seq<Polled<u64>>, rest: seq<Polled<u64>>, events: seq<BeaconEvent>)
    requires AccountsFor(arrived, rest, HeadsOf(events))
    ensures var polled := PollSource(rest);
            AccountsFor(arrived, polled.rest,
                        HeadsOf(events) + if polled.answer.Item? then [polled.answer.event] else [])
  {
    var h := TakeHead(Sources([], arrived), |arrived| - |rest|);
  }

  lemma PollAccounts(arrived: Sources, rest: Sources, events: seq<BeaconEvent>)
    requires Accounts(arrived, rest, events)
    ensures var poll := PollMerged(rest);
            && (poll.result.NotReady? ==> Accounts(arrived, poll.rest, events))
            && (poll.result.Ready? ==> Accounts(arrived, poll.rest, events + [poll.result.event]))
  {
    var answer := PollSource(rest.attributes).answer;
    if answer.Item? {
      PollAccountsAttributes(arrived, rest, events);
    } else if !answer.Err? {
      PollAccountsHeads(arrived, rest, events);
    }
  }

  lemma FirstOfRest<E>(arrived: seq<Polled<E>>, rest: seq<Polled<E>>)
    requires |rest| <= |arrived| && rest == arrived[|arrived| - |rest|..]
    ensures rest != [] ==> rest[0] == arrived[|arrived| - |rest|]
  {
  }

  /** A stream that is not ready has had all that arrived on it taken, and its attribute source waits or has ended. */
  lemma NotReadyIsEmpty(arrived: Sources, rest: Sources, events: seq<BeaconEvent>)
    requires Proper(arrived) && Accounts(arrived, rest, events) && PollMerged(rest).result.NotReady?
    ensures PollMerged(rest).rest == NOTHING
    ensures rest.heads == []
    ensures rest.attributes == [] || HasEnded(arrived.attributes)
  {
    PollIsBiased(rest);
    FirstOfRest(arrived.attributes, rest.attributes);
    FirstOfRest(arrived.heads, rest.heads);
  }

  lemma StreamPollKeepsSound(task: Task)
    requires Sound(task) && task.service.link.Streaming?
    ensures Sound(PollDue(task))
  {
    var sources := task.service.link.sources;
    PollAccounts(task.arrived, sources, task.current);
    match PollMerged(sources).result {
      case Ready(event) => assert Taken(task.service) == [event];
      case Ended =>
      case NotReady =>
        NotReadyIsEmpty(task.arrived, sources, task.current);
        assert task.current + Taken(task.service) == task.current;
    }
  }

  lemma PollKeepsSound(task: Task)
    requires Sound(task)
    ensures Sound(PollDue(task))
  {
    if task.service.link.Streaming? {
      StreamPollKeepsSound(task);
    } else {
      assert Accounts(NOTHING, NOTHING, []);
    }
  }

  /**
  Over every schedule of arrivals, connections, interference and polls: the task is due, or everything it waits for is
  empty and keeps its waker.
   */
  lemma {:induction false} NoWakeUpIsLost(store: Store, actions: seq<Action>)
    ensures Sound(Acts(store, actions))
  {
    if actions != [] {
      var n := |actions| - 1;
      NoWakeUpIsLost(store, actions[..n]);
      var before := Acts(store, actions[..n]);
      match actions[n] {
        case AttributesArrive(answer) => AttributesKeepSound(before, answer);
        case HeadArrives(answer) => HeadKeepsSound(before, answer);
        case PollTask => PollKeepsSound(before);
        case _ =>
      }
    }
  }

  // ----- Wake-driven polling takes everything

  /** The task polled as long as it is due, at most `n` times. */
  function Settle(task: Task, n: nat): Task {
    if n == 0 then task else Act(Settle(task, n - 1), PollTask)
  }

  /** A poll that leaves the task due has done some of the service's work. */
  lemma DuePollWorks(task: Task)
    requires PollDue(task).due
    ensures Work(PollDue(task).service) < Work(task.service)
  {
    PendingIsJustified(task.service);
    PollWorks(task.service);
  }

  lemma {:induction false} SettlesWithinWork(task: Task, n: nat)
    requires Sound(task)
    ensures Sound(Settle(task, n))
    ensures Settle(task, n).due ==> Work(Settle(task, n).service) + n <= Work(task.service)
  {
    if n > 0 {
      SettlesWithinWork(task, n - 1);
      var before := Settle(task, n - 1);
      if before.due {
        PollKeepsSound(before);
        if PollDue(before).due {
          DuePollWorks(before);
        }
      }
    }
  }

  /** Every good item that has arrived on the task's stream has been taken, in order. */
  predicate AllTaken(task: Task) {
    && AttributesOf(task.current) == Items(task.arrived.attributes)
    && HeadsOf(task.current) == Items(task.arrived.heads)
  }

  /** A task that is not due has taken everything that has arrived. */
  lemma IdleHasTakenAll(task: Task)
    requires Sound(task) && !task.due && task.service.link.Streaming?
    ensures AllTaken(task)
  {
    assert task.arrived.attributes[..|task.arrived.attributes|] == task.arrived.attributes;
    assert task.arrived.heads[..|task.arrived.heads|] == task.arrived.heads;
  }

  /**
  After any schedule, polling the task only when it is due brings it to rest within as many polls as there is work, and
  it has then taken every good item that has arrived on its stream, or waits for a connection that has not opened.
   */
  lemma WakesTakeEverything(store: Store, actions: seq<Action>, n: nat)
    requires n > Work(Acts(store, actions).service)
    ensures var task := Settle(Acts(store, actions), n);
            !task.due && (task.service.link == CLOSED || (task.service.link.Streaming? && AllTaken(task)))
  {
    NoWakeUpIsLost(store, actions);
    SettlesWithinWork(Acts(store, actions), n);
    var task := Settle(Acts(store, actions), n);
    if task.service.link.Streaming? {
      IdleHasTakenAll(task);
    }
  }

  // ----- ... and applies it

  predicate Undisturbed(actions: seq<Action>) {
    forall i :: 0 <= i < |actions| && actions[i].Interfere? ==> LeavesEventsAlone(actions[i].call)
  }

  lemma PollDueApplies(start: Service, task: Task)
    requires Applied(start, task.service, task.past + task.current)
    requires task.service.link.Connecting? ==> task.current == []
    ensures Applied(start, PollDue(task).service, PollDue(task).past + PollDue(task).current)
  {
    PollApplies(start, task.service, task.past + task.current);
    var task' := PollDue(task);
    if task.service.link.Streaming? && task'.service.link.Streaming? {
      assert task'.past + task'.current == (task.past + task.current) + Taken(task.service);
    } else {
      assert Taken(task.service) == [];
      assert (task.past + task.current) + [] == task'.past + task'.current;
    }
  }

  lemma ActionApplies(start: Service, task: Task, action: Action)
    requires Applied(start, task.service, task.past + task.current)
    requires task.service.link.Connecting? ==> task.current == []
    requires action.Interfere? ==> LeavesEventsAlone(action.call)
    ensures Applied(start, Act(task, action).service, Act(task, action).past + Act(task, action).current)
  {
    match action {
      case PollTask => PollDueApplies(start, task);
      case Interfere(call) => InterferenceApplies(start, task.service, task.past + task.current, call);
      case _ =>
    }
  }

  /** Over every schedule, what the task has taken from all its streams has been applied once and in order. */
  lemma {:induction false} WokenEventsAreApplied(store: Store, actions: seq<Action>)
    requires Undisturbed(actions)
    ensures var task := Acts(store, actions);
            Applied(Spawned(store).service, task.service, task.past + task.current)
  {
    if actions != [] {
      var n := |actions| - 1;
      WokenEventsAreApplied(store, actions[..n]);
      NoWakeUpIsLost(store, actions[..n]);
      ActionApplies(Spawned(store).service, Acts(store, actions[..n]), actions[n]);
    }
  }
}
