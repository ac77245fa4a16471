/**
The beacon command service: an actor that answers the commands its handles send over an unbounded channel.  A command
carries the sending end of a reply channel; its answer is the future of the call it asks for.
 */
module CommandService {
  import opened Types

  datatype SubmissionType = Json | Ssz

  datatype Command =
    | SyncStatus
    | ForkData
    | ProposerDuties(epoch: u64)
    | KnownValidator(pubkey: PublicKey)
    | PublishBlock(block: SignedBeaconBlockContent, submissionType: SubmissionType)

  /** The call of the beacon node's interface that a reply future makes. */
  datatype ApiCall =
    | GetSyncStatus
    | GetForkData
    | GetProposerDuties(epoch: u64)
    | GetKnownValidator(pubkey: PublicKey)
    | PostBlock(block: SignedBeaconBlockContent, submissionType: SubmissionType)

  /** A command in the channel, with the number of its reply channel. */
  datatype Request = Request(command: Command, reply: nat)

  /** One attempt to send a future over a reply channel; it fails unnoticed if the receiver is gone. */
  datatype Attempt = Attempt(reply: nat, future: ApiCall)

  /** The call a command asks for. */
  function CallOf(command: Command): ApiCall {
    match command
    case SyncStatus => GetSyncStatus
    case ForkData => GetForkData
    case ProposerDuties(epoch) => GetProposerDuties(epoch)
    case KnownValidator(pubkey) => GetKnownValidator(pubkey)
    case PublishBlock(block, submissionType) => PostBlock(block, submissionType)
  }

  /** One answer per request, in order. */
  function Answers(requests: seq<Request>): (attempts: seq<Attempt>)
    ensures |attempts| == |requests|
  {
    if requests == [] then []
    else [Attempt(requests[0].reply, CallOf(requests[0].command))] + Answers(requests[1..])
  }

  lemma {:induction false} AnswerAt(requests: seq<Request>, i: nat)
    requires i < |requests|
    ensures Answers(requests)[i] == Attempt(requests[i].reply, CallOf(requests[i].command))
  {
    if i > 0 {
      AnswerAt(requests[1..], i - 1);
    }
  }

  lemma {:induction false} AnswersConcat(a: seq<Request>, b: seq<Request>)
    ensures Answers(a + b) == Answers(a) + Answers(b)
  {
    if a == [] {
      assert a + b == b;
    } else {
      assert (a + b)[1..] == a[1..] + b;
      AnswersConcat(a[1..], b);
    }
  }

  /** One request answered and the rest to come are the requests with that one first. */
  lemma AnswerNext(attempts: seq<Attempt>, request: Request, queue: seq<Request>, all: seq<Attempt>)
    requires attempts + Answers([request] + queue) == all
    ensures (attempts + Answers([request])) + Answers(queue) == all
  {
    AnswersConcat([request], queue);
  }

  // ----- The channel and the service

  /**
  The receiving end of the channel: an empty channel is closed once no sender is left, and otherwise keeps the waker of
  the task that polled it, to wake it with the next request.
   */
  datatype Received = Closed | Empty | Received(request: Request)

  /** The service with its channel: `due` says that its task has been woken and not polled since. */
  datatype Actor = Actor(
    queue: seq<Request>,
    senders: nat,
    waker: bool,
    due: bool,
    attempts: seq<Attempt>)

  /** A poll answers the whole queue; its task is woken again by the next request if the channel has kept its waker. */
  function PollActor(actor: Actor): Actor {
    Actor([], actor.senders, actor.senders > 0 || actor.waker, false, actor.attempts + Answers(actor.queue))
  }

  function Send(actor: Actor, request: Request): Actor {
    actor.(queue := actor.queue + [request], waker := false, due := actor.due || actor.waker)
  }

  /** The requests not yet answered, the one just received first. */
  function Remaining(received: Received, queue: seq<Request>): seq<Request> {
    if received.Received? then [received.request] + queue else queue
  }

  class BeaconService {
    var queue: seq<Request>
    var senders: nat
    var waker: bool
    var due: bool
    var attempts: seq<Attempt>

    ghost function View(): Actor
      reads this
    {
      Actor(queue, senders, waker, due, attempts)
    }

    /** A new service and its first handle; it keeps a sender of its own to make handles from, and is spawned due. */
    constructor ()
      ensures View() == Actor([], 2, false, true, [])
    {
      queue := [];
      senders := 2;
      waker := false;
      due := true;
      attempts := [];
    }

    /** Polls the channel. */
    method PollNext() returns (received: Received)
      modifies this`queue, this`waker
      ensures old(queue) != []
              ==> received == Received(old(queue)[0]) && queue == old(queue)[1..] && waker == old(waker)
      ensures old(queue) == [] ==> queue == [] && received == (if senders > 0 then Empty else Closed)
      ensures old(queue) == [] ==> waker == (senders > 0 || old(waker))
    {
      if queue != [] {
        received, queue := Received(queue[0]), queue[1..];
      } else if senders == 0 {
        received := Closed;
      } else {
        received, waker := Empty, true;
      }
    }

    /** Builds the future of a command from its own arguments and sends it over its reply channel. */
    method Answer(request: Request)
      modifies this`attempts
      ensures attempts == old(attempts) + Answers([request])
      ensures Asks(request.command, attempts[|old(attempts)|].future)
      ensures attempts[|old(attempts)|].reply == request.reply
    {
      var future;
      match request.command {
        case SyncStatus => future := GetSyncStatus;
        case KnownValidator(pubkey) => future := GetKnownValidator(pubkey);
        case ForkData => future := GetForkData;
        case ProposerDuties(epoch) => future := GetProposerDuties(epoch);
        case PublishBlock(block, submissionType) => future := PostBlock(block, submissionType);
      }
      attempts := attempts + [Attempt(request.reply, future)];
    }

    /** `poll`: answers commands for as long as the channel yields one. */
    method Poll()
      modifies this
      ensures View() == PollActor(old(View()))
    {
      ghost var all := attempts + Answers(queue);
      due := false;
      var received := PollNext();
      while received.Received?
        invariant senders == old(senders) && !due
        invariant waker == (old(waker) || (received.Empty? && senders > 0))
        invariant attempts + Answers(Remaining(received, queue)) == all
        invariant !received.Received? ==> queue == [] && (received.Empty? <==> senders > 0)
        decreases |Remaining(received, queue)|
      {
        ghost var before := queue;
        AnswerNext(attempts, received.request, queue, all);
        Answer(received.request);
        received := PollNext();
        assert Remaining(received, queue) == before;
      }
      assert attempts + [] == attempts;
    }

    /** A handle sends a request: the channel wakes the task whose waker it keeps. */
    method SendRequest(request: Request)
      modifies this
      ensures View() == Send(old(View()), request)
    {
      queue := queue + [request];
      if waker {
        due, waker := true, false;
      }
    }

    method CloneHandle()
      modifies this`senders
      ensures senders == old(senders) + 1
    {
      senders := senders + 1;
    }

    method DropHandle()
      requires senders > 1
      modifies this`senders
      ensures senders == old(senders) - 1
    {
      senders := senders - 1;
    }
  }

  // ----- Runs

  datatype Action = SendTo(request: Request) | CloneOne | DropOne | PollTask

  /** A run: the service and every request sent so far. */
  datatype Run = Run(actor: Actor, sent: seq<Request>)

  /** Only a live handle can send, be cloned or be dropped; the service's own sender does none of these. */
  function Act(run: Run, action: Action): Run {
    match action
    case SendTo(request) => if run.actor.senders > 1 then Run(Send(run.actor, request), run.sent + [request]) else run
    case CloneOne => if run.actor.senders > 1 then run.(actor := run.actor.(senders := run.actor.senders + 1)) else run
    case DropOne => if run.actor.senders > 1 then run.(actor := run.actor.(senders := run.actor.senders - 1)) else run
    case PollTask => run.(actor := PollActor(run.actor))
  }

  function Acts(actions: seq<Action>): Run {
    if actions == [] then Run(Actor([], 2, false, true, []), [])
    else Act(Acts(actions[..|actions| - 1]), actions[|actions| - 1])
  }

  /** A prefix of what was sent is answered, the rest is queued, and a service that is not due will be woken. */
  predicate Consistent(run: Run) {
    && run.actor.senders >= 1
    && |run.actor.attempts| <= |run.sent|
    && run.actor.attempts == Answers(run.sent[..|run.actor.attempts|])
    && run.actor.queue == run.sent[|run.actor.attempts|..]
    && (run.actor.due || (run.actor.waker && run.actor.queue == []))
  }

  lemma ActConsistent(run: Run, action: Action)
    requires Consistent(run)
    ensures Consistent(Act(run, action))
  {
    var n := |run.actor.attempts|;
    match action {
      case SendTo(request) =>
        assert (run.sent + [request])[..n] == run.sent[..n];
        assert (run.sent + [request])[n..] == run.sent[n..] + [request];
      case PollTask =>
        AnswersConcat(run.sent[..n], run.sent[n..]);
        assert run.sent == run.sent[..n] + run.sent[n..];
        assert run.sent[..|run.sent|] == run.sent;
      case _ =>
    }
  }

  lemma PollAnswersAll(run: Run)
    requires Consistent(run)
    ensures Act(run, PollTask).actor.attempts == Answers(run.sent) && Act(run, PollTask).actor.waker
  {
    var n := |run.actor.attempts|;
    AnswersConcat(run.sent[..n], run.sent[n..]);
    assert run.sent == run.sent[..n] + run.sent[n..];
  }

  /**
  Over every run, with any number of handles coming and going: each request is answered at most once, in the order sent,
  with the future its own arguments ask for; the service's own sender keeps the channel open, so that a pending poll
  always leaves its waker; and as long as a request waits, the service is due to be polled, which answers everything
  sent so far.
   */
  lemma {:induction false} RequestsAreAnsweredInOrder(actions: seq<Action>)
    ensures var run := Acts(actions);
            && Consistent(run)
            && Act(run, PollTask).actor.attempts == Answers(run.sent)
            && Act(run, PollTask).actor.waker
  {
    if actions != [] {
      RequestsAreAnsweredInOrder(actions[..|actions| - 1]);
      ActConsistent(Acts(actions[..|actions| - 1]), actions[|actions| - 1]);
    }
    PollAnswersAll(Acts(actions));
  }

  /** Reply channels that are not shared between requests get exactly one attempt each. */
  lemma OneAttemptPerReply(actions: seq<Action>, i: nat, j: nat)
    requires var run := Acts(actions); forall a, b :: 0 <= a < b < |run.sent| ==> run.sent[a].reply != run.sent[b].reply
    requires i < |Acts(actions).sent| && j < |Acts(actions).actor.attempts|
    ensures Acts(actions).actor.attempts[j].reply == Acts(actions).sent[i].reply <==> i == j
  {
    RequestsAreAnsweredInOrder(actions);
    var run := Acts(actions);
    AnswerAt(run.sent[..|run.actor.attempts|], j);
    if i < j {
      assert run.sent[i].reply != run.sent[j].reply;
    }
  }

  /** The future makes the call a command names, with the command's own arguments. */
  predicate Asks(command: Command, future: ApiCall) {
    && (command.SyncStatus? <==> future.GetSyncStatus?)
    && (command.ForkData? <==> future.GetForkData?)
    && (command.ProposerDuties? <==> future.GetProposerDuties?)
    && (command.KnownValidator? <==> future.GetKnownValidator?)
    && (command.PublishBlock? <==> future.PostBlock?)
    && (command.ProposerDuties? ==> future.epoch == command.epoch)
    && (command.KnownValidator? ==> future.pubkey == command.pubkey)
    && (command.PublishBlock? ==> future.block == command.block && future.submissionType == command.submissionType)
  }

  /** Over every run the attempt made for a request goes over its own reply channel, with the call it asks for. */
  lemma AttemptsAsk(actions: seq<Action>, i: nat)
    requires i < |Acts(actions).actor.attempts|
    ensures var run := Acts(actions);
            && i < |run.sent|
            && run.actor.attempts[i].reply == run.sent[i].reply
            && Asks(run.sent[i].command, run.actor.attempts[i].future)
  {
    RequestsAreAnsweredInOrder(actions);
    var run := Acts(actions);
    AnswerAt(run.sent[..|run.actor.attempts|], i);
  }
}
