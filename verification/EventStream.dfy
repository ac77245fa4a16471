/**
The merge of the payload-attribute stream and the head stream.  A source is the trace of its answers to being polled, so
that every schedule of arrivals, errors and ends is covered.
 */
module EventStream {
  import opened Types

  /** One answer of a source to a poll. */
  datatype Polled<+E> = Pending | Item(event: E) | Err | End

  datatype Answered<+E> = Answered(answer: Polled<E>, rest: seq<Polled<E>>)

  /** The next answer of a source; a source with nothing left to say stays pending. */
  function PollSource<E>(trace: seq<Polled<E>>): Answered<E> {
    if trace == [] then Answered(Pending, []) else Answered(trace[0], trace[1..])
  }

  /** The answers two sources have yet to give. */
  datatype Sources = Sources(attributes: seq<Polled<PayloadAttributes>>, heads: seq<Polled<u64>>)

  datatype Merged = Ready(event: BeaconEvent) | Ended | NotReady

  datatype Poll = Poll(result: Merged, rest: Sources)

  /** `poll_next`: the attribute source first, and the head source only if that yields nothing. */
  function PollMerged(sources: Sources): Poll {
    var a := PollSource(sources.attributes);
    match a.answer
    case Item(attributes) => Poll(Ready(PayloadAttribute(attributes)), sources.(attributes := a.rest))
    case Err => Poll(Ended, sources.(attributes := a.rest))
    case _ =>
      var h := PollSource(sources.heads);
      var rest := Sources(a.rest, h.rest);
      match h.answer
      case Item(slot) => Poll(Ready(Head(slot)), rest)
      case Pending => Poll(NotReady, rest)
      case _ => Poll(Ended, rest)
  }

  /** The stream object, whose two sources advance as it is polled. */
  class BeaconEventsStream {
    var payloadAttributes: seq<Polled<PayloadAttributes>>
    var newHead: seq<Polled<u64>>

    ghost function View(): Sources
      reads this
    {
      Sources(payloadAttributes, newHead)
    }

    constructor (payloadAttributes: seq<Polled<PayloadAttributes>>, newHead: seq<Polled<u64>>)
      ensures View() == Sources(payloadAttributes, newHead)
    {
      this.payloadAttributes := payloadAttributes;
      this.newHead := newHead;
    }

    method PollAttributes() returns (answer: Polled<PayloadAttributes>)
      modifies this`payloadAttributes
      ensures Answered(answer, payloadAttributes) == PollSource(old(payloadAttributes))
    {
      if payloadAttributes == [] {
        return Pending;
      }
      answer, payloadAttributes := payloadAttributes[0], payloadAttributes[1..];
    }

    method PollHead() returns (answer: Polled<u64>)
      modifies this`newHead
      ensures Answered(answer, newHead) == PollSource(old(newHead))
    {
      if newHead == [] {
        return Pending;
      }
      answer, newHead := newHead[0], newHead[1..];
    }

    method PollNext() returns (result: Merged)
      modifies this
      ensures Poll(result, View()) == PollMerged(old(View()))
    {
      var attributes := PollAttributes();
      match attributes {
        case Item(event) => return Ready(PayloadAttribute(event));
        case Err => return Ended;
        case End =>
        case Pending =>
      }
      var head := PollHead();
      match head {
        case Item(slot) => return Ready(Head(slot));
        case Err => return Ended;
        case End => return Ended;
        case Pending => return NotReady;
      }
    }
  }

  // ----- Any number of polls

  datatype Outcome = Outcome(events: seq<BeaconEvent>, ended: bool, rest: Sources)

  /** Up to `n` polls, stopping at the end of the merged stream. */
  function PollMany(sources: Sources, n: nat): Outcome {
    if n == 0 then Outcome([], false, sources)
    else
      var before := PollMany(sources, n - 1);
      if before.ended then before
      else
        var poll := PollMerged(before.rest);
        match poll.result
        case Ready(event) => Outcome(before.events + [event], false, poll.rest)
        case Ended => Outcome(before.events, true, poll.rest)
        case NotReady => Outcome(before.events, false, poll.rest)
  }

  /** The good items among some answers, in order. */
  function Items<E>(answers: seq<Polled<E>>): seq<E> {
    if answers == [] then []
    else
      var last := answers[|answers| - 1];
      Items(answers[..|answers| - 1]) + if last.Item? then [last.event] else []
  }

  /** Attribute answers that end the merged stream. */
  function AttributeTerminals(answers: seq<Polled<PayloadAttributes>>): nat {
    if answers == [] then 0
    else AttributeTerminals(answers[..|answers| - 1]) + if answers[|answers| - 1].Err? then 1 else 0
  }

  /** Head answers that end the merged stream: an error, or the end of the head source. */
  function HeadTerminals(answers: seq<Polled<u64>>): nat {
    if answers == [] then 0
    else
      var last := answers[|answers| - 1];
      HeadTerminals(answers[..|answers| - 1]) + if last.Err? || last.End? then 1 else 0
  }

  function AttributesOf(events: seq<BeaconEvent>): seq<PayloadAttributes> {
    if events == [] then []
    else
      var last := events[|events| - 1];
      AttributesOf(events[..|events| - 1]) + if last.PayloadAttribute? then [last.attributes] else []
  }

  function HeadsOf(events: seq<BeaconEvent>): seq<u64> {
    if events == [] then []
    else
      var last := events[|events| - 1];
      HeadsOf(events[..|events| - 1]) + if last.Head? then [last.slot] else []
  }

  /** What the merged stream has done with the answers taken from its sources. */
  ghost predicate Accounted(sources: Sources, outcome: Outcome, a: nat, h: nat) {
    && a <= |sources.attributes| && h <= |sources.heads|
    && outcome.rest == Sources(sources.attributes[a..], sources.heads[h..])
    && AttributesOf(outcome.events) == Items(sources.attributes[..a])
    && HeadsOf(outcome.events) == Items(sources.heads[..h])
    && AttributeTerminals(sources.attributes[..a]) + HeadTerminals(sources.heads[..h])
       == (if outcome.ended then 1 else 0)
  }

  lemma OneMore<E>(trace: seq<Polled<E>>, k: nat)
    requires k <= |trace|
    ensures var polled := PollSource(trace[k..]);
            if k < |trace|
            then polled == Answered(trace[k], trace[k + 1..]) && trace[..k + 1] == trace[..k] + [trace[k]]
            else polled == Answered(Pending, []) && trace[k..] == []
  {
  }

  lemma ItemsExtend<E>(answers: seq<Polled<E>>, last: Polled<E>)
    ensures Items(answers + [last]) == if last.Item? then Items(answers) + [last.event] else Items(answers)
  {
    assert (answers + [last])[..|answers|] == answers;
    assert Items(answers) + [] == Items(answers);
  }

  lemma TerminalsExtend(a: seq<Polled<PayloadAttributes>>, x: Polled<PayloadAttributes>, h: seq<Polled<u64>>,
                        y: Polled<u64>)
    ensures AttributeTerminals(a + [x]) == AttributeTerminals(a) + if x.Err? then 1 else 0
    ensures HeadTerminals(h + [y]) == HeadTerminals(h) + if y.Err? || y.End? then 1 else 0
  {
    assert (a + [x])[..|a|] == a && (h + [y])[..|h|] == h;
  }

  lemma EventsExtend(events: seq<BeaconEvent>, last: BeaconEvent)
    ensures AttributesOf(events + [last])
         == if last.PayloadAttribute? then AttributesOf(events) + [last.attributes] else AttributesOf(events)
    ensures HeadsOf(events + [last]) == if last.Head? then HeadsOf(events) + [last.slot] else HeadsOf(events)
  {
    assert (events + [last])[..|events|] == events;
    assert AttributesOf(events) + [] == AttributesOf(events) && HeadsOf(events) + [] == HeadsOf(events);
  }

  /** Taking the next attribute answer, or noticing there is none yet. */
  lemma TakeAttribute(sources: Sources, a: nat) returns (a': nat)
    requires a <= |sources.attributes|
    ensures a <= a' <= |sources.attributes|
    ensures var polled := PollSource(sources.attributes[a..]);
            && polled.rest == sources.attributes[a'..]
            && Items(sources.attributes[..a'])
               == Items(sources.attributes[..a]) + (if polled.answer.Item? then [polled.answer.event] else [])
            && AttributeTerminals(sources.attributes[..a'])
               == AttributeTerminals(sources.attributes[..a]) + (if polled.answer.Err? then 1 else 0)
  {
    var polled := PollSource(sources.attributes[a..]);
    OneMore(sources.attributes, a);
    if a < |sources.attributes| {
      a' := a + 1;
      ItemsExtend(sources.attributes[..a], polled.answer);
      TerminalsExtend(sources.attributes[..a], polled.answer, [], Pending);
    } else {
      a' := a;
    }
  }

  lemma TakeHead(sources: Sources, h: nat) returns (h': nat)
    requires h <= |sources.heads|
    ensures h <= h' <= |sources.heads|
    ensures var polled := PollSource(sources.heads[h..]);
            && polled.rest == sources.heads[h'..]
            && Items(sources.heads[..h'])
               == Items(sources.heads[..h]) + (if polled.answer.Item? then [polled.answer.event] else [])
            && HeadTerminals(sources.heads[..h'])
               == HeadTerminals(sources.heads[..h]) + (if polled.answer.Err? || polled.answer.End? then 1 else 0)
  {
    var polled := PollSource(sources.heads[h..]);
    OneMore(sources.heads, h);
    if h < |sources.heads| {
      h' := h + 1;
      ItemsExtend(sources.heads[..h], polled.answer);
      TerminalsExtend([], Pending, sources.heads[..h], polled.answer);
    } else {
      h' := h;
    }
  }

  /**
  Over every schedule: the events emitted are, source by source and in order, exactly the good items taken from the two
  sources, and of the answers that end the stream one has been taken if it has ended and none otherwise.
   */
  lemma {:induction false} MergeConservesEvents(sources: Sources, n: nat)
    ensures exists a, h :: Accounted(sources, PollMany(sources, n), a, h)
  {
    if n == 0 {
      assert Accounted(sources, PollMany(sources, 0), 0, 0);
    } else {
      MergeConservesEvents(sources, n - 1);
      var before := PollMany(sources, n - 1);
      var a, h :| Accounted(sources, before, a, h);
      if !before.ended {
        PollAccounted(sources, before, a, h, n);
      } else {
        assert Accounted(sources, PollMany(sources, n), a, h);
      }
    }
  }

  lemma PollAccounted(sources: Sources, before: Outcome, a: nat, h: nat, n: nat)
    requires n > 0 && before == PollMany(sources, n - 1) && !before.ended
    requires Accounted(sources, before, a, h)
    ensures exists a', h' :: Accounted(sources, PollMany(sources, n), a', h')
  {
    var answer := PollSource(before.rest.attributes).answer;
    if answer.Item? || answer.Err? {
      AttributeAccounted(sources, before, a, h, n);
    } else {
      HeadAccounted(sources, before, a, h, n);
    }
  }

  /** The poll takes an attribute, or an error in its place. */
  lemma AttributeAccounted(sources: Sources, before: Outcome, a: nat, h: nat, n: nat)
    requires n > 0 && before == PollMany(sources, n - 1) && !before.ended
    requires Accounted(sources, before, a, h)
    requires var answer := PollSource(before.rest.attributes).answer; answer.Item? || answer.Err?
    ensures exists a' :: Accounted(sources, PollMany(sources, n), a', h)
  {
    var poll := PollMerged(before.rest);
    var a' := TakeAttribute(sources, a);
    if poll.result.Ready? {
      EventsExtend(before.events, poll.result.event);
    }
    assert Accounted(sources, PollMany(sources, n), a', h);
  }

  /** The poll asks both sources. */
  lemma HeadAccounted(sources: Sources, before: Outcome, a: nat, h: nat, n: nat)
    requires n > 0 && before == PollMany(sources, n - 1) && !before.ended
    requires Accounted(sources, before, a, h)
    requires var answer := PollSource(before.rest.attributes).answer; !answer.Item? && !answer.Err?
    ensures exists a', h' :: Accounted(sources, PollMany(sources, n), a', h')
  {
    var poll := PollMerged(before.rest);
    var a' := TakeAttribute(sources, a);
    var h' := TakeHead(sources, h);
    if poll.result.Ready? {
      EventsExtend(before.events, poll.result.event);
    }
    assert Accounted(sources, PollMany(sources, n), a', h');
  }

  /** Once nothing is left of its sources, everything good in them has been emitted. */
  lemma DrainedStream(sources: Sources, n: nat)
    requires PollMany(sources, n).rest == Sources([], [])
    ensures AttributesOf(PollMany(sources, n).events) == Items(sources.attributes)
    ensures HeadsOf(PollMany(sources, n).events) == Items(sources.heads)
  {
    MergeConservesEvents(sources, n);
    var a: nat, h: nat :| Accounted(sources, PollMany(sources, n), a, h);
    assert |sources.attributes[a..]| == 0 && |sources.heads[h..]| == 0;
    assert sources.attributes[..a] == sources.attributes && sources.heads[..h] == sources.heads;
  }

  /** While attributes keep coming, heads wait: they are neither emitted nor lost. */
  lemma {:induction false} HeadsWait(sources: Sources, n: nat)
    requires n <= |sources.attributes| && forall i :: 0 <= i < n ==> sources.attributes[i].Item?
    ensures PollMany(sources, n)
            == Outcome(PollMany(sources, n).events, false, Sources(sources.attributes[n..], sources.heads))
    ensures HeadsOf(PollMany(sources, n).events) == []
  {
    if n > 0 {
      HeadsWait(sources, n - 1);
      AttributeTaken(sources, n - 1, PollMany(sources, n - 1));
    }
  }

  /** A poll while an attribute is there takes it. */
  lemma AttributeTaken(sources: Sources, k: nat, before: Outcome)
    requires k < |sources.attributes| && sources.attributes[k].Item?
    requires before == Outcome(before.events, false, Sources(sources.attributes[k..], sources.heads))
    ensures var poll := PollMerged(before.rest);
            && poll.result.Ready? && poll.rest == Sources(sources.attributes[k + 1..], sources.heads)
            && HeadsOf(before.events + [poll.result.event]) == HeadsOf(before.events)
  {
    OneMore(sources.attributes, k);
    EventsExtend(before.events, PayloadAttribute(sources.attributes[k].event));
  }

  /** In one poll: attributes come first, and a pending poll leaves the head source holding the waker. */
  lemma PollIsBiased(sources: Sources)
    ensures var poll, a := PollMerged(sources), PollSource(sources.attributes);
            && (poll.result.Ready? && poll.result.event.Head? ==> a.answer.Pending? || a.answer.End?)
            && (a.answer.Item?
                ==> poll.result == Ready(PayloadAttribute(a.answer.event)) && poll.rest.heads == sources.heads)
            && (poll.result.NotReady? <==>
                  (a.answer.Pending? || a.answer.End?) && PollSource(sources.heads).answer.Pending?)
            && (poll.result.Ended? <==>
                  || a.answer.Err?
                  || ((a.answer.Pending? || a.answer.End?)
                      && (PollSource(sources.heads).answer.Err? || PollSource(sources.heads).answer.End?)))
  {
  }
}
