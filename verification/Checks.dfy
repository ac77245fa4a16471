/** Lists of checks of which the first that fails decides. */
module Checks {
  /** A condition, and the answer when it is the first that does not hold. */
  datatype Check<+A> = Check(holds: bool, refusal: A)

  ghost predicate AllHold<A>(checks: seq<Check<A>>) {
    forall i :: 0 <= i < |checks| ==> checks[i].holds
  }

  /** The first check that fails. */
  ghost predicate FailsAt<A>(checks: seq<Check<A>>, i: int) {
    0 <= i < |checks| && !checks[i].holds && forall j :: 0 <= j < i ==> checks[j].holds
  }

  /** The answer is the refusal of the first check that fails, or `accepted` when none does. */
  ghost predicate Decides<A>(checks: seq<Check<A>>, accepted: A, answer: A) {
    if AllHold(checks) then answer == accepted
    else exists i :: FailsAt(checks, i) && answer == checks[i].refusal
  }

  lemma OneDecides<A>(check: Check<A>, accepted: A, answer: A)
    requires answer == if check.holds then accepted else check.refusal
    ensures Decides([check], accepted, answer)
    ensures AllHold([check]) <==> check.holds
  {
    if !check.holds {
      assert FailsAt([check], 0);
    }
  }

  /** Of two lists of checks, the second decides exactly when the first has let the request through. */
  lemma ThenDecides<A>(first: seq<Check<A>>, second: seq<Check<A>>, accepted: A, answer: A)
    requires if AllHold(first) then Decides(second, accepted, answer) else Decides(first, accepted, answer)
    ensures Decides(first + second, accepted, answer)
    ensures AllHold(first + second) <==> AllHold(first) && AllHold(second)
  {
    var checks := first + second;
    assert forall i :: 0 <= i < |first| ==> checks[i] == first[i];
    assert forall i :: 0 <= i < |second| ==> checks[|first| + i] == second[i];
    if !AllHold(first) {
      var i :| FailsAt(first, i) && answer == first[i].refusal;
      assert FailsAt(checks, i);
    } else if !AllHold(second) {
      var i :| FailsAt(second, i) && answer == second[i].refusal;
      assert FailsAt(checks, |first| + i);
    }
  }
}
