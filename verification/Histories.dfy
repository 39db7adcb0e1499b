/** What the steps of a run say about where it has come to. */
module Histories {

  /** Where the machine stood and what it did. */
  datatype Step<S, A> = Step(before: S, action: A)

  /** There was a step of the one kind, and none of the other kind after it. */
  predicate Since<S, A>(steps: seq<Step<S, A>>, on: Step<S, A> -> bool, off: Step<S, A> -> bool) {
    exists i :: 0 <= i < |steps| && on(steps[i]) && forall j | i < j < |steps| :: !off(steps[j])
  }

  /** Everything that the steps contribute, in their order. */
  function Collect<S, A, T>(steps: seq<Step<S, A>>, what: Step<S, A> -> seq<T>): seq<T> {
    if steps == [] then [] else Collect(steps[..|steps| - 1], what) + what(steps[|steps| - 1])
  }

  lemma CollectSnoc<S, A, T>(steps: seq<Step<S, A>>, step: Step<S, A>, what: Step<S, A> -> seq<T>)
    ensures Collect(steps + [step], what) == Collect(steps, what) + what(step)
  {
    assert (steps + [step])[..|steps|] == steps;
  }

  lemma SinceSnoc<S, A>(steps: seq<Step<S, A>>, step: Step<S, A>, on: Step<S, A> -> bool, off: Step<S, A> -> bool)
    ensures Since(steps + [step], on, off) <==> on(step) || (Since(steps, on, off) && !off(step))
  {
    var longer := steps + [step];
    if on(step) {
      assert on(longer[|steps|]);
    }
    if Since(longer, on, off) && !on(step) {
      var i :| 0 <= i < |longer| && on(longer[i]) && forall j | i < j < |longer| :: !off(longer[j]);
      assert !off(longer[|steps|]);
      assert on(steps[i]);
      forall j | i < j < |steps|
        ensures !off(steps[j])
      {
        assert !off(longer[j]);
      }
    }
    if Since(steps, on, off) && !off(step) {
      var i :| 0 <= i < |steps| && on(steps[i]) && forall j | i < j < |steps| :: !off(steps[j]);
      assert on(longer[i]);
    }
  }
}
