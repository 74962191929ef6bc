// Repeating a step until it stops changing its argument. Both shrink-to-fit
// procedures end in a loop of this kind ("truncate until it fits"); a measure
// that every effective step lowers bounds how long the step can matter, and so
// decides whether such a loop ends.

module Iteration {
  /** `x` after `n` applications of `step`. */
  function Iterate<T>(step: T -> T, x: T, n: nat): T
  {
    if n == 0 then x else step(Iterate(step, x, n - 1))
  }

  /** Every step that changes its argument lowers `measure`. */
  ghost predicate Shrinks<T(!new)>(step: T -> T, measure: T -> nat)
  {
    forall x :: step(x) != x ==> measure(step(x)) < measure(x)
  }

  /** `n` steps lead to a value satisfying `goal`. */
  ghost predicate ReachedAfter<T>(step: T -> T, goal: T -> bool, x: T, n: nat)
  {
    goal(Iterate(step, x, n))
  }

  /** Until a fixpoint is reached, every step uses up one unit of the measure. */
  lemma {:induction false} MeasureUsedUp<T(!new)>(step: T -> T, measure: T -> nat, x: T, k: nat)
    requires Shrinks(step, measure)
    ensures var y := Iterate(step, x, k);
      step(y) == y || measure(y) + k <= measure(x)
  {
    if k > 0 {
      MeasureUsedUp(step, measure, x, k - 1);
      var prev := Iterate(step, x, k - 1);
      assert Iterate(step, x, k) == step(prev);
    }
  }

  /** A fixpoint, once reached, is never left. */
  lemma {:induction false} FixpointStays<T>(step: T -> T, x: T, k: nat, n: nat)
    requires k <= n
    requires step(Iterate(step, x, k)) == Iterate(step, x, k)
    ensures Iterate(step, x, n) == Iterate(step, x, k)
    decreases n
  {
    if n > k {
      FixpointStays(step, x, k, n - 1);
      var prev := Iterate(step, x, n - 1);
      assert Iterate(step, x, n) == step(prev);
    }
  }

  /** After `measure(x)` steps nothing changes any more. */
  lemma Settles<T(!new)>(step: T -> T, measure: T -> nat, x: T, n: nat)
    requires Shrinks(step, measure)
    requires n >= measure(x)
    ensures Iterate(step, x, n) == Iterate(step, x, measure(x))
    ensures step(Iterate(step, x, n)) == Iterate(step, x, n)
  {
    MeasureUsedUp(step, measure, x, measure(x));
    FixpointStays(step, x, measure(x), n);
  }

  /** Some number of steps reaches the goal exactly when a number no larger
      than the measure does: a loop that steps until the goal holds ends if and
      only if it ends within `measure(x)` steps. */
  lemma ReachedWithinMeasure<T(!new)>(step: T -> T, measure: T -> nat, goal: T -> bool, x: T)
    requires Shrinks(step, measure)
    ensures (exists n: nat :: ReachedAfter(step, goal, x, n))
        <==> (exists n: nat :: n <= measure(x) && ReachedAfter(step, goal, x, n))
  {
    if exists n: nat :: ReachedAfter(step, goal, x, n) {
      var n: nat :| ReachedAfter(step, goal, x, n);
      if n > measure(x) {
        Settles(step, measure, x, n);
      }
      var w: nat := if n > measure(x) then measure(x) else n;
      assert w <= measure(x) && ReachedAfter(step, goal, x, w);
    }
  }

  /** None of the first `k` iterates satisfies `goal`: a loop that steps until
      the goal holds has not stopped before step `k`. */
  ghost predicate NotReachedBefore<T>(step: T -> T, goal: T -> bool, x: T, k: nat)
  {
    forall j: nat :: j < k ==> !goal(Iterate(step, x, j))
  }

  /** One more iterate that misses the goal extends the run of misses. */
  lemma NotReachedBeforeStep<T>(step: T -> T, goal: T -> bool, x: T, k: nat)
    requires NotReachedBefore(step, goal, x, k)
    requires !goal(Iterate(step, x, k))
    ensures NotReachedBefore(step, goal, x, k + 1)
  {
  }

  /** Every step taken while `cond` holds lowers `measure`. */
  ghost predicate DecreasesWhile<T(!new)>(cond: T -> bool, step: T -> T, measure: T -> nat)
  {
    forall x :: cond(x) ==> measure(step(x)) < measure(x)
  }

  /** `x` after stepping for as long as `cond` holds: a value where `cond`
      no longer holds. */
  function RepeatWhile<T(!new)>(cond: T -> bool, step: T -> T, measure: T -> nat, x: T): (r: T)
    requires DecreasesWhile(cond, step, measure)
    ensures !cond(r)
    ensures !cond(x) ==> r == x
    decreases measure(x)
  {
    if cond(x) then RepeatWhile(cond, step, measure, step(x)) else x
  }
}
