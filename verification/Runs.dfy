/** Finite runs of a transition system, given by which steps are possible and where they lead. */
module Runs {

  ghost predicate Valid<S, T>(ok: (S, T) -> bool, next: (S, T) -> S, s: S, steps: seq<T>)
    decreases |steps|
  {
    steps == [] || (ok(s, steps[0]) && Valid(ok, next, next(s, steps[0]), steps[1..]))
  }

  /** The state after the first `n` steps. */
  ghost function At<S, T>(next: (S, T) -> S, s: S, steps: seq<T>, n: nat): S
    requires n <= |steps|
    decreases n
  {
    if n == 0 then s else At(next, next(s, steps[0]), steps[1..], n - 1)
  }

  /** Every step of a run is possible in the state it is taken from. */
  lemma {:induction false} StepAt<S, T>(ok: (S, T) -> bool, next: (S, T) -> S, s: S, steps: seq<T>, n: nat)
    requires Valid(ok, next, s, steps) && n < |steps|
    ensures ok(At(next, s, steps, n), steps[n])
    ensures At(next, s, steps, n + 1) == next(At(next, s, steps, n), steps[n])
    decreases n
  {
    if n > 0 {
      StepAt(ok, next, next(s, steps[0]), steps[1..], n - 1);
    } else {
      assert At(next, s, steps, 1) == At(next, next(s, steps[0]), steps[1..], 0);
    }
  }

  /** A property that every possible step keeps holds all along. */
  lemma {:induction false} Invariant<S(!new), T(!new)>(
    ok: (S, T) -> bool, next: (S, T) -> S, inv: S -> bool, s: S, steps: seq<T>, n: nat)
    requires Valid(ok, next, s, steps) && n <= |steps| && inv(s)
    requires forall a, t :: inv(a) && ok(a, t) ==> inv(next(a, t))
    ensures inv(At(next, s, steps, n))
    decreases n
  {
    if n > 0 {
      Invariant(ok, next, inv, next(s, steps[0]), steps[1..], n - 1);
    }
  }

  /** A preorder that contains every possible step relates earlier to later states. */
  lemma {:induction false} Ordered<S(!new), T(!new)>(
    ok: (S, T) -> bool, next: (S, T) -> S, rel: (S, S) -> bool, s: S, steps: seq<T>, i: nat, j: nat)
    requires Valid(ok, next, s, steps) && i <= j <= |steps|
    requires forall a :: rel(a, a)
    requires forall a, b, c :: rel(a, b) && rel(b, c) ==> rel(a, c)
    requires forall a, t :: ok(a, t) ==> rel(a, next(a, t))
    ensures rel(At(next, s, steps, i), At(next, s, steps, j))
    decreases j - i
  {
    if i < j {
      StepAt(ok, next, s, steps, i);
      Ordered(ok, next, rel, s, steps, i + 1, j);
    }
  }

  /**
   * A condition that survives every quiet step survives any run of quiet steps, and each of those steps
   * is as good as the condition promises.
   */
  lemma {:induction false} WhileQuiet<S(!new), T(!new)>(
    ok: (S, T) -> bool, next: (S, T) -> S, inv: S -> bool, quiet: (S, T) -> bool, good: (S, T) -> bool,
    s: S, steps: seq<T>, n: nat)
    requires Valid(ok, next, s, steps) && n <= |steps| && inv(s)
    requires forall i :: 0 <= i < n ==> quiet(At(next, s, steps, i), steps[i])
    requires forall a, t :: inv(a) && ok(a, t) && quiet(a, t) ==> inv(next(a, t)) && good(a, t)
    ensures inv(At(next, s, steps, n))
    ensures forall i :: 0 <= i < n ==> good(At(next, s, steps, i), steps[i])
    decreases n
  {
    if n > 0 {
      WhileQuiet(ok, next, inv, quiet, good, s, steps, n - 1);
      StepAt(ok, next, s, steps, n - 1);
    }
  }

  /** A mark that a step leaves, and that nothing erases, is there ever after. */
  lemma {:induction false} Lasts<S(!new), T(!new)>(
    ok: (S, T) -> bool, next: (S, T) -> S, first: (S, T) -> bool, mark: S -> bool, s: S, steps: seq<T>, i: nat, j: nat)
    requires Valid(ok, next, s, steps) && i < j <= |steps| && first(At(next, s, steps, i), steps[i])
    requires forall a, t :: ok(a, t) && first(a, t) ==> mark(next(a, t))
    requires forall a, t :: ok(a, t) && mark(a) ==> mark(next(a, t))
    ensures mark(At(next, s, steps, j))
    decreases j
  {
    StepAt(ok, next, s, steps, j - 1);
    if i < j - 1 {
      Lasts(ok, next, first, mark, s, steps, i, j - 1);
    }
  }

  /** Once a step of one sort has left its mark, which nothing erases, no step of the other sort can follow. */
  lemma Excludes<S(!new), T(!new)>(
    ok: (S, T) -> bool, next: (S, T) -> S, first: (S, T) -> bool, second: (S, T) -> bool, mark: S -> bool,
    s: S, steps: seq<T>, i: nat, j: nat)
    requires Valid(ok, next, s, steps) && i < j < |steps| && first(At(next, s, steps, i), steps[i])
    requires forall a, t :: ok(a, t) && first(a, t) ==> mark(next(a, t))
    requires forall a, t :: ok(a, t) && mark(a) ==> mark(next(a, t))
    requires forall a, t :: ok(a, t) && mark(a) ==> !second(a, t)
    ensures !second(At(next, s, steps, j), steps[j])
  {
    Lasts(ok, next, first, mark, s, steps, i, j);
    StepAt(ok, next, s, steps, j);
  }

  /** A mark that was not there at the start was left by some step. */
  lemma {:induction false} Caused<S(!new), T(!new)>(
    ok: (S, T) -> bool, next: (S, T) -> S, cause: (S, T) -> bool, mark: S -> bool, s: S, steps: seq<T>, n: nat)
    requires Valid(ok, next, s, steps) && n <= |steps| && !mark(s) && mark(At(next, s, steps, n))
    requires forall a, t :: ok(a, t) && !mark(a) && mark(next(a, t)) ==> cause(a, t)
    ensures exists i :: 0 <= i < n && cause(At(next, s, steps, i), steps[i])
    decreases n
  {
    if n > 0 {
      StepAt(ok, next, s, steps, n - 1);
      if mark(At(next, s, steps, n - 1)) {
        Caused(ok, next, cause, mark, s, steps, n - 1);
      }
    }
  }

  /** A run that takes one step first. */
  lemma First<S, T>(ok: (S, T) -> bool, next: (S, T) -> S, s: S, steps: seq<T>)
    requires steps != [] && ok(s, steps[0]) && Valid(ok, next, next(s, steps[0]), steps[1..])
    ensures Valid(ok, next, s, steps)
    ensures At(next, s, steps, |steps|) == At(next, next(s, steps[0]), steps[1..], |steps| - 1)
  {
  }
}
