/** What the solver does not see by itself about sequences, and induction along a run. */
module Sequences {
  lemma Associative<T>(a: seq<T>, b: seq<T>, c: seq<T>)
    ensures (a + b) + c == a + (b + c)
  {
  }

  /** What holds at the start of a run and is kept by each of its steps holds all along. */
  lemma {:induction false} Invariance<S(!new), T(!new)>(states: seq<S>, steps: seq<T>, inv: S -> bool,
                                                         follows: (S, T, S) -> bool, n: nat)
    requires |states| == |steps| + 1 && n <= |steps| && inv(states[0])
    requires forall i {:trigger steps[i]} :: 0 <= i < |steps| ==> follows(states[i], steps[i], states[i + 1])
    requires forall a, step, b :: inv(a) && follows(a, step, b) ==> inv(b)
    ensures inv(states[n])
    decreases n
  {
    if n > 0 {
      Invariance(states, steps, inv, follows, n - 1);
      assert follows(states[n - 1], steps[n - 1], states[n]);
    }
  }

  /** The same for the values of a function, one after the other. */
  lemma {:induction false} Iteration<S(!new)>(f: nat -> S, inv: (S, nat) -> bool, n: nat)
    requires inv(f(0), 0)
    requires forall k: nat :: inv(f(k), k) ==> inv(f(k + 1), k + 1)
    ensures inv(f(n), n)
    decreases n
  {
    if n > 0 {
      Iteration(f, inv, n - 1);
      assert inv(f(n - 1 + 1), n - 1 + 1);
    }
  }

  /** `states` is a run by `steps`. */
  ghost predicate IsRun<S(!new), T(!new)>(states: seq<S>, steps: seq<T>, follows: (S, T, S) -> bool) {
    && |states| == |steps| + 1
    && forall i {:trigger steps[i]} :: 0 <= i < |steps| ==> follows(states[i], steps[i], states[i + 1])
  }

  lemma RunCons<S(!new), T(!new)>(s: S, step: T, states: seq<S>, steps: seq<T>, follows: (S, T, S) -> bool)
    requires IsRun(states, steps, follows) && follows(s, step, states[0])
    ensures IsRun([s] + states, [step] + steps, follows)
  {
    var ss, ts := [s] + states, [step] + steps;
    forall i | 0 <= i < |ts| ensures follows(ss[i], ts[i], ss[i + 1]) {
      if i > 0 {
        assert ts[i] == steps[i - 1] && ss[i] == states[i - 1] && ss[i + 1] == states[i];
      }
    }
  }

  lemma RunSnoc<S(!new), T(!new)>(states: seq<S>, steps: seq<T>, step: T, s: S, follows: (S, T, S) -> bool)
    requires IsRun(states, steps, follows) && follows(states[|steps|], step, s)
    ensures IsRun(states + [s], steps + [step], follows)
  {
    var ss, ts := states + [s], steps + [step];
    forall i | 0 <= i < |ts| ensures follows(ss[i], ts[i], ss[i + 1]) {
      if i < |steps| {
        assert ts[i] == steps[i] && ss[i] == states[i] && ss[i + 1] == states[i + 1];
      }
    }
  }
}
