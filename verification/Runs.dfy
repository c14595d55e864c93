/** Iterating a step function, and comparing two iterations. */
module Runs {

  function Iterate<S>(step: S -> S, s: S, n: nat): S {
    if n == 0 then s else step(Iterate(step, s, n - 1))
  }

  ghost predicate Preserved<S(!new)>(step: S -> S, inv: S -> bool) {
    forall t :: inv(t) ==> inv(step(t))
  }

  lemma {:induction false} Invariant<S(!new)>(step: S -> S, inv: S -> bool, s: S, n: nat)
    requires inv(s) && Preserved(step, inv)
    ensures inv(Iterate(step, s, n))
  {
    if n > 0 {
      Invariant(step, inv, s, n - 1);
    }
  }

  /** What a step keeps holds from some point on once it holds there. */
  lemma {:induction false} Later<S(!new)>(step: S -> S, inv: S -> bool, s: S, k: nat, n: nat)
    requires k <= n && inv(Iterate(step, s, k)) && Preserved(step, inv)
    ensures inv(Iterate(step, s, n))
  {
    if k < n {
      Later(step, inv, s, k, n - 1);
    }
  }

  /** Two step functions that agree along a run make the same run. */
  lemma {:induction false} SameRun<S>(step: S -> S, step': S -> S, s: S, n: nat)
    requires forall k: nat :: k < n ==> step'(Iterate(step, s, k)) == step(Iterate(step, s, k))
    ensures Iterate(step', s, n) == Iterate(step, s, n)
  {
    if n > 0 {
      SameRun(step, step', s, n - 1);
    }
  }

  /** How many of the first n steps are not on still states. */
  ghost function Moves<S>(step: S -> S, still: S -> bool, s: S, n: nat): nat {
    if n == 0 then 0
    else Moves(step, still, s, n - 1) + if still(Iterate(step, s, n - 1)) then 0 else 1
  }

  /** Still steps leave the view alone; every other step is one step of the view. */
  ghost predicate Stutters<S(!new), T>(step: S -> S, step': T -> T, view: S -> T, still: S -> bool, inv: S -> bool) {
    forall t :: inv(t) ==> view(step(t)) == if still(t) then view(t) else step'(view(t))
  }

  lemma {:induction false} StutterForward<S(!new), T>(step: S -> S, step': T -> T, view: S -> T, still: S -> bool,
                                                     inv: S -> bool, s: S, n: nat)
    requires inv(s) && Preserved(step, inv) && Stutters(step, step', view, still, inv)
    ensures view(Iterate(step, s, n)) == Iterate(step', view(s), Moves(step, still, s, n))
  {
    if n > 0 {
      StutterForward(step, step', view, still, inv, s, n - 1);
      Invariant(step, inv, s, n - 1);
    }
  }

  /** When still steps count down a rank, every step of the view is reached. */
  lemma {:induction false} LeaveStill<S(!new)>(step: S -> S, still: S -> bool, inv: S -> bool,
                                               rank: S -> nat, s: S, n: nat)
    returns (n': nat)
    requires inv(s) && Preserved(step, inv)
    requires forall t :: inv(t) && still(t) ==> rank(step(t)) < rank(t)
    ensures Moves(step, still, s, n') == Moves(step, still, s, n) && !still(Iterate(step, s, n'))
    decreases rank(Iterate(step, s, n))
  {
    Invariant(step, inv, s, n);
    if still(Iterate(step, s, n)) {
      n' := LeaveStill(step, still, inv, rank, s, n + 1);
    } else {
      n' := n;
    }
  }

  lemma {:induction false} MovesReached<S(!new)>(step: S -> S, still: S -> bool, inv: S -> bool,
                                                 rank: S -> nat, s: S, m: nat)
    returns (n: nat)
    requires inv(s) && Preserved(step, inv)
    requires forall t :: inv(t) && still(t) ==> rank(step(t)) < rank(t)
    ensures Moves(step, still, s, n) == m
  {
    if m == 0 {
      n := 0;
    } else {
      n := MovesReached(step, still, inv, rank, s, m - 1);
      n := LeaveStill(step, still, inv, rank, s, n);
      n := n + 1;
    }
  }

  /** Related states stay related over a step exactly when the step is not bad. */
  ghost predicate Tracks<S(!new), T(!new)>(step: S -> S, step': T -> T, same: (S, T) -> bool, bad: S -> bool,
                                           inv: S -> bool) {
    forall t, t' :: inv(t) && same(t, t') ==> (same(step(t), step'(t')) <==> !bad(t))
  }

  ghost predicate AllSame<S, T>(step: S -> S, step': T -> T, same: (S, T) -> bool, s: S, s': T, n: nat) {
    forall k :: 0 <= k <= n ==> same(Iterate(step, s, k), Iterate(step', s', k))
  }

  ghost predicate NoneBad<S>(step: S -> S, bad: S -> bool, s: S, n: nat) {
    forall k :: 0 <= k < n ==> !bad(Iterate(step, s, k))
  }

  /** A run that has not got stuck has taken no step that gets stuck. */
  lemma NoneBadYet<S(!new)>(step: S -> S, bad: S -> bool, stuck: S -> bool, s: S, n: nat)
    requires (forall t :: bad(t) ==> stuck(step(t))) && Preserved(step, stuck) && !stuck(Iterate(step, s, n))
    ensures NoneBad(step, bad, s, n)
  {
    forall k | 0 <= k < n
      ensures !bad(Iterate(step, s, k))
    {
      if bad(Iterate(step, s, k)) {
        Later(step, stuck, s, k + 1, n);
      }
    }
  }

  lemma {:induction false} TrackRun<S(!new), T(!new)>(step: S -> S, step': T -> T, same: (S, T) -> bool, bad: S -> bool,
                                                     inv: S -> bool, s: S, s': T, n: nat)
    requires inv(s) && same(s, s') && Preserved(step, inv) && Tracks(step, step', same, bad, inv)
    requires NoneBad(step, bad, s, n)
    ensures same(Iterate(step, s, n), Iterate(step', s', n))
  {
    if n > 0 {
      TrackRun(step, step', same, bad, inv, s, s', n - 1);
      Invariant(step, inv, s, n - 1);
    }
  }

  /** Two runs stay related for n steps exactly when the first takes no bad step. */
  lemma Lockstep<S(!new), T(!new)>(step: S -> S, step': T -> T, same: (S, T) -> bool, bad: S -> bool,
                                  inv: S -> bool, s: S, s': T, n: nat)
    requires inv(s) && same(s, s') && Preserved(step, inv) && Tracks(step, step', same, bad, inv)
    ensures AllSame(step, step', same, s, s', n) <==> NoneBad(step, bad, s, n)
  {
    if NoneBad(step, bad, s, n) {
      forall k | 0 <= k <= n
        ensures same(Iterate(step, s, k), Iterate(step', s', k))
      {
        TrackRun(step, step', same, bad, inv, s, s', k);
      }
    }
    if AllSame(step, step', same, s, s', n) {
      forall k | 0 <= k < n
        ensures !bad(Iterate(step, s, k))
      {
        Invariant(step, inv, s, k);
        var t, t' := Iterate(step, s, k), Iterate(step', s', k);
        assert same(t, t');
        assert Iterate(step, s, k + 1) == step(t) && Iterate(step', s', k + 1) == step'(t');
      }
    }
  }
}
