/** Induction over the runs of a transition system, given as a relation between
    a state, a step and the next state: invariants hold in every state of a
    run, and preorders kept by every step hold between any two. */
module Runs {

  /** ws[0], steps[0], ws[1], ..., steps[n - 1], ws[n] follows next. */
  ghost predicate IsRun<W, S>(ws: seq<W>, steps: seq<S>, next: (W, S, W) -> bool) {
    && |ws| == |steps| + 1
    && forall k {:trigger steps[k]} :: 0 <= k < |steps| ==> next(ws[k], steps[k], ws[k + 1])
  }

  /** What holds at first and is kept by every step holds throughout. */
  lemma {:induction false} Invariant<W(!new), S(!new)>(ws: seq<W>, steps: seq<S>, next: (W, S, W) -> bool, inv: W -> bool, i: nat)
    requires IsRun(ws, steps, next) && i < |ws|
    requires inv(ws[0])
    requires forall w, s, w' :: inv(w) && next(w, s, w') ==> inv(w')
    ensures inv(ws[i])
  {
    if i > 0 {
      Invariant(ws, steps, next, inv, i - 1);
      var s := steps[i - 1];
    }
  }

  /** A reflexive and transitive relation that every step from a state of the
      invariant respects holds between any two states of a run. */
  lemma {:induction false} Monotone<W(!new), S(!new)>(ws: seq<W>, steps: seq<S>, next: (W, S, W) -> bool, inv: W -> bool,
                                                      rel: (W, W) -> bool, i: nat, j: nat)
    requires IsRun(ws, steps, next) && i <= j < |ws|
    requires inv(ws[0])
    requires forall w, s, w' :: inv(w) && next(w, s, w') ==> inv(w') && rel(w, w')
    requires forall w :: rel(w, w)
    requires forall w, w', w'' :: rel(w, w') && rel(w', w'') ==> rel(w, w'')
    ensures rel(ws[i], ws[j])
    decreases j - i
  {
    if i < j {
      Invariant(ws, steps, next, inv, i);
      var s := steps[i];
      Monotone(ws, steps, next, inv, rel, i + 1, j);
    }
  }

  lemma Extended<W(!new), S(!new)>(ws: seq<W>, steps: seq<S>, next: (W, S, W) -> bool, s: S, w: W)
    requires IsRun(ws, steps, next) && next(ws[|ws| - 1], s, w)
    ensures IsRun(ws + [w], steps + [s], next)
  {
    var ws', steps' := ws + [w], steps + [s];
    forall k {:trigger steps'[k]} | 0 <= k < |steps'| ensures next(ws'[k], steps'[k], ws'[k + 1]) {
      if k < |steps| { assert steps'[k] == steps[k]; }
    }
  }

  /** What some steps keep holds as long as only such steps are taken. */
  lemma {:induction false} Carried<W(!new), S(!new)>(ws: seq<W>, steps: seq<S>, next: (W, S, W) -> bool,
                                                     holds: W -> bool, quiet: S -> bool, i: nat, j: nat)
    requires IsRun(ws, steps, next) && i <= j < |ws| && holds(ws[i])
    requires forall w, s, w' :: holds(w) && next(w, s, w') && quiet(s) ==> holds(w')
    requires forall k :: i <= k < j ==> quiet(steps[k])
    ensures holds(ws[j])
    decreases j - i
  {
    if i < j {
      assert quiet(steps[i]);
      Carried(ws, steps, next, holds, quiet, i + 1, j);
    }
  }
}
