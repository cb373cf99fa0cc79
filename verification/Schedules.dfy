/** Runs of a machine: its moves taken one after another. */
module Schedules {

  function Fold<S, M>(step: (S, M) -> S, s: S, moves: seq<M>): S
    decreases |moves|
  {
    if moves == [] then s else step(Fold(step, s, moves[..|moves| - 1]), moves[|moves| - 1])
  }

  /** A run may be stopped and taken up again. */
  lemma {:induction false} FoldConcat<S, M>(step: (S, M) -> S, s: S, moves: seq<M>, more: seq<M>)
    ensures Fold(step, s, moves + more) == Fold(step, Fold(step, s, moves), more)
    decreases |more|
  {
    if more == [] {
      assert moves + more == moves;
    } else {
      var all := moves + more;
      assert all[..|all| - 1] == moves + more[..|more| - 1];
      FoldConcat(step, s, moves, more[..|more| - 1]);
    }
  }
}
