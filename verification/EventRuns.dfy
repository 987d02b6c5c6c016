/** Runs of a machine on a sequence of events: an event that is not possible changes nothing. */
module EventRuns {

  ghost predicate IsRun<S, E>(moves: (S, E, S) -> bool, first: S, events: seq<E>, states: seq<S>) {
    && |states| == |events| + 1 && states[0] == first
    && forall i :: 0 <= i < |events| ==> moves(states[i], events[i], states[i + 1])
  }

  lemma RunOn<S, E>(moves: (S, E, S) -> bool, first: S, events: seq<E>, states: seq<S>, e: E, s: S)
    requires IsRun(moves, first, events, states) && moves(states[|events|], e, s)
    ensures IsRun(moves, first, events + [e], states + [s])
  {
    var all, seen := events + [e], states + [s];
    forall i | 0 <= i < |all|
      ensures moves(seen[i], all[i], seen[i + 1])
    {
      assert i < |events| ==> seen[i + 1] == states[i + 1] && all[i] == events[i];
      assert seen[i] == states[i];
    }
  }
}
