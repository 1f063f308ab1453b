/** Runs of a state machine whose step is a partial function of state and action. */
module Machine {
  import opened Wrappers

  /** The state after a list of actions, if each was possible in its turn. */
  function Run<S, A>(step: (S, A) -> Option<S>, s: S, actions: seq<A>): Option<S>
    decreases |actions|
  {
    if actions == [] then Some(s)
    else
      var t := step(s, actions[0]);
      if t.None? then None else Run(step, t.value, actions[1..])
  }

  lemma {:induction false} RunOn<S, A>(step: (S, A) -> Option<S>, s: S, first: seq<A>, more: seq<A>)
    requires Run(step, s, first).Some?
    ensures Run(step, s, first + more) == Run(step, Run(step, s, first).value, more)
    decreases |first|
  {
    if first == [] {
      assert first + more == more;
    } else {
      RunOn(step, step(s, first[0]).value, first[1..], more);
      assert (first + more)[1..] == first[1..] + more;
    }
  }

  lemma RunOne<S, A>(step: (S, A) -> Option<S>, s: S, a: A)
    ensures Run(step, s, [a]) == step(s, a)
  {
    assert [a][1..] == [];
  }

  /** What every step keeps of the actions so far and the state, every run keeps. */
  lemma {:induction false} TraceKeeps<S(!new), A(!new)>(step: (S, A) -> Option<S>, inv: (seq<A>, S) -> bool,
                                                        s: S, past: seq<A>, actions: seq<A>)
    requires inv(past, s)
    requires forall trace: seq<A>, x: S, a: A :: inv(trace, x) && step(x, a).Some? ==> inv(trace + [a], step(x, a).value)
    ensures Run(step, s, actions).Some? ==> inv(past + actions, Run(step, s, actions).value)
    decreases |actions|
  {
    if actions == [] {
      assert past + actions == past;
    } else if step(s, actions[0]).Some? {
      TraceKeeps(step, inv, step(s, actions[0]).value, past + [actions[0]], actions[1..]);
      assert past + [actions[0]] + actions[1..] == past + actions;
    }
  }

  /** What every step keeps, every run keeps. */
  lemma {:induction false} RunKeeps<S(!new), A(!new)>(step: (S, A) -> Option<S>, inv: S -> bool, s: S, actions: seq<A>)
    requires inv(s)
    requires forall x: S, a: A :: inv(x) && step(x, a).Some? ==> inv(step(x, a).value)
    ensures Run(step, s, actions).Some? ==> inv(Run(step, s, actions).value)
    decreases |actions|
  {
    if actions != [] && step(s, actions[0]).Some? {
      RunKeeps(step, inv, step(s, actions[0]).value, actions[1..]);
    }
  }
}
