/** Runs of any state machine, given by its step relation and its starting states. */
module Transitions {

  /** states[i] precedes actions[i]; every action was possible when it happened. */
  ghost predicate IsRun<S, A>(states: seq<S>, actions: seq<A>, start: S -> bool, step: (S, A, S) -> bool) {
    && |states| == |actions| + 1 && start(states[0])
    && forall i {:trigger actions[i]} :: 0 <= i < |actions| ==> step(states[i], actions[i], states[i + 1])
  }

  /** What holds at every start and is kept by every step holds all along every run. */
  lemma {:induction false} RunKeeps<S(!new), A(!new)>(
      states: seq<S>, actions: seq<A>, start: S -> bool, step: (S, A, S) -> bool, inv: S -> bool, n: nat)
    requires IsRun(states, actions, start, step) && n < |states|
    requires forall x :: start(x) ==> inv(x)
    requires forall x, a, y :: inv(x) && step(x, a, y) ==> inv(y)
    ensures inv(states[n])
  {
    if n > 0 {
      RunKeeps(states, actions, start, step, inv, n - 1);
      assert step(states[n - 1], actions[n - 1], states[n]);
    }
  }

  lemma ExtendRun<S, A>(
      states: seq<S>, actions: seq<A>, start: S -> bool, step: (S, A, S) -> bool, a: A, next: S)
    returns (states': seq<S>, actions': seq<A>)
    requires IsRun(states, actions, start, step) && step(states[|actions|], a, next)
    ensures IsRun(states', actions', start, step)
    ensures states' == states + [next] && actions' == actions + [a]
  {
    states', actions' := states + [next], actions + [a];
  }

  /** The actions, taken in order, lead from x to y. */
  ghost predicate Leads<S(!new), A>(x: S, actions: seq<A>, y: S, step: (S, A, S) -> bool) {
    if actions == [] then x == y
    else
      var last := |actions| - 1;
      exists z :: Leads(x, actions[..last], z, step) && step(z, actions[last], y)
  }

  lemma LeadsOn<S(!new), A>(x: S, actions: seq<A>, y: S, a: A, z: S, step: (S, A, S) -> bool)
    requires Leads(x, actions, y, step) && step(y, a, z)
    ensures Leads(x, actions + [a], z, step)
  {
    assert (actions + [a])[..|actions|] == actions;
  }

  /** What every step keeps, every sequence of steps keeps. */
  lemma {:induction false} LeadsKeeps<S(!new), A(!new)>(
      x: S, actions: seq<A>, y: S, step: (S, A, S) -> bool, inv: S -> bool)
    requires inv(x) && Leads(x, actions, y, step)
    requires forall u, a, v :: inv(u) && step(u, a, v) ==> inv(v)
    ensures inv(y)
  {
    if actions != [] {
      var last := |actions| - 1;
      var z :| Leads(x, actions[..last], z, step) && step(z, actions[last], y);
      LeadsKeeps(x, actions[..last], z, step, inv);
    }
  }
}
