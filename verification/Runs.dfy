/** Runs of a transition system.  `next` takes a state by an action to the state after it, when the
    action can be taken. */
module Runs {
  import opened Options

  /** Taking `actions` one after the other leads from `s` to `t`. */
  ghost predicate Run<S, A>(next: (S, A) -> Option<S>, s: S, actions: seq<A>, t: S)
    decreases |actions|
  {
    if actions == [] then s == t
    else next(s, actions[0]).Some? && Run(next, next(s, actions[0]).value, actions[1..], t)
  }

  /** Every state passed on the way satisfies `p`. */
  ghost predicate Always<S, A>(next: (S, A) -> Option<S>, s: S, actions: seq<A>, p: S -> bool)
    decreases |actions|
  {
    && p(s)
    && (actions != [] && next(s, actions[0]).Some? ==> Always(next, next(s, actions[0]).value, actions[1..], p))
  }

  lemma {:induction false} RunSnoc<S, A>(next: (S, A) -> Option<S>, s: S, actions: seq<A>, t: S, a: A)
    requires Run(next, s, actions, t) && next(t, a).Some?
    ensures Run(next, s, actions + [a], next(t, a).value)
    decreases |actions|
  {
    if actions == [] {
      assert [a][1..] == [];
    } else {
      assert (actions + [a])[1..] == actions[1..] + [a];
      RunSnoc(next, next(s, actions[0]).value, actions[1..], t, a);
    }
  }

  lemma {:induction false} RunAppend<S, A>(next: (S, A) -> Option<S>, s: S, first: seq<A>, t: S, second: seq<A>, u: S)
    requires Run(next, s, first, t) && Run(next, t, second, u)
    ensures Run(next, s, first + second, u)
    decreases |first|
  {
    if first == [] {
      assert [] + second == second;
    } else {
      assert (first + second)[1..] == first[1..] + second;
      RunAppend(next, next(s, first[0]).value, first[1..], t, second, u);
    }
  }

  /** What every step keeps, every run keeps. */
  lemma {:induction false} RunKeeps<S(!new), A(!new)>(next: (S, A) -> Option<S>, keeps: S -> bool,
                                                     s: S, actions: seq<A>, t: S)
    requires forall u, a :: keeps(u) && next(u, a).Some? ==> keeps(next(u, a).value)
    requires keeps(s) && Run(next, s, actions, t)
    ensures keeps(t)
    decreases |actions|
  {
    if actions != [] {
      RunKeeps(next, keeps, next(s, actions[0]).value, actions[1..], t);
    }
  }
}
