/** Runs of a step system: what it means for a sequence of states to be a run,
    and the induction principle every concurrent component below relies on. */
module Runs {

  /** `t` starts in an initial state and each state follows the one before it by a step. */
  ghost predicate IsRun<S(!new)>(t: seq<S>, init: S -> bool, next: (S, S) -> bool) {
    && |t| > 0
    && init(t[0])
    && IsPath(t, next)
  }

  /** Consecutive states of `t` are related by `next`. */
  ghost predicate IsPath<S(!new)>(t: seq<S>, next: (S, S) -> bool) {
    && |t| > 0
    && forall i :: 0 <= i < |t| - 1 ==> next(t[i], t[i + 1])
  }

  /** A property that every initial state has and every step keeps holds throughout every run. */
  lemma {:induction false} InvariantHolds<S(!new)>(
      t: seq<S>, init: S -> bool, next: (S, S) -> bool, inv: S -> bool, i: nat)
    requires IsRun(t, init, next)
    requires forall s :: init(s) ==> inv(s)
    requires forall s, s' :: inv(s) && next(s, s') ==> inv(s')
    requires i < |t|
    ensures inv(t[i])
  {
    if i > 0 {
      InvariantHolds(t, init, next, inv, i - 1);
      assert next(t[i - 1], t[i - 1 + 1]);
    }
  }

  /** Two paths that meet can be joined. */
  lemma Join<S(!new)>(t: seq<S>, u: seq<S>, next: (S, S) -> bool)
    requires IsPath(t, next) && IsPath(u, next)
    requires next(t[|t| - 1], u[0])
    ensures IsPath(t + u, next)
  {
    var v := t + u;
    forall i | 0 <= i < |v| - 1
      ensures next(v[i], v[i + 1])
    {
      if i == |t| - 1 {
        assert v[i] == t[|t| - 1] && v[i + 1] == u[0];
      } else if i < |t| {
        assert next(t[i], t[i + 1]);
      } else {
        var j := i - |t|;
        assert v[i] == u[j] && v[i + 1] == u[j + 1];
        assert next(u[j], u[j + 1]);
      }
    }
  }

  /** What is left of a path after its first step is a path. */
  lemma TailIsPath<S(!new)>(t: seq<S>, next: (S, S) -> bool)
    requires IsPath(t, next) && |t| > 1
    ensures IsPath(t[1..], next)
  {
    forall i | 0 <= i < |t[1..]| - 1
      ensures next(t[1..][i], t[1..][i + 1])
    {
      assert next(t[i + 1], t[i + 1 + 1]);
    }
  }

  /** A path with one step put in front of it. */
  lemma Prepend<S(!new)>(s: S, t: seq<S>, next: (S, S) -> bool) returns (u: seq<S>)
    requires IsPath(t, next) && next(s, t[0])
    ensures IsPath(u, next) && |u| == |t| + 1 && u[0] == s && u[|u| - 1] == t[|t| - 1]
  {
    u := [s] + t;
    Join([s], t, next);
  }

  /** A schedule that gives the state after each number of steps is a run. */
  lemma FromSchedule<S(!new)>(f: nat --> S, n: nat, init: S -> bool, next: (S, S) -> bool) returns (t: seq<S>)
    requires forall k: nat :: k <= n ==> f.requires(k)
    requires init(f(0))
    requires forall k: nat :: k < n ==> next(f(k), f(k + 1))
    ensures IsRun(t, init, next) && t[0] == f(0) && t[|t| - 1] == f(n)
  {
    t := seq(n + 1, k requires 0 <= k <= n && f.requires(k) => f(k));
    forall i | 0 <= i < |t| - 1
      ensures next(t[i], t[i + 1])
    {
      var k: nat := i;
      assert next(f(k), f(k + 1));
    }
  }

  /** A run extended by a path from its last state is a run. */
  lemma Extend<S(!new)>(t: seq<S>, u: seq<S>, init: S -> bool, next: (S, S) -> bool)
    requires IsRun(t, init, next) && IsPath(u, next)
    requires next(t[|t| - 1], u[0])
    ensures IsRun(t + u, init, next)
  {
    Join(t, u, next);
  }

  /** Some path leads from `s` to `s'`. */
  ghost predicate Reaches<S(!new)>(s: S, s': S, next: (S, S) -> bool) {
    exists path: seq<S> :: IsPath(path, next) && path[0] == s && path[|path| - 1] == s'
  }

  lemma ReachesSelf<S(!new)>(s: S, next: (S, S) -> bool)
    ensures Reaches(s, s, next)
  {
    assert IsPath([s], next);
  }

  lemma ReachesStep<S(!new)>(s: S, mid: S, s': S, next: (S, S) -> bool)
    requires Reaches(s, mid, next) && next(mid, s')
    ensures Reaches(s, s', next)
  {
    var path: seq<S> :| IsPath(path, next) && path[0] == s && path[|path| - 1] == mid;
    Join(path, [s'], next);
    assert (path + [s'])[0] == s;
  }
}
