/** The UUID barrier with any arguments and any number of calls: too many, too few, n = 0, and calls
    that disagree about n. */
module BarrierMisuse {
  import opened Runs
  import opened RecvBarrier

  ghost predicate Start(s: System) {
    Typed(s.plan) && s.arrived == {} && s.returned == {} && s.barriers == map[] && !s.fault
  }

  ghost predicate Moves(s: System, s': System) {
    Typed(s.plan) && exists t :: t in s.plan.calls && s' == Step(s, t)
  }

  /** The calls on u that wait. */
  ghost function Waiting(s: System, u: string): set<nat> {
    Arrived(s, u) - s.returned
  }

  /** One call too many: with n = 2 and both partners in, a third call on the UUID returns at once
      and takes the exit that the second waiter needed, so that waiter is left without an entry. */
  lemma ExtraCallBreaksIt(u: string)
    ensures var (m1, r1) := Enter(map[], 2, u);
            var (m2, r2) := Enter(m1, 2, u);
            var (m3, r3) := Enter(m2, 2, u);
            !r1 && r2 && r3 && m2[u].remaining == 0 && u !in m3
  {
    var (m1, _) := Enter(map[], 2, u);
    assert m1[u] == BarrierState(1, 2, false);
    var (m2, _) := Enter(m1, 2, u);
    assert m2[u] == BarrierState(0, 1, true);
  }

  // ----- One step -----

  lemma MovesBy(s: System, t: nat)
    requires Typed(s.plan) && t in s.plan.calls
    ensures Moves(s, Step(s, t)) && Step(s, t).plan == s.plan
  {
  }

  /** An entry created for n calls of which k have arrived; n = 256 shows as 0. */
  ghost predicate Expecting(m: Barriers, u: string, n: nat, k: nat) {
    if k == 0 then u !in m else u in m && k < n <= 256 && m[u] == BarrierState(n - k, n % 256, false)
  }

  /** What is left of a complete entry. */
  ghost predicate Left(m: Barriers, u: string, exits: nat) {
    if exits == 0 then u !in m else u in m && m[u].complete && m[u].toExit == exits
  }

  /** The first arrival: its own argument counts. */
  lemma EnterFirst(m: Barriers, u: string, arg: Uint8)
    requires u !in m
    ensures var (m', back) := Enter(m, arg, u);
            if Expected(arg) == 1 then back && u !in m' else !back && Expecting(m', u, Expected(arg), 1)
  {
  }

  /** A later arrival: its argument does not matter. */
  lemma EnterNext(m: Barriers, u: string, arg: Uint8, n: nat, k: nat)
    requires 0 < k && Expecting(m, u, n, k)
    ensures var (m', back) := Enter(m, arg, u);
            if k + 1 < n then !back && Expecting(m', u, n, k + 1)
            else back && Left(m', u, n - 1) && m'[u].remaining == 0
  {
  }

  /** One more arrival at a complete barrier takes an exit. */
  lemma EnterExtra(m: Barriers, u: string, arg: Uint8, exits: nat)
    requires exits > 0 && Left(m, u, exits) && m[u].remaining == 0
    ensures Enter(m, arg, u).1 && Left(Enter(m, arg, u).0, u, exits - 1)
  {
  }

  lemma WakeLeaves(m: Barriers, u: string, exits: nat)
    requires exits > 0 && Left(m, u, exits)
    ensures Wake(m, u).1 && Left(Wake(m, u).0, u, exits - 1)
  {
  }

  // ----- Nobody asks for fewer calls than there are, unless for just one -----

  /** With n = 1 a call is its own barrier; every other call on u asks for at least as many as come. */
  ghost predicate Tame(p: Plan, u: string)
    requires Typed(p)
  {
    forall t :: t in Callers(p, u) ==> Expected(p.args[t]) == 1 || |Callers(p, u)| <= Expected(p.args[t])
  }

  ghost predicate AllTame(p: Plan) {
    Typed(p) && forall u {:trigger Tame(p, u)} :: Tame(p, u)
  }

  /** With w of `all` calls waiting: no entry and nobody waiting; or an entry still waiting for calls;
      or all are here and one exit is left for each that waits. */
  ghost predicate EntryTame(m: Barriers, u: string, all: nat, here: bool, w: nat) {
    if u !in m then w == 0
    else if m[u].complete then here && w > 0 && Left(m, u, w)
    else w > 0 && exists n :: n > 1 && all <= n && Expecting(m, u, n, w)
  }

  ghost predicate TameOk(s: System, u: string) {
    EntryTame(s.barriers, u, |Callers(s.plan, u)|, Arrived(s, u) == Callers(s.plan, u), |Waiting(s, u)|)
  }

  lemma TameSame(m: Barriers, m': Barriers, u: string, all: nat, here: bool, w: nat)
    requires SameEntry(m, m', u) && EntryTame(m, u, all, here, w)
    ensures EntryTame(m', u, all, here, w)
  {
    if u in m && !m[u].complete {
      var n :| n > 1 && all <= n && Expecting(m, u, n, w);
      assert Expecting(m', u, n, w);
    }
  }

  lemma TameEnter(m: Barriers, u: string, arg: Uint8, all: nat, w: nat, here: bool)
    requires EntryTame(m, u, all, false, w) && (Expected(arg) == 1 || all <= Expected(arg)) && (all <= w + 1 ==> here)
    ensures var (m', back) := Enter(m, arg, u);
            EntryTame(m', u, all, here, if back then w else w + 1)
  {
    var (m', _) := Enter(m, arg, u);
    if u !in m {
      EnterFirst(m, u, arg);
      assert Expected(arg) > 1 ==> Expecting(m', u, Expected(arg), 1);
    } else {
      var n :| n > 1 && all <= n && Expecting(m, u, n, w);
      EnterNext(m, u, arg, n, w);
      assert w + 1 < n ==> Expecting(m', u, n, w + 1);
    }
  }

  ghost predicate TameInv(s: System) {
    && AllTame(s.plan) && s.returned <= s.arrived && !s.fault
    && (forall u {:trigger TameOk(s, u)} :: TameOk(s, u))
  }

  lemma WaitingAfter(s: System, s': System, t: nat, u: string)
    requires s'.plan == s.plan && t in Callers(s.plan, u) && t !in s.returned && s.returned <= s.arrived
    requires s'.arrived == s.arrived + {t}
    ensures s'.returned == s.returned ==> Waiting(s', u) == Waiting(s, u) + {t}
    ensures s'.returned == s.returned + {t} ==> Waiting(s', u) == Waiting(s, u) - {t}
    ensures t in s.arrived ==> t in Waiting(s, u) && Arrived(s', u) == Arrived(s, u)
    ensures t !in s.arrived ==> t !in Waiting(s, u)
  {
  }

  /** When those who wait and the one who comes are as many as all callers, they are all of them. */
  lemma AllHere(s: System, t: nat, u: string)
    requires t in Callers(s.plan, u) && t !in s.arrived && |Callers(s.plan, u)| <= |Waiting(s, u)| + 1
    ensures Arrived(s, u) + {t} == Callers(s.plan, u)
  {
    CardSubset(Waiting(s, u) + {t}, Callers(s.plan, u));
  }

  lemma ArrivalWaits(s: System, t: nat, u: string, s': System, back: bool)
    requires t in Callers(s.plan, u) && t !in s.arrived && s.returned <= s.arrived && s'.plan == s.plan
    requires s'.arrived == s.arrived + {t} && s'.returned == if back then s.returned + {t} else s.returned
    ensures |Waiting(s', u)| == |Waiting(s, u)| + if back then 0 else 1
    ensures Arrived(s, u) != Callers(s.plan, u) && s'.returned <= s'.arrived
    ensures |Callers(s.plan, u)| <= |Waiting(s, u)| + 1 ==> Arrived(s', u) == Callers(s.plan, u)
  {
    WaitingAfter(s, s', t, u);
    CountIn(Callers(s.plan, u), s.arrived, t);
    assert t !in Arrived(s, u);
    if |Callers(s.plan, u)| <= |Waiting(s, u)| + 1 {
      AllHere(s, t, u);
    }
  }

  lemma TameArrival(s: System, t: nat, u: string)
    requires Typed(s.plan) && Tame(s.plan, u) && TameOk(s, u) && s.returned <= s.arrived
    requires t in Callers(s.plan, u) && t !in s.arrived
    ensures var s' := Step(s, t);
            TameOk(s', u) && s'.fault == s.fault && s'.returned <= s'.arrived
  {
    var s', all, w := Step(s, t), Callers(s.plan, u), |Waiting(s, u)|;
    Arrives(s, t, u);
    ArrivalWaits(s, t, u, s', Enter(s.barriers, s.plan.args[t], u).1);
    TameEnter(s.barriers, u, s.plan.args[t], |all|, w, Arrived(s', u) == all);
  }

  lemma TameWake(s: System, t: nat, u: string)
    requires Typed(s.plan) && TameOk(s, u) && s.returned <= s.arrived && t in Waiting(s, u)
    ensures var s' := Step(s, t);
            TameOk(s', u) && s'.fault == s.fault && s'.returned <= s'.arrived
  {
    var s', w := Step(s, t), |Waiting(s, u)|;
    Wakes(s, t, u);
    if s.barriers[u].complete {
      WakeLeaves(s.barriers, u, w);
      assert s'.arrived == s.arrived + {t};
      WaitingAfter(s, s', t, u);
    } else {
      assert s' == s;
    }
  }

  lemma EffectTame(s: System, t: nat, s': System)
    requires TameInv(s) && Effect(s, t, s')
    requires TameOk(s', s.plan.calls[t]) && !s'.fault && s'.returned <= s'.arrived
    ensures TameInv(s')
  {
    forall u: string
      ensures TameOk(s', u)
    {
      assert TameOk(s, u);
      if u != s.plan.calls[t] {
        OthersUnchanged(s, t, s', u);
        assert Waiting(s', u) == Arrived(s', u) - Exited(s', u) == Waiting(s, u);
        TameSame(s.barriers, s'.barriers, u, |Callers(s.plan, u)|, Arrived(s, u) == Callers(s.plan, u), |Waiting(s, u)|);
      }
    }
  }

  lemma TameStep(s: System, t: nat)
    requires TameInv(s) && t in s.plan.calls
    ensures TameInv(Step(s, t))
  {
    var u := s.plan.calls[t];
    assert TameOk(s, u) && Tame(s.plan, u) && t in Callers(s.plan, u);
    StepEffect(s, t);
    if t !in s.arrived {
      TameArrival(s, t, u);
    } else if t !in s.returned {
      TameWake(s, t, u);
    }
    EffectTame(s, t, Step(s, t));
  }

  lemma TameRun(run: seq<System>, i: nat)
    requires IsRun(run, Start, Moves) && AllTame(run[0].plan) && i < |run|
    ensures TameInv(run[i]) && run[i].plan == run[0].plan
  {
    var inv := (s: System) => TameInv(s) && s.plan == run[0].plan;
    var from := (s: System) => Start(s) && s == run[0];
    forall s, s' | inv(s) && Moves(s, s') ensures inv(s') {
      var t :| t in s.plan.calls && s' == Step(s, t);
      StepEffect(s, t);
      TameStep(s, t);
    }
    assert IsRun(run, from, Moves);
    InvariantHolds(run, from, Moves, inv, i);
  }

  // ----- Too few calls -----

  /** Every call on u asks for more calls than there are. */
  ghost predicate Few(p: Plan, u: string)
    requires Typed(p)
  {
    forall t :: t in Callers(p, u) ==> |Callers(p, u)| < Expected(p.args[t])
  }

  ghost predicate FewOk(s: System, u: string) {
    && s.returned * Callers(s.plan, u) == {}
    && exists n :: |Callers(s.plan, u)| < n && Expecting(s.barriers, u, n, |Arrived(s, u)|)
  }

  lemma FewAtStart(s: System, u: string)
    requires Start(s)
    ensures FewOk(s, u)
  {
    assert Arrived(s, u) == {};
    assert Expecting(s.barriers, u, |Callers(s.plan, u)| + 1, |Arrived(s, u)|);
  }

  lemma FewOwn(s: System, t: nat, u: string)
    requires Typed(s.plan) && Few(s.plan, u) && FewOk(s, u) && t in Callers(s.plan, u)
    ensures FewOk(Step(s, t), u)
  {
    var all := Callers(s.plan, u);
    var n :| |all| < n && Expecting(s.barriers, u, n, |Arrived(s, u)|);
    assert t !in s.returned by {
      assert t in s.returned ==> t in s.returned * all;
    }
    if t in s.arrived {
      assert t in Arrived(s, u);
      Wakes(s, t, u);
      assert Step(s, t) == s;
    } else {
      var s', k := Step(s, t), |Arrived(s, u)|;
      CountIn(all, s.arrived, t);
      CardSubset(Arrived(s, u) + {t}, all);
      Arrives(s, t, u);
      if k == 0 {
        EnterFirst(s.barriers, u, s.plan.args[t]);
        assert Expecting(s'.barriers, u, Expected(s.plan.args[t]), |Arrived(s', u)|);
      } else {
        EnterNext(s.barriers, u, s.plan.args[t], n, k);
        assert Expecting(s'.barriers, u, n, |Arrived(s', u)|);
      }
    }
  }

  lemma FewStep(s: System, t: nat, u: string)
    requires Typed(s.plan) && Few(s.plan, u) && FewOk(s, u) && t in s.plan.calls
    ensures FewOk(Step(s, t), u) && Step(s, t).plan == s.plan
  {
    var s' := Step(s, t);
    StepEffect(s, t);
    if s.plan.calls[t] == u {
      FewOwn(s, t, u);
    } else {
      OthersUnchanged(s, t, s', u);
      var n :| |Callers(s.plan, u)| < n && Expecting(s.barriers, u, n, |Arrived(s, u)|);
      assert Expecting(s'.barriers, u, n, |Arrived(s', u)|);
      assert Exited(s', u) == Exited(s, u) == {};
    }
  }

  /** When every call on u asks for more calls than there are, none of them ever returns, whatever
      happens on other UUIDs. */
  lemma TooFewNeverReturn(run: seq<System>, i: nat, u: string)
    requires IsRun(run, Start, Moves) && i < |run| && Few(run[0].plan, u)
    ensures Exited(run[i], u) == {}
  {
    var inv := (s: System) => Typed(s.plan) && s.plan == run[0].plan && FewOk(s, u);
    var from := (s: System) => Start(s) && s == run[0];
    forall s | from(s) ensures inv(s) { FewAtStart(s, u); }
    forall s, s' | inv(s) && Moves(s, s') ensures inv(s') {
      var t :| t in s.plan.calls && s' == Step(s, t);
      FewStep(s, t, u);
    }
    assert IsRun(run, from, Moves);
    InvariantHolds(run, from, Moves, inv, i);
  }

  // ----- Too many calls -----

  ghost predicate FaultFrom(s: System, path: seq<System>) {
    IsPath(path, Moves) && path[0] == s && path[|path| - 1].fault
  }

  lemma Then(s: System, s': System, rest: seq<System>) returns (path: seq<System>)
    requires Moves(s, s') && FaultFrom(s', rest)
    ensures FaultFrom(s, path)
  {
    path := Prepend(s, rest, Moves);
  }

  /** The barrier is complete and one exit short for those that wait. */
  ghost predicate OneShort(s: System, u: string) {
    Typed(s.plan) && Waiting(s, u) != {} && Left(s.barriers, u, |Waiting(s, u)| - 1)
  }

  lemma ShortAfter(s: System, u: string, t: nat, s': System)
    requires OneShort(s, u) && t in Waiting(s, u) && |Waiting(s, u)| > 1
    requires s'.plan == s.plan && s'.arrived == s.arrived && s'.returned == s.returned + {t}
    requires Left(s'.barriers, u, |Waiting(s, u)| - 2)
    ensures OneShort(s', u) && |Waiting(s', u)| == |Waiting(s, u)| - 1
  {
    assert Waiting(s', u) == Waiting(s, u) - {t};
  }

  lemma ShortExit(s: System, u: string, t: nat) returns (s': System)
    requires OneShort(s, u) && t in Waiting(s, u) && |Waiting(s, u)| > 1
    ensures Moves(s, s') && OneShort(s', u) && |Waiting(s', u)| == |Waiting(s, u)| - 1
  {
    MovesBy(s, t);
    Wakes(s, t, u);
    WakeLeaves(s.barriers, u, |Waiting(s, u)| - 1);
    s' := Step(s, t);
    ShortAfter(s, u, t, s');
  }

  lemma LastWaiterFaults(s: System, u: string, t: nat) returns (s': System)
    requires OneShort(s, u) && t in Waiting(s, u) && |Waiting(s, u)| == 1
    ensures Moves(s, s') && s'.fault
  {
    MovesBy(s, t);
    s' := Step(s, t);
  }

  /** They leave one by one until the last finds its entry erased. */
  lemma {:induction false} ShortEndsInFault(s: System, u: string) returns (path: seq<System>)
    requires OneShort(s, u)
    ensures FaultFrom(s, path)
    decreases |Waiting(s, u)|
  {
    var t :| t in Waiting(s, u);
    if |Waiting(s, u)| == 1 {
      var s' := LastWaiterFaults(s, u, t);
      path := [s, s'];
    } else {
      var s' := ShortExit(s, u, t);
      var rest := ShortEndsInFault(s', u);
      path := Then(s, s', rest);
    }
  }

  /** k of the n calls that the first one asked for have arrived and wait, and nothing else has
      happened. */
  ghost predicate Gathering(s: System, u: string, n: nat, k: nat) {
    && Typed(s.plan) && s.arrived <= Callers(s.plan, u) && s.returned == {} && |s.arrived| == k
    && 0 < k && Expecting(s.barriers, u, n, k)
  }

  lemma ArriveAndWait(s: System, u: string, n: nat, k: nat, t: nat) returns (s': System)
    requires Gathering(s, u, n, k) && k + 1 < n && t in Callers(s.plan, u) && t !in s.arrived
    ensures Moves(s, s') && Gathering(s', u, n, k + 1) && s'.plan == s.plan
  {
    s' := Step(s, t);
    MovesBy(s, t);
    Arrives(s, t, u);
    EnterNext(s.barriers, u, s.plan.args[t], n, k);
  }

  lemma Fresh(s: System, u: string) returns (t: nat)
    requires |s.arrived| < |Callers(s.plan, u)|
    ensures t in Callers(s.plan, u) && t !in s.arrived
  {
    if Callers(s.plan, u) <= s.arrived {
      CardSubset(Callers(s.plan, u), s.arrived);
    }
    t :| t in Callers(s.plan, u) && t !in s.arrived;
  }

  /** The barrier is complete, `t` alone has left, and as many wait as have exits left. */
  ghost predicate Complete(s: System, u: string, t: nat) {
    && Typed(s.plan) && s.arrived <= Callers(s.plan, u)
    && t in s.arrived && s.returned == {t} && |s.arrived| > 1
    && Left(s.barriers, u, |s.arrived| - 1) && s.barriers[u].remaining == 0
  }

  lemma LastArrives(s: System, u: string, n: nat, k: nat, t: nat) returns (s': System)
    requires Gathering(s, u, n, k) && n == k + 1 && t in Callers(s.plan, u) && t !in s.arrived
    ensures Moves(s, s') && Complete(s', u, t) && s'.plan == s.plan && |s'.arrived| == n
  {
    s' := Step(s, t);
    MovesBy(s, t);
    Arrives(s, t, u);
    EnterNext(s.barriers, u, s.plan.args[t], n, k);
  }

  /** The call after the n-th leaves in a waiter's place. */
  lemma ExtraArrives(s: System, u: string, t: nat, x: nat) returns (s': System)
    requires Complete(s, u, t) && x in Callers(s.plan, u) && x !in s.arrived
    ensures Moves(s, s') && OneShort(s', u)
  {
    s' := Step(s, x);
    MovesBy(s, x);
    Arrives(s, x, u);
    EnterExtra(s.barriers, u, s.plan.args[x], |s.arrived| - 1);
    assert Waiting(s', u) == s.arrived - {t};
  }

  lemma CompleteEndsInFault(s: System, u: string, t: nat) returns (path: seq<System>)
    requires Complete(s, u, t) && |s.arrived| < |Callers(s.plan, u)|
    ensures FaultFrom(s, path)
  {
    var x := Fresh(s, u);
    var s' := ExtraArrives(s, u, t, x);
    var rest := ShortEndsInFault(s', u);
    path := Then(s, s', rest);
  }

  lemma {:induction false} TooManyFrom(s: System, u: string, n: nat, k: nat) returns (path: seq<System>)
    requires Gathering(s, u, n, k) && n < |Callers(s.plan, u)|
    ensures FaultFrom(s, path)
    decreases n - k
  {
    var t := Fresh(s, u);
    if k + 1 < n {
      var s' := ArriveAndWait(s, u, n, k, t);
      var rest := TooManyFrom(s', u, n, k + 1);
      path := Then(s, s', rest);
    } else {
      var s' := LastArrives(s, u, n, k, t);
      var rest := CompleteEndsInFault(s', u, t);
      path := Then(s, s', rest);
    }
  }

  lemma FirstArrives(p: Plan, u: string, t: nat) returns (s: System, s': System)
    requires Typed(p) && t in Callers(p, u) && Expected(p.args[t]) > 1
    ensures Start(s) && s.plan == p && Moves(s, s') && s'.plan == p && Gathering(s', u, Expected(p.args[t]), 1)
  {
    s := System(p, {}, {}, map[], false);
    s' := Step(s, t);
    MovesBy(s, t);
    Arrives(s, t, u);
    EnterFirst(s.barriers, u, p.args[t]);
  }

  /** Some run ends with a waiter that finds its map entry erased. */
  ghost predicate FaultReachable(p: Plan) {
    exists run: seq<System> :: IsRun(run, Start, Moves) && run[0].plan == p && run[|run| - 1].fault
  }

  /** Call `t` asks for more than itself alone, and for fewer calls than its UUID gets. */
  ghost predicate AsksTooFew(p: Plan, t: nat)
    requires Typed(p)
  {
    t in p.calls && 1 < Expected(p.args[t]) < |Callers(p, p.calls[t])|
  }

  /** For any calls with any arguments: a waiter can find its entry erased if and only if some call
      asks for at least two calls, but for fewer than there are on its UUID. */
  lemma FaultIff(p: Plan)
    requires Typed(p)
    ensures FaultReachable(p) <==> exists t :: AsksTooFew(p, t)
  {
    if t :| AsksTooFew(p, t) {
      var u := p.calls[t];
      var s, s' := FirstArrives(p, u, t);
      var rest := TooManyFrom(s', u, Expected(p.args[t]), 1);
      var path := Then(s, s', rest);
      assert IsRun(path, Start, Moves);
    } else {
      forall u: string ensures Tame(p, u) {
        forall t | t in Callers(p, u)
          ensures Expected(p.args[t]) == 1 || |Callers(p, u)| <= Expected(p.args[t])
        {
          assert !AsksTooFew(p, t);
        }
      }
      if FaultReachable(p) {
        var run: seq<System> :| IsRun(run, Start, Moves) && run[0].plan == p && run[|run| - 1].fault;
        TameRun(run, |run| - 1);
      }
    }
  }
}
