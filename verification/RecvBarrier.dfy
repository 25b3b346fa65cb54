/** The UUID barrier of the socket manager: `recv_barrier` with its `uint8_t` counters
    and the map entry that the first arrival creates and the last leaver erases. */
module RecvBarrier {
  import opened Runs

  /** `uint8_t`. */
  type Uint8 = x: int | 0 <= x < 256

  /** `--` on a `uint8_t`: wraps from 0 to 255. */
  function Dec(x: Uint8): Uint8 {
    (x - 1) % 256
  }

  datatype BarrierState = BarrierState(remaining: Uint8, toExit: Uint8, complete: bool)

  type Barriers = map<string, BarrierState>

  // ----- The regions that run under the barrier mutex -----

  /** The end of a call: count the exit and erase the entry when nobody is left to leave. */
  function Exit(m: Barriers, uuid: string): Barriers
    requires uuid in m
  {
    var e := m[uuid].(toExit := Dec(m[uuid].toExit));
    if e.toExit == 0 then m - {uuid} else m[uuid := e]
  }

  /** The start of a call, up to the first wait or, when the barrier is complete, to its return. */
  function Enter(m: Barriers, n: Uint8, uuid: string): (Barriers, bool) {
    var e := if uuid in m then m[uuid].(remaining := Dec(m[uuid].remaining))
             else BarrierState(Dec(n), n, false);
    var e' := if e.remaining == 0 && !e.complete then e.(complete := true) else e;
    var m' := m[uuid := e'];
    if e'.complete then (Exit(m', uuid), true) else (m', false)
  }

  /** A waiter wakes, spuriously or not, and looks at the entry again. */
  function Wake(m: Barriers, uuid: string): (Barriers, bool)
    requires uuid in m
  {
    if m[uuid].complete then (Exit(m, uuid), true) else (m, false)
  }

  /** The barrier fields of the socket manager, updated in place. */
  class BarrierTable {
    var recvBarriers: Barriers

    constructor ()
      ensures recvBarriers == map[]
    {
      recvBarriers := map[];
    }

    method LeaveEntry(uuid: string)
      requires uuid in recvBarriers
      modifies this
      ensures recvBarriers == Exit(old(recvBarriers), uuid)
    {
      var e := recvBarriers[uuid];
      e := e.(toExit := Dec(e.toExit));
      recvBarriers := recvBarriers[uuid := e];
      if e.toExit == 0 {
        recvBarriers := recvBarriers - {uuid};
        assert recvBarriers == old(recvBarriers) - {uuid};
      }
    }

    method EnterRegion(n: Uint8, uuid: string) returns (returned: bool)
      modifies this
      ensures (recvBarriers, returned) == Enter(old(recvBarriers), n, uuid)
    {
      if uuid !in recvBarriers {
        recvBarriers := recvBarriers[uuid := BarrierState(Dec(n), n, false)];
      } else {
        var e := recvBarriers[uuid];
        recvBarriers := recvBarriers[uuid := e.(remaining := Dec(e.remaining))];
      }
      if recvBarriers[uuid].remaining == 0 && !recvBarriers[uuid].complete {
        recvBarriers := recvBarriers[uuid := recvBarriers[uuid].(complete := true)];
      }
      ghost var entered := recvBarriers;
      assert entered == old(recvBarriers)[uuid := entered[uuid]];
      returned := recvBarriers[uuid].complete;
      if returned {
        LeaveEntry(uuid);
      }
    }

    method WakeRegion(uuid: string) returns (returned: bool)
      requires uuid in recvBarriers
      modifies this
      ensures (recvBarriers, returned) == Wake(old(recvBarriers), uuid)
    {
      returned := recvBarriers[uuid].complete;
      if returned {
        LeaveEntry(uuid);
      }
    }
  }

  // ----- All interleavings of any number of calls on any number of UUIDs -----

  /** Which UUID each call names, and its argument n. */
  datatype Plan = Plan(calls: map<nat, string>, args: map<nat, Uint8>)

  /** How many calls an argument asks for. The counters live modulo 256, so 0 asks for 256. */
  function Expected(n: Uint8): (r: nat)
    ensures 1 <= r <= 256 && r % 256 == n
  {
    if n == 0 then 256 else n
  }

  /** The calls that have entered, the ones that have returned, the shared map, and whether a
      waiter ever found its map entry erased. A call in `arrived` but not in `returned` waits. */
  datatype System = System(plan: Plan, arrived: set<nat>, returned: set<nat>, barriers: Barriers, fault: bool)

  ghost function Callers(p: Plan, u: string): set<nat> {
    set t | t in p.calls && p.calls[t] == u
  }

  ghost function Arrived(s: System, u: string): set<nat> {
    s.arrived * Callers(s.plan, u)
  }

  ghost function Exited(s: System, u: string): set<nat> {
    s.returned * Callers(s.plan, u)
  }

  ghost predicate Typed(p: Plan) {
    p.calls.Keys <= p.args.Keys
  }

  /** Each UUID is called exactly as many times as every one of its calls asks for. */
  ghost predicate Disciplined(p: Plan) {
    Typed(p) && forall t :: t in p.calls ==> Expected(p.args[t]) == |Callers(p, p.calls[t])|
  }

  ghost predicate Init(s: System) {
    Disciplined(s.plan) && s.arrived == {} && s.returned == {} && s.barriers == map[] && !s.fault
  }

  /** Call `t` runs its next region. */
  function Step(s: System, t: nat): System
    requires t in s.plan.calls && t in s.plan.args
  {
    var u := s.plan.calls[t];
    if t in s.returned then s
    else if t !in s.arrived then
      var (m, returned) := Enter(s.barriers, s.plan.args[t], u);
      s.(barriers := m, arrived := s.arrived + {t}, returned := if returned then s.returned + {t} else s.returned)
    else if u !in s.barriers then s.(fault := true)
    else
      var (m, returned) := Wake(s.barriers, u);
      s.(barriers := m, returned := if returned then s.returned + {t} else s.returned)
  }

  ghost predicate Next(s: System, s': System) {
    Disciplined(s.plan) && exists t :: t in s.plan.calls && s' == Step(s, t)
  }

  /** What holds of the entry of a UUID that is called n times, after `arrived` arrivals and
      `exited` exits. */
  ghost predicate EntryFits(m: Barriers, u: string, n: int, arrived: int, exited: int) {
    && (u in m <==> 0 < arrived && exited < n)
    && (u in m ==>
          && m[u].remaining == n - arrived
          && m[u].toExit == (n - exited) % 256
          && (m[u].complete <==> arrived == n))
    && (exited > 0 ==> arrived == n)
  }

  ghost predicate EntryOk(s: System, u: string) {
    EntryFits(s.barriers, u, |Callers(s.plan, u)|, |Arrived(s, u)|, |Exited(s, u)|)
  }

  ghost predicate Inv(s: System) {
    && Disciplined(s.plan)
    && s.returned <= s.arrived <= s.plan.calls.Keys
    && !s.fault
    && (forall u {:trigger EntryOk(s, u)} :: EntryOk(s, u))
  }

  lemma CardSubset(a: set<nat>, b: set<nat>)
    requires a <= b
    ensures |a| <= |b|
    ensures |a| == |b| ==> a == b
  {
    assert b == a + (b - a);
    assert |b| == |a| + |b - a|;
  }

  lemma Counts(s: System, u: string)
    requires s.returned <= s.arrived
    ensures |Exited(s, u)| <= |Arrived(s, u)| <= |Callers(s.plan, u)|
    ensures |Arrived(s, u)| == |Callers(s.plan, u)| ==> Arrived(s, u) == Callers(s.plan, u)
    ensures |Exited(s, u)| == |Callers(s.plan, u)| ==> Exited(s, u) == Callers(s.plan, u)
  {
    CardSubset(Exited(s, u), Arrived(s, u));
    CardSubset(Arrived(s, u), Callers(s.plan, u));
    CardSubset(Exited(s, u), Callers(s.plan, u));
  }

  lemma InitInv(s: System)
    requires Init(s)
    ensures Inv(s)
  {
    forall u: string
      ensures EntryOk(s, u)
    {
      assert Arrived(s, u) == {} && Exited(s, u) == {};
    }
  }

  // ----- One step -----

  /** One more arrival keeps the entry right, and so does the exit it may include. */
  lemma EnterFits(m: Barriers, n: Uint8, u: string, arrived: nat, exited: nat)
    requires EntryFits(m, u, Expected(n), arrived, exited) && exited <= arrived < Expected(n)
    ensures var (m', returned) := Enter(m, n, u);
            EntryFits(m', u, Expected(n), arrived + 1, if returned then exited + 1 else exited)
  {
  }

  /** A waiter finds its entry, and its wake-up keeps the entry right. */
  lemma WakeFits(m: Barriers, n: Uint8, u: string, arrived: nat, exited: nat)
    requires EntryFits(m, u, Expected(n), arrived, exited) && exited < arrived <= Expected(n)
    ensures u in m
    ensures var (m', returned) := Wake(m, u);
            && (returned <==> arrived == Expected(n))
            && EntryFits(m', u, Expected(n), arrived, if returned then exited + 1 else exited)
  {
  }

  lemma CountIn(all: set<nat>, some: set<nat>, t: nat)
    ensures t in all && t !in some ==> (some + {t}) * all == some * all + {t} && |(some + {t}) * all| == |some * all| + 1
    ensures t !in all ==> (some + {t}) * all == some * all
  {
    if t in all && t !in some {
      assert (some + {t}) * all == some * all + {t};
    } else if t !in all {
      assert (some + {t}) * all == some * all;
    }
  }

  /** Call `t` has something left to do, and its entry is where the counts say. */
  ghost predicate Live(s: System, t: nat) {
    && t in s.plan.calls && t in s.plan.args && t !in s.returned
    && s.returned <= s.arrived
    && var u := s.plan.calls[t];
       Expected(s.plan.args[t]) == |Callers(s.plan, u)| && EntryOk(s, u)
  }

  lemma Arrives(s: System, t: nat, u: string)
    requires Typed(s.plan) && t in Callers(s.plan, u) && t !in s.arrived && t !in s.returned
    ensures var (m, back) := Enter(s.barriers, s.plan.args[t], u);
            Step(s, t) == s.(barriers := m, arrived := s.arrived + {t}, returned := if back then s.returned + {t} else s.returned)
  {
  }

  lemma Wakes(s: System, t: nat, u: string)
    requires Typed(s.plan) && t in Callers(s.plan, u) && t in s.arrived && t !in s.returned && u in s.barriers
    ensures var (m, back) := Wake(s.barriers, u);
            Step(s, t) == s.(barriers := m, returned := if back then s.returned + {t} else s.returned)
  {
  }

  lemma ArrivalCounts(s: System, t: nat, u: string, s': System, back: bool)
    requires t in Callers(s.plan, u) && t !in s.arrived && s.returned <= s.arrived && s'.plan == s.plan
    requires s'.arrived == s.arrived + {t} && s'.returned == if back then s.returned + {t} else s.returned
    ensures |Arrived(s', u)| == |Arrived(s, u)| + 1 <= |Callers(s.plan, u)|
    ensures |Exited(s', u)| == |Exited(s, u)| + (if back then 1 else 0)
  {
    CountIn(Callers(s.plan, u), s.arrived, t);
    CountIn(Callers(s.plan, u), s.returned, t);
    CardSubset(Arrived(s', u), Callers(s.plan, u));
  }

  lemma ArrivalEntry(s: System, t: nat)
    requires Live(s, t) && Typed(s.plan) && t !in s.arrived
    ensures EntryOk(Step(s, t), s.plan.calls[t])
  {
    var u, arg := s.plan.calls[t], s.plan.args[t];
    Counts(s, u);
    Arrives(s, t, u);
    ArrivalCounts(s, t, u, Step(s, t), Enter(s.barriers, arg, u).1);
    EnterFits(s.barriers, arg, u, |Arrived(s, u)|, |Exited(s, u)|);
  }

  /** A waiter never finds its entry erased, and it returns if and only if all n have arrived. */
  lemma WakeEntry(s: System, t: nat)
    requires Live(s, t) && t in s.arrived
    ensures var s', u := Step(s, t), s.plan.calls[t];
            && u in s.barriers && EntryOk(s', u) && s'.fault == s.fault
            && (t in s'.returned <==> Arrived(s, u) == Callers(s.plan, u))
  {
    var u := s.plan.calls[t];
    var all := Callers(s.plan, u);
    Counts(s, u);
    assert t in all;
    CountIn(all, s.returned, t);
    CardSubset(Exited(s, u) + {t}, Arrived(s, u));
    WakeFits(s.barriers, s.plan.args[t], u, |Arrived(s, u)|, |Exited(s, u)|);
  }

  /** What a step by call `t` can change at all: `t`'s own place, and the entry of its UUID. */
  ghost predicate Effect(s: System, t: nat, s': System) {
    && t in s.plan.calls && s'.plan == s.plan
    && (s'.arrived == s.arrived || s'.arrived == s.arrived + {t})
    && (s'.returned == s.returned || s'.returned == s.returned + {t})
    && (forall u :: u != s.plan.calls[t] ==> SameEntry(s.barriers, s'.barriers, u))
  }

  ghost predicate SameEntry(m: Barriers, m': Barriers, u: string) {
    (u in m' <==> u in m) && (u in m ==> m'[u] == m[u])
  }

  lemma StepEffect(s: System, t: nat)
    requires t in s.plan.calls && t in s.plan.args
    ensures Effect(s, t, Step(s, t))
    ensures t in Step(s, t).arrived || t in s.returned
    ensures t in s.arrived ==> Step(s, t).arrived == s.arrived
  {
  }

  /** A step on one UUID leaves the entry and the calls of every other UUID alone. */
  lemma OthersUnchanged(s: System, t: nat, s': System, u: string)
    requires Effect(s, t, s') && u != s.plan.calls[t]
    ensures SameEntry(s.barriers, s'.barriers, u)
    ensures Arrived(s', u) == Arrived(s, u) && Exited(s', u) == Exited(s, u)
  {
    CountIn(Callers(s.plan, u), s.arrived, t);
    CountIn(Callers(s.plan, u), s.returned, t);
  }

  lemma OwnEntry(s: System, t: nat)
    requires Inv(s) && t in s.plan.calls
    ensures EntryOk(Step(s, t), s.plan.calls[t]) && !Step(s, t).fault
    ensures Step(s, t).returned <= Step(s, t).arrived
  {
    assert EntryOk(s, s.plan.calls[t]);
    if t !in s.arrived {
      ArrivalEntry(s, t);
    } else if t !in s.returned {
      WakeEntry(s, t);
    }
  }

  lemma EffectInv(s: System, t: nat, s': System)
    requires Inv(s) && Effect(s, t, s')
    requires EntryOk(s', s.plan.calls[t]) && !s'.fault && s'.returned <= s'.arrived
    ensures Inv(s')
  {
    forall u: string
      ensures EntryOk(s', u)
    {
      assert EntryOk(s, u);
      if u != s.plan.calls[t] {
        OthersUnchanged(s, t, s', u);
      }
    }
  }

  lemma StepInv(s: System, t: nat)
    requires Inv(s) && t in s.plan.calls
    ensures Inv(Step(s, t))
  {
    StepEffect(s, t);
    OwnEntry(s, t);
    EffectInv(s, t, Step(s, t));
  }

  lemma RunInv(run: seq<System>, i: nat)
    requires IsRun(run, Init, Next) && i < |run|
    ensures Inv(run[i])
  {
    forall s | Init(s) ensures Inv(s) { InitInv(s); }
    forall s, s' | Inv(s) && Next(s, s') ensures Inv(s') {
      var t :| t in s.plan.calls && s' == Step(s, t);
      StepInv(s, t);
    }
    InvariantHolds(run, Init, Next, Inv, i);
  }

  /** Safety, in every state of every run, with n the number of calls on a UUID: nobody has returned
      before the n-th arrival; the two counters are n minus the arrivals and n minus the exits, modulo
      256, so for n up to 255 they never wrapped; the entry exists exactly from the first arrival to
      the last exit; no waiter saw an erased entry. */
  lemma Safety(run: seq<System>, i: nat, u: string)
    requires IsRun(run, Init, Next) && i < |run|
    ensures var s := run[i];
            var n, arrived, exited := |Callers(s.plan, u)|, |Arrived(s, u)|, |Exited(s, u)|;
            && (exited > 0 ==> arrived == n)
            && (u in s.barriers <==> 0 < arrived && exited < n)
            && (u in s.barriers ==> s.barriers[u].remaining == n - arrived && s.barriers[u].toExit == (n - exited) % 256)
            && (u in s.barriers && n < 256 ==> s.barriers[u].toExit == n - exited)
            && !s.fault
  {
    RunInv(run, i);
    assert EntryOk(run[i], u);
  }

  // ----- Progress -----

  /** Once all n calls on a UUID have arrived, every one that still waits can leave at once. */
  lemma WaitersEnabled(s: System, t: nat)
    requires Inv(s) && t in s.arrived && t !in s.returned
    requires Callers(s.plan, s.plan.calls[t]) <= s.arrived
    ensures Step(s, t).returned == s.returned + {t}
  {
    var u := s.plan.calls[t];
    assert EntryOk(s, u);
    assert Arrived(s, u) == Callers(s.plan, u);
    WakeEntry(s, t);
  }

  ghost predicate NextOn(u: string, s: System, s': System) {
    Disciplined(s.plan) && exists t :: t in Callers(s.plan, u) && s' == Step(s, t)
  }

  lemma ExitStep(s: System, u: string, t: nat) returns (s': System)
    requires Inv(s) && t in Callers(s.plan, u) && t !in s.returned && Callers(s.plan, u) <= s.arrived
    ensures Inv(s') && NextOn(u, s, s') && Effect(s, t, s')
    ensures s'.returned == s.returned + {t} && s'.arrived == s.arrived
  {
    s' := Step(s, t);
    StepInv(s, t);
    StepEffect(s, t);
    WaitersEnabled(s, t);
  }

  /** From `s` to `last` every caller of `u` returned, the entry went, and nothing else changed. */
  ghost predicate Completed(s: System, u: string, last: System) {
    && last.plan == s.plan && last.arrived == s.arrived
    && (forall t :: t in last.returned <==> t in s.returned || t in Callers(s.plan, u))
    && u !in last.barriers && !last.fault
    && (forall v :: v != u ==> SameEntry(s.barriers, last.barriers, v))
  }

  lemma CompletedVia(s: System, u: string, t: nat, s': System, last: System)
    requires Effect(s, t, s') && t in Callers(s.plan, u)
    requires s'.arrived == s.arrived && s'.returned == s.returned + {t}
    requires Completed(s', u, last)
    ensures Completed(s, u, last)
  {
    forall v: string
      ensures v != u ==> SameEntry(s.barriers, last.barriers, v)
    {
      if v != u {
        assert SameEntry(s.barriers, s'.barriers, v) && SameEntry(s'.barriers, last.barriers, v);
      }
    }
  }

  lemma CompletedAlready(s: System, u: string)
    requires Inv(s) && Callers(s.plan, u) <= s.returned
    ensures Completed(s, u, s) && Callers(s.plan, u) - s.returned == {}
  {
    assert EntryOk(s, u);
    assert Exited(s, u) == Callers(s.plan, u);
  }

  /** Once all n have arrived, steps of those calls alone, one exit each, bring every one of them
      back and erase the entry, and touch nothing that belongs to another UUID. */
  lemma {:induction false} Completes(s: System, u: string) returns (path: seq<System>)
    requires Inv(s) && Callers(s.plan, u) <= s.arrived
    ensures IsPath(path, (a, b) => NextOn(u, a, b)) && path[0] == s
    ensures |path| == 1 + |Callers(s.plan, u) - s.returned|
    ensures Completed(s, u, path[|path| - 1])
    decreases |Callers(s.plan, u) - s.returned|
  {
    var all := Callers(s.plan, u);
    if all <= s.returned {
      CompletedAlready(s, u);
      path := [s];
    } else {
      var t :| t in all && t !in s.returned;
      var s' := ExitStep(s, u, t);
      assert all - s'.returned == (all - s.returned) - {t};
      var rest := Completes(s', u);
      path := Prepend(s, rest, (a, b) => NextOn(u, a, b));
      CompletedVia(s, u, t, s', rest[|rest| - 1]);
    }
  }

  /** Regions still to run, counting one arrival and one exit per call. */
  ghost function Measure(s: System): nat {
    |s.plan.calls.Keys - s.arrived| + |s.plan.calls.Keys - s.returned|
  }

  lemma MeasureEffect(s: System, t: nat, s': System)
    requires Effect(s, t, s')
    ensures (s'.arrived == s.arrived && s'.returned == s.returned) || Measure(s') < Measure(s)
  {
    var all := s.plan.calls.Keys;
    assert all - (s.arrived + {t}) == (all - s.arrived) - {t};
    assert all - (s.returned + {t}) == (all - s.returned) - {t};
  }

  /** A step is either a spurious wake-up, which changes nothing, or brings the end closer. */
  lemma MeasureDecreases(s: System, t: nat)
    requires Inv(s) && t in s.plan.calls
    ensures Step(s, t) == s || Measure(Step(s, t)) < Measure(s)
  {
    StepEffect(s, t);
    assert EntryOk(s, s.plan.calls[t]);
    if t in s.arrived && t !in s.returned {
      WakeEntry(s, t);
    }
    if t !in s.returned {
      MeasureEffect(s, t, Step(s, t));
    }
  }

  /** A reachable state in which no call can move is the finished one: no deadlock, no leftovers. */
  lemma StuckOnlyWhenDone(run: seq<System>, i: nat)
    requires IsRun(run, Init, Next) && i < |run|
    requires var s := run[i]; Disciplined(s.plan) && forall t :: t in s.plan.calls ==> Step(s, t) == s
    ensures run[i].returned == run[i].plan.calls.Keys && run[i].barriers == map[]
  {
    var s := run[i];
    RunInv(run, i);
    forall t | t in s.plan.calls
      ensures t in s.arrived
    {
      assert Step(s, t) == s;
    }
    forall t | t in s.plan.calls
      ensures t in s.returned
    {
      assert Step(s, t) == s;
      if t !in s.returned {
        WaitersEnabled(s, t);
      }
    }
    forall u: string
      ensures u !in s.barriers
    {
      assert Exited(s, u) == Callers(s.plan, u);
      assert EntryOk(s, u);
    }
    assert s.barriers.Keys == {};
  }
}
