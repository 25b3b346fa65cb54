/** The connection limiter of the socket manager: `wait_available_slot` and `release_slot`.
    The counter counts the sockets that still wait as well as the admitted ones. */
module SlotLimiter {
  import opened Runs
  import opened Bits

  /** `crowd` is how many threads can be inside `wait_available_slot` at once. */
  datatype State = State(max: Uint32, crowd: nat, numOpen: Uint32,
                         waiting: set<nat>, admitted: set<nat>, closed: set<nat>)

  /** The maximum is positive, and the threads of one process fit the counter. */
  predicate Sane(max: int, crowd: int) {
    0 < max && 0 <= crowd && max + crowd < UINT_SIZE
  }

  ghost predicate Init(s: State) {
    Sane(s.max, s.crowd) && s.numOpen == 0 && s.waiting == {} && s.admitted == {} && s.closed == {}
  }

  /** A new socket `x` enters `wait_available_slot`. */
  ghost predicate Enter(s: State, x: nat, s': State) {
    && x !in s.waiting + s.admitted + s.closed && |s.waiting| < s.crowd
    && var n := Inc(s.numOpen);
       s' == if s.max < n then s.(numOpen := n, waiting := s.waiting + {x})
             else s.(numOpen := n, admitted := s.admitted + {x})
  }

  /** A waiting socket's thread wakes and looks at the counter again. */
  ghost predicate Wake(s: State, x: nat, s': State) {
    && x in s.waiting
    && s' == if s.max < s.numOpen then s
             else s.(waiting := s.waiting - {x}, admitted := s.admitted + {x})
  }

  /** An admitted socket is destroyed. */
  ghost predicate Release(s: State, x: nat, s': State) {
    && x in s.admitted
    && s' == s.(numOpen := Dec(s.numOpen), admitted := s.admitted - {x}, closed := s.closed + {x})
  }

  ghost predicate Next(s: State, s': State) {
    exists x :: Enter(s, x, s') || Wake(s, x, s') || Release(s, x, s')
  }

  ghost predicate Inv(s: State) {
    && Sane(s.max, s.crowd)
    && s.waiting !! s.admitted
    && s.numOpen == |s.waiting| + |s.admitted|
    && |s.waiting| <= s.crowd
    && |s.admitted| <= s.max
  }

  lemma EnterInv(s: State, x: nat, s': State)
    requires Inv(s) && Enter(s, x, s')
    ensures Inv(s')
  {
    assert x !in s.waiting && x !in s.admitted;
    assert |s.waiting + {x}| == |s.waiting| + 1 && |s.admitted + {x}| == |s.admitted| + 1;
  }

  lemma WakeInv(s: State, x: nat, s': State)
    requires Inv(s) && Wake(s, x, s')
    ensures Inv(s')
  {
    assert x !in s.admitted;
    assert |s.waiting - {x}| == |s.waiting| - 1 && |s.admitted + {x}| == |s.admitted| + 1;
  }

  lemma ReleaseInv(s: State, x: nat, s': State)
    requires Inv(s) && Release(s, x, s')
    ensures Inv(s')
  {
    assert |s.admitted - {x}| == |s.admitted| - 1;
  }

  /** The limiter's fields; each method is one region under its mutex, run for socket `x`. `s` is
      where the fields stand in the step system: every region is one of its steps. */
  class Limiter {
    var maxOpenSockets: Uint32
    var numOpenSockets: Uint32
    ghost var s: State

    ghost predicate Valid()
      reads this
    {
      Inv(s) && s.max == maxOpenSockets && s.numOpen == numOpenSockets
    }

    constructor (max: Uint32, ghost crowd: nat)
      requires Sane(max, crowd)
      ensures Valid() && Init(s) && s.max == max && s.crowd == crowd
    {
      maxOpenSockets, numOpenSockets := max, 0;
      s := State(max, crowd, 0, {}, {}, {});
    }

    /** Up to the first wait: true when the socket need not wait. */
    method EnterRegion(ghost x: nat) returns (admitted: bool)
      requires Valid() && x !in s.waiting + s.admitted + s.closed && |s.waiting| < s.crowd
      modifies this
      ensures Valid() && Enter(old(s), x, s)
      ensures if admitted then x in s.admitted else x in s.waiting
    {
      numOpenSockets := Inc(numOpenSockets);
      admitted := !(maxOpenSockets < numOpenSockets);
      s := s.(numOpen := numOpenSockets, waiting := if admitted then s.waiting else s.waiting + {x},
              admitted := if admitted then s.admitted + {x} else s.admitted);
      EnterInv(old(s), x, s);
    }

    /** A wake-up, spurious or not. */
    method WakeRegion(ghost x: nat) returns (admitted: bool)
      requires Valid() && x in s.waiting
      modifies this`s
      ensures Valid() && Wake(old(s), x, s)
      ensures if admitted then x in s.admitted else s == old(s)
    {
      admitted := !(maxOpenSockets < numOpenSockets);
      if admitted {
        s := s.(waiting := s.waiting - {x}, admitted := s.admitted + {x});
      }
      WakeInv(old(s), x, s);
    }

    method ReleaseRegion(ghost x: nat)
      requires Valid() && x in s.admitted
      modifies this
      ensures Valid() && Release(old(s), x, s)
    {
      numOpenSockets := Dec(numOpenSockets);
      s := s.(numOpen := numOpenSockets, admitted := s.admitted - {x}, closed := s.closed + {x});
      ReleaseInv(old(s), x, s);
    }
  }

  lemma StepInv(s: State, s': State)
    requires Inv(s) && Next(s, s')
    ensures Inv(s') && s'.max == s.max && s'.crowd == s.crowd
  {
    var x :| Enter(s, x, s') || Wake(s, x, s') || Release(s, x, s');
    if Enter(s, x, s') {
      EnterInv(s, x, s');
    } else if Wake(s, x, s') {
      WakeInv(s, x, s');
    } else {
      ReleaseInv(s, x, s');
    }
  }

  lemma RunInv(run: seq<State>, i: nat)
    requires IsRun(run, Init, Next) && i < |run|
    ensures Inv(run[i]) && run[i].max == run[0].max && run[i].crowd == run[0].crowd
  {
    var inv := (s: State) => Inv(s) && s.max == run[0].max && s.crowd == run[0].crowd;
    var from := (s: State) => Init(s) && s == run[0];
    forall s, s' | inv(s) && Next(s, s') ensures inv(s') { StepInv(s, s'); }
    assert IsRun(run, from, Next);
    InvariantHolds(run, from, Next, inv, i);
  }

  /** The counter counts waiters too, yet no reachable state has more than max sockets admitted,
      and the counter never wraps. */
  lemma AdmittedBounded(run: seq<State>, i: nat)
    requires IsRun(run, Init, Next) && i < |run|
    ensures |run[i].admitted| <= run[i].max
    ensures run[i].numOpen == |run[i].waiting| + |run[i].admitted|
  {
    RunInv(run, i);
  }

  // ----- When can it get stuck? -----

  /** Nobody is admitted, so nobody will release a slot, and every waiter is blocked. */
  ghost predicate Stuck(s: State) {
    && s.waiting != {} && s.admitted == {}
    && forall x, s' :: Wake(s, x, s') ==> x in s'.waiting
  }

  ghost predicate StuckReachable(max: Uint32, crowd: nat) {
    exists run: seq<State> ::
      && IsRun(run, Init, Next) && run[0].max == max && run[0].crowd == crowd
      && Stuck(run[|run| - 1])
  }

  lemma StuckMeansOverfull(s: State)
    requires s.waiting != {} && s.admitted == {}
    ensures Stuck(s) <==> s.max < s.numOpen
  {
    var x :| x in s.waiting;
    var s' := if s.max < s.numOpen then s else s.(waiting := s.waiting - {x}, admitted := s.admitted + {x});
    assert Wake(s, x, s');
  }

  /** Once stuck, always stuck: no continuation whatever frees a waiter. */
  lemma StuckForever(path: seq<State>, i: nat)
    requires IsPath(path, Next) && Inv(path[0]) && Stuck(path[0]) && i < |path|
    ensures Stuck(path[i]) && path[0].waiting <= path[i].waiting && Inv(path[i])
  {
    if i > 0 {
      StuckForever(path, i - 1);
      var s, s' := path[i - 1], path[i];
      assert Next(path[i - 1], path[i - 1 + 1]);
      StuckMeansOverfull(s);
      StepInv(s, s');
      var x :| Enter(s, x, s') || Wake(s, x, s') || Release(s, x, s');
      StuckMeansOverfull(s');
    }
  }

  ghost predicate Between(a: nat, x: nat, b: nat) { a <= x < b }

  ghost function Range(a: nat, b: nat): set<nat> {
    set x: nat | x < b && Between(a, x, b)
  }

  lemma {:induction false} RangeSize(a: nat, b: nat)
    requires a <= b
    ensures |Range(a, b)| == b - a
    decreases b
  {
    if a == b {
      assert Range(a, b) == {};
    } else {
      RangeSize(a, b - 1);
      assert Range(a, b) == Range(a, b - 1) + {b - 1};
    }
  }

  /** Step k of the schedule that gets stuck: max sockets are admitted, then max + 1 more arrive
      and wait, then the first max are destroyed. */
  ghost function Schedule(max: Uint32, crowd: nat, k: nat): State
    requires Sane(max, crowd) && max < crowd && k <= 3 * max + 1
  {
    var entered := if k <= 2 * max + 1 then k else 2 * max + 1;
    var released := k - entered;
    State(max, crowd, entered - released,
          Range(max, if entered < max then max else entered),
          Range(released, if entered < max then entered else max),
          Range(0, released))
  }

  lemma RangeExtends(a: nat, b: nat)
    requires a <= b
    ensures Range(a, b + 1) == Range(a, b) + {b} && b !in Range(a, b)
    ensures a < b ==> Range(a + 1, b) == Range(a, b) - {a} && a in Range(a, b)
  {
  }

  lemma ScheduleAdmits(max: Uint32, crowd: nat, k: nat)
    requires Sane(max, crowd) && max < crowd && k < max
    ensures Enter(Schedule(max, crowd, k), k, Schedule(max, crowd, k + 1))
  {
    RangeExtends(0, k);
    RangeSize(max, max);
  }

  lemma ScheduleBlocks(max: Uint32, crowd: nat, k: nat)
    requires Sane(max, crowd) && max < crowd && max <= k < 2 * max + 1
    ensures Enter(Schedule(max, crowd, k), k, Schedule(max, crowd, k + 1))
  {
    RangeExtends(max, k);
    RangeSize(max, k);
    var s, s' := Schedule(max, crowd, k), Schedule(max, crowd, k + 1);
    assert s == State(max, crowd, k, Range(max, k), Range(0, max), Range(0, 0));
    assert s' == s.(numOpen := k + 1, waiting := Range(max, k + 1));
    assert k !in Range(0, max) && k !in Range(0, 0);
  }

  lemma ScheduleReleases(max: Uint32, crowd: nat, k: nat)
    requires Sane(max, crowd) && max < crowd && 2 * max + 1 <= k < 3 * max + 1
    ensures Release(Schedule(max, crowd, k), k - (2 * max + 1), Schedule(max, crowd, k + 1))
  {
    var x := k - (2 * max + 1);
    RangeExtends(x, max);
    RangeExtends(0, x);
  }

  lemma ScheduleSteps(max: Uint32, crowd: nat, k: nat)
    requires Sane(max, crowd) && max < crowd && k < 3 * max + 1
    ensures Next(Schedule(max, crowd, k), Schedule(max, crowd, k + 1))
  {
    if k < max {
      ScheduleAdmits(max, crowd, k);
    } else if k < 2 * max + 1 {
      ScheduleBlocks(max, crowd, k);
    } else {
      ScheduleReleases(max, crowd, k);
    }
  }

  lemma ScheduleEnds(max: Uint32, crowd: nat)
    requires Sane(max, crowd) && max < crowd
    ensures Init(Schedule(max, crowd, 0)) && Stuck(Schedule(max, crowd, 3 * max + 1))
  {
    var last := Schedule(max, crowd, 3 * max + 1);
    assert max in last.waiting;
    StuckMeansOverfull(last);
  }

  lemma ScheduleIsStuckRun(max: Uint32, crowd: nat)
    requires Sane(max, crowd) && max < crowd
    ensures StuckReachable(max, crowd)
  {
    forall k: nat | k < 3 * max + 1
      ensures Next(Schedule(max, crowd, k), Schedule(max, crowd, k + 1))
    {
      ScheduleSteps(max, crowd, k);
    }
    ScheduleEnds(max, crowd);
    var run := FromSchedule((k: nat) requires k <= 3 * max + 1 => Schedule(max, crowd, k), 3 * max + 1, Init, Next);
  }

  /** A state with nobody admitted and every waiter blocked is reachable exactly when more threads
      can wait at once than the maximum allows open. */
  lemma StuckIff(max: Uint32, crowd: nat)
    requires Sane(max, crowd)
    ensures StuckReachable(max, crowd) <==> max < crowd
  {
    if max < crowd {
      ScheduleIsStuckRun(max, crowd);
    }
    if StuckReachable(max, crowd) {
      var run: seq<State> :| IsRun(run, Init, Next) && run[0].max == max && run[0].crowd == crowd && Stuck(run[|run| - 1]);
      RunInv(run, |run| - 1);
      StuckMeansOverfull(run[|run| - 1]);
    }
  }
}
