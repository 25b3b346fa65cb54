/** The global drain barrier: `global_barrier` and `block_on_bar`, over any number of shells. */
module GlobalBarrier {
  import opened Runs

  type Sock = nat

  /** A shell as the barrier sees it: how much is queued and whether an evaluation is under way. */
  datatype Shell = Shell(queued: nat, running: bool)

  /** `busyShell`. */
  predicate Busy(sh: Shell) {
    sh.queued > 0 || sh.running
  }

  // ----- The step system -----

  /** `callers` are the sockets that ever call the barrier. For a socket inside it, `todo` is what
      the current scan has still to visit, and `left` records who left a barrier since it entered. */
  datatype State = State(callers: set<Sock>, shells: map<Sock, Shell>, inBarrier: set<Sock>, gate: bool,
                         todo: map<Sock, set<Sock>>, left: map<Sock, set<Sock>>)

  datatype Action =
    | Connect(x: Sock)
    | Disconnect(x: Sock)
    | Push(x: Sock)                     // the socket thread, past the gate
    | Start(x: Sock)                    // the eval thread pops and begins
    | Finish(x: Sock)
    | Enter(x: Sock)                    // a command under evaluation calls the barrier
    | Rescan(x: Sock)                   // something was busy: sleep and scan again
    | Look(x: Sock, seen: set<Sock>)    // the scan passes over sockets that do not hold it up
    | Leave(x: Sock)

  predicate Drained(s: State, y: Sock) {
    y in s.shells ==> !Busy(s.shells[y])
  }

  predicate Enabled(s: State, a: Action) {
    match a
    case Connect(x) => x !in s.shells
    case Disconnect(x) => x in s.shells && Drained(s, x)
    case Push(x) => x in s.shells && !s.gate
    case Start(x) => x in s.shells && s.shells[x].queued > 0 && !s.shells[x].running
    case Finish(x) => x in s.shells && s.shells[x].running && x !in s.inBarrier
    case Enter(x) => x in s.shells && s.shells[x].running && x !in s.inBarrier && x in s.callers
    case Rescan(x) => x in s.inBarrier
    case Look(x, seen) => x in s.inBarrier && x in s.todo && forall y :: y in seen ==> y in s.inBarrier || Drained(s, y)
    case Leave(x) => x in s.inBarrier && x in s.todo && s.todo[x] == {}
  }

  function Apply(s: State, a: Action): State
    requires Enabled(s, a)
  {
    match a
    case Connect(x) => s.(shells := s.shells[x := Shell(0, false)])
    case Disconnect(x) => s.(shells := s.shells - {x})
    case Push(x) => s.(shells := s.shells[x := Shell(s.shells[x].queued + 1, s.shells[x].running)])
    case Start(x) => s.(shells := s.shells[x := Shell(s.shells[x].queued - 1, true)])
    case Finish(x) => s.(shells := s.shells[x := Shell(s.shells[x].queued, false)])
    case Enter(x) => s.(inBarrier := s.inBarrier + {x}, gate := true,
                        todo := s.todo[x := s.shells.Keys - {x}], left := s.left[x := {}])
    case Rescan(x) => s.(todo := s.todo[x := s.shells.Keys - {x}])
    case Look(x, seen) => s.(todo := s.todo[x := s.todo[x] - seen])
    case Leave(x) =>
      var rest := s.inBarrier - {x};
      s.(inBarrier := rest, gate := if rest == {} then false else s.gate,
         left := map y | y in s.left :: if y in rest then s.left[y] + {x} else s.left[y])
  }

  ghost predicate Init(s: State) {
    s.shells == map[] && s.inBarrier == {} && !s.gate && s.todo == map[] && s.left == map[]
  }

  ghost predicate Next(s: State, s': State) {
    exists a :: Enabled(s, a) && s' == Apply(s, a)
  }

  /** What the barrier call of `x` may rely on about another socket `y`. */
  ghost predicate Accounted(s: State, x: Sock, y: Sock)
    requires x in s.todo && x in s.left
  {
    y == x || y in s.todo[x] || y in s.inBarrier || Drained(s, y) || y in s.left[x]
  }

  ghost predicate CallOk(s: State, x: Sock) {
    && x in s.todo && x in s.left && x in s.shells && s.shells[x].running && x in s.callers
    && s.left[x] <= s.callers - {x}
    && forall y :: Accounted(s, x, y)
  }

  ghost predicate Inv(s: State) {
    && (s.gate <==> s.inBarrier != {})
    && forall x {:trigger CallOk(s, x)} :: x in s.inBarrier ==> CallOk(s, x)
  }

  lemma {:induction false} CallKept(s: State, a: Action, x: Sock)
    requires Inv(s) && Enabled(s, a) && x in s.inBarrier && x in Apply(s, a).inBarrier
    ensures CallOk(Apply(s, a), x)
  {
    var s' := Apply(s, a);
    assert CallOk(s, x);
    if a.Leave? {
      assert CallOk(s, a.x);
    }
    forall y: Sock
      ensures Accounted(s', x, y)
    {
      assert Accounted(s, x, y);
    }
  }

  lemma StepInv(s: State, a: Action)
    requires Inv(s) && Enabled(s, a)
    ensures Inv(Apply(s, a)) && Apply(s, a).callers == s.callers
  {
    var s' := Apply(s, a);
    forall x | x in s'.inBarrier
      ensures CallOk(s', x)
    {
      if x in s.inBarrier {
        CallKept(s, a, x);
      } else {
        forall y: Sock ensures Accounted(s', x, y) { }
      }
    }
  }

  // ----- The code under the locks -----

  /** The socket list, the per-socket barrier flags and the gate, as the manager holds them. `s` is
      where they stand in the step system: entering and leaving are its steps. */
  class Manager {
    var sockList: seq<Sock>
    var inBarrier: set<Sock>
    var active: bool
    ghost var s: State

    ghost predicate Valid()
      reads this
    {
      && Inv(s) && inBarrier == s.inBarrier && active == s.gate
      && (forall x :: x in sockList <==> x in s.shells)
    }

    constructor (ghost callers: set<Sock>)
      ensures Valid() && Init(s) && s.callers == callers
    {
      sockList, inBarrier, active := [], {}, false;
      s := State(callers, map[], {}, false, map[], map[]);
    }

    method EnterRegion(ours: Sock)
      requires Valid() && Enabled(s, Enter(ours))
      modifies this
      ensures Valid() && s == Apply(old(s), Enter(ours))
    {
      StepInv(s, Enter(ours));
      inBarrier := inBarrier + {ours};
      active := true;
      s := Apply(s, Enter(ours));
    }

    /** One scan over the socket list succeeds exactly when the system allows it to pass over all the
        others, and then the caller may leave. */
    method AllIdle(ours: Sock, shells: map<Sock, Shell>) returns (idle: bool)
      requires Valid() && ours in inBarrier && shells == s.shells
      ensures var scan := Look(ours, shells.Keys - {ours});
              var s1 := Apply(s, Rescan(ours));
              && (idle <==> Enabled(s1, scan))
              && (idle ==> Enabled(Apply(s1, scan), Leave(ours)))
    {
      for i := 0 to |sockList|
        invariant forall j :: 0 <= j < i ==> (sockList[j] == ours || sockList[j] in inBarrier
                                              || !Busy(shells[sockList[j]]))
      {
        var x := sockList[i];
        if x == ours || x in inBarrier {
          continue;
        }
        if x in shells && Busy(shells[x]) {
          return false;
        }
      }
      idle := true;
    }

    method LeaveRegion(ours: Sock)
      requires Valid() && Enabled(s, Leave(ours))
      modifies this
      ensures Valid() && s == Apply(old(s), Leave(ours))
    {
      StepInv(s, Leave(ours));
      ghost var after := Apply(s, Leave(ours));
      inBarrier := inBarrier - {ours};
      s := after;
      for i := 0 to |sockList|
        invariant inBarrier == after.inBarrier && s == after && active == old(active) && sockList == old(sockList)
        invariant forall j :: 0 <= j < i ==> sockList[j] !in inBarrier
      {
        if sockList[i] in inBarrier {
          return;
        }
      }
      forall x | x in inBarrier ensures x in sockList { assert CallOk(after, x); }
      active := false;
    }
  }

  lemma RunInv(run: seq<State>, i: nat)
    requires IsRun(run, Init, Next) && i < |run|
    ensures Inv(run[i]) && run[i].callers == run[0].callers
  {
    var inv := (s: State) => Inv(s) && s.callers == run[0].callers;
    var from := (s: State) => Init(s) && s == run[0];
    forall s, s' | inv(s) && Next(s, s') ensures inv(s') {
      var a :| Enabled(s, a) && s' == Apply(s, a);
      StepInv(s, a);
    }
    assert IsRun(run, from, Next);
    InvariantHolds(run, from, Next, inv, i);
  }

  /** The gate is shut exactly while some socket is inside the barrier. */
  lemma GateIff(run: seq<State>, i: nat)
    requires IsRun(run, Init, Next) && i < |run|
    ensures run[i].gate <==> run[i].inBarrier != {}
  {
    RunInv(run, i);
  }

  /** A socket that comes and goes leaves things as they were, and while it is there it is idle. */
  lemma ConnectDisconnect(s: State, x: Sock)
    requires Enabled(s, Connect(x))
    ensures var s1 := Apply(s, Connect(x));
            s1.shells == s.shells[x := Shell(0, false)] && Enabled(s1, Disconnect(x)) && Apply(s1, Disconnect(x)) == s
  {
    assert s.shells[x := Shell(0, false)] - {x} == s.shells;
  }

  // ----- What a leave means -----

  /** At a leave, every other shell is inside a barrier itself, or drained, or it came out of an
      overlapping barrier after this call began. */
  lemma LeaveMeansDrained(run: seq<State>, i: nat, x: Sock, y: Sock)
    requires IsRun(run, Init, Next) && i < |run|
    requires Enabled(run[i], Leave(x)) && y != x && y !in run[i].inBarrier
    ensures x in run[i].left
    ensures y in run[i].shells ==> run[i].shells[y] == Shell(0, false) || y in run[i].left[x]
  {
    RunInv(run, i);
    assert CallOk(run[i], x);
    assert Accounted(run[i], x, y);
  }

  /** Socket `x` may leave while some shell outside every barrier still has work. */
  ghost predicate EarlyLeave(s: State, x: Sock, y: Sock) {
    Enabled(s, Leave(x)) && y != x && y !in s.inBarrier && y in s.shells && s.shells[y] != Shell(0, false)
  }

  ghost predicate EarlyLeaveReachable(callers: set<Sock>) {
    exists run: seq<State>, x, y {:trigger EarlyLeave(run[|run| - 1], x, y)} ::
      IsRun(run, Init, Next) && run[0].callers == callers && EarlyLeave(run[|run| - 1], x, y)
  }

  /** One more action at the end of a run. */
  lemma Take(run: seq<State>, a: Action, s': State) returns (longer: seq<State>)
    requires IsRun(run, Init, Next) && Enabled(run[|run| - 1], a) && s' == Apply(run[|run| - 1], a)
    ensures IsRun(longer, Init, Next) && longer[0] == run[0] && longer[|longer| - 1] == s'
  {
    longer := run + [s'];
    assert Next(run[|run| - 1], s');
    Extend(run, [s'], Init, Next);
  }

  /** Both commands that will call the barrier are under evaluation; `b` has one more line queued. */
  function BothRunning(callers: set<Sock>, a: Sock, b: Sock): State {
    State(callers, map[a := Shell(0, true), b := Shell(1, true)], {}, false, map[], map[])
  }

  function FirstRunning(callers: set<Sock>, a: Sock): State {
    State(callers, map[a := Shell(0, true)], {}, false, map[], map[])
  }

  lemma ReachFirstRunning(callers: set<Sock>, a: Sock) returns (run: seq<State>)
    ensures IsRun(run, Init, Next) && run[0].callers == callers
    ensures run[|run| - 1] == FirstRunning(callers, a)
  {
    var s := State(callers, map[], {}, false, map[], map[]);
    run := [s];
    run := Take(run, Connect(a), s.(shells := map[a := Shell(0, false)]));
    run := Take(run, Push(a), s.(shells := map[a := Shell(1, false)]));
    run := Take(run, Start(a), FirstRunning(callers, a));
  }

  /** The first shell runs and the second has a number of lines queued. */
  function SecondQueued(callers: set<Sock>, a: Sock, b: Sock, queued: nat): State {
    State(callers, map[a := Shell(0, true), b := Shell(queued, false)], {}, false, map[], map[])
  }

  lemma QueueOne(run: seq<State>, callers: set<Sock>, a: Sock, b: Sock, queued: nat) returns (longer: seq<State>)
    requires IsRun(run, Init, Next) && run[|run| - 1] == SecondQueued(callers, a, b, queued) && a != b
    ensures IsRun(longer, Init, Next) && longer[0] == run[0]
    ensures longer[|longer| - 1] == SecondQueued(callers, a, b, queued + 1)
  {
    longer := Take(run, Push(b), SecondQueued(callers, a, b, queued + 1));
  }

  lemma ReachBothRunning(callers: set<Sock>, a: Sock, b: Sock) returns (run: seq<State>)
    requires a != b
    ensures IsRun(run, Init, Next) && run[0].callers == callers
    ensures run[|run| - 1] == BothRunning(callers, a, b)
  {
    run := ReachFirstRunning(callers, a);
    run := Take(run, Connect(b), SecondQueued(callers, a, b, 0));
    run := QueueOne(run, callers, a, b, 0);
    run := QueueOne(run, callers, a, b, 1);
    run := Take(run, Start(b), BothRunning(callers, a, b));
  }

  /** Both have entered, and each has the other still to look at. */
  function BothInside(callers: set<Sock>, a: Sock, b: Sock): State {
    BothRunning(callers, a, b).(inBarrier := {a, b}, gate := true,
                                todo := map[a := {b}, b := {a}], left := map[a := {}, b := {}])
  }

  lemma ReachBothInside(callers: set<Sock>, a: Sock, b: Sock) returns (run: seq<State>)
    requires a in callers && b in callers && a != b
    ensures IsRun(run, Init, Next) && run[0].callers == callers
    ensures run[|run| - 1] == BothInside(callers, a, b)
  {
    run := ReachBothRunning(callers, a, b);
    var s := BothRunning(callers, a, b);
    assert s.shells.Keys - {a} == {b} && s.shells.Keys - {b} == {a};
    run := Take(run, Enter(a), s.(inBarrier := {a}, gate := true, todo := map[a := {b}], left := map[a := {}]));
    run := Take(run, Enter(b), BothInside(callers, a, b));
  }

  lemma LooksPast(s: State, x: Sock, y: Sock, s': State)
    requires x in s.inBarrier && y in s.inBarrier && x in s.todo && s.todo[x] == {y}
    requires s' == s.(todo := s.todo[x := {}])
    ensures Enabled(s, Look(x, {y})) && Apply(s, Look(x, {y})) == s'
  {
    assert s.todo[x] - {y} == {};
  }

  lemma LastStep(s: State, a: Sock, b: Sock, last: State)
    requires a != b && s.inBarrier == {a, b} && s.gate && s.left == map[a := {}, b := {}]
    requires b in s.todo && s.todo[b] == {}
    requires last == s.(inBarrier := {a}, left := map[a := {b}, b := {}])
    ensures Enabled(s, Leave(b)) && Apply(s, Leave(b)) == last
  {
    assert s.inBarrier - {b} == {a};
    var s' := Apply(s, Leave(b));
    assert s.left[a] + {b} == {b};
    assert s'.left == last.left;
  }

  /** Two overlapping calls: each scan skips the other, and when the second one out leaves, the
      first one's shell still has work. */
  lemma OverlapRun(callers: set<Sock>, a: Sock, b: Sock)
    requires a in callers && b in callers && a != b
    ensures EarlyLeaveReachable(callers)
  {
    var run := ReachBothInside(callers, a, b);
    var s0 := BothInside(callers, a, b);
    var s1 := s0.(todo := s0.todo[a := {}]);
    var s2 := s1.(todo := s1.todo[b := {}]);
    var last := s2.(inBarrier := {a}, left := map[a := {b}, b := {}]);
    LooksPast(s0, a, b, s1);
    run := Take(run, Look(a, {b}), s1);
    LooksPast(s1, b, a, s2);
    run := Take(run, Look(b, {a}), s2);
    LastStep(s2, a, b, last);
    run := Take(run, Leave(b), last);
    assert EarlyLeave(last, a, b);
  }

  /** So the manager's promise, that a leave finds every shell outside the barriers drained, holds
      in every run exactly when at most one socket ever calls the barrier. */
  lemma EarlyLeaveIff(callers: set<Sock>)
    ensures EarlyLeaveReachable(callers) <==> exists a, b :: a in callers && b in callers && a != b
  {
    if a, b :| a in callers && b in callers && a != b {
      OverlapRun(callers, a, b);
    }
    if EarlyLeaveReachable(callers) {
      var run: seq<State>, x, y :|
        IsRun(run, Init, Next) && run[0].callers == callers && EarlyLeave(run[|run| - 1], x, y);
      LeaveMeansDrained(run, |run| - 1, x, y);
      RunInv(run, |run| - 1);
      assert CallOk(run[|run| - 1], x);
      assert x in callers && y in callers;
    }
  }

  // ----- Draining -----

  /** Work of one shell: a queued line has still to start and to finish. */
  ghost function Load(sh: Shell): nat {
    2 * sh.queued + if sh.running then 1 else 0
  }

  ghost function Work(shells: map<Sock, Shell>): nat
    decreases |shells|
  {
    if shells == map[] then 0
    else
      var x :| x in shells;
      Load(shells[x]) + Work(shells - {x})
  }

  /** The total does not depend on the order in which shells are counted. */
  lemma {:induction false} WorkSplit(shells: map<Sock, Shell>, x: Sock)
    requires x in shells
    ensures Work(shells) == Load(shells[x]) + Work(shells - {x})
    decreases |shells|
  {
    var y :| y in shells && Work(shells) == Load(shells[y]) + Work(shells - {y});
    if y != x {
      WorkSplit(shells - {y}, x);
      WorkSplit(shells - {x}, y);
      assert shells - {y} - {x} == shells - {x} - {y};
    }
  }

  lemma WorkUpdate(shells: map<Sock, Shell>, x: Sock, sh: Shell)
    ensures x in shells ==> Work(shells[x := sh]) - Work(shells) == Load(sh) - Load(shells[x])
    ensures x !in shells ==> Work(shells[x := sh]) == Work(shells) + Load(sh)
  {
    WorkSplit(shells[x := sh], x);
    assert shells[x := sh] - {x} == shells - {x};
    if x in shells {
      WorkSplit(shells, x);
    } else {
      assert shells - {x} == shells;
    }
  }

  /** While the gate is shut no step adds work: every shell step takes one unit away and every
      other step leaves the total as it is. */
  lemma GateDrains(s: State, a: Action)
    requires s.gate && Enabled(s, a)
    ensures Work(Apply(s, a).shells) == Work(s.shells) - (if a.Start? || a.Finish? then 1 else 0)
    ensures forall x :: x in s.shells && x in Apply(s, a).shells ==> Apply(s, a).shells[x].queued <= s.shells[x].queued
  {
    match a
    case Connect(x) => WorkUpdate(s.shells, x, Shell(0, false));
    case Disconnect(x) => WorkSplit(s.shells, x);
    case Start(x) => WorkUpdate(s.shells, x, Shell(s.shells[x].queued - 1, true));
    case Finish(x) => WorkUpdate(s.shells, x, Shell(s.shells[x].queued, false));
    case _ =>
  }

  /** Overlapping barriers never wait on each other: as soon as the shells outside every barrier are
      drained, any socket inside can pass over all the rest, barrier or not, and leave. */
  lemma NobodyWaitsOnABarrier(s: State, x: Sock)
    requires Inv(s) && x in s.inBarrier
    requires forall y :: y in s.shells && y !in s.inBarrier ==> s.shells[y] == Shell(0, false)
    ensures var scan := Look(x, s.shells.Keys - {x});
            var s1 := Apply(s, Rescan(x));
            && Enabled(s1, scan)
            && Enabled(Apply(s1, scan), Leave(x))
            && Apply(Apply(s1, scan), Leave(x)).inBarrier == s.inBarrier - {x}
  {
    var s1 := Apply(s, Rescan(x));
    var others := s.shells.Keys - {x};
    assert forall y :: y in others ==> y in s1.inBarrier || Drained(s1, y);
    assert Apply(s1, Look(x, others)).todo[x] == {};
  }

  ghost predicate ShellStep(s: State, s': State) {
    exists a: Action :: (a.Start? || a.Finish?) && Enabled(s, a) && s' == Apply(s, a)
  }

  /** With the gate shut, the shells outside the barriers can always finish what they have, one unit
      of work a step, and then every one of them is drained. */
  lemma {:induction false} OutsidersDrain(s: State) returns (path: seq<State>)
    requires Inv(s) && s.gate
    ensures IsPath(path, ShellStep) && path[0] == s
    ensures var last := path[|path| - 1];
            && |path| - 1 + Work(last.shells) == Work(s.shells)
            && Inv(last) && last.inBarrier == s.inBarrier && last.callers == s.callers
            && forall y :: y in last.shells && y !in last.inBarrier ==> last.shells[y] == Shell(0, false)
    decreases Work(s.shells)
  {
    if y :| y in s.shells && y !in s.inBarrier && !Drained(s, y) {
      var a := if s.shells[y].running then Finish(y) else Start(y);
      var s' := Apply(s, a);
      GateDrains(s, a);
      StepInv(s, a);
      var rest := OutsidersDrain(s');
      assert ShellStep(s, s');
      path := Prepend(s, rest, ShellStep);
    } else {
      path := [s];
    }
  }

  lemma ShellPath(path: seq<State>)
    requires IsPath(path, ShellStep)
    ensures IsPath(path, Next)
  {
    forall i | 0 <= i < |path| - 1
      ensures Next(path[i], path[i + 1])
    {
      assert ShellStep(path[i], path[i + 1]);
    }
  }

  /** One socket scans and leaves: three steps that are no shell's work. */
  lemma LeavesNow(s: State, x: Sock) returns (path: seq<State>)
    requires Inv(s) && x in s.inBarrier
    requires forall y :: y in s.shells && y !in s.inBarrier ==> s.shells[y] == Shell(0, false)
    ensures IsPath(path, Next) && |path| == 4 && path[0] == s
    ensures Inv(path[3]) && path[3].inBarrier == s.inBarrier - {x} && path[3].shells == s.shells
  {
    NobodyWaitsOnABarrier(s, x);
    var scan := Look(x, s.shells.Keys - {x});
    var s1 := Apply(s, Rescan(x));
    var s2 := Apply(s1, scan);
    var s3 := Apply(s2, Leave(x));
    StepInv(s, Rescan(x));
    StepInv(s1, scan);
    StepInv(s2, Leave(x));
    assert Next(s, s1) && Next(s1, s2) && Next(s2, s3);
    path := [s, s1, s2, s3];
  }

  /** The barrier always can end: from any state with the gate shut there is a path on which every
      socket inside leaves and the gate opens, with one step for each unit of work at most and three
      for each socket inside. */
  lemma {:induction false} GateCanOpen(s: State) returns (path: seq<State>)
    requires Inv(s) && s.gate
    ensures IsPath(path, Next) && path[0] == s && |path| <= 1 + Work(s.shells) + 3 * |s.inBarrier|
    ensures path[|path| - 1].inBarrier == {} && !path[|path| - 1].gate
    decreases |s.inBarrier|
  {
    var drain := OutsidersDrain(s);
    ShellPath(drain);
    var idle := drain[|drain| - 1];
    var x :| x in s.inBarrier;
    var leave := LeavesNow(idle, x);
    path := Glue(drain, leave);
    var s' := leave[3];
    if s'.gate {
      var rest := GateCanOpen(s');
      path := Glue(path, rest);
    }
  }

  /** Two paths, the second from the end of the first. */
  lemma Glue(t: seq<State>, u: seq<State>) returns (v: seq<State>)
    requires IsPath(t, Next) && IsPath(u, Next) && t[|t| - 1] == u[0]
    ensures IsPath(v, Next) && |v| == |t| + |u| - 1 && v[0] == t[0] && v[|v| - 1] == u[|u| - 1]
  {
    if |u| == 1 {
      v := t;
    } else {
      assert Next(u[0], u[0 + 1]);
      TailIsPath(u, Next);
      Join(t, u[1..], Next);
      v := t + u[1..];
    }
  }

  /** In particular from every reachable state. */
  lemma BarrierCanEnd(run: seq<State>, i: nat) returns (path: seq<State>)
    requires IsRun(run, Init, Next) && i < |run| && run[i].gate
    ensures IsPath(path, Next) && path[0] == run[i]
    ensures |path| <= 1 + Work(run[i].shells) + 3 * |run[i].inBarrier|
    ensures path[|path| - 1].inBarrier == {} && !path[|path| - 1].gate
  {
    RunInv(run, i);
    path := GateCanOpen(run[i]);
  }
}
