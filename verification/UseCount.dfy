/** The use count that holds off a console socket's destruction while requests that hold it live. */
module UseCount {
  import opened Runs
  import opened Bits
  import opened Basics

  // ----- All interleavings of any number of requests and sockets -----

  datatype Phase = Open | InDtor | Destroyed

  datatype Sock = Sock(useCount: Uint32, phase: Phase)

  /** `reqs` maps each live request to the console it holds. `gets` and `puts` count, per request
      that ever lived, its acquires and releases. `fault` records a touch of a destroyed socket. */
  datatype State = State(socks: map<nat, Sock>, reqs: map<nat, Option<nat>>,
                         gets: map<nat, nat>, puts: map<nat, nat>, fault: bool)

  datatype Action =
    | Connect(c: nat)
    | Create(r: nat)
    | SetConsole(r: nat, c: nat)    // by the socket's own thread, which is not in its destructor
    | Clear(r: nat)                 // an exit or shutdown request lets go while it executes
    | Delete(r: nat)
    | BeginDtor(c: nat)
    | PassWait(c: nat)

  predicate Enabled(s: State, a: Action) {
    match a
    case Connect(c) => c !in s.socks
    case Create(r) => r !in s.reqs && r !in s.gets && r !in s.puts && |s.reqs| < UINT_SIZE - 1
    case SetConsole(r, c) =>
      r in s.reqs && s.reqs[r] == None && r in s.gets && c in s.socks && s.socks[c].phase == Open
    case Clear(r) => r in s.reqs && s.reqs[r].Some?
    case Delete(r) => r in s.reqs
    case BeginDtor(c) => c in s.socks && s.socks[c].phase == Open
    case PassWait(c) => c in s.socks && s.socks[c].phase == InDtor && s.socks[c].useCount == 0
  }

  /** Request `r` gives its console back. */
  function Put(s: State, r: nat): State
    requires r in s.reqs && s.reqs[r].Some?
  {
    var c := s.reqs[r].value;
    if c !in s.socks || s.socks[c].phase == Destroyed || r !in s.puts then s.(fault := true)
    else s.(socks := s.socks[c := s.socks[c].(useCount := Dec(s.socks[c].useCount))],
            reqs := s.reqs[r := None], puts := s.puts[r := s.puts[r] + 1])
  }

  function Apply(s: State, a: Action): State
    requires Enabled(s, a)
  {
    match a
    case Connect(c) => s.(socks := s.socks[c := Sock(0, Open)])
    case Create(r) => s.(reqs := s.reqs[r := None], gets := s.gets[r := 0], puts := s.puts[r := 0])
    case SetConsole(r, c) =>
      s.(socks := s.socks[c := s.socks[c].(useCount := Inc(s.socks[c].useCount))],
         reqs := s.reqs[r := Some(c)], gets := s.gets[r := s.gets[r] + 1])
    case Clear(r) => Put(s, r)
    case Delete(r) =>
      var s1 := if s.reqs[r].Some? then Put(s, r) else s;
      s1.(reqs := s1.reqs - {r})
    case BeginDtor(c) => s.(socks := s.socks[c := s.socks[c].(phase := InDtor)])
    case PassWait(c) => s.(socks := s.socks[c := s.socks[c].(phase := Destroyed)])
  }

  ghost predicate Init(s: State) {
    s.socks == map[] && s.reqs == map[] && s.gets == map[] && s.puts == map[] && !s.fault
  }

  ghost predicate Next(s: State, s': State) {
    exists a :: Enabled(s, a) && s' == Apply(s, a)
  }

  /** The live requests that hold socket `c`. */
  ghost function Holders(s: State, c: nat): set<nat> {
    set r | r in s.reqs && s.reqs[r] == Some(c)
  }

  ghost predicate SockOk(s: State, c: nat)
    requires c in s.socks
  {
    && s.socks[c].useCount == |Holders(s, c)|
    && (s.socks[c].phase == Destroyed ==> Holders(s, c) == {})
  }

  ghost predicate ReqOk(s: State, r: nat) {
    && (r in s.reqs ==> r in s.gets && (s.reqs[r].Some? ==> s.reqs[r].value in s.socks))
    && (r in s.gets <==> r in s.puts)
    && (r in s.gets ==> s.gets[r] == s.puts[r] + if r in s.reqs && s.reqs[r].Some? then 1 else 0)
  }

  ghost predicate Inv(s: State) {
    && !s.fault
    && |s.reqs| < UINT_SIZE
    && (forall c {:trigger SockOk(s, c)} :: c in s.socks ==> SockOk(s, c))
    && (forall r {:trigger ReqOk(s, r)} :: ReqOk(s, r))
  }

  lemma HoldersFew(s: State, c: nat)
    ensures |Holders(s, c)| <= |s.reqs|
    ensures forall r :: r in s.reqs && s.reqs[r] != Some(c) ==> |Holders(s, c)| < |s.reqs|
  {
    var h := Holders(s, c);
    assert s.reqs.Keys == h + (s.reqs.Keys - h);
    forall r | r in s.reqs && s.reqs[r] != Some(c)
      ensures |h| < |s.reqs|
    {
      assert r in s.reqs.Keys - h;
    }
  }

  /** Request `r` changes hands in `reqs` and nothing else there does. */
  lemma HoldersAfter(s: State, s': State, r: nat, c: nat)
    requires forall q :: q != r ==> (q in s'.reqs <==> q in s.reqs) && (q in s.reqs ==> s'.reqs[q] == s.reqs[q])
    ensures var before, after := r in s.reqs && s.reqs[r] == Some(c), r in s'.reqs && s'.reqs[r] == Some(c);
            && (after ==> Holders(s', c) == Holders(s, c) + {r})
            && (!after ==> Holders(s', c) == Holders(s, c) - {r})
            && |Holders(s', c)| == |Holders(s, c)| + (if after then 1 else 0) - (if before then 1 else 0)
  {
    var before, after := r in s.reqs && s.reqs[r] == Some(c), r in s'.reqs && s'.reqs[r] == Some(c);
    if after {
      assert Holders(s', c) == Holders(s, c) + {r};
    } else {
      assert Holders(s', c) == Holders(s, c) - {r};
    }
  }

  /** A live holder keeps its socket from destruction and its count above zero. */
  lemma HolderProtects(s: State, r: nat)
    requires Inv(s) && r in s.reqs && s.reqs[r].Some?
    ensures var c := s.reqs[r].value;
            c in s.socks && s.socks[c].phase != Destroyed && 0 < s.socks[c].useCount && r in s.puts
  {
    assert ReqOk(s, r);
    var c := s.reqs[r].value;
    assert SockOk(s, c);
    assert r in Holders(s, c);
  }

  lemma SockKept(s: State, a: Action, c: nat)
    requires Inv(s) && Enabled(s, a) && c in Apply(s, a).socks
    requires a.Clear? || a.Delete? || a.SetConsole? || a.Create?
    ensures SockOk(Apply(s, a), c)
  {
    var s' := Apply(s, a);
    if s.reqs.Keys >= {a.r} && s.reqs[a.r].Some? {
      HolderProtects(s, a.r);
    }
    assert SockOk(s, c);
    HoldersAfter(s, s', a.r, c);
    HoldersFew(s, c);
  }

  lemma SockKeptOtherwise(s: State, a: Action, c: nat)
    requires Inv(s) && Enabled(s, a) && c in Apply(s, a).socks
    requires a.Connect? || a.BeginDtor? || a.PassWait?
    ensures SockOk(Apply(s, a), c)
  {
    var s' := Apply(s, a);
    assert Holders(s', c) == Holders(s, c);
    if c in s.socks {
      assert SockOk(s, c);
    } else {
      forall r ensures r !in Holders(s, c) { assert ReqOk(s, r); }
      assert Holders(s, c) == {};
    }
  }

  lemma ReqKept(s: State, a: Action, r: nat)
    requires Inv(s) && Enabled(s, a)
    ensures ReqOk(Apply(s, a), r)
  {
    assert ReqOk(s, r);
    if (a.Clear? || a.Delete?) && s.reqs[a.r].Some? {
      HolderProtects(s, a.r);
    }
  }

  lemma NoFault(s: State, a: Action)
    requires Inv(s) && Enabled(s, a)
    ensures !Apply(s, a).fault
  {
    if (a.Clear? || a.Delete?) && s.reqs[a.r].Some? {
      HolderProtects(s, a.r);
    }
  }

  lemma MapSizes(m: map<nat, Option<nat>>, r: nat, v: Option<nat>)
    ensures r in m ==> |m[r := v]| == |m|
    ensures r !in m ==> |m[r := v]| == |m| + 1
    ensures |m - {r}| <= |m|
  {
    assert m[r := v].Keys == m.Keys + {r};
    assert (m - {r}).Keys == m.Keys - {r};
  }

  lemma SizeKept(s: State, a: Action)
    requires |s.reqs| < UINT_SIZE && Enabled(s, a)
    ensures |Apply(s, a).reqs| < UINT_SIZE
  {
    match a
    case Create(r) => MapSizes(s.reqs, r, None);
    case SetConsole(r, c) => MapSizes(s.reqs, r, Some(c));
    case Clear(r) => MapSizes(s.reqs, r, None);
    case Delete(r) =>
      MapSizes(s.reqs, r, None);
      MapSizes(s.reqs[r := None], r, None);
    case _ =>
  }

  lemma StepInv(s: State, a: Action)
    requires Inv(s) && Enabled(s, a)
    ensures Inv(Apply(s, a))
  {
    var s' := Apply(s, a);
    NoFault(s, a);
    SizeKept(s, a);
    forall r: nat ensures ReqOk(s', r) { ReqKept(s, a, r); }
    forall c | c in s'.socks ensures SockOk(s', c) {
      if a.Connect? || a.BeginDtor? || a.PassWait? {
        SockKeptOtherwise(s, a, c);
      } else {
        SockKept(s, a, c);
      }
    }
  }

  lemma RunInv(run: seq<State>, i: nat)
    requires IsRun(run, Init, Next) && i < |run|
    ensures Inv(run[i])
  {
    forall s, s' | Inv(s) && Next(s, s') ensures Inv(s') {
      var a :| Enabled(s, a) && s' == Apply(s, a);
      StepInv(s, a);
    }
    InvariantHolds(run, Init, Next, Inv, i);
  }

  /** In every state of every run the use count of a socket is the number of live requests that hold
      it, so a release never takes it below zero. */
  lemma CountsHolders(run: seq<State>, i: nat, c: nat)
    requires IsRun(run, Init, Next) && i < |run| && c in run[i].socks
    ensures run[i].socks[c].useCount == |Holders(run[i], c)|
    ensures forall r :: r in Holders(run[i], c) ==> 0 < run[i].socks[c].useCount
  {
    RunInv(run, i);
    assert SockOk(run[i], c);
  }

  /** Each acquire is released at most once, and a request that is gone has released what it took. */
  lemma GetsMatchPuts(run: seq<State>, i: nat, r: nat)
    requires IsRun(run, Init, Next) && i < |run| && r in run[i].gets
    ensures r in run[i].puts && run[i].puts[r] <= run[i].gets[r] <= run[i].puts[r] + 1
    ensures r !in run[i].reqs ==> run[i].puts[r] == run[i].gets[r]
  {
    RunInv(run, i);
    assert ReqOk(run[i], r);
  }

  /** The destructor gets past its wait exactly when no live request holds the socket, and from then
      on none ever does: no request touches a destroyed socket. */
  lemma DestroyedUnheld(run: seq<State>, i: nat, c: nat)
    requires IsRun(run, Init, Next) && i < |run| && c in run[i].socks
    ensures run[i].socks[c].phase == InDtor ==> (Enabled(run[i], PassWait(c)) <==> Holders(run[i], c) == {})
    ensures run[i].socks[c].phase == Destroyed ==> Holders(run[i], c) == {}
    ensures !run[i].fault
  {
    RunInv(run, i);
    assert SockOk(run[i], c);
  }

  /** Releasing a destroyed socket would be a fault. */
  lemma ReleaseAfterDestructionFaults(s: State, r: nat)
    requires r in s.reqs && s.reqs[r].Some? && s.reqs[r].value in s.socks
    requires s.socks[s.reqs[r].value].phase == Destroyed
    ensures Apply(s, Clear(r)).fault && Apply(s, Delete(r)).fault
  {
  }

  lemma Take(from: State, s: State, a: Action)
    requires Reaches(from, s, Next) && Enabled(s, a)
    ensures Reaches(from, Apply(s, a), Next)
  {
    assert Next(s, Apply(s, a));
    ReachesStep(from, s, Apply(s, a), Next);
  }

  /** A socket and a request come. */
  lemma Come(s: State, c: nat, r: nat) returns (s': State)
    requires Enabled(s, Connect(c)) && Enabled(s, Create(r))
    ensures Reaches(s, s', Next)
    ensures s' == s.(socks := s.socks[c := Sock(0, Open)], reqs := s.reqs[r := None],
                     gets := s.gets[r := 0], puts := s.puts[r := 0])
  {
    ReachesSelf(s, Next);
    Take(s, s, Connect(c));
    s' := Apply(s, Connect(c));
    Take(s, s', Create(r));
    s' := Apply(s', Create(r));
  }

  /** And the request takes hold of the socket. */
  lemma ComeAndHold(s: State, c: nat, r: nat) returns (s': State)
    requires Enabled(s, Connect(c)) && Enabled(s, Create(r))
    ensures Reaches(s, s', Next)
    ensures s'.socks == s.socks[c := Sock(1, Open)] && s'.reqs == s.reqs[r := Some(c)]
    ensures s'.gets == s.gets[r := 1] && s'.puts == s.puts[r := 0]
  {
    s' := Come(s, c, r);
    Take(s, s', Action.SetConsole(r, c));
    s' := Apply(s', Action.SetConsole(r, c));
  }

  /** A socket's end: while a request holds it the destructor waits, and once the request is deleted
      the destructor passes and the socket is gone. */
  lemma WaitsForItsHolder(s: State, c: nat, r: nat)
    requires c in s.socks && s.socks[c] == Sock(1, Open) && r in s.reqs && s.reqs[r] == Some(c) && r in s.puts
    ensures Enabled(s, BeginDtor(c))
    ensures var s1 := Apply(s, BeginDtor(c));
            && s1.socks == s.socks[c := Sock(1, InDtor)] && !Enabled(s1, PassWait(c)) && Enabled(s1, Delete(r))
            && var s2 := Apply(s1, Delete(r));
            && s2.reqs == s.reqs - {r} && Enabled(s2, PassWait(c))
            && Apply(s2, PassWait(c)).socks == s.socks[c := Sock(0, Destroyed)]
  {
    var s1 := Apply(s, BeginDtor(c));
    var s2 := Apply(s1, Delete(r));
    assert s2.socks == s.socks[c := Sock(0, InDtor)];
    assert s2.reqs == s.reqs - {r};
  }

  // ----- The code: a socket's count and a request's console pointer -----

  /** Where all sockets and requests stand in the step system. */
  class Registry {
    ghost var s: State

    constructor ()
      ensures Init(s)
    {
      s := State(map[], map[], map[], map[], false);
    }
  }

  /** A socket, number `id` in the system; each method is the region under its mutex, and a step. */
  class ConsoleSocket {
    var useCount: Uint32
    ghost const system: Registry
    ghost const id: nat

    ghost predicate Valid()
      reads this, system
    {
      Inv(system.s) && id in system.s.socks && system.s.socks[id].useCount == useCount
    }

    constructor (ghost system: Registry, ghost id: nat)
      requires Inv(system.s) && Enabled(system.s, Connect(id))
      modifies system
      ensures Valid() && this.system == system && this.id == id && system.s == Apply(old(system.s), Connect(id))
    {
      useCount := 0;
      this.system, this.id := system, id;
      new;
      StepInv(system.s, Connect(id));
      system.s := Apply(system.s, Connect(id));
    }

    /** Request `r` takes hold of this socket. */
    method Get(ghost r: nat)
      requires Valid() && Enabled(system.s, Action.SetConsole(r, id))
      modifies this, system
      ensures Valid() && system.s == Apply(old(system.s), Action.SetConsole(r, id))
    {
      StepInv(system.s, Action.SetConsole(r, id));
      system.s := Apply(system.s, Action.SetConsole(r, id));
      useCount := Inc(useCount);
    }

    /** The holder `a.r` lets go, because it is cleared or because it is deleted. */
    method Put(ghost a: Action)
      requires Valid() && (a.Clear? || a.Delete?) && Enabled(system.s, a) && system.s.reqs[a.r] == Some(id)
      modifies this, system
      ensures Valid() && system.s == Apply(old(system.s), a)
      ensures useCount == old(useCount) - 1
    {
      HolderProtects(system.s, a.r);
      StepInv(system.s, a);
      system.s := Apply(system.s, a);
      useCount := Dec(useCount);
    }

    /** One look by the destructor's wait loop. It goes on exactly when no live request holds the
        socket, and otherwise waits. */
    method TryPassWait() returns (pass: bool)
      requires Valid() && system.s.socks[id].phase == InDtor
      modifies system
      ensures Valid()
      ensures pass <==> Holders(old(system.s), id) == {}
      ensures pass <==> Enabled(old(system.s), PassWait(id))
      ensures system.s == if pass then Apply(old(system.s), PassWait(id)) else old(system.s)
    {
      assert SockOk(system.s, id);
      pass := useCount == 0;
      if pass {
        StepInv(system.s, PassWait(id));
        system.s := Apply(system.s, PassWait(id));
      }
    }
  }

  /** A request, number `id` in the system. */
  class Request {
    var console: ConsoleSocket?
    ghost const system: Registry
    ghost const id: nat

    ghost predicate Valid()
      reads this, system, console
    {
      && Inv(system.s) && id in system.s.reqs
      && (console == null ==> system.s.reqs[id] == None)
      && (console != null ==>
            console.system == system && console.Valid() && system.s.reqs[id] == Some(console.id))
    }

    constructor (ghost system: Registry, ghost id: nat)
      requires Inv(system.s) && Enabled(system.s, Create(id))
      modifies system
      ensures Valid() && console == null && this.system == system && this.id == id
      ensures system.s == Apply(old(system.s), Create(id))
    {
      console := null;
      this.system, this.id := system, id;
      new;
      StepInv(system.s, Create(id));
      system.s := Apply(system.s, Create(id));
    }

    /** Null releases the console, anything else acquires it; the source asserts that a console is
        not set twice and dereferences it when releasing. */
    method SetConsole(con: ConsoleSocket?)
      requires Valid() && (con == null) != (console == null)
      requires con != null ==> con.system == system && con.Valid() && system.s.socks[con.id].phase == Open
      modifies this, system, con, console
      ensures Valid() && console == con
      ensures var a := if con == null then Clear(id) else Action.SetConsole(id, con.id);
              Enabled(old(system.s), a) && system.s == Apply(old(system.s), a)
      ensures con == null ==> old(console).Valid()
    {
      assert ReqOk(system.s, id);
      if con == null {
        console.Put(Clear(id));
        console := null;
        return;
      }
      con.Get(id);
      console := con;
    }

    /** The destructor's part in the count. */
    method Destroy()
      requires Valid()
      modifies system, console
      ensures system.s == Apply(old(system.s), Delete(id)) && Inv(system.s)
      ensures console != null ==> console.Valid()
    {
      if console != null {
        console.Put(Delete(id));
      } else {
        StepInv(system.s, Delete(id));
        system.s := Apply(system.s, Delete(id));
      }
    }
  }

  /** Setting and then clearing, or setting and then deleting, gives the socket its count back. */
  method AcquireRelease(r: Request, con: ConsoleSocket, clear: bool)
    requires r.Valid() && r.console == null
    requires con.system == r.system && con.Valid() && con.system.s.socks[con.id].phase == Open
    modifies r, con, r.system
    ensures con.Valid() && con.useCount == old(con.useCount)
  {
    r.SetConsole(con);
    if clear {
      r.SetConsole(null);
    } else {
      r.Destroy();
    }
  }
}
