/** The request queue: `pushRequest` by any thread, `processRequests` by any thread under its mutex. */
module RequestQueue {
  import opened Runs
  import opened Basics

  /** A request object, told apart by its identity. */
  type Req = nat

  type Tid = nat

  // ----- All interleavings of any number of pushers and drainers -----

  /** Where a thread stands. `Stalled` is a pop that found the queue empty with the mutex held. */
  datatype PC = Outside | AtMutex | AtTest | AtPop | Executing(r: Req) | Returned | Threw | Stalled

  /** `pushed`, `started` and `finished` are the requests so far, in order; `mine` maps each thread
      to the requests it has put on the queue. */
  datatype State = State(queue: seq<Req>, canceled: bool, holder: Option<Tid>, pc: map<Tid, PC>,
                         pushed: seq<Req>, started: seq<Req>, finished: seq<Req>, mine: map<Tid, set<Req>>)

  datatype Action =
    | Push(t: Tid, r: Req)
    | Call(t: Tid)
    | Lock(t: Tid)
    | Test(t: Tid)
    | Pop(t: Tid)
    | Done(t: Tid)
    | Cancel
    | CancelReset

  predicate Enabled(s: State, a: Action) {
    match a
    case Push(t, r) =>
      // Also from inside a request that is being executed.
      t in s.pc && t in s.mine && r !in s.pushed
      && (s.pc[t] in {Outside, Returned, Threw} || s.pc[t].Executing?)
    case Call(t) => t in s.pc && s.pc[t] in {Outside, Returned, Threw}
    case Lock(t) => t in s.pc && s.pc[t] == AtMutex && s.holder == None
    case Test(t) => t in s.pc && s.pc[t] == AtTest
    case Pop(t) => t in s.pc && s.pc[t] == AtPop
    case Done(t) => t in s.pc && s.pc[t].Executing?
    case Cancel => true
    case CancelReset => true
  }

  function Apply(s: State, a: Action): State
    requires Enabled(s, a)
  {
    match a
    case Push(t, r) =>
      var pc := if s.pc[t].Executing? then s.pc else s.pc[t := Outside];
      if s.canceled then s.(pc := pc)
      else s.(pc := pc, queue := s.queue + [r], pushed := s.pushed + [r], mine := s.mine[t := s.mine[t] + {r}])
    case Call(t) => s.(pc := s.pc[t := AtMutex])
    case Lock(t) => s.(pc := s.pc[t := AtTest], holder := Some(t))
    case Test(t) =>
      if 0 < |s.queue| then s.(pc := s.pc[t := AtPop])
      else s.(pc := s.pc[t := Returned], holder := None)
    case Pop(t) =>
      if s.canceled then s.(pc := s.pc[t := Threw], holder := None)
      else if s.queue == [] then s.(pc := s.pc[t := Stalled])
      else s.(pc := s.pc[t := Executing(s.queue[0])], queue := s.queue[1..], started := s.started + [s.queue[0]])
    case Done(t) => s.(pc := s.pc[t := AtTest], finished := s.finished + [s.pc[t].r])
    case Cancel => s.(canceled := true)
    case CancelReset => s.(canceled := false)
  }

  ghost predicate Init(s: State) {
    && s.queue == [] && !s.canceled && s.holder == None
    && s.pushed == [] && s.started == [] && s.finished == []
    && s.mine.Keys == s.pc.Keys
    && (forall t :: t in s.pc ==> s.pc[t] == Outside && s.mine[t] == {})
  }

  ghost predicate Next(s: State, s': State) {
    exists a :: Enabled(s, a) && s' == Apply(s, a)
  }

  predicate Holding(pc: PC) {
    pc.AtTest? || pc.AtPop? || pc.Executing?
  }

  ghost predicate NoDuplicates(q: seq<Req>) {
    forall i, j :: 0 <= i < j < |q| ==> q[i] != q[j]
  }

  /** What the holder has in hand: nothing, or the request it is executing. */
  ghost function InHand(s: State): seq<Req> {
    if s.holder.Some? && s.holder.value in s.pc && s.pc[s.holder.value].Executing?
    then [s.pc[s.holder.value].r] else []
  }

  ghost predicate ThreadOk(s: State, t: Tid)
    requires t in s.pc && t in s.mine
  {
    && (Holding(s.pc[t]) <==> s.holder == Some(t))
    && !s.pc[t].Stalled?
    && (s.pc[t].AtPop? ==> s.queue != [])
    && (forall r :: r in s.mine[t] ==> r in s.pushed)
    && (s.pc[t].Returned? ==> forall r :: r in s.mine[t] ==> r in s.finished)
  }

  ghost predicate Inv(s: State) {
    && s.mine.Keys == s.pc.Keys
    && (s.holder.Some? ==> s.holder.value in s.pc)
    && s.pushed == s.started + s.queue
    && s.started == s.finished + InHand(s)
    && NoDuplicates(s.pushed)
    && (forall t {:trigger ThreadOk(s, t)} :: t in s.pc ==> ThreadOk(s, t))
  }

  lemma ThreadKept(s: State, a: Action, t: Tid)
    requires Inv(s) && Enabled(s, a) && t in s.pc
    ensures ThreadOk(Apply(s, a), t)
  {
    assert ThreadOk(s, t);
    if !a.Cancel? && !a.CancelReset? {
      assert ThreadOk(s, a.t);
    }
    if a.Test? && s.queue == [] {
      assert InHand(s) == [];
      assert s.pushed == s.finished;
    }
  }

  lemma OrderKept(s: State, a: Action)
    requires Inv(s) && Enabled(s, a)
    ensures var s' := Apply(s, a);
            s'.pushed == s'.started + s'.queue && s'.started == s'.finished + InHand(s') && NoDuplicates(s'.pushed)
  {
    if !a.Cancel? && !a.CancelReset? {
      assert ThreadOk(s, a.t);
    }
    if s.holder.Some? {
      assert ThreadOk(s, s.holder.value);
    }
  }

  lemma StepInv(s: State, a: Action)
    requires Inv(s) && Enabled(s, a)
    ensures Inv(Apply(s, a))
  {
    OrderKept(s, a);
    forall t | t in s.pc ensures ThreadOk(Apply(s, a), t) { ThreadKept(s, a, t); }
  }

  lemma RunInv(run: seq<State>, i: nat)
    requires IsRun(run, Init, Next) && i < |run|
    ensures Inv(run[i])
  {
    forall s, s' | Inv(s) && Next(s, s') ensures Inv(s') {
      var a :| Enabled(s, a) && s' == Apply(s, a);
      StepInv(s, a);
    }
    InvariantHolds(run, Init, Next, Inv, i);
  }

  /** In every state of every run, requests have been started in the order they were pushed, each at
      most once, and at most one is under way: the next starts only after the last has finished. */
  lemma OneAtATimeInOrder(run: seq<State>, i: nat)
    requires IsRun(run, Init, Next) && i < |run|
    ensures var s := run[i];
            && s.started <= s.pushed && NoDuplicates(s.started)
            && s.finished <= s.started && |s.started| <= |s.finished| + 1
            && (forall t, u :: t in s.pc && u in s.pc && s.pc[t].Executing? && s.pc[u].Executing? ==> t == u)
  {
    var s := run[i];
    RunInv(run, i);
    forall t, u | t in s.pc && u in s.pc && s.pc[t].Executing? && s.pc[u].Executing?
      ensures t == u
    {
      assert ThreadOk(s, t) && ThreadOk(s, u);
    }
  }

  /** The pop inside the loop never finds the queue empty. */
  lemma PopNeverEmpty(run: seq<State>, i: nat, t: Tid)
    requires IsRun(run, Init, Next) && i < |run| && t in run[i].pc
    ensures run[i].pc[t] != Stalled
    ensures run[i].pc[t] == AtPop ==> run[i].queue != []
  {
    RunInv(run, i);
    assert ThreadOk(run[i], t);
  }

  /** A thread that has pushed a request and then come back from `processRequests` without an
      exception knows that the request has finished, whichever thread executed it. */
  lemma DrainedOnReturn(run: seq<State>, i: nat, t: Tid, r: Req)
    requires IsRun(run, Init, Next) && i < |run| && t in run[i].pc && t in run[i].mine
    requires r in run[i].mine[t] && run[i].pc[t] == Returned
    ensures r in run[i].finished
  {
    RunInv(run, i);
    assert ThreadOk(run[i], t);
  }

  /** More than that: at the instant of the return, everything anyone has pushed has finished. */
  lemma ReturnFindsAllFinished(run: seq<State>, i: nat, t: Tid)
    requires IsRun(run, Init, Next) && i < |run| && Enabled(run[i], Test(t))
    requires Apply(run[i], Test(t)).pc[t] == Returned
    ensures run[i].finished == run[i].pushed
  {
    RunInv(run, i);
    assert ThreadOk(run[i], t);
    assert InHand(run[i]) == [];
  }

  /** Only an exception lets a thread out of `processRequests` otherwise, and only cancellation
      throws one. */
  lemma ThrowsOnlyWhenCancelled(s: State, a: Action, t: Tid)
    requires Enabled(s, a) && t in s.pc && t in Apply(s, a).pc && s.pc[t] != Threw && Apply(s, a).pc[t] == Threw
    ensures a == Pop(t) && s.canceled && Apply(s, a).queue == s.queue
  {
  }

  // ----- What a thread may do -----

  /** Any thread that is not waiting in `processRequests` may push, from inside a request too; on a
      queue that is not cancelled the request goes behind the rest and is the thread's own, and on a
      cancelled one nothing changes. Cancelling and its reset are always possible. */
  lemma MayPush(s: State, t: Tid, r: Req)
    requires t in s.pc && t in s.mine && r !in s.pushed
    requires s.pc[t] in {Outside, Returned, Threw} || s.pc[t].Executing?
    ensures Enabled(s, Push(t, r)) && Enabled(s, Cancel) && Enabled(s, CancelReset)
    ensures var s' := Apply(s, Push(t, r));
            if s.canceled then s'.queue == s.queue && s'.pushed == s.pushed && s'.mine == s.mine
            else s'.queue == s.queue + [r] && s'.pushed == s.pushed + [r] && r in s'.mine[t]
    ensures Apply(s, Cancel) == s.(canceled := true) && Apply(s, CancelReset) == s.(canceled := false)
  {
  }

  // ----- One call with no other thread about -----

  /** On a path from a state in which the invariant holds. */
  ghost predicate Reachable(from: State, s: State) {
    Inv(from) && Reaches(from, s, Next)
  }

  lemma ReachableInv(from: State, s: State)
    requires Reachable(from, s)
    ensures Inv(s)
  {
    var path: seq<State> :| IsPath(path, Next) && path[0] == from && path[|path| - 1] == s;
    forall s, s' | Inv(s) && Next(s, s') ensures Inv(s') {
      var a :| Enabled(s, a) && s' == Apply(s, a);
      StepInv(s, a);
    }
    assert IsRun(path, Inv, Next);
    InvariantHolds(path, Inv, Next, Inv, |path| - 1);
  }

  /** One more action at the end of a path. */
  lemma Take(from: State, s: State, a: Action)
    requires Reachable(from, s) && Enabled(s, a)
    ensures Reachable(from, Apply(s, a))
  {
    assert Next(s, Apply(s, a));
    ReachesStep(from, s, Apply(s, a), Next);
  }

  /** The queue and what has finished are as they were. */
  ghost predicate SameWork(s: State, s': State) {
    s'.queue == s.queue && s'.canceled == s.canceled && s'.finished == s.finished
  }

  lemma EntersLoop(s: State, t: Tid) returns (s': State)
    requires Inv(s) && Enabled(s, Call(t)) && s.holder == None
    ensures Reachable(s, s') && SameWork(s, s') && t in s'.pc && s'.pc[t] == AtTest
  {
    ReachesSelf(s, Next);
    Take(s, s, Call(t));
    s' := Apply(s, Call(t));
    Take(s, s', Lock(t));
    s' := Apply(s', Lock(t));
  }

  lemma LeavesLoop(from: State, s: State, t: Tid) returns (s': State)
    requires Reachable(from, s) && t in s.pc && s.pc[t] == AtTest && s.queue == []
    ensures Reachable(from, s') && SameWork(s, s') && t in s'.pc && s'.pc[t] == Returned
  {
    Take(from, s, Test(t));
    s' := Apply(s, Test(t));
  }

  lemma ThrowsOut(from: State, s: State, t: Tid) returns (s': State)
    requires Reachable(from, s) && t in s.pc && s.pc[t] == AtTest && s.queue != [] && s.canceled
    ensures Reachable(from, s') && SameWork(s, s') && t in s'.pc && s'.pc[t] == Threw
  {
    Take(from, s, Test(t));
    s' := Apply(s, Test(t));
    Take(from, s', Pop(t));
    s' := Apply(s', Pop(t));
  }

  lemma ExecutesOne(from: State, s: State, t: Tid) returns (s': State)
    requires Reachable(from, s) && t in s.pc && s.pc[t] == AtTest && s.queue != [] && !s.canceled
    ensures Reachable(from, s') && t in s'.pc && s'.pc[t] == AtTest && !s'.canceled
    ensures s'.queue == s.queue[1..] && s'.finished == s.finished + [s.queue[0]]
  {
    Take(from, s, Test(t));
    s' := Apply(s, Test(t));
    Take(from, s', Pop(t));
    s' := Apply(s', Pop(t));
    Take(from, s', Done(t));
    s' := Apply(s', Done(t));
  }

  /** The manager's fields; `s` is where they stand in the step system. */
  class RequestManager {
    var requestQueue: seq<Req>
    var canceled: bool
    var executed: seq<Req>
    ghost var s: State

    ghost predicate Valid()
      reads this
    {
      Inv(s) && Tied()
    }

    /** The fields are where `s` says they are. */
    ghost predicate Tied()
      reads this
    {
      requestQueue == s.queue && canceled == s.canceled && executed == s.finished
    }

    constructor (ghost s: State)
      requires Init(s)
      ensures Valid() && this.s == s
    {
      requestQueue, executed, canceled := [], [], false;
      this.s := s;
    }

    /** Thread `t` pushes. */
    method PushRequest(r: Req, ghost t: Tid) returns (threw: bool)
      requires Valid() && Enabled(s, Push(t, r))
      modifies this
      ensures Valid() && s == Apply(old(s), Push(t, r)) && executed == old(executed)
      ensures threw == canceled && (threw <==> requestQueue == old(requestQueue))
      ensures !threw ==> r in s.mine[t]
    {
      StepInv(s, Push(t, r));
      s := Apply(s, Push(t, r));
      threw := canceled;
      if !threw {
        requestQueue := requestQueue + [r];
      }
    }

    /** Thread `t` is at the head of the loop, come from the state `from`. */
    ghost predicate InLoop(t: Tid, from: State)
      reads this
    {
      Tied() && Reachable(from, s) && t in s.pc && s.pc[t] == AtTest
    }

    /** One turn of the loop: the first request comes off the queue and is executed. */
    method ExecuteOne(ghost t: Tid, ghost from: State)
      requires InLoop(t, from) && !canceled && requestQueue != []
      modifies this
      ensures InLoop(t, from) && !canceled
      ensures executed == old(executed) + [old(requestQueue)[0]] && requestQueue == old(requestQueue)[1..]
    {
      s := ExecutesOne(from, s, t);
      var request := requestQueue[0];
      requestQueue := requestQueue[1..];
      executed := executed + [request];
    }

    /** The loop: drains the queue in order, or throws out of its first pop if it is cancelled. */
    method DrainLoop(ghost t: Tid, ghost from: State) returns (threw: bool)
      requires InLoop(t, from)
      modifies this
      ensures Tied() && Reachable(from, s) && t in s.pc && s.pc[t] == if threw then Threw else Returned
      ensures canceled == old(canceled) && (threw <==> canceled && old(requestQueue) != [])
      ensures threw ==> requestQueue == old(requestQueue) && executed == old(executed)
      ensures !threw ==> requestQueue == [] && executed == old(executed) + old(requestQueue)
    {
      while 0 < |requestQueue|
        invariant InLoop(t, from) && canceled == old(canceled)
        invariant executed + requestQueue == old(executed) + old(requestQueue)
        invariant canceled ==> requestQueue == old(requestQueue) && executed == old(executed)
        decreases |requestQueue|
      {
        if canceled {
          s := ThrowsOut(from, s, t);
          return true;
        }
        Regroup(executed, [requestQueue[0]], requestQueue[1..]);
        ExecuteOne(t, from);
      }
      s := LeavesLoop(from, s, t);
      threw := false;
    }

    /** Thread `t` takes the mutex and runs the loop. The whole call is a path of the step system that
        ends with `t` back from it. */
    method ProcessRequests(ghost t: Tid) returns (threw: bool)
      requires Valid() && Enabled(s, Call(t)) && s.holder == None
      modifies this
      ensures Valid() && Reaches(old(s), s, Next) && t in s.pc && s.pc[t] == if threw then Threw else Returned
      ensures threw <==> canceled && old(requestQueue) != []
      ensures threw ==> requestQueue == old(requestQueue) && executed == old(executed)
      ensures !threw ==> requestQueue == [] && executed == old(executed) + old(requestQueue)
    {
      ghost var from := s;
      s := EntersLoop(from, t);
      threw := DrainLoop(t, from);
      ReachableInv(from, s);
    }
  }
}
