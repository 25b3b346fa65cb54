/** What a line does to the shell, from its bytes to the state of queue and threads. */
module ShellLines {
  import opened Runs
  import opened ShellQueue
  import LineDiscipline

  /** Only leaving, closing and the destructor set self_destruct; nothing ever clears it. */
  lemma SelfDestructOnlyBy(s: State, a: Action)
    requires Enabled(s, a)
    ensures s.selfDestruct ==> Apply(s, a).selfDestruct
    ensures Apply(s, a).selfDestruct && !s.selfDestruct ==> a.Close? || a.RunDtor? || (a.Line? && a.outcome.Leave?)
  {
    if a.EvalStep? {
      EvalKeepsSelf(s);
    }
  }

  lemma EvalKeepsSelf(s: State)
    requires EvalEnabled(s)
    ensures EvalNext(s).selfDestruct == s.selfDestruct && EvalNext(s).sock == s.sock
  {
    if InMainLoop(s.eval) {
      MainKeepsSelf(s);
    } else {
      DrainKeepsSelf(s);
    }
  }

  lemma MainKeepsSelf(s: State)
    requires InMainLoop(s.eval) && EvalEnabled(s)
    ensures MainNext(s).selfDestruct == s.selfDestruct && MainNext(s).sock == s.sock
  {
  }

  lemma DrainKeepsSelf(s: State)
    requires !InMainLoop(s.eval) && EvalEnabled(s)
    ensures DrainNext(s).selfDestruct == s.selfDestruct && DrainNext(s).sock == s.sock
  {
  }

  lemma Then(s: State, a: Action, rest: seq<State>) returns (path: seq<State>)
    requires Enabled(s, a) && IsPath(rest, Next) && rest[0] == Apply(s, a)
    ensures IsPath(path, Next) && path[0] == s && path[|path| - 1] == rest[|rest| - 1] && |path| == |rest| + 1
  {
    assert Next(s, Apply(s, a));
    path := Prepend(s, rest, Next);
  }

  /** An interrupt, left to itself: the queue is emptied, the evaluation is signalled to be over, and
      the shell goes on serving. */
  lemma {:induction false} InterruptFlushes(s: State) returns (path: seq<State>)
    requires s.sock == Flushing
    ensures IsPath(path, Next) && path[0] == s && |path| == 3 + |s.queue|
    ensures path[|path| - 1] == s.(queue := [], evalDone := true, sock := Ready)
    decreases |s.queue|
  {
    if s.queue == [] {
      var s1 := s.(sock := Signalling);
      var s2 := s1.(evalDone := true, sock := Ready);
      path := Then(s1, Signal, [s2]);
      path := Then(s, FlushEnd, path);
    } else {
      path := InterruptFlushes(s.(queue := s.queue[1..]));
      path := Then(s, FlushOne, path);
    }
  }

  /** In every run, an interrupt signals only when it has found the queue empty, and it comes back to
      a shell that serves. */
  lemma SignalAfterFlush(s: State, a: Action)
    requires Enabled(s, a)
    ensures s.sock == Flushing && Apply(s, a).sock != Flushing ==>
              a == FlushEnd && s.queue == [] && Apply(s, a) == s.(sock := Signalling)
    ensures s.sock == Signalling && Apply(s, a).sock != Signalling ==>
              a == Signal && Apply(s, a) == s.(evalDone := true, sock := Ready)
  {
    if a.EvalStep? {
      EvalKeepsSelf(s);
    }
  }

  /** A line that the discipline takes for an interrupt: a telnet IP, AO or SUSP, or SYN, CAN or ESC at
      the end of a plain line. */
  ghost predicate Interrupts(expr: string, text: string) {
    || (LineDiscipline.NoCommand(expr) && expr != "" && expr[|expr| - 1] in ['\U{16}', '\U{18}', '\U{1b}'])
    || (LineDiscipline.FirstCommandAt(expr, text) && expr[|text| + 1] in ['\U{f4}', '\U{f5}', '\U{ed}'])
  }

  /** From the bytes to the effect: such a line empties the queue and does not end the shell. */
  lemma InterruptLine(s: State, expr: string, text: string, inputPending: bool) returns (path: seq<State>)
    requires s.discipline && s.sock == Ready && Interrupts(expr, text)
    ensures IsPath(path, Next) && path[0] == s
    ensures path[|path| - 1] == s.(queue := [], evalDone := true, interrupted := true)
  {
    if LineDiscipline.NoCommand(expr) {
      LineDiscipline.PlainLine(expr, inputPending);
    } else {
      LineDiscipline.CommandTable(expr, text, inputPending);
    }
    var a := Line(expr, inputPending, LineDiscipline.Interrupt);
    var rest := InterruptFlushes(Apply(s, a));
    path := Then(s, a, rest);
  }

  /** A line that asks to leave: EOT at its end or a lone period, with no input pending, or a telnet
      EOF. */
  ghost predicate Leaves(expr: string, text: string, inputPending: bool) {
    || (LineDiscipline.NoCommand(expr) && !inputPending && expr != "" && (expr[|expr| - 1] == '\U{04}' || expr == "."))
    || (LineDiscipline.FirstCommandAt(expr, text) && expr[|text| + 1] == '\U{ec}')
  }

  /** Such a line sets self_destruct, cancels the queue without losing a line of it, and goes on into
      the destructor. */
  lemma LeaveLine(s: State, expr: string, text: string, inputPending: bool) returns (path: seq<State>)
    requires s.discipline && s.sock == Ready && Leaves(expr, text, inputPending)
    ensures IsPath(path, Next) && path[0] == s && |path| == 5
    ensures path[1] == s.(selfDestruct := true, sock := Leaving)
    ensures path[2] == s.(selfDestruct := true, canceled := true, sock := Doomed)
    ensures path[4] == s.(selfDestruct := true, canceled := true, sock := Joining)
  {
    if LineDiscipline.NoCommand(expr) {
      LineDiscipline.PlainLine(expr, inputPending);
    } else {
      LineDiscipline.CommandTable(expr, text, inputPending);
    }
    var a := Line(expr, inputPending, LineDiscipline.Leave);
    var s1 := Apply(s, a);
    var s2 := Apply(s1, DoCancel);
    var s3 := Apply(s2, RunDtor);
    var s4 := Apply(s3, Wake);
    assert Next(s, s1) && Next(s1, s2) && Next(s2, s3) && Next(s3, s4);
    path := [s, s1, s2, s3, s4];
  }

  /** A socket that closes: the destructor wakes the eval thread with an empty line behind the rest. */
  lemma CloseWakes(s: State) returns (path: seq<State>)
    requires s.sock == Ready && !s.canceled
    ensures IsPath(path, Next) && path[0] == s && |path| == 3
    ensures path[2] == s.(selfDestruct := true, queue := s.queue + [""], sock := Joining)
  {
    var s1 := Apply(s, Close);
    var s2 := Apply(s1, Wake);
    assert Next(s, s1) && Next(s1, s2);
    path := [s, s1, s2];
  }

  /** A line that is queued goes behind the rest, and one that is ignored changes nothing. */
  lemma QueuedOrIgnored(s: State, expr: string, inputPending: bool, o: LineDiscipline.Outcome)
    requires Enabled(s, Line(expr, inputPending, o)) && !s.canceled
    ensures o.Enqueue? ==> Apply(s, Line(expr, inputPending, o)) == s.(queue := s.queue + [o.work], enqueued := s.enqueued + [o.work])
    ensures o.Ignore? ==> Apply(s, Line(expr, inputPending, o)) == s
    ensures !s.discipline ==> o == LineDiscipline.Enqueue(expr)
  {
  }
}
