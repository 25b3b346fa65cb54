/** The shell's work queue and its three threads: the socket thread that queues lines, interrupts and
    destroys the shell; the eval thread; and the poll thread that notices when an evaluation is over. */
module ShellQueue {
  import opened Basics
  import opened Runs
  import LineDiscipline

  /** The socket thread. */
  datatype SockPC =
    | Ready
    | Flushing                  // user_interrupt: emptying the queue
    | Signalling                // user_interrupt: about to call finish_eval
    | Leaving                   // self_destruct is set, the queue not yet cancelled
    | Doomed                    // cancelled; the destructor comes next
    | Waking                    // in the destructor, about to push the empty wake-up line
    | Joining                   // waiting for the eval thread

  /** The eval thread: the main loop, then the drain loop. `Aborted` is a failed assertion. */
  datatype EvalPC =
    | Top | Popping | Starting(line: string) | Evaluating(line: string) | LoopTest
    | Breaking | JoinPoll
    | DrainTest | DrainPoll | DrainPop | DrainStarting(line: string) | DrainEvaluating(line: string)
    | LastPoll | Exited | Aborted

  /** The poll thread: its loop, and its tail after self_destruct. In `Saw` and `TailSaw` it has seen
      an empty result with `_eval_done` false and is about to call finish_eval. */
  datatype PollPC = Polling | Saw | Tail | TailSaw | Gone

  /** `enqueued` is every line the socket thread asked to queue, `evaluated` every line evaluated. */
  datatype State = State(discipline: bool, queue: seq<string>, canceled: bool, selfDestruct: bool, evalDone: bool,
                         sock: SockPC, eval: EvalPC, poll: PollPC,
                         enqueued: seq<string>, evaluated: seq<string>, interrupted: bool)

  datatype Action =
    | Line(expr: string, inputPending: bool, outcome: LineDiscipline.Outcome)
    | FlushOne | FlushEnd | Signal
    | DoCancel | RunDtor | Close | Wake
    | EvalStep
    | DrainSets                 // the eval thread polls for itself once the poll thread is gone
    | PollSees | PollSets | PollQuits | PollExits

  function Push(s: State, line: string): State {
    s.(queue := if s.canceled then s.queue else s.queue + [line])
  }

  function Enqueue(s: State, line: string): State {
    Push(s, line).(enqueued := s.enqueued + [line])
  }

  /** What `eval` makes of a line: the line discipline, or the raw line when that is off. */
  function OutcomeOf(discipline: bool, expr: string, inputPending: bool): LineDiscipline.Outcome {
    if discipline then LineDiscipline.Discipline(expr, inputPending) else LineDiscipline.Enqueue(expr)
  }

  function Absorb(s: State, o: LineDiscipline.Outcome): State {
    match o
    case Enqueue(work) => Enqueue(s, work)
    case Interrupt => s.(sock := Flushing, interrupted := true)
    case Leave => s.(selfDestruct := true, sock := Leaving)
    case Ignore => s
  }

  predicate InMainLoop(pc: EvalPC) {
    pc.Top? || pc.Popping? || pc.Starting? || pc.Evaluating? || pc.LoopTest?
  }

  /** When the eval thread can move: it waits for the flag, for the queue and for the poll thread. */
  predicate EvalEnabled(s: State) {
    match s.eval
    case Top => s.evalDone
    case Popping => s.canceled || s.queue != []
    case JoinPoll => s.poll == Gone
    case DrainPoll => s.evalDone
    case DrainPop => s.canceled || s.queue != []
    case LastPoll => s.evalDone
    case Exited => false
    case Aborted => false
    case _ => true
  }

  /** The main loop. */
  function MainNext(s: State): State
    requires InMainLoop(s.eval) && EvalEnabled(s)
  {
    match s.eval
    case Top => s.(eval := Popping)
    case Popping =>
      if s.canceled then s.(eval := Breaking)
      else s.(queue := s.queue[1..], eval := if s.queue[0] == "" then LoopTest else Starting(s.queue[0]))
    case Starting(line) =>
      if s.evalDone then s.(evalDone := false, eval := Evaluating(line)) else s.(eval := Aborted)
    case Evaluating(line) => s.(evaluated := s.evaluated + [line], eval := LoopTest)
    case LoopTest => s.(eval := if s.selfDestruct then Breaking else Top)
  }

  /** After the main loop: reset the queue, join the poll thread, drain. */
  function DrainNext(s: State): State
    requires !InMainLoop(s.eval) && EvalEnabled(s)
  {
    match s.eval
    case Breaking => s.(canceled := false, eval := JoinPoll)
    case JoinPoll => s.(eval := DrainTest)
    case DrainTest => s.(eval := if 0 < |s.queue| then DrainPoll else LastPoll)
    case DrainPoll => s.(eval := DrainPop)
    case DrainPop =>
      if s.canceled then s.(canceled := false, eval := DrainTest)
      else s.(queue := s.queue[1..], eval := if s.queue[0] == "" then DrainTest else DrainStarting(s.queue[0]))
    case DrainStarting(line) =>
      if s.evalDone then s.(evalDone := false, eval := DrainEvaluating(line)) else s.(eval := Aborted)
    case DrainEvaluating(line) => s.(evaluated := s.evaluated + [line], eval := DrainTest)
    case LastPoll => s.(eval := Exited)
  }

  function EvalNext(s: State): State
    requires EvalEnabled(s)
  {
    if InMainLoop(s.eval) then MainNext(s) else DrainNext(s)
  }

  predicate Enabled(s: State, a: Action) {
    match a
    case Line(expr, inputPending, o) => s.sock == Ready && o == OutcomeOf(s.discipline, expr, inputPending)
    case FlushOne => s.sock == Flushing && s.queue != []
    case FlushEnd => s.sock == Flushing && s.queue == []
    case Signal => s.sock == Signalling
    case DoCancel => s.sock == Leaving
    case RunDtor => s.sock == Doomed
    case Close => s.sock == Ready
    case Wake => s.sock == Waking
    case EvalStep => EvalEnabled(s)
    case DrainSets => (s.eval.DrainPoll? || s.eval.LastPoll?) && !s.evalDone
    case PollSees => (s.poll.Polling? || s.poll.Tail?) && !s.evalDone
    case PollSets => s.poll.Saw? || s.poll.TailSaw?
    case PollQuits => s.poll == Polling && s.selfDestruct
    case PollExits => s.poll == Tail && s.evalDone
  }

  function Apply(s: State, a: Action): State
    requires Enabled(s, a)
  {
    match a
    case Line(_, _, o) => Absorb(s, o)
    case FlushOne => s.(queue := s.queue[1..])
    case FlushEnd => s.(sock := Signalling)
    case Signal => s.(evalDone := true, sock := Ready)
    case DoCancel => s.(canceled := true, sock := Doomed)
    case RunDtor => s.(selfDestruct := true, sock := Waking)
    case Close => s.(selfDestruct := true, sock := Waking)
    case Wake => Push(s, "").(sock := Joining)
    case EvalStep => EvalNext(s)
    case DrainSets => s.(evalDone := true)
    case PollSees => s.(poll := if s.poll == Polling then Saw else TailSaw)
    case PollSets => s.(evalDone := true, poll := if s.poll == Saw then Polling else Tail)
    case PollQuits => s.(poll := Tail)
    case PollExits => s.(poll := Gone)
  }

  ghost predicate Init(s: State) {
    && s.queue == [] && !s.canceled && !s.selfDestruct && s.evalDone
    && s.sock == Ready && s.eval == Top && s.poll == Polling
    && s.enqueued == [] && s.evaluated == [] && !s.interrupted
  }

  ghost predicate Next(s: State, s': State) {
    exists a :: Enabled(s, a) && s' == Apply(s, a)
  }

  // ----- The handshake -----

  /** Between its wait and the start of an evaluation only the eval thread could clear the flag. */
  predicate MayBegin(pc: EvalPC) {
    pc.Popping? || pc.Starting? || pc.DrainPop? || pc.DrainStarting?
  }

  ghost predicate HandshakeInv(s: State) {
    (MayBegin(s.eval) ==> s.evalDone) && !s.eval.Aborted?
  }

  // ----- Nothing is lost, nothing is evaluated twice -----

  /** The lines of a queue that are work: all but the empty wake-up line. */
  ghost function Work(q: seq<string>): seq<string> {
    if q == [] then [] else (if q[0] == "" then [] else [q[0]]) + Work(q[1..])
  }

  lemma {:induction false} WorkAppend(q: seq<string>, line: string)
    ensures Work(q + [line]) == Work(q) + if line == "" then [] else [line]
  {
    if q == [] {
      assert q + [line] == [line];
    } else {
      WorkAppend(q[1..], line);
      assert (q + [line])[1..] == q[1..] + [line];
    }
  }

  lemma {:induction false} WorkOfLines(q: seq<string>)
    requires "" !in q
    ensures Work(q) == q
  {
    if q != [] {
      WorkOfLines(q[1..]);
      assert q == [q[0]] + q[1..];
    }
  }

  /** A line popped and not yet evaluated. */
  ghost function InHand(pc: EvalPC): seq<string> {
    if pc.Starting? || pc.Evaluating? || pc.DrainStarting? || pc.DrainEvaluating? then [pc.line] else []
  }

  predicate Serving(pc: SockPC) {
    pc.Ready? || pc.Flushing? || pc.Signalling?
  }

  predicate InDrain(pc: EvalPC) {
    || pc.DrainTest? || pc.DrainPoll? || pc.DrainPop? || pc.DrainStarting? || pc.DrainEvaluating?
    || pc.LastPoll? || pc.Exited?
  }

  /** Who may be where. */
  ghost predicate PhaseInv(s: State) {
    && (Serving(s.sock) <==> !s.selfDestruct)
    && (s.sock.Flushing? || s.sock.Signalling? ==> s.interrupted)
    && (s.canceled ==> s.selfDestruct)
    && (!InMainLoop(s.eval) ==> s.selfDestruct)
    && (s.poll.Tail? || s.poll.TailSaw? || s.poll.Gone? ==> s.selfDestruct)
    && (InDrain(s.eval) ==> s.poll.Gone?)
    && (s.eval.DrainPoll? || s.eval.DrainPop? ==> s.queue != [])
    && (s.eval.Top? && s.poll.Gone? ==> s.evalDone)
    && (s.sock.Joining? && (s.eval.Top? || s.eval.Popping?) ==> s.queue != [] || s.canceled)
  }

  /** The work evaluated, the line in hand and the work still queued, in order. */
  ghost function Flow(s: State): seq<string> {
    s.evaluated + InHand(s.eval) + Work(s.queue)
  }

  ghost predicate LedgerInv(s: State) {
    && (!s.interrupted ==> Work(s.enqueued) == Flow(s))
    && (s.eval.LastPoll? || s.eval.Exited? ==> Work(s.queue) == [])
    && (s.discipline ==> "" !in s.enqueued)
  }

  ghost predicate Inv(s: State) {
    HandshakeInv(s) && PhaseInv(s) && LedgerInv(s)
  }

  lemma MainPhaseKept(s: State)
    requires HandshakeInv(s) && PhaseInv(s) && InMainLoop(s.eval) && EvalEnabled(s)
    ensures HandshakeInv(MainNext(s)) && PhaseInv(MainNext(s))
  {
  }

  lemma DrainPopPhase(s: State)
    requires HandshakeInv(s) && PhaseInv(s) && s.eval.DrainPop? && EvalEnabled(s)
    ensures HandshakeInv(DrainNext(s)) && PhaseInv(DrainNext(s))
  {
  }

  lemma DrainEvalPhase(s: State)
    requires HandshakeInv(s) && PhaseInv(s) && (s.eval.DrainStarting? || s.eval.DrainEvaluating?)
    ensures HandshakeInv(DrainNext(s)) && PhaseInv(DrainNext(s))
  {
  }

  lemma DrainWaitPhase(s: State)
    requires HandshakeInv(s) && PhaseInv(s) && (s.eval.DrainTest? || s.eval.DrainPoll? || s.eval.LastPoll?) && EvalEnabled(s)
    ensures HandshakeInv(DrainNext(s)) && PhaseInv(DrainNext(s))
  {
  }

  lemma DrainPhaseKept(s: State)
    requires HandshakeInv(s) && PhaseInv(s) && !InMainLoop(s.eval) && EvalEnabled(s)
    ensures HandshakeInv(DrainNext(s)) && PhaseInv(DrainNext(s))
  {
    if s.eval.DrainPop? {
      DrainPopPhase(s);
    } else if s.eval.DrainStarting? || s.eval.DrainEvaluating? {
      DrainEvalPhase(s);
    } else if s.eval.DrainTest? || s.eval.DrainPoll? || s.eval.LastPoll? {
      DrainWaitPhase(s);
    }
  }

  lemma LinePhaseKept(s: State, o: LineDiscipline.Outcome)
    requires HandshakeInv(s) && PhaseInv(s) && s.sock == Ready
    ensures HandshakeInv(Absorb(s, o)) && PhaseInv(Absorb(s, o))
  {
  }

  lemma PhaseKept(s: State, a: Action)
    requires HandshakeInv(s) && PhaseInv(s) && Enabled(s, a)
    ensures HandshakeInv(Apply(s, a)) && PhaseInv(Apply(s, a))
  {
    match a
    case Line(_, _, o) => LinePhaseKept(s, o);
    case EvalStep =>
      if InMainLoop(s.eval) {
        MainPhaseKept(s);
      } else {
        DrainPhaseKept(s);
      }
    case _ =>
  }

  /** A pop moves the head of the queue into hand, unless it is the wake-up line. */
  lemma PopFlow(s: State, s': State)
    requires InHand(s.eval) == [] && s.queue != []
    requires s' == s.(queue := s.queue[1..], eval := s'.eval)
    requires InHand(s'.eval) == if s.queue[0] == "" then [] else [s.queue[0]]
    ensures Flow(s') == Flow(s)
  {
    assert Work(s.queue) == InHand(s'.eval) + Work(s'.queue);
  }

  /** The end of an evaluation moves the line from in hand to evaluated. */
  lemma EvaluatedFlow(s: State, s': State)
    requires s.eval.Evaluating? || s.eval.DrainEvaluating?
    requires s' == s.(evaluated := s.evaluated + [s.eval.line], eval := s'.eval) && InHand(s'.eval) == []
    ensures Flow(s') == Flow(s)
  {
  }

  lemma MainFlow(s: State)
    requires HandshakeInv(s) && InMainLoop(s.eval) && EvalEnabled(s)
    ensures Flow(MainNext(s)) == Flow(s)
  {
    if s.eval.Popping? && !s.canceled {
      PopFlow(s, MainNext(s));
    } else if s.eval.Evaluating? {
      EvaluatedFlow(s, MainNext(s));
    }
  }

  lemma DrainPopFlow(s: State)
    requires s.eval.DrainPop? && EvalEnabled(s)
    ensures Flow(DrainNext(s)) == Flow(s)
  {
    if !s.canceled {
      PopFlow(s, DrainNext(s));
    }
  }

  lemma DrainOtherFlow(s: State)
    requires HandshakeInv(s) && !InMainLoop(s.eval) && EvalEnabled(s)
    requires !s.eval.DrainPop? && !s.eval.DrainEvaluating?
    ensures Flow(DrainNext(s)) == Flow(s)
  {
    var s' := DrainNext(s);
    assert s'.queue == s.queue && s'.evaluated == s.evaluated && InHand(s'.eval) == InHand(s.eval);
  }

  lemma DrainFlow(s: State)
    requires HandshakeInv(s) && !InMainLoop(s.eval) && EvalEnabled(s)
    ensures Flow(DrainNext(s)) == Flow(s)
  {
    if s.eval.DrainPop? {
      DrainPopFlow(s);
    } else if s.eval.DrainEvaluating? {
      EvaluatedFlow(s, DrainNext(s));
    } else {
      DrainOtherFlow(s);
    }
  }

  /** Every step but a new line and an interrupt's flush moves work along without adding or dropping
      any. */
  lemma FlowKept(s: State, a: Action)
    requires HandshakeInv(s) && Enabled(s, a) && !a.Line? && !a.FlushOne?
    ensures Flow(Apply(s, a)) == Flow(s)
  {
    match a
    case Wake => WorkAppend(s.queue, "");
    case EvalStep =>
      if InMainLoop(s.eval) {
        MainFlow(s);
      } else {
        DrainFlow(s);
      }
    case _ =>
  }

  lemma EnqueueFlow(s: State, work: string)
    requires !s.canceled
    ensures var s' := Enqueue(s, work);
            var more := if work == "" then [] else [work];
            Flow(s') == Flow(s) + more && Work(s'.enqueued) == Work(s.enqueued) + more
  {
    WorkAppend(s.queue, work);
    WorkAppend(s.enqueued, work);
  }

  /** What no step but a new line changes. */
  ghost predicate Frame(s: State, s': State) {
    s'.enqueued == s.enqueued && s'.discipline == s.discipline && s'.interrupted == s.interrupted
  }

  lemma MainFrame(s: State)
    requires InMainLoop(s.eval) && EvalEnabled(s)
    ensures Frame(s, MainNext(s)) && !MainNext(s).eval.LastPoll? && !MainNext(s).eval.Exited?
  {
  }

  lemma DrainFrame(s: State)
    requires !InMainLoop(s.eval) && EvalEnabled(s)
    ensures Frame(s, DrainNext(s))
  {
  }

  lemma DrainEnd(s: State)
    requires EvalEnabled(s) && (s.eval.DrainTest? || s.eval.LastPoll?)
    ensures DrainNext(s).queue == s.queue && (s.eval.DrainTest? && DrainNext(s).eval.LastPoll? ==> s.queue == [])
    ensures DrainNext(s).eval.Exited? ==> s.eval.LastPoll?
  {
  }

  lemma DrainGoesOn(s: State)
    requires !InMainLoop(s.eval) && EvalEnabled(s) && !s.eval.DrainTest? && !s.eval.LastPoll?
    ensures !DrainNext(s).eval.LastPoll? && !DrainNext(s).eval.Exited?
  {
  }

  lemma FrameKept(s: State, a: Action)
    requires Enabled(s, a) && !a.Line?
    ensures Frame(s, Apply(s, a))
  {
    if a.EvalStep? {
      if InMainLoop(s.eval) {
        MainFrame(s);
      } else {
        DrainFrame(s);
      }
    }
  }

  /** At the end the queue holds no more work. */
  lemma EndKept(s: State, a: Action)
    requires LedgerInv(s) && Enabled(s, a) && !a.Line?
    ensures var s' := Apply(s, a);
            s'.eval.LastPoll? || s'.eval.Exited? ==> Work(s'.queue) == []
  {
    if a.EvalStep? {
      if InMainLoop(s.eval) {
        MainFrame(s);
      } else if s.eval.DrainTest? || s.eval.LastPoll? {
        DrainEnd(s);
      } else {
        DrainGoesOn(s);
      }
    } else if a.Wake? {
      WorkAppend(s.queue, "");
    }
  }

  lemma LineLedgerKept(s: State, o: LineDiscipline.Outcome)
    requires Inv(s) && s.sock == Ready && (s.discipline && o.Enqueue? ==> o.work != "")
    ensures LedgerInv(Absorb(s, o))
  {
    if o.Enqueue? {
      EnqueueFlow(s, o.work);
    } else {
      assert Flow(Absorb(s, o)) == Flow(s);
    }
  }

  lemma LedgerKept(s: State, a: Action)
    requires Inv(s) && Enabled(s, a)
    ensures LedgerInv(Apply(s, a))
  {
    if a.Line? {
      if s.discipline && a.outcome.Enqueue? {
        LineDiscipline.NeverTheSentinel(a.expr, a.inputPending);
      }
      LineLedgerKept(s, a.outcome);
    } else {
      FrameKept(s, a);
      EndKept(s, a);
      if !a.FlushOne? {
        FlowKept(s, a);
      }
    }
  }

  lemma StepInv(s: State, a: Action)
    requires Inv(s) && Enabled(s, a)
    ensures Inv(Apply(s, a))
  {
    PhaseKept(s, a);
    LedgerKept(s, a);
  }

  lemma RunInv(run: seq<State>, i: nat)
    requires IsRun(run, Init, Next) && i < |run|
    ensures Inv(run[i])
  {
    forall s, s' | Inv(s) && Next(s, s') ensures Inv(s') {
      var a :| Enabled(s, a) && s' == Apply(s, a);
      StepInv(s, a);
    }
    InvariantHolds(run, Init, Next, Inv, i);
  }

  /** In every interleaving, interrupts included, the assertion in `start_eval` never fails, and
      whenever a line has been taken for evaluation, in either loop, `_eval_done` is true. */
  lemma Handshake(run: seq<State>, i: nat)
    requires IsRun(run, Init, Next) && i < |run|
    ensures run[i].eval != Aborted
    ensures run[i].eval.Starting? || run[i].eval.DrainStarting? ==> run[i].evalDone
  {
    RunInv(run, i);
  }

  /** The eval thread by itself: it starts a line, hands it to the evaluator, and then waits at the head
      of its loop, or polls in the drain loop, until someone has found the evaluation over. */
  lemma WaitsForTheEnd(s: State)
    requires s.evalDone && (s.eval.Starting? || s.eval.DrainStarting?) && (s.eval.Starting? ==> !s.selfDestruct)
    ensures var s1 := EvalNext(s);
            && EvalEnabled(s1) && s1.evaluated == s.evaluated
            && var s2 := EvalNext(s1);
            && EvalEnabled(s2) && s2.evaluated == s.evaluated + [s.eval.line]
            && var s3 := EvalNext(s2);
            && (s.eval.Starting? ==> s3.eval == Top && !EvalEnabled(s3))
            && (s.eval.DrainStarting? && s.queue != [] ==> s3.eval == DrainPoll && !EvalEnabled(s3))
            && (s.eval.DrainStarting? && s.queue == [] ==> s3.eval == LastPoll && !EvalEnabled(s3))
  {
  }

  /** On its way out of the main loop the eval thread undoes a cancellation: what is pushed from then on
      is queued again. */
  lemma QueueOpensAgain(s: State, line: string)
    requires s.eval.Breaking?
    ensures EvalNext(s).eval == JoinPoll && Push(EvalNext(s), line).queue == s.queue + [line]
  {
  }

  // ----- With interrupts -----

  /** `a` is what is left of `b` when some elements are dropped. */
  ghost predicate Subsequence(a: seq<string>, b: seq<string>) {
    if a == [] then true
    else if b == [] then false
    else (a[0] == b[0] && Subsequence(a[1..], b[1..])) || Subsequence(a, b[1..])
  }

  lemma {:induction false} SubsequenceSelf(a: seq<string>)
    ensures Subsequence(a, a)
  {
    if a != [] {
      SubsequenceSelf(a[1..]);
    }
  }

  lemma {:induction false} SubsequenceSnoc(a: seq<string>, b: seq<string>, x: string)
    requires Subsequence(a, b)
    ensures Subsequence(a + [x], b + [x])
  {
    if b == [] {
      assert a + [x] == [x] && b + [x] == [x];
      SubsequenceSelf([x]);
    } else {
      assert (b + [x])[1..] == b[1..] + [x];
      if a != [] && a[0] == b[0] && Subsequence(a[1..], b[1..]) {
        SubsequenceSnoc(a[1..], b[1..], x);
        assert (a + [x])[1..] == a[1..] + [x];
      } else {
        SubsequenceSnoc(a, b[1..], x);
      }
    }
  }

  lemma {:induction false} SubsequenceDrop(a: seq<string>, x: string, c: seq<string>, b: seq<string>)
    requires Subsequence(a + [x] + c, b)
    ensures Subsequence(a + c, b)
  {
    var whole := a + [x] + c;
    if whole[0] == b[0] && Subsequence(whole[1..], b[1..]) {
      if a == [] {
        assert whole[1..] == c && a + c == c;
        SubsequenceSkip(c, b);
      } else {
        assert whole[1..] == a[1..] + [x] + c && (a + c)[1..] == a[1..] + c;
        SubsequenceDrop(a[1..], x, c, b[1..]);
      }
    } else {
      SubsequenceDrop(a, x, c, b[1..]);
      SubsequenceSkip(a + c, b);
    }
  }

  lemma SubsequenceSkip(a: seq<string>, b: seq<string>)
    requires b != [] && Subsequence(a, b[1..])
    ensures Subsequence(a, b)
  {
  }

  /** A subsequence holds nothing more often than the whole does. */
  lemma {:induction false} SubsequenceCounts(a: seq<string>, b: seq<string>)
    requires Subsequence(a, b)
    ensures multiset(a) <= multiset(b)
  {
    if a != [] {
      assert b == [b[0]] + b[1..] && a == [a[0]] + a[1..];
      if a[0] == b[0] && Subsequence(a[1..], b[1..]) {
        SubsequenceCounts(a[1..], b[1..]);
      } else {
        SubsequenceCounts(a, b[1..]);
      }
    }
  }

  ghost predicate OrderInv(s: State) {
    Subsequence(Flow(s), Work(s.enqueued))
  }

  lemma FlushFlow(s: State) returns (front: seq<string>, rest: seq<string>)
    requires s.queue != []
    ensures Flow(s) == front + (if s.queue[0] == "" then [] else [s.queue[0]]) + rest
    ensures Flow(s.(queue := s.queue[1..])) == front + rest
  {
    front, rest := s.evaluated + InHand(s.eval), Work(s.queue[1..]);
  }

  /** An interrupt drops the head of the queue; what flows on is still in order. */
  lemma FlushOrder(s: State)
    requires OrderInv(s) && s.queue != []
    ensures OrderInv(s.(queue := s.queue[1..]))
  {
    var front, rest := FlushFlow(s);
    if s.queue[0] == "" {
      assert front + [] + rest == front + rest;
    } else {
      SubsequenceDrop(front, s.queue[0], rest, Work(s.enqueued));
    }
  }

  lemma EnqueueOrder(s: State, work: string)
    requires OrderInv(s) && !s.canceled
    ensures OrderInv(Enqueue(s, work))
  {
    EnqueueFlow(s, work);
    if work == "" {
      assert Flow(s) + [] == Flow(s) && Work(s.enqueued) + [] == Work(s.enqueued);
    } else {
      SubsequenceSnoc(Flow(s), Work(s.enqueued), work);
    }
  }

  lemma OrderKept(s: State, a: Action)
    requires Inv(s) && OrderInv(s) && Enabled(s, a)
    ensures OrderInv(Apply(s, a))
  {
    if a.Line? {
      if a.outcome.Enqueue? {
        EnqueueOrder(s, a.outcome.work);
      } else {
        assert Flow(Absorb(s, a.outcome)) == Flow(s);
      }
    } else if a.FlushOne? {
      FlushOrder(s);
    } else {
      FlowKept(s, a);
      FrameKept(s, a);
    }
  }

  lemma OrderRun(run: seq<State>, i: nat)
    requires IsRun(run, Init, Next) && i < |run|
    ensures OrderInv(run[i])
  {
    var inv := (s: State) => Inv(s) && OrderInv(s);
    forall s, s' | inv(s) && Next(s, s') ensures inv(s') {
      var a :| Enabled(s, a) && s' == Apply(s, a);
      StepInv(s, a);
      OrderKept(s, a);
    }
    InvariantHolds(run, Init, Next, inv, i);
  }

  lemma Prefix(a: seq<string>, b: seq<string>, c: seq<string>)
    requires multiset(a + b) <= multiset(c)
    ensures multiset(a) <= multiset(c)
  {
    assert multiset(a + b) == multiset(a) + multiset(b);
  }

  /** In every state of every run, interrupts or not, what has been evaluated, then the line in hand,
      then the work still in the queue are lines that were queued, in the order they were queued, and
      none is evaluated more often than it was queued. */
  lemma InOrderAtMostOnce(run: seq<State>, i: nat)
    requires IsRun(run, Init, Next) && i < |run|
    ensures Subsequence(run[i].evaluated + InHand(run[i].eval) + Work(run[i].queue), Work(run[i].enqueued))
    ensures multiset(run[i].evaluated) <= multiset(Work(run[i].enqueued))
  {
    var s := run[i];
    OrderRun(run, i);
    SubsequenceCounts(Flow(s), Work(s.enqueued));
    Regroup(s.evaluated, InHand(s.eval), Work(s.queue));
    Prefix(s.evaluated, InHand(s.eval) + Work(s.queue), Work(s.enqueued));
  }

  /** In every state of every run without an interrupt, nothing is missing from it either. When the
      eval loop has exited, by cancellation or by the destructor, every line has been evaluated exactly
      once in order; with the discipline on, that is every line there was. */
  lemma DrainIsComplete(run: seq<State>, i: nat)
    requires IsRun(run, Init, Next) && i < |run| && !run[i].interrupted
    ensures Work(run[i].enqueued) == run[i].evaluated + InHand(run[i].eval) + Work(run[i].queue)
    ensures run[i].eval == Exited ==> run[i].evaluated == Work(run[i].enqueued)
    ensures run[i].eval == Exited && run[i].discipline ==> run[i].evaluated == run[i].enqueued
  {
    RunInv(run, i);
    if run[i].discipline {
      WorkOfLines(run[i].enqueued);
    }
  }

  // ----- The drain loop as the eval thread runs it, alone -----

  lemma Take(from: State, s: State, a: Action)
    requires Reaches(from, s, Next) && Inv(s) && Enabled(s, a)
    ensures Reaches(from, Apply(s, a), Next) && Inv(Apply(s, a))
  {
    StepInv(s, a);
    assert Next(s, Apply(s, a));
    ReachesStep(from, s, Apply(s, a), Next);
  }

  /** Poll until the evaluation under way, if any, is over. */
  lemma Settles(from: State, s: State) returns (s': State)
    requires Reaches(from, s, Next) && Inv(s) && (s.eval.DrainPoll? || s.eval.LastPoll?)
    ensures Reaches(from, s', Next) && Inv(s') && s' == s.(evalDone := true)
  {
    s' := s;
    if !s.evalDone {
      Take(from, s, DrainSets);
      s' := Apply(s, DrainSets);
    }
  }

  /** From the head of the loop to the pop. */
  lemma ComesToPop(from: State, s: State) returns (s': State)
    requires Reaches(from, s, Next) && Inv(s) && s.eval.DrainTest? && s.queue != []
    ensures Reaches(from, s', Next) && Inv(s') && s' == s.(evalDone := true, eval := DrainPop)
  {
    Take(from, s, EvalStep);
    s' := Apply(s, EvalStep);
    s' := Settles(from, s');
    Take(from, s', EvalStep);
    s' := Apply(s', EvalStep);
  }

  lemma Pops(from: State, s: State) returns (s': State)
    requires Reaches(from, s, Next) && Inv(s) && s.eval.DrainPop?
    ensures Reaches(from, s', Next) && Inv(s')
    ensures s' == if s.canceled then s.(canceled := false, eval := DrainTest)
                  else s.(queue := s.queue[1..], eval := if s.queue[0] == "" then DrainTest else DrainStarting(s.queue[0]))
  {
    Take(from, s, EvalStep);
    s' := Apply(s, EvalStep);
  }

  lemma Evaluates(from: State, s: State) returns (s': State)
    requires Reaches(from, s, Next) && Inv(s) && s.eval.DrainStarting?
    ensures Reaches(from, s', Next) && Inv(s')
    ensures s' == s.(evalDone := false, evaluated := s.evaluated + [s.eval.line], eval := DrainTest)
  {
    Take(from, s, EvalStep);
    s' := Apply(s, EvalStep);
    Take(from, s', EvalStep);
    s' := Apply(s', EvalStep);
  }

  lemma Exits(from: State, s: State) returns (s': State)
    requires Reaches(from, s, Next) && Inv(s) && s.eval.DrainTest? && s.queue == []
    ensures Reaches(from, s', Next) && Inv(s') && s' == s.(evalDone := true, eval := Exited)
  {
    Take(from, s, EvalStep);
    s' := Apply(s, EvalStep);
    s' := Settles(from, s');
    Take(from, s', EvalStep);
    s' := Apply(s', EvalStep);
  }

  /** The fields that the eval thread works on; `s` is where they stand in the step system. */
  class Drainer {
    var evalque: seq<string>
    var canceled: bool
    var evalDone: bool
    var evaluated: seq<string>
    ghost var s: State

    /** At a point of the drain loop, come from the state `from`. */
    ghost predicate Valid(from: State)
      reads this
    {
      && Inv(s) && Reaches(from, s, Next)
      && evalque == s.queue && canceled == s.canceled && evalDone == s.evalDone && evaluated == s.evaluated
    }

    constructor (ghost s: State, evalque: seq<string>, canceled: bool, evalDone: bool, evaluated: seq<string>)
      requires Inv(s) && evalque == s.queue && canceled == s.canceled && evalDone == s.evalDone && evaluated == s.evaluated
      ensures Valid(s) && this.s == s
    {
      this.evalque, this.canceled, this.evalDone, this.evaluated := evalque, canceled, evalDone, evaluated;
      this.s := s;
      ReachesSelf(s, Next);
    }

    /** Start and evaluate one line. */
    method EvalLine(line: string, ghost from: State)
      requires Valid(from) && s.eval == DrainStarting(line)
      modifies this
      ensures Valid(from) && s.eval == DrainTest
      ensures evaluated == old(evaluated) + [line] && evalque == old(evalque) && canceled == old(canceled)
    {
      s := Evaluates(from, s);
      evalDone := false;
      evaluated := evaluated + [line];
    }

    /** Poll, then pop; a late cancellation is undone instead. */
    method PopLine(ghost from: State) returns (popped: bool, line: string)
      requires Valid(from) && s.eval == DrainTest && evalque != []
      modifies this
      ensures Valid(from) && !canceled && evaluated == old(evaluated) && popped == !old(canceled)
      ensures popped ==> line == old(evalque)[0] && evalque == old(evalque)[1..]
      ensures !popped ==> evalque == old(evalque)
      ensures s.eval == if popped && line != "" then DrainStarting(line) else DrainTest
    {
      s := ComesToPop(from, s);
      evalDone := true;
      s := Pops(from, s);
      line := "";
      popped := !canceled;
      if popped {
        line := evalque[0];
        evalque := evalque[1..];
      } else {
        canceled := false;
      }
    }

    /** One turn of the loop: a late cancellation is undone, a wake-up line skipped, any other line
        evaluated. */
    method DrainTurn(ghost from: State)
      requires Valid(from) && s.eval == DrainTest && evalque != []
      modifies this
      ensures Valid(from) && s.eval == DrainTest
      ensures evaluated + Work(evalque) == old(evaluated) + Work(old(evalque))
      ensures |evalque| < |old(evalque)| || (|evalque| == |old(evalque)| && old(canceled) && !canceled)
    {
      var popped, line := PopLine(from);
      if popped && line != "" {
        Regroup(evaluated, [line], Work(evalque));
        EvalLine(line, from);
      }
    }

    /** Evaluates what is left, in order and once each, skipping wake-up lines; a cancellation that
        arrives late costs nothing. The whole of it is a path of the step system to the eval thread's
        exit. */
    method DrainQueue()
      requires Valid(s) && s.eval == DrainTest
      modifies this
      ensures Valid(old(s)) && s.eval == Exited
      ensures evalque == [] && evaluated == old(evaluated) + Work(old(evalque))
    {
      ghost var from := s;
      while 0 < |evalque|
        invariant Valid(from) && s.eval == DrainTest
        invariant evaluated + Work(evalque) == old(evaluated) + Work(old(evalque))
        decreases |evalque|, canceled
      {
        DrainTurn(from);
      }
      s := Exits(from, s);
      evalDone := true;
    }
  }

  // ----- Shutdown always completes -----

  ghost function EvalRank(pc: EvalPC): nat {
    match pc
    case Top => 16
    case Popping => 15
    case Starting(_) => 14
    case Evaluating(_) => 10
    case LoopTest => 9
    case Breaking => 8
    case JoinPoll => 7
    case DrainTest => 6
    case DrainPoll => 5
    case DrainPop => 4
    case DrainStarting(_) => 11
    case DrainEvaluating(_) => 7
    case LastPoll => 1
    case Exited => 0
    case Aborted => 0
  }

  ghost function PollRank(pc: PollPC, evalDone: bool): nat {
    match pc
    case Polling => if evalDone then 6 else 8
    case Saw => 7
    case Tail => if evalDone then 3 else 5
    case TailSaw => 4
    case Gone => if evalDone then 0 else 1
  }

  ghost function SockRank(pc: SockPC): nat {
    match pc
    case Leaving => 16
    case Doomed => 12
    case Waking => 11
    case _ => 0
  }

  /** An upper bound on the steps left once the shell is being destroyed. */
  ghost function Remaining(s: State): nat {
    10 * |s.queue| + (if s.canceled then 3 else 0) + EvalRank(s.eval) + PollRank(s.poll, s.evalDone) + SockRank(s.sock)
  }

  lemma MainDecreases(s: State)
    requires HandshakeInv(s) && s.selfDestruct && InMainLoop(s.eval) && EvalEnabled(s)
    ensures Remaining(MainNext(s)) < Remaining(s)
  {
  }

  lemma DrainPopDecreases(s: State)
    requires s.eval.DrainPop? && EvalEnabled(s)
    ensures Remaining(DrainNext(s)) < Remaining(s)
  {
  }

  lemma DrainEvalDecreases(s: State)
    requires HandshakeInv(s) && (s.eval.DrainStarting? || s.eval.DrainEvaluating?)
    ensures Remaining(DrainNext(s)) < Remaining(s)
  {
  }

  lemma DrainWaitDecreases(s: State)
    requires EvalEnabled(s)
    requires s.eval.DrainTest? || s.eval.DrainPoll? || s.eval.LastPoll?
    ensures Remaining(DrainNext(s)) < Remaining(s)
  {
  }

  lemma BreakDecreases(s: State)
    requires EvalEnabled(s)
    requires s.eval.Breaking? || s.eval.JoinPoll?
    ensures Remaining(DrainNext(s)) < Remaining(s)
  {
  }

  lemma DrainDecreases(s: State)
    requires HandshakeInv(s) && !InMainLoop(s.eval) && EvalEnabled(s)
    ensures Remaining(DrainNext(s)) < Remaining(s)
  {
    if s.eval.DrainPop? {
      DrainPopDecreases(s);
    } else if s.eval.DrainStarting? || s.eval.DrainEvaluating? {
      DrainEvalDecreases(s);
    } else if s.eval.Breaking? || s.eval.JoinPoll? {
      BreakDecreases(s);
    } else {
      DrainWaitDecreases(s);
    }
  }

  /** Once self_destruct is set, every step of any thread brings the end closer. */
  lemma ShutdownDecreases(s: State, a: Action)
    requires Inv(s) && s.selfDestruct && Enabled(s, a)
    ensures Remaining(Apply(s, a)) < Remaining(s) && Apply(s, a).selfDestruct
  {
    if a.EvalStep? {
      if InMainLoop(s.eval) {
        MainDecreases(s);
      } else {
        DrainDecreases(s);
      }
    }
  }

  ghost predicate CanMove(s: State) {
    exists a :: Enabled(s, a)
  }

  /** And until the eval thread has exited, some thread can move: no deadlock in the destructor. */
  lemma ShutdownNotStuck(s: State)
    requires Inv(s) && s.selfDestruct && !s.eval.Exited?
    ensures CanMove(s)
  {
    if EvalEnabled(s) {
      assert Enabled(s, EvalStep);
    } else if s.eval.DrainPoll? || s.eval.LastPoll? {
      assert Enabled(s, DrainSets);
    } else if s.eval.Popping? {
      assert Enabled(s, DoCancel) || Enabled(s, RunDtor) || Enabled(s, Wake);
    } else {
      assert s.poll != Gone;
      assert Enabled(s, PollSees) || Enabled(s, PollSets) || Enabled(s, PollQuits) || Enabled(s, PollExits);
    }
  }

  /** So every run ends soon after self_destruct, and it ends with the eval thread gone: a path that
      cannot be extended has reached the exit. */
  lemma {:induction false} ShutdownCompletes(path: seq<State>)
    requires IsPath(path, Next) && Inv(path[0]) && path[0].selfDestruct
    ensures |path| <= 1 + Remaining(path[0])
    ensures path[|path| - 1].eval.Exited? || CanMove(path[|path| - 1])
    decreases |path|
  {
    var s := path[0];
    if |path| > 1 {
      assert Next(path[0], path[0 + 1]);
      var a :| Enabled(s, a) && path[1] == Apply(s, a);
      StepInv(s, a);
      ShutdownDecreases(s, a);
      TailIsPath(path, Next);
      ShutdownCompletes(path[1..]);
    } else if !s.eval.Exited? {
      ShutdownNotStuck(s);
    }
  }
}
