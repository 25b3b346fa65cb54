/** The shell's line discipline: what becomes of one line of input. Bytes are characters below 256. */
module LineDiscipline {
  import opened Basics

  // Telnet command bytes (RFC 854 and friends).
  const TEOF := '\U{ec}'
  const SUSP := '\U{ed}'
  const ABRT := '\U{ee}'
  const NOP := '\U{f1}'
  const BRK := '\U{f3}'
  const IP := '\U{f4}'
  const AO := '\U{f5}'
  const AYT := '\U{f6}'
  const EC := '\U{f7}'
  const EL := '\U{f8}'
  const GA := '\U{f9}'
  const WILL := '\U{fb}'
  const DO := '\U{fd}'
  const TIMING_MARK := '\U{06}'

  // ASCII control characters.
  const SYN := '\U{16}'
  const CAN := '\U{18}'
  const ESC := '\U{1b}'

  /** How far from the end of a line telnet commands are looked for. */
  const WINDOW := 20

  /** What a line comes to: work for the queue, a user interrupt, leaving the shell, or at most some
      output for the user. */
  datatype Outcome = Enqueue(work: string) | Interrupt | Leave | Ignore

  /** The first IAC at or after `m` that has a byte behind it, or where the search ends. */
  function FindIac(expr: string, m: nat): (r: nat)
    requires m <= |expr|
    ensures m <= r <= |expr|
    ensures r <= |expr| - 2 ==> expr[r] == IAC
    decreases |expr| - m
  {
    if m <= |expr| - 2 && expr[m] != IAC then FindIac(expr, m + 1) else m
  }

  /** Telnet commands from `m` to the end; None when they leave the line to be handled as text. */
  function Commands(expr: string, m: nat, breakAt: Option<nat>): Option<Outcome>
    requires breakAt.Some? ==> breakAt.value < |expr|
    decreases |expr| - m
  {
    if m > |expr| - 2 then None
    else if expr[m] != IAC then Some(Ignore)
    else
      var c := expr[m + 1];
      if c == IP || c == AO || c == SUSP then Some(Interrupt)
      else if c == EL || c == EC || c == ABRT || c == AYT || c == GA || c == NOP then Some(Ignore)
      else if c == TEOF then Some(Leave)
      else if c == BRK then Commands(expr, m + 2, Some(m % 256))
      else if c == DO then
        if At(expr, m + 2) != TIMING_MARK then Some(Ignore)
        else if breakAt.Some? then Some(Enqueue(expr[breakAt.value := NUL]))
        else Some(Interrupt)
      else if c == WILL then Some(Ignore)
      else Commands(expr, m + 2, breakAt)
  }

  function WindowStart(expr: string): nat {
    if |expr| < WINDOW then 0 else |expr| - WINDOW
  }

  /** A line without telnet commands. */
  function Text(expr: string, inputPending: bool): Outcome
    requires expr != ""
  {
    var last := expr[|expr| - 1];
    if last == SYN || last == CAN || last == ESC then Interrupt
    else if !inputPending && (last == EOT || expr == ".") then Leave
    else Enqueue(expr + "\n")
  }

  function Discipline(expr: string, inputPending: bool): Outcome {
    if expr == "" then Enqueue("\n")
    else
      match Commands(expr, FindIac(expr, WindowStart(expr)), None)
      case Some(o) => o
      case None => Text(expr, inputPending)
  }

  /** The scan as the source runs it, with an index that moves from the window's start. */
  method LineDiscipline(expr: string, inputPending: bool) returns (o: Outcome)
    ensures o == Discipline(expr, inputPending)
  {
    var len := |expr|;
    if 0 == len {
      return Enqueue("\n");
    }
    var i := len - 2;
    var m := len - 20;
    if m < 0 {
      m := 0;
    }
    while m <= i
      invariant 0 <= m <= len
      invariant FindIac(expr, m) == FindIac(expr, WindowStart(expr))
    {
      if expr[m] == IAC {
        break;
      }
      m := m + 1;
    }
    ghost var commands := Commands(expr, FindIac(expr, WindowStart(expr)), None);
    var breakpt := 0;
    var gotBreak := false;
    while m <= i
      invariant 0 <= m && 0 <= breakpt < len
      invariant Commands(expr, m, if gotBreak then Some(breakpt) else None) == commands
      decreases len - m
    {
      if expr[m] != IAC {
        return Ignore;
      }
      var c := expr[m + 1];
      if c == IP || c == AO || c == SUSP {
        return Interrupt;
      }
      if c == EL || c == EC || c == ABRT || c == AYT || c == GA || c == NOP {
        return Ignore;
      }
      if c == TEOF {
        return Leave;
      }
      if c == BRK {
        gotBreak := true;
        breakpt := m % 256;
        m := m + 2;
        continue;
      }
      if c == DO {
        if At(expr, m + 2) == TIMING_MARK {
          if gotBreak {
            return Enqueue(expr[breakpt := NUL]);
          }
          return Interrupt;
        }
        return Ignore;
      }
      if c == WILL {
        return Ignore;
      }
      m := m + 2;
    }
    var last := expr[len - 1];
    if last == SYN || last == CAN || last == ESC {
      return Interrupt;
    }
    if !inputPending && (last == EOT || (len == 1 && expr[0] == '.')) {
      return Leave;
    }
    return Enqueue(expr + "\n");
  }

  lemma {:induction false} CommandsQueueNonEmpty(expr: string, m: nat, breakAt: Option<nat>)
    requires breakAt.Some? ==> breakAt.value < |expr|
    requires var r := Commands(expr, m, breakAt); r.Some? && r.value.Enqueue?
    ensures Commands(expr, m, breakAt).value.work != ""
    decreases |expr| - m
  {
    if m <= |expr| - 2 && expr[m] == IAC {
      var c := expr[m + 1];
      if c == BRK {
        CommandsQueueNonEmpty(expr, m + 2, Some(m % 256));
      } else if c != DO {
        CommandsQueueNonEmpty(expr, m + 2, breakAt);
      }
    }
  }

  /** With the discipline on, no line ever becomes the empty string, which wakes the eval thread. */
  lemma NeverTheSentinel(expr: string, inputPending: bool)
    requires Discipline(expr, inputPending).Enqueue?
    ensures Discipline(expr, inputPending).work != ""
  {
    if expr != "" {
      var m := FindIac(expr, WindowStart(expr));
      if Commands(expr, m, None).Some? {
        CommandsQueueNonEmpty(expr, m, None);
      }
    }
  }

  lemma {:induction false} FindIacFree(expr: string, m: nat)
    requires m <= |expr|
    requires forall k :: m <= k <= |expr| - 2 ==> expr[k] != IAC
    ensures FindIac(expr, m) > |expr| - 2
    decreases |expr| - m
  {
    if m <= |expr| - 2 {
      FindIacFree(expr, m + 1);
    }
  }

  /** No IAC in the last twenty bytes, but for the very last. */
  ghost predicate NoCommand(expr: string) {
    forall k :: 0 <= k && |expr| - 20 <= k <= |expr| - 2 ==> expr[k] != '\U{ff}'
  }

  /** What becomes of a line without telnet commands: SYN, CAN and ESC at its end interrupt; EOT at its
      end, or a lone period, leaves a shell that waits for no more input; anything else is queued,
      exactly as sent plus a newline. IAC bytes further from the end do not matter. */
  lemma PlainLine(expr: string, inputPending: bool)
    requires NoCommand(expr)
    ensures Discipline(expr, inputPending) ==
            if expr == "" then Enqueue("\n")
            else if expr[|expr| - 1] in ['\U{16}', '\U{18}', '\U{1b}'] then Interrupt
            else if !inputPending && (expr[|expr| - 1] == '\U{04}' || expr == ".") then Leave
            else Enqueue(expr + "\n")
  {
    if expr != "" {
      FindIacFree(expr, WindowStart(expr));
    }
  }

  /** A line is queued unless its end interrupts or leaves. */
  lemma QueuedVerbatimIff(expr: string, inputPending: bool)
    requires NoCommand(expr)
    ensures Discipline(expr, inputPending) == Enqueue(expr + "\n") <==>
            expr == "" || (expr[|expr| - 1] !in ['\U{16}', '\U{18}', '\U{1b}']
                           && (inputPending || (expr[|expr| - 1] != '\U{04}' && expr != ".")))
    ensures Discipline(expr, inputPending).Enqueue? ==> Discipline(expr, inputPending).work == expr + "\n"
  {
    PlainLine(expr, inputPending);
    assert expr == "" ==> expr + "\n" == "\n";
  }

  // ----- Telnet commands -----

  /** The first IAC of the window stands right behind `text`. */
  ghost predicate FirstCommandAt(expr: string, text: string) {
    && |text| + 2 <= |expr| && |expr| - 20 <= |text| && text <= expr && expr[|text|] == '\U{ff}'
    && (forall k :: 0 <= k < |text| && |expr| - 20 <= k ==> text[k] != '\U{ff}')
  }

  lemma {:induction false} FindIacAt(expr: string, m: nat, at: nat)
    requires m <= at <= |expr| - 2 && expr[at] == IAC && forall k :: m <= k < at ==> expr[k] != IAC
    ensures FindIac(expr, m) == at
    decreases at - m
  {
    if m < at {
      FindIacAt(expr, m + 1, at);
    }
  }

  lemma DisciplineFromCommand(expr: string, text: string, inputPending: bool)
    requires FirstCommandAt(expr, text)
    ensures Discipline(expr, inputPending) ==
            match Commands(expr, |text|, None) case Some(o) => o case None => Text(expr, inputPending)
  {
    assert forall k :: 0 <= k < |text| ==> expr[k] == text[k];
    FindIacAt(expr, WindowStart(expr), |text|);
  }

  /** The commands that decide the line at once, whatever stands behind them: IP, AO and SUSP
      interrupt; EL, EC, ABRT, AYT, GA, NOP and WILL are ignored with their line; EOF leaves. */
  lemma CommandTable(expr: string, text: string, inputPending: bool)
    requires FirstCommandAt(expr, text)
    ensures var c := expr[|text| + 1];
            && (c in ['\U{f4}', '\U{f5}', '\U{ed}'] ==> Discipline(expr, inputPending) == Interrupt)
            && (c in ['\U{f8}', '\U{f7}', '\U{ee}', '\U{f6}', '\U{f9}', '\U{f1}', '\U{fb}'] ==>
                  Discipline(expr, inputPending) == Ignore)
            && (c == '\U{ec}' ==> Discipline(expr, inputPending) == Leave)
  {
    DisciplineFromCommand(expr, text, inputPending);
  }

  /** DO TIMING-MARK interrupts, and DO of anything else is ignored with its line. */
  lemma DoTable(expr: string, text: string, inputPending: bool)
    requires FirstCommandAt(expr, text) && expr[|text| + 1] == '\U{fd}'
    ensures Discipline(expr, inputPending) ==
            if |text| + 2 < |expr| && expr[|text| + 2] == '\U{06}' then Interrupt else Ignore
  {
    DisciplineFromCommand(expr, text, inputPending);
  }

  /** The commands of the table above. */
  predicate Decides(c: char) {
    c in ['\U{f4}', '\U{f5}', '\U{ed}', '\U{f8}', '\U{f7}', '\U{ee}', '\U{f6}', '\U{f9}', '\U{f1}', '\U{fb}',
          '\U{ec}', '\U{fd}']
  }

  /** Any other command at the very end of a line leaves it to be handled by its last byte. */
  lemma SkippedAtTheEnd(text: string, c: char, inputPending: bool)
    requires FirstCommandAt(text + ['\U{ff}', c], text) && !Decides(c)
    ensures Discipline(text + ['\U{ff}', c], inputPending) ==
            if c in ['\U{16}', '\U{18}', '\U{1b}'] then Interrupt
            else if !inputPending && c == '\U{04}' then Leave
            else Enqueue(text + ['\U{ff}', c] + "\n")
  {
    DisciplineFromCommand(text + ['\U{ff}', c], text, inputPending);
  }

  /** Behind such a command another has to follow: if there is none, the line is garbled and ignored. */
  lemma GarbledIgnored(expr: string, text: string, inputPending: bool)
    requires FirstCommandAt(expr, text) && |text| + 4 <= |expr|
    requires !Decides(expr[|text| + 1]) && expr[|text| + 2] != '\U{ff}'
    ensures Discipline(expr, inputPending) == Ignore
  {
    DisciplineFromCommand(expr, text, inputPending);
  }

  /** BREAK and then DO TIMING-MARK is what garbled UTF-8 comes in as: the line is queued, with a NUL
      where the break was, at its position modulo 256. */
  lemma BreakThenMark(text: string, inputPending: bool)
    requires var expr := text + ['\U{ff}', '\U{f3}', '\U{ff}', '\U{fd}', '\U{06}']; FirstCommandAt(expr, text)
    ensures var expr := text + ['\U{ff}', '\U{f3}', '\U{ff}', '\U{fd}', '\U{06}'];
            Discipline(expr, inputPending) == Enqueue(expr[|text| % 256 := '\U{00}'])
  {
    var expr := text + ['\U{ff}', '\U{f3}', '\U{ff}', '\U{fd}', '\U{06}'];
    DisciplineFromCommand(expr, text, inputPending);
    assert expr[|text| + 1] == BRK && expr[|text| + 2] == IAC && expr[|text| + 3] == DO && expr[|text| + 4] == TIMING_MARK;
    assert Commands(expr, |text| + 2, Some(|text| % 256)) == Some(Enqueue(expr[|text| % 256 := NUL]));
  }
}
