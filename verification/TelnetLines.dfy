/** The read loop of a telnet connection: which lines reach `OnLine`. */
module TelnetLines {
  import opened Basics
  import opened StreamReader

  /** What a byte stream means: its lines, each without its newline and one carriage return before it,
      and a last unterminated fragment only when something is left of it. */
  function Lines(s: string): (ls: seq<string>)
    decreases |s|
  {
    var k := FirstNewline(s);
    if k < |s| then [StripCr(s[..k])] + Lines(s[k + 1..])
    else if StripCr(s) == "" then []
    else [StripCr(s)]
  }

  /** The clean-up at the end of a connection drops every empty line. */
  function NonEmpty(ls: seq<string>): seq<string> {
    if ls == [] then []
    else if ls[0] == "" then NonEmpty(ls[1..])
    else [ls[0]] + NonEmpty(ls[1..])
  }

  /** It drops them and nothing else. */
  lemma {:induction false} NonEmptyIs(ls: seq<string>, l: string)
    ensures multiset(NonEmpty(ls))[l] == if l == "" then 0 else multiset(ls)[l]
  {
    if ls != [] {
      NonEmptyIs(ls[1..], l);
      assert ls == [ls[0]] + ls[1..];
    }
  }

  lemma Head(l: string, ls: seq<string>)
    ensures NonEmpty([l] + ls) == (if l == "" then [] else [l]) + NonEmpty(ls)
  {
    assert ([l] + ls)[1..] == ls;
  }

  /** No line is cut short by an escape, and no finished line is a D-Bus greeting. */
  ghost predicate Quiet(s: string)
    decreases |s|
  {
    match LineEnd(s)
    case Newline(k) => !IsDbus(s[..k]) && Quiet(s[k + 1..])
    case Escape => false
    case Unfinished => true
  }

  predicate LineStart(s: string, i: nat) {
    i <= |s| && (i == 0 || s[i - 1] == '\n')
  }

  /** The same said of the bytes: no EOT, no 0xff, and no line starting 0x01 0x21. */
  ghost predicate Plain(s: string) {
    && '\U{04}' !in s
    && '\U{ff}' !in s
    && (forall i: nat {:trigger LineStart(s, i)} :: LineStart(s, i) && i + 1 < |s| ==>
          !(s[i] == '\U{01}' && s[i + 1] == '\U{21}'))
  }

  lemma {:induction false} NoEscape(s: string)
    requires EOT !in s && IAC !in s
    ensures !LineEnd(s).Escape?
  {
    if s != "" {
      assert s[0] in s;
      NoEscape(s[1..]);
    }
  }

  lemma {:induction false} PlainIsQuiet(s: string)
    requires Plain(s)
    ensures Quiet(s)
    decreases |s|
  {
    NoEscape(s);
    if LineEnd(s).Newline? {
      var k := LineEnd(s).k;
      var rest := s[k + 1..];
      forall i: nat | LineStart(rest, i) && i + 1 < |rest| ensures !(rest[i] == '\U{01}' && rest[i + 1] == '\U{21}') {
        assert LineStart(s, k + 1 + i);
      }
      PlainIsQuiet(rest);
      assert LineStart(s, 0);
    }
  }

  lemma LinesUnfold(s: string)
    ensures FirstNewline(s) < |s| ==>
              Lines(s) == [StripCr(s[..FirstNewline(s)])] + Lines(AfterLine(s))
    ensures FirstNewline(s) == |s| ==> Lines(s) == if StripCr(s) == "" then [] else [StripCr(s)]
  {
  }

  /** The calls that the bytes alone decide: all lines up to one that is cut short by an escape or is
      a D-Bus greeting. */
  ghost function Fixed(s: string): seq<string>
    decreases |s|
  {
    match LineEnd(s)
    case Newline(k) => if IsDbus(s[..k]) then [] else [StripCr(s[..k])] + Fixed(s[k + 1..])
    case Escape => []
    case Unfinished => Lines(s)
  }

  /** On a quiet stream that is every line. */
  lemma {:induction false} QuietIsFixed(s: string)
    requires Quiet(s)
    ensures Fixed(s) == Lines(s)
    decreases |s|
  {
    FirstNewlineIs(s);
    if LineEnd(s).Newline? {
      LinesUnfold(s);
      QuietIsFixed(s[LineEnd(s).k + 1..]);
    }
  }

  /** One turn of the loop on a line that ends with a newline. */
  lemma Turn(s: string)
    requires LineEnd(s).Newline?
    ensures var k := LineEnd(s).k;
            && (Quiet(s) <==> !IsDbus(s[..k]) && Quiet(s[k + 1..]))
            && Fixed(s) == if IsDbus(s[..k]) then [] else [StripCr(s[..k])] + Fixed(s[k + 1..])
  {
  }

  /** The end of the loop: what is left has no newline. */
  lemma LastFragment(s: string)
    requires LineEnd(s).Unfinished?
    ensures Fixed(s) == NonEmpty(Lines(s))
  {
    FirstNewlineIs(s);
  }

  lemma DrainStep(b: string)
    requires b != ""
    ensures |AfterLine(b)| < |b|
    ensures var line := StripCr(b[..FirstNewline(b)]);
            NonEmpty(Lines(b)) == (if line == "" then [] else [line]) + NonEmpty(Lines(AfterLine(b)))
  {
    LinesUnfold(b);
    var line := StripCr(b[..FirstNewline(b)]);
    if FirstNewline(b) == |b| {
      assert b[..|b|] == b;
      assert Lines("") == [];
    } else {
      Head(line, Lines(AfterLine(b)));
    }
  }

  /** The clean-up loop: every non-empty line still in the buffer. */
  method Drain(c: Connection) returns (lines: seq<string>)
    modifies c
    ensures lines == NonEmpty(Lines(old(c.buf))) && c.buf == "" && c.unread == old(c.unread)
  {
    lines := [];
    while c.buf != ""
      invariant lines + NonEmpty(Lines(c.buf)) == NonEmpty(Lines(old(c.buf)))
      invariant c.unread == old(c.unread)
      decreases |c.buf|
    {
      DrainStep(c.buf);
      var line := StripCr(c.buf[..FirstNewline(c.buf)]);
      c.buf := AfterLine(c.buf);
      if line != "" {
        lines := lines + [line];
      }
    }
  }

  /** One turn of the loop: a line to deliver, or the end of it. */
  method NextLine(c: Connection) returns (more: bool, line: string)
    modifies c
    ensures more ==> |c.Stream()| < |old(c.Stream())|
    ensures more && 1 < |line| ==> !(line[0] == '\U{01}' && line[1] == '\U{21}')
    ensures more && !LineEnd(old(c.Stream())).Escape? ==>
              && Fixed(old(c.Stream())) == [line] + Fixed(c.Stream())
              && (Quiet(old(c.Stream())) ==> Quiet(c.Stream()))
    ensures !more ==> Fixed(old(c.Stream())) <= NonEmpty(Lines(c.buf))
    ensures !more && Quiet(old(c.Stream())) ==> c.unread == "" && Fixed(old(c.Stream())) == NonEmpty(Lines(c.buf))
  {
    ghost var s := c.Stream();
    more, line := c.GetTelnetLine();
    if LineEnd(s).Newline? {
      Turn(s);
    } else if LineEnd(s).Unfinished? {
      assert c.buf == s;
      LastFragment(s);
    }
    more := more && !IsDbus(line);
    line := StripCr(line);
  }

  /** The loop of `handle_connection` on a socket that is not an HTTP socket, then its clean-up;
      `delivered` is the sequence of arguments of `OnLine`. How the bytes are cut is left open in
      `Connection.ReadSome`, so the promise is the same for every cut: on any stream the lines before
      the first escape, and on a quiet one exactly its lines. */
  method HandleTelnet(c: Connection) returns (delivered: seq<string>)
    modifies c
    ensures Fixed(old(c.Stream())) <= delivered
    ensures Quiet(old(c.Stream())) ==> delivered == Lines(old(c.Stream())) && c.Stream() == ""
    ensures Plain(old(c.Stream())) ==> delivered == Lines(old(c.Stream()))
  {
    delivered := [];
    ghost var sent := c.Stream();
    if Plain(sent) {
      PlainIsQuiet(sent);
    }
    ghost var quiet, all, cut := Quiet(sent), Fixed(sent), false;
    if quiet {
      QuietIsFixed(sent);
    }
    ghost var left := all;
    while true
      invariant quiet ==> !cut && Quiet(c.Stream())
      invariant if cut then all <= delivered else left == Fixed(c.Stream()) && delivered + left == all
      decreases |c.Stream()|
    {
      cut := cut || LineEnd(c.Stream()).Escape?;
      var more, line := NextLine(c);
      if !more {
        break;
      }
      left := Fixed(c.Stream());
      Regroup(delivered, [line], left);
      delivered := delivered + [line];
    }
    var rest := Drain(c);
    delivered := delivered + rest;
  }

  /** A text as a client types it: lines ended by a newline, with or without a carriage return. */
  datatype Typed = Typed(text: string, cr: bool)

  function Print(ts: seq<Typed>, last: string): string {
    if ts == [] then last
    else ts[0].text + (if ts[0].cr then "\r\n" else "\n") + Print(ts[1..], last)
  }

  function Texts(ts: seq<Typed>): (ls: seq<string>) {
    if ts == [] then [] else [ts[0].text] + Texts(ts[1..])
  }

  lemma {:induction false} FirstNewlineAfter(a: string, b: string)
    requires '\n' !in a
    ensures FirstNewline(a + b) == |a| + FirstNewline(b)
  {
    if a == "" {
      assert a + b == b;
    } else {
      assert a[0] in a;
      assert (a + b)[1..] == a[1..] + b;
      FirstNewlineAfter(a[1..], b);
    }
  }

  lemma LinesCons(line: string, rest: string)
    requires '\n' !in line
    ensures Lines(line + ("\n" + rest)) == [StripCr(line)] + Lines(rest)
  {
    var s := line + ("\n" + rest);
    FirstNewlineAfter(line, "\n" + rest);
    Halves(line, "\n" + rest);
    Halves(line + "\n", rest);
    Regroup(line, "\n", rest);
    LinesUnfold(s);
  }

  /** What stands before the newline. */
  function BeforeNewline(t: Typed): string {
    if t.cr then t.text + "\r" else t.text
  }

  lemma PrintCons(ts: seq<Typed>, last: string)
    requires ts != []
    ensures Print(ts, last) == BeforeNewline(ts[0]) + ("\n" + Print(ts[1..], last))
  {
  }

  /** How a client may type a line: without a newline in it, and without a carriage return that would
      be taken for a part of the line's end. */
  predicate Typable(t: Typed) {
    '\n' !in t.text && (t.cr || t.text == "" || t.text[|t.text| - 1] != '\r')
  }

  lemma TypedCons(t: Typed, rest: string)
    requires Typable(t)
    ensures Lines(BeforeNewline(t) + ("\n" + rest)) == [t.text] + Lines(rest)
  {
    LinesCons(BeforeNewline(t), rest);
  }

  lemma LinesOfFragment(last: Typed)
    requires Typable(last)
    ensures Lines(BeforeNewline(last)) == if last.text == "" then [] else [last.text]
  {
    var s := BeforeNewline(last);
    FirstNewlineAfter(s, "");
    assert s + "" == s;
    assert StripCr(s) == last.text;
  }

  /** Whatever takes a typed line off the front takes them all off. */
  lemma {:induction false} TypedChain(ts: seq<Typed>, last: string, lines: string -> seq<string>)
    requires forall t :: t in ts ==> Typable(t)
    requires forall t, rest {:trigger lines(BeforeNewline(t) + ("\n" + rest))} :: Typable(t) ==>
               lines(BeforeNewline(t) + ("\n" + rest)) == [t.text] + lines(rest)
    ensures lines(Print(ts, last)) == Texts(ts) + lines(last)
  {
    if ts != [] {
      var t, rest := ts[0], Print(ts[1..], last);
      assert t in ts;
      PrintCons(ts, last);
      assert lines(BeforeNewline(t) + ("\n" + rest)) == [t.text] + lines(rest);
      TypedChain(ts[1..], last, lines);
      Regroup([t.text], Texts(ts[1..]), lines(last));
    }
  }

  /** The lines delivered are the lines typed, then an unfinished one if there is anything to it. */
  lemma LinesOfTyped(ts: seq<Typed>, last: Typed)
    requires (forall t :: t in ts ==> Typable(t)) && Typable(last)
    ensures Lines(Print(ts, BeforeNewline(last))) == Texts(ts) + if last.text == "" then [] else [last.text]
  {
    forall t, rest | Typable(t) ensures Lines(BeforeNewline(t) + ("\n" + rest)) == [t.text] + Lines(rest) {
      TypedCons(t, rest);
    }
    TypedChain(ts, BeforeNewline(last), Lines);
    LinesOfFragment(last);
  }
}
