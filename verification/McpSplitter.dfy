/** The MCP server's splitter: several JSON objects on one line, cut apart by counting braces. */
module McpSplitter {
  import opened Basics

  // ----- The scanner -----

  /** brace_count, in_string and escape_next. */
  datatype Scanner = Scanner(depth: int, inString: bool, escapeNext: bool)

  const START := Scanner(0, false, false)

  function Step(st: Scanner, c: char): Scanner {
    if !st.escapeNext && c == '\\' then st.(escapeNext := true)
    else if !st.escapeNext && c == '"' then st.(inString := !st.inString)
    else if !st.inString && !st.escapeNext then
      if c == '{' then st.(depth := st.depth + 1)
      else if c == '}' then st.(depth := st.depth - 1)
      else st
    else st.(escapeNext := false)
  }

  /** The character that ends an object. */
  predicate Closes(st: Scanner, c: char) {
    !st.escapeNext && !st.inString && c == '}' && st.depth - 1 == 0
  }

  /** How many characters the scan takes, and the state it stops in: after the closing brace, or at
      the end of the line. */
  function Scan(s: string, st: Scanner): (r: (nat, Scanner))
    ensures r.0 <= |s| && (s != "" ==> r.0 > 0)
  {
    if s == "" then (0, st)
    else if Closes(st, s[0]) then (1, Step(st, s[0]))
    else
      var (n, st') := Scan(s[1..], Step(st, s[0]));
      (n + 1, st')
  }

  function LeadingSpace(s: string): (k: nat)
    ensures k <= |s| && (k < |s| ==> !IsSpace(s[k]))
  {
    if s == "" || !IsSpace(s[0]) then 0 else 1 + LeadingSpace(s[1..])
  }

  /** The whitespace skipped before each piece and after the last one, and the pieces. */
  datatype Cut = Cut(gaps: seq<string>, pieces: seq<string>)

  function Split(s: string): (c: Cut)
    ensures |c.gaps| == |c.pieces| + 1
    decreases |s|
  {
    var w := LeadingSpace(s);
    var t := s[w..];
    if t == "" then Cut([s], [])
    else
      var (n, st) := Scan(t, START);
      if st.depth == 0 then
        var rest := Split(t[n..]);
        Cut([s[..w]] + rest.gaps, [t[..n]] + rest.pieces)
      else Cut([s[..w], ""], [t])
  }

  // ----- The code -----

  method SkipSpace(buffer: string, start: nat) returns (pos: nat)
    requires start <= |buffer|
    ensures pos == start + LeadingSpace(buffer[start..]) && pos <= |buffer|
  {
    pos := start;
    while pos < |buffer| && IsSpace(buffer[pos])
      invariant start <= pos <= |buffer|
      invariant pos + LeadingSpace(buffer[pos..]) == start + LeadingSpace(buffer[start..])
    {
      assert buffer[pos..][1..] == buffer[pos + 1..];
      pos := pos + 1;
    }
  }

  /** The inner loop: find the end of the object that starts here. */
  method FindEnd(buffer: string, start: nat) returns (pos: nat, braceCount: int)
    requires start < |buffer|
    ensures start < pos <= |buffer|
    ensures var r := Scan(buffer[start..], START); pos == start + r.0 && braceCount == r.1.depth
  {
    pos := start;
    braceCount := 0;
    var inString, escapeNext := false, false;
    ghost var r := Scan(buffer[start..], START);
    while pos < |buffer|
      invariant start <= pos <= |buffer|
      invariant var q := Scan(buffer[pos..], Scanner(braceCount, inString, escapeNext)); pos + q.0 == start + r.0 && q.1 == r.1
    {
      assert buffer[pos..][1..] == buffer[pos + 1..];
      var c := buffer[pos];
      if !escapeNext && c == '\\' {
        escapeNext := true;
      } else if !escapeNext && c == '"' {
        inString := !inString;
      } else if !inString && !escapeNext {
        if c == '{' {
          braceCount := braceCount + 1;
        } else if c == '}' {
          braceCount := braceCount - 1;
          if braceCount == 0 {
            pos := pos + 1;
            break;
          }
        }
      } else {
        escapeNext := false;
      }
      pos := pos + 1;
    }
  }

  lemma PieceStep(buffer: string, pos: nat, start: nat, end: nat)
    requires pos <= |buffer| && start == pos + LeadingSpace(buffer[pos..]) && start < |buffer|
    requires end == start + Scan(buffer[start..], START).0
    ensures var st := Scan(buffer[start..], START).1;
            Split(buffer[pos..]).pieces ==
              if st.depth == 0 then [buffer[start..end]] + Split(buffer[end..]).pieces else [buffer[start..]]
  {
    var s := buffer[pos..];
    assert s[start - pos..] == buffer[start..];
    assert buffer[start..][..end - start] == buffer[start..end] && buffer[start..][end - start..] == buffer[end..];
  }

  /** `OnLine` without a shell: the expressions handed to the evaluator, in order. */
  method OnLine(line: string) returns (evaluated: seq<string>)
    ensures evaluated == Split(line).pieces
  {
    evaluated := [];
    var pos := 0;
    ghost var left := Split(line[0..]).pieces;
    assert line[0..] == line;
    while pos < |line|
      invariant pos <= |line|
      invariant left == Split(line[pos..]).pieces && evaluated + left == Split(line).pieces
    {
      var start := SkipSpace(line, pos);
      if start >= |line| {
        assert line[pos..][start - pos..] == "";
        break;
      }
      var end, braceCount := FindEnd(line, start);
      PieceStep(line, pos, start, end);
      if braceCount == 0 && end > start {
        left := Split(line[end..]).pieces;
        Regroup(evaluated, [line[start..end]], left);
        evaluated := evaluated + [line[start..end]];
        pos := end;
      } else {
        evaluated := evaluated + [line[start..]];
        return;
      }
    }
  }

  // ----- Any line at all -----

  function Interleave(gaps: seq<string>, pieces: seq<string>): string
    requires |gaps| == |pieces| + 1
  {
    if pieces == [] then gaps[0] else gaps[0] + pieces[0] + Interleave(gaps[1..], pieces[1..])
  }

  predicate AllSpace(s: string) {
    forall i :: 0 <= i < |s| ==> IsSpace(s[i])
  }

  lemma {:induction false} LeadingIsSpace(s: string)
    ensures AllSpace(s[..LeadingSpace(s)])
  {
    if s != "" && IsSpace(s[0]) {
      LeadingIsSpace(s[1..]);
      var k := LeadingSpace(s[1..]);
      assert s[..k + 1] == [s[0]] + s[1..][..k];
    }
  }

  /** Only whitespace is skipped, and a piece is neither empty nor led by whitespace. */
  ghost predicate Clean(c: Cut) {
    && (forall i :: 0 <= i < |c.gaps| ==> AllSpace(c.gaps[i]))
    && (forall i :: 0 <= i < |c.pieces| ==> c.pieces[i] != "" && !IsSpace(c.pieces[i][0]))
  }

  lemma InterleaveCons(gap: string, piece: string, rest: Cut)
    requires |rest.gaps| == |rest.pieces| + 1
    ensures Interleave([gap] + rest.gaps, [piece] + rest.pieces) == gap + piece + Interleave(rest.gaps, rest.pieces)
  {
    assert ([gap] + rest.gaps)[1..] == rest.gaps && ([piece] + rest.pieces)[1..] == rest.pieces;
  }

  lemma CleanCons(gap: string, piece: string, rest: Cut)
    requires AllSpace(gap) && piece != "" && !IsSpace(piece[0]) && Clean(rest)
    ensures Clean(Cut([gap] + rest.gaps, [piece] + rest.pieces))
  {
  }

  /** The cut `c` rebuilds `s` and is clean. */
  ghost predicate Rebuilds(c: Cut, s: string) {
    |c.gaps| == |c.pieces| + 1 && Interleave(c.gaps, c.pieces) == s && Clean(c)
  }

  lemma RebuildsCons(gap: string, piece: string, tail: string, rest: Cut)
    requires AllSpace(gap) && piece != "" && !IsSpace(piece[0]) && Rebuilds(rest, tail)
    ensures Rebuilds(Cut([gap] + rest.gaps, [piece] + rest.pieces), gap + piece + tail)
  {
    InterleaveCons(gap, piece, rest);
    CleanCons(gap, piece, rest);
  }

  lemma RebuildsAfter(s: string, w: nat, n: nat, rest: Cut)
    requires w < |s| && 0 < n <= |s| - w && AllSpace(s[..w]) && !IsSpace(s[w]) && Rebuilds(rest, s[w..][n..])
    ensures Rebuilds(Cut([s[..w]] + rest.gaps, [s[w..][..n]] + rest.pieces), s)
  {
    var t := s[w..];
    RebuildsCons(s[..w], t[..n], t[n..], rest);
    assert s[..w] + t[..n] + t[n..] == s;
  }

  /** Pieces and skipped whitespace rebuild any line in order; a piece is never empty and never
      starts with whitespace, so only whitespace is skipped. */
  lemma {:induction false} SplitRebuilds(s: string)
    ensures Rebuilds(Split(s), s)
    decreases |s|
  {
    var w := LeadingSpace(s);
    var t := s[w..];
    LeadingIsSpace(s);
    if t == "" {
      assert s[..w] == s;
    } else {
      var n, st := Scan(t, START).0, Scan(t, START).1;
      if st.depth == 0 {
        SplitRebuilds(t[n..]);
        RebuildsAfter(s, w, n, Split(t[n..]));
      } else {
        RebuildsCons(s[..w], t, "", Cut([""], []));
        assert [s[..w]] + [""] == [s[..w], ""] && [t] + [] == [t] && s[..w] + t + "" == s;
      }
    }
  }

  // ----- The scan, said of the whole line -----

  /** Character i stands behind a backslash that is not itself behind one. */
  function Escaped(s: string, i: nat): bool
    requires i <= |s|
  {
    i > 0 && s[i - 1] == '\\' && !Escaped(s, i - 1)
  }

  /** An odd number of quotes that are not escaped stands before position i. */
  function Quoted(s: string, i: nat): bool
    requires i <= |s|
  {
    if i == 0 then false
    else if s[i - 1] == '"' && !Escaped(s, i - 1) then !Quoted(s, i - 1)
    else Quoted(s, i - 1)
  }

  /** Braces opened less braces closed before position i, counting those neither escaped nor quoted. */
  function Depth(s: string, i: nat): int
    requires i <= |s|
  {
    if i == 0 then 0
    else if Escaped(s, i - 1) || Quoted(s, i - 1) then Depth(s, i - 1)
    else Depth(s, i - 1) + (if s[i - 1] == '{' then 1 else if s[i - 1] == '}' then -1 else 0)
  }

  /** The brace at j closes the first object. */
  ghost predicate EndsObject(s: string, j: nat)
    requires j < |s|
  {
    s[j] == '}' && !Escaped(s, j) && !Quoted(s, j) && Depth(s, j) == 1
  }

  lemma ScannerIs(s: string, i: nat)
    requires i < |s|
    ensures var st := Scanner(Depth(s, i), Quoted(s, i), Escaped(s, i));
            && Step(st, s[i]) == Scanner(Depth(s, i + 1), Quoted(s, i + 1), Escaped(s, i + 1))
            && (Closes(st, s[i]) <==> EndsObject(s, i))
  {
  }

  lemma {:induction false} ScanFrom(s: string, i: nat)
    requires i <= |s|
    ensures var (n, st) := Scan(s[i..], Scanner(Depth(s, i), Quoted(s, i), Escaped(s, i)));
            && i + n <= |s| && st.depth == Depth(s, i + n)
            && (i + n < |s| ==> n > 0 && EndsObject(s, i + n - 1))
            && (forall j {:trigger EndsObject(s, j)} :: i <= j < i + n - 1 ==> !EndsObject(s, j))
    decreases |s| - i
  {
    if i < |s| {
      ScannerIs(s, i);
      assert s[i..][1..] == s[i + 1..];
      if !EndsObject(s, i) {
        ScanFrom(s, i + 1);
      }
    }
  }

  /** On any text, the scan stops behind the first brace that closes an object, or at the end, and
      knows the depth there. */
  lemma ScanIs(s: string)
    ensures var (n, st) := Scan(s, START);
            && n <= |s| && st.depth == Depth(s, n)
            && (n < |s| ==> n > 0 && EndsObject(s, n - 1))
            && (forall j {:trigger EndsObject(s, j)} :: 0 <= j < n - 1 ==> !EndsObject(s, j))
  {
    ScanFrom(s, 0);
    assert s[0..] == s;
  }

  // ----- JSON texts (RFC 8259) -----

  /** A character of a string (section 7): written as it is, escaped, or as four hex digits. */
  datatype StrChar = Plain(c: char) | Escaped(c: char) | Unicode(h1: char, h2: char, h3: char, h4: char)

  /** A value with its whitespace. `Scalar` covers numbers and the literal names; `inner` is the
      whitespace of an empty array or object. */
  datatype Json =
    | Scalar(text: string)
    | Str(chars: seq<StrChar>)
    | Arr(inner: string, elems: seq<Elem>)
    | Obj(inner: string, members: seq<Member>)

  datatype Elem = Elem(before: string, value: Json, after: string)

  datatype Member = Member(lead: string, key: seq<StrChar>, trail: string, elem: Elem)

  predicate IsHex(c: char) {
    '0' <= c <= '9' || 'a' <= c <= 'f' || 'A' <= c <= 'F'
  }

  predicate ValidChar(sc: StrChar) {
    match sc
    case Plain(c) => c >= ' ' && c != '"' && c != '\\'
    case Escaped(c) => c in "\"\\/bfnrt"
    case Unicode(h1, h2, h3, h4) => IsHex(h1) && IsHex(h2) && IsHex(h3) && IsHex(h4)
  }

  predicate ValidString(cs: seq<StrChar>) {
    forall i :: 0 <= i < |cs| ==> ValidChar(cs[i])
  }

  /** Every number and literal name is written with these characters. */
  predicate ScalarChar(c: char) {
    '0' <= c <= '9' || 'a' <= c <= 'z' || c == 'E' || c == '+' || c == '-' || c == '.'
  }

  ghost predicate Valid(j: Json)
    decreases j, 0
  {
    match j
    case Scalar(text) => forall i :: 0 <= i < |text| ==> ScalarChar(text[i])
    case Str(chars) => ValidString(chars)
    case Arr(inner, elems) => AllSpace(inner) && forall i :: 0 <= i < |elems| ==> ValidElem(elems[i])
    case Obj(inner, members) => AllSpace(inner) && forall i :: 0 <= i < |members| ==> ValidMember(members[i])
  }

  ghost predicate ValidElem(e: Elem)
    decreases e, 0
  {
    AllSpace(e.before) && Valid(e.value) && AllSpace(e.after)
  }

  ghost predicate ValidMember(m: Member)
    decreases m, 0
  {
    AllSpace(m.lead) && ValidString(m.key) && AllSpace(m.trail) && ValidElem(m.elem)
  }

  function PrintChar(sc: StrChar): string {
    match sc
    case Plain(c) => [c]
    case Escaped(c) => ['\\', c]
    case Unicode(h1, h2, h3, h4) => ['\\', 'u', h1, h2, h3, h4]
  }

  function PrintChars(cs: seq<StrChar>): string {
    if cs == [] then "" else PrintChar(cs[0]) + PrintChars(cs[1..])
  }

  function PrintString(cs: seq<StrChar>): string {
    "\"" + (PrintChars(cs) + "\"")
  }

  function Print(j: Json): string
    decreases j, 0
  {
    match j
    case Scalar(text) => text
    case Str(chars) => PrintString(chars)
    case Arr(inner, elems) => "[" + (inner + (PrintElems(elems) + "]"))
    case Obj(inner, members) => "{" + (inner + (PrintMembers(members) + "}"))
  }

  function PrintElem(e: Elem): string
    decreases e, 0
  {
    e.before + (Print(e.value) + e.after)
  }

  function PrintElems(es: seq<Elem>): string
    decreases es, 0
  {
    if es == [] then "" else PrintElem(es[0]) + ((if |es| == 1 then "" else ",") + PrintElems(es[1..]))
  }

  function PrintMember(m: Member): string
    decreases m, 0
  {
    m.lead + (PrintString(m.key) + (m.trail + (":" + PrintElem(m.elem))))
  }

  function PrintMembers(ms: seq<Member>): string
    decreases ms, 0
  {
    if ms == [] then "" else PrintMember(ms[0]) + ((if |ms| == 1 then "" else ",") + PrintMembers(ms[1..]))
  }

  // ----- The scanner and JSON texts -----

  /** Reading `s` from state `st` ends in `st'` and meets no closing brace of the whole object. */
  ghost predicate Passes(s: string, st: Scanner, st': Scanner) {
    if s == "" then st == st' else !Closes(st, s[0]) && Passes(s[1..], Step(st, s[0]), st')
  }

  lemma {:induction false} PassesAppend(a: string, b: string, st: Scanner, mid: Scanner, st': Scanner)
    requires Passes(a, st, mid) && Passes(b, mid, st')
    ensures Passes(a + b, st, st')
  {
    if a == "" {
      assert a + b == b;
    } else {
      assert (a + b)[1..] == a[1..] + b;
      PassesAppend(a[1..], b, Step(st, a[0]), mid, st');
    }
  }

  lemma {:induction false} ScanAfter(a: string, b: string, st: Scanner, mid: Scanner)
    requires Passes(a, st, mid)
    ensures Scan(a + b, st) == (|a| + Scan(b, mid).0, Scan(b, mid).1)
  {
    if a == "" {
      assert a + b == b;
    } else {
      assert (a + b)[1..] == a[1..] + b;
      ScanAfter(a[1..], b, Step(st, a[0]), mid);
    }
  }

  /** Outside any string, and inside one, at depth d. */
  function Outside(d: int): Scanner { Scanner(d, false, false) }

  function Inside(d: int): Scanner { Scanner(d, true, false) }

  predicate Ordinary(c: char) {
    c != '"' && c != '\\' && c != '{' && c != '}'
  }

  lemma {:induction false} OrdinaryPasses(s: string, d: int)
    requires forall i :: 0 <= i < |s| ==> Ordinary(s[i])
    ensures Passes(s, Outside(d), Outside(d))
  {
    if s != "" {
      OrdinaryPasses(s[1..], d);
    }
  }

  lemma SpacePasses(s: string, d: int)
    requires AllSpace(s)
    ensures Passes(s, Outside(d), Outside(d))
  {
    forall i | 0 <= i < |s| ensures Ordinary(s[i]) { assert IsSpace(s[i]); }
    OrdinaryPasses(s, d);
  }

  lemma OnePasses(c: char, st: Scanner)
    requires !Closes(st, c)
    ensures Passes([c], st, Step(st, c))
  {
    assert [c][1..] == "";
  }

  lemma CharPasses(sc: StrChar, d: int)
    requires ValidChar(sc)
    ensures Passes(PrintChar(sc), Inside(d), Inside(d))
  {
    match sc
    case Plain(c) => OnePasses(c, Inside(d));
    case Escaped(c) =>
      OnePasses('\\', Inside(d));
      OnePasses(c, Step(Inside(d), '\\'));
      PassesAppend(['\\'], [c], Inside(d), Step(Inside(d), '\\'), Inside(d));
      assert ['\\'] + [c] == PrintChar(sc);
    case Unicode(h1, h2, h3, h4) =>
      var st := Step(Inside(d), '\\');
      OnePasses('\\', Inside(d));
      OnePasses('u', st);
      PassesAppend(['\\'], ['u'], Inside(d), st, Inside(d));
      OnePasses(h1, Inside(d));
      OnePasses(h2, Inside(d));
      OnePasses(h3, Inside(d));
      OnePasses(h4, Inside(d));
      PassesAppend(['\\'] + ['u'], [h1], Inside(d), Inside(d), Inside(d));
      PassesAppend(['\\'] + ['u'] + [h1], [h2], Inside(d), Inside(d), Inside(d));
      PassesAppend(['\\'] + ['u'] + [h1] + [h2], [h3], Inside(d), Inside(d), Inside(d));
      PassesAppend(['\\'] + ['u'] + [h1] + [h2] + [h3], [h4], Inside(d), Inside(d), Inside(d));
      assert ['\\'] + ['u'] + [h1] + [h2] + [h3] + [h4] == PrintChar(sc);
  }

  lemma {:induction false} CharsPass(cs: seq<StrChar>, d: int)
    requires ValidString(cs)
    ensures Passes(PrintChars(cs), Inside(d), Inside(d))
  {
    if cs != [] {
      CharPasses(cs[0], d);
      CharsPass(cs[1..], d);
      PassesAppend(PrintChar(cs[0]), PrintChars(cs[1..]), Inside(d), Inside(d), Inside(d));
    }
  }

  lemma StringPasses(cs: seq<StrChar>, d: int)
    requires ValidString(cs)
    ensures Passes(PrintString(cs), Outside(d), Outside(d))
  {
    OnePasses('"', Outside(d));
    CharsPass(cs, d);
    OnePasses('"', Inside(d));
    PassesAppend(PrintChars(cs), ['"'], Inside(d), Inside(d), Outside(d));
    PassesAppend(['"'], PrintChars(cs) + ['"'], Outside(d), Inside(d), Outside(d));
  }

  /** Three texts in a row, each of which leaves the scanner outside at depth d. */
  lemma Pass3(a: string, b: string, c: string, d: int)
    requires Passes(a, Outside(d), Outside(d)) && Passes(b, Outside(d), Outside(d)) && Passes(c, Outside(d), Outside(d))
    ensures Passes(a + (b + c), Outside(d), Outside(d))
  {
    PassesAppend(b, c, Outside(d), Outside(d), Outside(d));
    PassesAppend(a, b + c, Outside(d), Outside(d), Outside(d));
  }

  /** Inside an object, a whole JSON value leaves the scanner as it found it. */
  lemma {:induction false} ValuePasses(j: Json, d: int)
    requires Valid(j) && d >= 1
    ensures Passes(Print(j), Outside(d), Outside(d))
    decreases j, 0
  {
    match j
    case Scalar(text) =>
      forall i | 0 <= i < |text| ensures Ordinary(text[i]) { assert ScalarChar(text[i]); }
      OrdinaryPasses(text, d);
    case Str(chars) => StringPasses(chars, d);
    case Arr(inner, elems) =>
      OnePasses('[', Outside(d));
      OnePasses(']', Outside(d));
      SpacePasses(inner, d);
      ElemsPass(elems, d);
      Pass3(inner, PrintElems(elems), "]", d);
      PassesAppend("[", inner + (PrintElems(elems) + "]"), Outside(d), Outside(d), Outside(d));
    case Obj(inner, members) =>
      ObjectBody(j, d + 1);
      OnePasses('{', Outside(d));
      OnePasses('}', Outside(d + 1));
      PassesAppend(inner + PrintMembers(members), "}", Outside(d + 1), Outside(d + 1), Outside(d));
      PassesAppend("{", inner + PrintMembers(members) + "}", Outside(d), Outside(d + 1), Outside(d));
      assert Print(j) == "{" + (inner + PrintMembers(members) + "}");
  }

  /** Everything in an object between its braces. */
  lemma {:induction false} ObjectBody(j: Json, d: int)
    requires j.Obj? && Valid(j) && d >= 1
    ensures Passes(j.inner + PrintMembers(j.members), Outside(d), Outside(d))
    decreases j.members, 2
  {
    SpacePasses(j.inner, d);
    MembersPass(j.members, d);
    PassesAppend(j.inner, PrintMembers(j.members), Outside(d), Outside(d), Outside(d));
  }

  lemma {:induction false} ElemPasses(e: Elem, d: int)
    requires ValidElem(e) && d >= 1
    ensures Passes(PrintElem(e), Outside(d), Outside(d))
    decreases e, 0
  {
    SpacePasses(e.before, d);
    SpacePasses(e.after, d);
    ValuePasses(e.value, d);
    Pass3(e.before, Print(e.value), e.after, d);
  }

  lemma {:induction false} ElemsPass(es: seq<Elem>, d: int)
    requires (forall i :: 0 <= i < |es| ==> ValidElem(es[i])) && d >= 1
    ensures Passes(PrintElems(es), Outside(d), Outside(d))
    decreases es, 1
  {
    if es != [] {
      ElemPasses(es[0], d);
      ElemsPass(es[1..], d);
      OrdinaryPasses(if |es| == 1 then "" else ",", d);
      Pass3(PrintElem(es[0]), if |es| == 1 then "" else ",", PrintElems(es[1..]), d);
    }
  }

  lemma {:induction false} MemberPasses(m: Member, d: int)
    requires ValidMember(m) && d >= 1
    ensures Passes(PrintMember(m), Outside(d), Outside(d))
    decreases m, 0
  {
    SpacePasses(m.lead, d);
    StringPasses(m.key, d);
    SpacePasses(m.trail, d);
    OrdinaryPasses(":", d);
    ElemPasses(m.elem, d);
    Pass3(m.trail, ":", PrintElem(m.elem), d);
    Pass3(m.lead, PrintString(m.key), m.trail + (":" + PrintElem(m.elem)), d);
  }

  lemma {:induction false} MembersPass(ms: seq<Member>, d: int)
    requires (forall i :: 0 <= i < |ms| ==> ValidMember(ms[i])) && d >= 1
    ensures Passes(PrintMembers(ms), Outside(d), Outside(d))
    decreases ms, 1
  {
    if ms != [] {
      MemberPasses(ms[0], d);
      MembersPass(ms[1..], d);
      OrdinaryPasses(if |ms| == 1 then "" else ",", d);
      Pass3(PrintMember(ms[0]), if |ms| == 1 then "" else ",", PrintMembers(ms[1..]), d);
    }
  }

  /** The scan of a JSON object stops exactly at its end, with all braces closed, whatever follows. */
  lemma ObjectScan(j: Json, rest: string)
    requires j.Obj? && Valid(j)
    ensures Scan(Print(j) + rest, START) == (|Print(j)|, Outside(0))
  {
    var body := j.inner + PrintMembers(j.members);
    OnePasses('{', START);
    ObjectBody(j, 1);
    PassesAppend("{", body, START, Outside(1), Outside(1));
    var tail := "}" + rest;
    assert Print(j) + rest == ("{" + body) + tail;
    ScanAfter("{" + body, tail, START, Outside(1));
    assert tail[0] == '}' && Scan(tail, Outside(1)) == (1, Outside(0));
  }

  /** An object and the whitespace in front of it. */
  datatype Item = Item(gap: string, json: Json)

  ghost predicate ValidItem(it: Item) {
    AllSpace(it.gap) && it.json.Obj? && Valid(it.json)
  }

  function PrintItems(items: seq<Item>, trailer: string): string {
    if items == [] then trailer
    else items[0].gap + (Print(items[0].json) + PrintItems(items[1..], trailer))
  }

  function Gaps(items: seq<Item>, trailer: string): seq<string> {
    if items == [] then [trailer] else [items[0].gap] + Gaps(items[1..], trailer)
  }

  function Objects(items: seq<Item>): seq<string> {
    if items == [] then [] else [Print(items[0].json)] + Objects(items[1..])
  }

  lemma {:induction false} SpaceThen(gap: string, rest: string)
    requires AllSpace(gap) && (rest == "" || !IsSpace(rest[0]))
    ensures LeadingSpace(gap + rest) == |gap|
  {
    if gap == "" {
      assert gap + rest == rest;
    } else {
      assert (gap + rest)[1..] == gap[1..] + rest;
      SpaceThen(gap[1..], rest);
    }
  }

  /** For any list of well-formed JSON objects, with any whitespace between, before and after them,
      the pieces handed to the evaluator are exactly those objects. */
  lemma {:induction false} SplitObjects(items: seq<Item>, trailer: string)
    requires (forall i :: 0 <= i < |items| ==> ValidItem(items[i])) && AllSpace(trailer)
    ensures Split(PrintItems(items, trailer)) == Cut(Gaps(items, trailer), Objects(items))
  {
    var s := PrintItems(items, trailer);
    if items == [] {
      SpaceThen(trailer, "");
      assert trailer + "" == trailer;
    } else {
      var gap, text, rest := items[0].gap, Print(items[0].json), PrintItems(items[1..], trailer);
      SplitObjects(items[1..], trailer);
      assert ValidItem(items[0]);
      ObjectScan(items[0].json, rest);
      SplitOne(gap, text, rest);
    }
  }

  lemma SplitOne(gap: string, text: string, rest: string)
    requires AllSpace(gap) && text != "" && !IsSpace(text[0]) && Scan(text + rest, START) == (|text|, Outside(0))
    ensures Split(gap + (text + rest)) == Cut([gap] + Split(rest).gaps, [text] + Split(rest).pieces)
  {
    var s := gap + (text + rest);
    SpaceThen(gap, text + rest);
    assert s[|gap|..] == text + rest && s[..|gap|] == gap;
    assert (text + rest)[..|text|] == text && (text + rest)[|text|..] == rest;
  }
}
