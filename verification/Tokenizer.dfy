/** The command-line tokenizer of the console: blanks separate, quotes group, quotes are stripped. */
module Tokenizer {
  import opened Basics

  /** The index of the first c, or the length if there is none. */
  function IndexOf(s: string, c: char): (k: nat)
    ensures k <= |s|
    ensures k < |s| ==> s[k] == c
  {
    if s == "" || s[0] == c then 0 else 1 + IndexOf(s[1..], c)
  }

  /** How many blanks the string starts with. */
  function Blanks(s: string): (k: nat)
    ensures k <= |s|
    ensures k < |s| ==> s[k] != ' '
  {
    if s == "" || s[0] != ' ' then 0 else 1 + Blanks(s[1..])
  }

  function Drop(s: string, k: nat): string {
    if k <= |s| then s[k..] else ""
  }

  function Tokens(s: string): seq<string>
    decreases |s|
  {
    if s == "" then []
    else if s[0] == '"' then
      var k := IndexOf(s[1..], '"');
      [s[1..1 + k]] + Tokens(Drop(s, k + 2))
    else if s[0] != ' ' then
      var k := IndexOf(s, ' ');
      [s[..k]] + Tokens(s[k..])
    else
      Tokens(s[Blanks(s)..])
  }

  /** The position of the first c at or after pos, or the length if there is none. */
  function Find(line: string, pos: nat, c: char): (k: nat)
    requires pos <= |line|
    ensures pos <= k <= |line|
    decreases |line| - pos
  {
    if pos == |line| || line[pos] == c then pos else Find(line, pos + 1, c)
  }

  lemma {:induction false} FindIs(line: string, pos: nat, c: char)
    requires pos <= |line|
    ensures Find(line, pos, c) == pos + IndexOf(line[pos..], c)
    decreases |line| - pos
  {
    if pos < |line| && line[pos] != c {
      FindIs(line, pos + 1, c);
      assert line[pos..][1..] == line[pos + 1..];
    }
  }

  /** Gather everything up to the next c, or to the end. */
  method Gather(line: string, start: nat, c: char) returns (pos: nat, buff: string)
    requires start <= |line|
    ensures pos == start + IndexOf(line[start..], c) && pos <= |line|
    ensures buff == line[start..pos]
  {
    FindIs(line, start, c);
    ghost var end := Find(line, start, c);
    pos, buff := GatherTo(line, start, c, end);
  }

  method GatherTo(line: string, start: nat, c: char, ghost end: nat) returns (pos: nat, buff: string)
    requires start <= |line| && end == Find(line, start, c)
    ensures pos == end && buff == line[start..pos]
  {
    pos := start;
    buff := "";
    while c != At(line, pos) && pos < |line|
      invariant start <= pos <= |line| && buff == line[start..pos]
      invariant Find(line, pos, c) == end
      decreases |line| - pos
    {
      SliceSnoc(line, start, pos);
      buff := buff + [line[pos]];
      pos := pos + 1;
    }
  }

  method SkipBlanks(line: string, start: nat) returns (pos: nat)
    requires start <= |line|
    ensures pos == start + Blanks(line[start..]) && pos <= |line|
  {
    pos := start;
    while ' ' == At(line, pos) && pos < |line|
      invariant start <= pos <= |line|
      invariant pos + Blanks(line[pos..]) == start + Blanks(line[start..])
      decreases |line| - pos
    {
      assert line[pos..][1..] == line[pos + 1..];
      pos := pos + 1;
    }
  }

  lemma QuotedSlices(line: string, pos: nat, end: nat)
    requires pos < end <= |line|
    ensures var s := Drop(line, pos);
            && s == line[pos..] && s[1..] == line[pos + 1..]
            && s[1..end - pos] == line[pos + 1..end] && Drop(s, end + 1 - pos) == Drop(line, end + 1)
  {
  }

  lemma QuotedTokens(s: string, k: nat)
    requires s != "" && s[0] == '"' && k == IndexOf(s[1..], '"')
    ensures Tokens(s) == [s[1..1 + k]] + Tokens(Drop(s, k + 2))
  {
  }

  lemma QuotedStep(line: string, pos: nat, end: nat, buff: string)
    requires pos < |line| && line[pos] == '"' && end == pos + 1 + IndexOf(line[pos + 1..], '"')
    requires buff == line[pos + 1..end]
    ensures Tokens(Drop(line, pos)) == [buff] + Tokens(Drop(line, end + 1))
  {
    QuotedSlices(line, pos, end);
    QuotedTokens(Drop(line, pos), end - pos - 1);
  }

  lemma BareStep(line: string, pos: nat, end: nat, buff: string)
    requires pos < |line| && line[pos] != '"' && line[pos] != ' ' && end == pos + IndexOf(line[pos..], ' ')
    requires buff == line[pos..end]
    ensures pos < end && Tokens(Drop(line, pos)) == [buff] + Tokens(Drop(line, end))
  {
    var s := line[pos..];
    assert s[..end - pos] == buff && s[end - pos..] == line[end..];
  }

  lemma BlankStep(line: string, pos: nat, end: nat)
    requires pos < |line| && line[pos] == ' ' && end == pos + Blanks(line[pos..])
    ensures pos < end && Tokens(Drop(line, pos)) == [] + Tokens(Drop(line, end))
  {
    assert line[pos..][end - pos..] == line[end..];
  }

  method QuotedTurn(line: string, pos: nat) returns (next: nat, buff: string)
    requires pos < |line| && line[pos] == '"'
    ensures pos < next <= |line| + 1
    ensures Tokens(Drop(line, pos)) == [buff] + Tokens(Drop(line, next))
  {
    next, buff := Gather(line, pos + 1, '"');
    QuotedStep(line, pos, next, buff);
    next := next + 1;
  }

  method BareTurn(line: string, pos: nat) returns (next: nat, buff: string)
    requires pos < |line| && line[pos] != '"' && line[pos] != ' '
    ensures pos < next <= |line|
    ensures Tokens(Drop(line, pos)) == [buff] + Tokens(Drop(line, next))
  {
    next, buff := Gather(line, pos, ' ');
    BareStep(line, pos, next, buff);
  }

  /** One turn of the outer loop: a quoted token, a bare one, or a run of blanks. */
  method Turn(line: string, pos: nat) returns (next: nat, more: seq<string>)
    requires pos < |line|
    ensures pos < next <= |line| + 1
    ensures Tokens(Drop(line, pos)) == more + Tokens(Drop(line, next))
  {
    var buff;
    if '"' == At(line, pos) {
      next, buff := QuotedTurn(line, pos);
      more := [buff];
    } else if ' ' != At(line, pos) {
      next, buff := BareTurn(line, pos);
      more := [buff];
    } else {
      next := SkipBlanks(line, pos);
      BlankStep(line, pos, next);
      more := [];
    }
  }

  /** `simple_tokenize`: terminates on every line and never reads past index len. */
  method SimpleTokenize(line: string) returns (params: seq<string>)
    ensures params == Tokens(line)
  {
    params := [];
    var pos := 0;
    ghost var left := Tokens(Drop(line, 0));
    while pos < |line|
      invariant pos <= |line| + 1
      invariant left == Tokens(Drop(line, pos)) && params + left == Tokens(line)
      decreases |line| + 1 - pos
    {
      var next, more := Turn(line, pos);
      left := Tokens(Drop(line, next));
      Regroup(params, more, left);
      params := params + more;
      pos := next;
    }
    assert Drop(line, pos) == "";
  }

  // ----- The round trip -----

  /** A token as a user may write it. */
  datatype Token = Quoted(text: string) | Bare(text: string)

  predicate Valid(t: Token) {
    match t
    case Quoted(text) => '"' !in text
    case Bare(text) => text != "" && ' ' !in text && text[0] != '"'
  }

  function Print(t: Token): string {
    match t
    case Quoted(text) => "\"" + text + "\""
    case Bare(text) => text
  }

  function Spaces(n: nat): string {
    seq(n, _ => ' ')
  }

  /** A token and the blanks that follow it. */
  datatype Item = Item(token: Token, gap: nat)

  /** Every token is valid, and all but the last are followed by at least one blank. */
  predicate Separated(items: seq<Item>) {
    && (forall i :: 0 <= i < |items| ==> Valid(items[i].token))
    && (forall i :: 0 <= i < |items| - 1 ==> items[i].gap > 0)
  }

  function PrintItems(items: seq<Item>): string {
    if items == [] then "" else Print(items[0].token) + (Spaces(items[0].gap) + PrintItems(items[1..]))
  }

  function Texts(items: seq<Item>): seq<string> {
    if items == [] then [] else [items[0].token.text] + Texts(items[1..])
  }

  lemma {:induction false} IndexOfIn(a: string, b: string, c: char)
    requires c !in a && (b == "" || b[0] == c)
    ensures IndexOf(a + b, c) == |a|
  {
    if a == "" {
      assert a + b == b;
    } else {
      assert (a + b)[1..] == a[1..] + b;
      IndexOfIn(a[1..], b, c);
    }
  }

  lemma {:induction false} BlanksThen(n: nat, b: string)
    requires b == "" || b[0] != ' '
    ensures Blanks(Spaces(n) + b) == n
  {
    if n == 0 {
      assert Spaces(0) + b == b;
    } else {
      assert (Spaces(n) + b)[1..] == Spaces(n - 1) + b;
      BlanksThen(n - 1, b);
    }
  }

  /** Leading blanks make no difference. */
  lemma TokensAfterBlanks(n: nat, b: string)
    requires b == "" || b[0] != ' '
    ensures Tokens(Spaces(n) + b) == Tokens(b)
  {
    BlanksThen(n, b);
    if n == 0 {
      assert Spaces(0) + b == b;
    } else {
      assert (Spaces(n) + b)[n..] == b;
    }
  }

  lemma QuotedComesOff(text: string, rest: string)
    requires '"' !in text
    ensures Tokens("\"" + text + "\"" + rest) == [text] + Tokens(rest)
  {
    var s := "\"" + text + "\"" + rest;
    assert s[1..] == text + ("\"" + rest);
    IndexOfIn(text, "\"" + rest, '"');
    QuotedStep(s, 0, 1 + |text|, text);
    assert Drop(s, |text| + 2) == rest && Drop(s, 0) == s;
  }

  /** A quote that is never closed takes the rest of the line as the last token. */
  lemma UnclosedQuote(text: string)
    requires '"' !in text
    ensures Tokens("\"" + text) == [text]
  {
    var s := "\"" + text;
    Halves("\"", text);
    IndexOfIn(text, "", '"');
    assert text + "" == text;
    QuotedStep(s, 0, |s|, text);
    assert Drop(s, |s| + 1) == "" && Drop(s, 0) == s;
  }

  lemma BareComesOff(text: string, rest: string)
    requires Valid(Bare(text)) && (rest == "" || rest[0] == ' ')
    ensures Tokens(text + rest) == [text] + Tokens(rest)
  {
    var s := text + rest;
    assert text[0] in text && s[0] == text[0] && s[0..] == s;
    IndexOfIn(text, rest, ' ');
    BareStep(s, 0, |text|, text);
    assert Drop(s, |text|) == rest && Drop(s, 0) == s;
  }

  /** One printed token at the front of a line comes off as its text. */
  lemma TokenComesOff(t: Token, rest: string)
    requires Valid(t) && (rest == "" || rest[0] == ' ')
    ensures Tokens(Print(t) + rest) == [t.text] + Tokens(rest)
  {
    match t
    case Quoted(text) => QuotedComesOff(text, rest);
    case Bare(text) => BareComesOff(text, rest);
  }

  lemma PrintedStarts(items: seq<Item>)
    requires Separated(items)
    ensures PrintItems(items) == "" || PrintItems(items)[0] != ' '
  {
  }

  /** Any list of tokens, each printed quoted or bare, with any blanks between, before and after,
      comes back as the original list. */
  lemma {:induction false} RoundTrip(lead: nat, items: seq<Item>)
    requires Separated(items)
    ensures Tokens(Spaces(lead) + PrintItems(items)) == Texts(items)
    decreases |items|
  {
    PrintedStarts(items);
    TokensAfterBlanks(lead, PrintItems(items));
    if items != [] {
      var rest := Spaces(items[0].gap) + PrintItems(items[1..]);
      assert |items| == 1 ==> PrintItems(items[1..]) == "";
      TokenComesOff(items[0].token, rest);
      RoundTrip(items[0].gap, items[1..]);
    }
  }
}
