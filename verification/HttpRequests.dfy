/** HTTP requests as clients print them, and what a keep-alive connection makes of them. */
module HttpRequests {
  import opened Basics
  import opened StreamReader
  import opened HttpKeepAlive
  import Bits

  // ---- Decimal numbers -------------------------------------------------------------------------

  function Digit(d: nat): (c: char)
    requires d < 10
    ensures IsDigit(c) && c as int == '0' as int + d
  {
    '0' + d as char
  }

  lemma DigitIs(c: char)
    ensures IsDigit(c) <==> c in "0123456789"
  {
  }

  function Dec(n: nat): (s: string)
    ensures s != "" && IsDigit(s[0])
    ensures forall c :: c in s ==> IsDigit(c)
  {
    if n < 10 then [Digit(n)] else Dec(n / 10) + [Digit(n % 10)]
  }

  lemma {:induction false} ValueSnoc(s: string, d: nat, acc: nat)
    requires d < 10 && forall c :: c in s ==> IsDigit(c)
    ensures Value(s + [Digit(d)], acc) == 10 * Value(s, acc) + d
  {
    if s == "" {
      assert s + [Digit(d)] == [Digit(d)];
    } else {
      assert s[0] in s;
      assert (s + [Digit(d)])[1..] == s[1..] + [Digit(d)];
      ValueSnoc(s[1..], d, 10 * acc + (s[0] as int - '0' as int));
    }
  }

  lemma {:induction false} ValueOfDec(n: nat)
    ensures Value(Dec(n), 0) == n
  {
    if n >= 10 {
      ValueOfDec(n / 10);
      ValueSnoc(Dec(n / 10), n % 10, 0);
    }
  }

  /** Printing a number and reading it back: exact up to the largest `int`, an exception above. */
  lemma StoiOfDec(n: nat)
    ensures Stoi(Dec(n)) == if n <= INT_MAX then Some(n) else None
  {
    ValueOfDec(n);
    assert SkipSpace(Dec(n)) == Dec(n);
  }

  lemma {:induction false} ValueStops(s: string, tail: string, acc: nat)
    requires (forall c :: c in s ==> IsDigit(c)) && (tail == "" || !IsDigit(tail[0]))
    ensures Value(s + tail, acc) == Value(s, acc)
  {
    if s == "" {
      assert s + tail == tail;
    } else {
      assert s[0] in s;
      assert (s + tail)[1..] == s[1..] + tail;
      ValueStops(s[1..], tail, 10 * acc + (s[0] as int - '0' as int));
    }
  }

  lemma {:induction false} SpaceSkipped(ws: string, t: string)
    requires (forall c :: c in ws ==> IsSpace(c)) && (t == "" || !IsSpace(t[0]))
    ensures SkipSpace(ws + t) == t
  {
    if ws == "" {
      assert ws + t == t;
    } else {
      assert ws[0] in ws;
      assert (ws + t)[1..] == ws[1..] + t;
      SpaceSkipped(ws[1..], t);
    }
  }

  /** `std::stoi` in general: white space, a sign or none, digits, and anything that is no digit. */
  lemma StoiReads(ws: string, sign: string, n: nat, tail: string)
    requires (forall c :: c in ws ==> IsSpace(c)) && sign in ["", "+", "-"] && (tail == "" || !IsDigit(tail[0]))
    ensures var v: int := if sign == "-" then 0 - n else n;
            Stoi(ws + (sign + (Dec(n) + tail))) == if -0x8000_0000 <= v <= 0x7fff_ffff then Some(v) else None
  {
    var t, u := sign + (Dec(n) + tail), Dec(n) + tail;
    ValueOfDec(n);
    ValueStops(Dec(n), tail, 0);
    assert u[0] == Dec(n)[0];
    assert sign != "" ==> t[0] == sign[0] && t[1..] == u;
    assert sign == "" ==> t == u;
    SpaceSkipped(ws, t);
  }

  /** And without a digit it throws. */
  lemma StoiFails(ws: string, sign: string, tail: string)
    requires (forall c :: c in ws ==> IsSpace(c)) && sign in ["", "+", "-"] && (tail == "" || !IsDigit(tail[0]))
    requires sign == "" ==> tail == "" || (!IsSpace(tail[0]) && tail[0] != '+' && tail[0] != '-')
    ensures Stoi(ws + (sign + tail)) == None
  {
    var t := sign + tail;
    assert sign != "" ==> t[0] == sign[0] && t[1..] == tail;
    assert sign == "" ==> t == tail;
    SpaceSkipped(ws, t);
  }

  /** A negative length asks for a body that no stream has. */
  lemma NegativeLength(st: Http, n: nat)
    requires 0 < n <= 0x8000_0000
    ensures SetLength(st, "-" + Dec(n)) == Go(st.(contentLength := 0x1_0000_0000_0000_0000 - n))
  {
    StoiReads("", "-", n, "");
    assert "" + ("-" + (Dec(n) + "")) == "-" + Dec(n);
    Bits.DivModIs(0x1_0000_0000_0000_0000 - n, 0x1_0000_0000_0000_0000, 0, 0x1_0000_0000_0000_0000 - n);
    assert (0 - n) % 0x1_0000_0000_0000_0000 == 0x1_0000_0000_0000_0000 - n;
  }

  // ---- Header fields by name -------------------------------------------------------------------

  lemma LengthNames(v: string)
    ensures FieldOf("Content-Length: " + v) == Length(v) && FieldOf("content-length: " + v) == Length(v)
  {
    Halves("Content-Length: ", v);
    Halves("content-length: ", v);
  }

  lemma HostNames(v: string)
    ensures FieldOf("Host: " + v) == Host(v) && FieldOf("host: " + v) == Host(v)
  {
    Halves("Host: ", v);
    Halves("host: ", v);
    assert ("Host: " + v)[0] == 'H' && ("host: " + v)[0] == 'h';
  }

  lemma OtherNames(v: string)
    ensures FieldOf("connection: keep-alive" + v) == KeepAlive
    ensures FieldOf("Upgrade: websocket" + v) == Upgrade
    ensures FieldOf("Sec-WebSocket-Key: " + v) == Key(v)
  {
    assert ("connection: keep-alive" + v)[0] == 'c' && ("connection: keep-alive" + v)[3] == 'n';
    assert "content-length: "[3] == 't';
    assert ("Upgrade: websocket" + v)[0] == 'U';
    assert ("Sec-WebSocket-Key: " + v)[0] == 'S';
    Halves("Sec-WebSocket-Key: ", v);
  }

  /** Each field the server knows changes its own part of the state and nothing else. */
  lemma FieldEffects(st: Http, v: string, accepts: string -> bool)
    requires st.gotFirst && !st.gotHeader
    ensures Handshake(st, "Host: " + v, accepts) == Go(st.(host := v))
    ensures Handshake(st, "host: " + v, accepts) == Go(st.(host := v))
    ensures Handshake(st, "connection: keep-alive" + v, accepts) == Go(st.(keepAlive := true))
    ensures Handshake(st, "Upgrade: websocket" + v, accepts) == Go(st.(upgrade := true))
    ensures Handshake(st, "Sec-WebSocket-Key: " + v, accepts) == Go(st.(webkey := v))
    ensures Handshake(st, "Content-Length: " + v, accepts) == SetLength(st, v)
    ensures Handshake(st, "content-length: " + v, accepts) == SetLength(st, v)
  {
    LengthNames(v);
    HostNames(v);
    OtherNames(v);
  }

  /** Any other line changes nothing. */
  lemma OtherFieldsIgnored(st: Http, line: string, accepts: string -> bool)
    requires st.gotFirst && !st.gotHeader && line != ""
    requires !("Content-Length: " <= line) && !("content-length: " <= line) && !("Host: " <= line) && !("host: " <= line)
    requires !("connection: keep-alive" <= line) && !("Upgrade: websocket" <= line) && !("Sec-WebSocket-Key: " <= line)
    ensures Handshake(st, line, accepts) == Go(st)
  {
  }

  // ---- Requests --------------------------------------------------------------------------------

  datatype Verb = Get | Post

  /** `upgrade` is what follows in a field that asks for a WebSocket, `length` the name of the field
      that carries the length of the body, if there are such fields. */
  datatype Request = Request(
    verb: Verb, url: string, version: string,
    before: seq<string>, upgrade: Option<string>, length: Option<string>, after: seq<string>, body: string)

  function Crlf(line: string): string {
    line + "\r\n"
  }

  function VerbText(v: Verb): string {
    match v case Get => "GET " case Post => "POST "
  }

  function RequestLine(q: Request): string {
    VerbText(q.verb) + q.url + " " + q.version
  }

  function LengthLine(name: string, n: nat): string {
    name + ": " + Dec(n)
  }

  function PrintLines(ls: seq<string>): string {
    if ls == [] then "" else Crlf(ls[0]) + PrintLines(ls[1..])
  }

  function LengthField(q: Request): string {
    match q.length case None => "" case Some(name) => Crlf(LengthLine(name, |q.body|))
  }

  function UpgradeField(q: Request): string {
    match q.upgrade case None => "" case Some(more) => Crlf("Upgrade: websocket" + more)
  }

  function Head(q: Request): string {
    Crlf(RequestLine(q)) + PrintLines(q.before) + UpgradeField(q) + LengthField(q) + PrintLines(q.after) + Crlf("")
  }

  function Print(q: Request): string {
    Head(q) + q.body
  }

  function PrintAll(qs: seq<Request>): string {
    if qs == [] then "" else Print(qs[0]) + PrintAll(qs[1..])
  }

  function Pairs(qs: seq<Request>): seq<(string, string)> {
    if qs == [] then [] else [(qs[0].url, qs[0].body)] + Pairs(qs[1..])
  }

  /** No byte at which reading a line stops. */
  predicate Whole(s: string) {
    '\n' !in s && EOT !in s && IAC !in s
  }

  /** A line that is read whole and is not taken for a D-Bus greeting. */
  predicate Clean(line: string) {
    Whole(line) && !IsDbus(line)
  }

  /** A header field that neither sets the length of the body nor asks for a WebSocket. */
  predicate Ordinary(line: string) {
    && Clean(line) && line != ""
    && !("Content-Length: " <= line) && !("content-length: " <= line) && !("Upgrade: websocket" <= line)
  }

  /** A request whose field names are free; the body may hold any bytes. */
  predicate Sendable(q: Request) {
    && ' ' !in q.url && Whole(q.url) && Whole(q.version)
    && (forall h :: h in q.before ==> Ordinary(h))
    && (forall h :: h in q.after ==> Ordinary(h))
    && (q.upgrade.Some? ==> Whole(q.upgrade.value))
    && (match q.length
        case None => q.body == ""
        case Some(name) => Clean(name) && ':' !in name)
  }

  /** The two spellings the server knows. */
  predicate KnownName(name: string) {
    name == "Content-Length" || name == "content-length"
  }

  /** A request the server understands. */
  predicate Understood(q: Request) {
    Sendable(q) && q.upgrade.None? && (q.length.Some? ==> KnownName(q.length.value) && |q.body| <= INT_MAX)
  }

  /** Ready for the first line of a request. */
  predicate Between(st: Http) {
    !st.gotFirst && !st.gotHeader && !st.upgrade && st.contentLength == 0
  }

  // ---- One line --------------------------------------------------------------------------------

  lemma {:induction false} CleanUnfinished(s: string)
    requires Whole(s)
    ensures LineEnd(s).Unfinished?
  {
    if s != "" {
      assert s[0] in s;
      CleanUnfinished(s[1..]);
    }
  }

  lemma LineStep(line: string, t: string, st: Http, accepts: string -> bool)
    requires Clean(line)
    ensures HttpRun(Crlf(line) + t, st, accepts) == AfterHandshake(t, Handshake(st, line, accepts), accepts)
  {
    var raw := line + "\r";
    var s := raw + ("\n" + t);
    assert Crlf(line) + t == s;
    CleanUnfinished(raw);
    LineEndAppend(raw, "\n" + t);
    assert s[..|raw|] == raw;
    assert s[|raw| + 1..] == t;
    assert StripCr(raw) == line;
    assert !IsDbus(raw);
  }

  // ---- What a report does not depend on --------------------------------------------------------

  /** States that differ only in what has no bearing on the requests to come. */
  predicate Same(a: Http, b: Http) {
    && a.gotFirst == b.gotFirst
    && a.gotHeader == b.gotHeader
    && a.upgrade == b.upgrade
    && a.contentLength == b.contentLength
    && (a.gotFirst ==> a.url == b.url)
  }

  predicate SameOutcome(a: Outcome, b: Outcome) {
    match a
    case Go(sa) => b.Go? && Same(sa, b.st) && (sa.gotHeader ==> sa.gotFirst)
    case _ => a == b
  }

  lemma SameField(a: Http, b: Http, f: Field)
    requires Same(a, b) && a.gotFirst && !a.gotHeader
    ensures SameOutcome(SetField(a, f), SetField(b, f))
  {
  }

  lemma SameHandshake(a: Http, b: Http, line: string, accepts: string -> bool)
    requires Same(a, b) && !a.gotHeader
    ensures SameOutcome(Handshake(a, line, accepts), Handshake(b, line, accepts))
  {
    if a.gotFirst {
      SameField(a, b, FieldOf(line));
    }
  }

  lemma {:induction false} SameRun(s: string, a: Http, b: Http, accepts: string -> bool)
    requires Same(a, b) && !a.gotHeader
    ensures HttpRun(s, a, accepts) == HttpRun(s, b, accepts)
    decreases |s|
  {
    if LineEnd(s).Newline? {
      var k := LineEnd(s).k;
      var line, rest := StripCr(s[..k]), s[k + 1..];
      SameHandshake(a, b, line, accepts);
      var x, y := Handshake(a, line, accepts), Handshake(b, line, accepts);
      if x.Go? {
        if !x.st.gotHeader {
          SameRun(rest, x.st, y.st, accepts);
        } else if x.st.contentLength <= |rest| {
          SameRun(rest[x.st.contentLength..], NextRequest(x.st), NextRequest(y.st), accepts);
        }
      }
    }
  }

  // ---- Header fields ---------------------------------------------------------------------------

  predicate InHeader(st: Http) {
    st.gotFirst && !st.gotHeader
  }

  lemma OrdinaryField(line: string)
    requires Ordinary(line)
    ensures !FieldOf(line).Length? && !FieldOf(line).Upgrade?
  {
  }

  lemma OrdinaryStep(line: string, t: string, st: Http, accepts: string -> bool)
    requires InHeader(st) && Ordinary(line)
    ensures HttpRun(Crlf(line) + t, st, accepts) == HttpRun(t, st, accepts)
  {
    OrdinaryField(line);
    LineStep(line, t, st, accepts);
    var out := SetField(st, FieldOf(line));
    assert out.Go? && Same(out.st, st);
    SameRun(t, out.st, st, accepts);
  }

  lemma {:induction false} OrdinaryRun(ls: seq<string>, t: string, st: Http, accepts: string -> bool)
    requires InHeader(st) && forall h :: h in ls ==> Ordinary(h)
    ensures HttpRun(PrintLines(ls) + t, st, accepts) == HttpRun(t, st, accepts)
  {
    if ls == [] {
      assert PrintLines(ls) + t == t;
    } else {
      var rest := PrintLines(ls[1..]) + t;
      assert PrintLines(ls) + t == Crlf(ls[0]) + rest;
      assert ls[0] in ls;
      OrdinaryStep(ls[0], rest, st, accepts);
      OrdinaryRun(ls[1..], t, st, accepts);
    }
  }

  /** A field whose name has no colon starts with a given field name only if it is that name. */
  lemma NameOfPrefix(name: string, n: nat, known: string)
    requires ':' !in name && ':' !in known
    ensures known + ": " <= LengthLine(name, n) <==> name == known
  {
    var line := LengthLine(name, n);
    assert line[..|name|] == name && line[|name|] == ':';
    if known + ": " <= line {
      assert line[|known|] == ':' && line[..|known|] == known;
      assert forall i :: 0 <= i < |name| ==> line[i] == name[i];
      assert forall i :: 0 <= i < |known| ==> line[i] == known[i];
    }
    if name == known {
      assert line == (known + ": ") + Dec(n);
    }
  }

  lemma LengthLineClean(name: string, n: nat)
    requires Clean(name) && ':' !in name
    ensures Clean(LengthLine(name, n))
  {
    var line := LengthLine(name, n);
    forall i | 0 <= i < |line| ensures line[i] != '\n' && line[i] != EOT && line[i] != IAC {
      if i < |name| {
        assert line[i] == name[i] && name[i] in name;
      } else if i >= |name| + 2 {
        assert line[i] == Dec(n)[i - |name| - 2] && line[i] in Dec(n);
      }
    }
    assert 0 < |name| ==> line[0] == name[0];
    assert 1 < |name| ==> line[1] == name[1];
  }

  lemma NoUpgrade(name: string, n: nat)
    requires ':' !in name
    ensures !("Upgrade: websocket" <= LengthLine(name, n))
  {
    var line := LengthLine(name, n);
    NameOfPrefix(name, n, "Upgrade");
    assert name == "Upgrade" ==> line[9] == Dec(n)[0];
  }

  lemma UnknownIsOrdinary(name: string, n: nat)
    requires Clean(name) && ':' !in name && !KnownName(name)
    ensures Ordinary(LengthLine(name, n))
  {
    LengthLineClean(name, n);
    NameOfPrefix(name, n, "Content-Length");
    NameOfPrefix(name, n, "content-length");
    NoUpgrade(name, n);
  }

  lemma KnownField(name: string, n: nat)
    requires KnownName(name)
    ensures LengthLine(name, n) != "" && FieldOf(LengthLine(name, n)) == Length(Dec(n))
    ensures Stoi(Dec(n)) == if n <= INT_MAX then Some(n) else None
  {
    NameOfPrefix(name, n, "Content-Length");
    NameOfPrefix(name, n, "content-length");
    Halves(name + ": ", Dec(n));
    StoiOfDec(n);
  }

  /** The length field: a known name sets the length, a number too large for `int` is fatal, and any
      other name is ignored. */
  lemma LengthRun(name: string, n: nat, t: string, st: Http, accepts: string -> bool)
    requires InHeader(st) && Clean(name) && ':' !in name
    ensures HttpRun(Crlf(LengthLine(name, n)) + t, st, accepts) ==
            if !KnownName(name) then HttpRun(t, st, accepts)
            else if n <= INT_MAX then HttpRun(t, st.(contentLength := n), accepts)
            else Report([], Broken)
  {
    if KnownName(name) {
      KnownField(name, n);
      LengthLineClean(name, n);
      LineStep(LengthLine(name, n), t, st, accepts);
    } else {
      UnknownIsOrdinary(name, n);
      OrdinaryStep(LengthLine(name, n), t, st, accepts);
    }
  }

  // ---- One request -----------------------------------------------------------------------------

  lemma {:induction false} ToSpaceStops(url: string, t: string)
    requires ' ' !in url
    ensures ToSpace(url + (" " + t)) == url
  {
    if url != "" {
      assert url[0] in url;
      assert (url + (" " + t))[1..] == url[1..] + (" " + t);
      ToSpaceStops(url[1..], t);
    } else {
      assert url + (" " + t) == " " + t;
    }
  }

  lemma RequestLineClean(q: Request)
    requires Whole(q.url) && Whole(q.version)
    ensures Clean(RequestLine(q))
  {
    var line := RequestLine(q);
    assert line == VerbText(q.verb) + (q.url + " " + q.version);
    assert line[0] == VerbText(q.verb)[0];
  }

  lemma UrlOfRequestLine(q: Request)
    requires ' ' !in q.url
    ensures UrlOf(RequestLine(q)) == Some(q.url)
  {
    var line, v := RequestLine(q), VerbText(q.verb);
    ToSpaceStops(q.url, q.version);
    assert line == v + (q.url + (" " + q.version));
    assert line[|v|..] == q.url + (" " + q.version);
    assert q.verb.Post? ==> line[0] == 'P';
  }

  /** Without a version the URL goes to the end of the line. */
  lemma UrlToTheEnd(verb: Verb, url: string)
    requires ' ' !in url
    ensures UrlOf(VerbText(verb) + url) == Some(url)
  {
    NoSpace(url);
    Halves(VerbText(verb), url);
    assert verb.Post? ==> (VerbText(verb) + url)[0] == 'P';
  }

  lemma {:induction false} NoSpace(url: string)
    requires ' ' !in url
    ensures ToSpace(url) == url
  {
    if url != "" {
      assert url[0] in url;
      NoSpace(url[1..]);
    }
  }

  lemma FirstLineRun(q: Request, t: string, st: Http, accepts: string -> bool)
    requires Between(st) && Sendable(q)
    ensures HttpRun(Crlf(RequestLine(q)) + t, st, accepts) ==
            HttpRun(t, st.(gotFirst := true, url := q.url), accepts)
  {
    RequestLineClean(q);
    UrlOfRequestLine(q);
    LineStep(RequestLine(q), t, st, accepts);
  }

  /** A field that asks for a WebSocket. */
  lemma UpgradeRun(q: Request, t: string, st: Http, accepts: string -> bool)
    requires InHeader(st) && Sendable(q)
    ensures HttpRun(UpgradeField(q) + t, st, accepts) ==
            HttpRun(t, if q.upgrade.Some? then st.(upgrade := true) else st, accepts)
  {
    match q.upgrade
    case None => assert "" + t == t;
    case Some(more) =>
      var line := "Upgrade: websocket" + more;
      UpgradeLine(more);
      LineStep(line, t, st, accepts);
  }

  lemma UpgradeLine(more: string)
    requires Whole(more)
    ensures var line := "Upgrade: websocket" + more; line != "" && Clean(line) && FieldOf(line) == Upgrade
  {
    OtherNames(more);
    assert ("Upgrade: websocket" + more)[0] == 'U';
  }

  /** The blank line: a refused URL closes the connection, an upgrade ends it as HTTP, and otherwise as
      many bytes as declared are the body, if there are so many. */
  lemma BlankLineRun(t: string, st: Http, accepts: string -> bool)
    requires InHeader(st)
    ensures HttpRun(Crlf("") + t, st, accepts) ==
            if !accepts(st.url) then Report([], Closed)
            else if st.upgrade then Report([(st.url, "")], Upgraded)
            else if |t| < st.contentLength then Report([], Eof)
            else Prepend([(st.url, t[..st.contentLength])], HttpRun(t[st.contentLength..], START, accepts))
  {
    LineStep("", t, st, accepts);
    if !st.upgrade && st.contentLength <= |t| {
      SameRun(t[st.contentLength..], NextRequest(st.(gotHeader := true)), START, accepts);
    }
  }

  /** The length with which the body of a request is read. */
  function LengthRead(q: Request): nat {
    if q.length.Some? && KnownName(q.length.value) then |q.body| else 0
  }

  lemma SplitHead(a: string, b: string, c: string, d: string, e: string, f: string, t: string)
    ensures a + b + c + d + e + f + t == a + (b + (c + (d + (e + (f + t)))))
  {
    Regroup(a + b + c + d + e, f, t);
    Regroup(a + b + c + d, e, f + t);
    Regroup(a + b + c, d, e + (f + t));
    Regroup(a + b, c, d + (e + (f + t)));
  }

  /** What the header of q, followed by the bytes t, comes to. */
  ghost function Verdict(q: Request, t: string, accepts: string -> bool): Report {
    if LengthRead(q) > INT_MAX then Report([], Broken)
    else if !accepts(q.url) then Report([], Closed)
    else if q.upgrade.Some? then Report([(q.url, "")], Upgraded)
    else if |t| < LengthRead(q) then Report([], Eof)
    else Prepend([(q.url, t[..LengthRead(q)])], HttpRun(t[LengthRead(q)..], START, accepts))
  }

  /** From the length field on. */
  lemma RestOfHeader(q: Request, t: string, st: Http, accepts: string -> bool)
    requires InHeader(st) && Sendable(q) && st.contentLength == 0 && st.url == q.url && st.upgrade == q.upgrade.Some?
    ensures HttpRun(LengthField(q) + (PrintLines(q.after) + (Crlf("") + t)), st, accepts) == Verdict(q, t, accepts)
  {
    var end := Crlf("") + t;
    var rest := PrintLines(q.after) + end;
    if q.length.Some? {
      LengthRun(q.length.value, |q.body|, rest, st, accepts);
    } else {
      assert "" + rest == rest;
    }
    if LengthRead(q) <= INT_MAX {
      var st' := st.(contentLength := LengthRead(q));
      assert HttpRun(LengthField(q) + rest, st, accepts) == HttpRun(rest, st', accepts);
      OrdinaryRun(q.after, end, st', accepts);
      BlankLineRun(t, st', accepts);
    }
  }

  /** What a connection makes of any request header, its length field understood or not, its URL
      accepted or not, and whatever follows it. */
  lemma OneHeader(q: Request, t: string, st: Http, accepts: string -> bool)
    requires Between(st) && Sendable(q)
    ensures HttpRun(Head(q) + t, st, accepts) ==
            if LengthRead(q) > INT_MAX then Report([], Broken)
            else if !accepts(q.url) then Report([], Closed)
            else if q.upgrade.Some? then Report([(q.url, "")], Upgraded)
            else if |t| < LengthRead(q) then Report([], Eof)
            else Prepend([(q.url, t[..LengthRead(q)])], HttpRun(t[LengthRead(q)..], START, accepts))
  {
    var t1 := LengthField(q) + (PrintLines(q.after) + (Crlf("") + t));
    var t2 := UpgradeField(q) + t1;
    SplitHead(Crlf(RequestLine(q)), PrintLines(q.before), UpgradeField(q), LengthField(q), PrintLines(q.after), Crlf(""), t);
    var st1 := st.(gotFirst := true, url := q.url);
    var st2 := if q.upgrade.Some? then st1.(upgrade := true) else st1;
    FirstLineRun(q, PrintLines(q.before) + t2, st, accepts);
    OrdinaryRun(q.before, t2, st1, accepts);
    UpgradeRun(q, t1, st1, accepts);
    RestOfHeader(q, t, st2, accepts);
  }

  /** A refused URL: nothing is delivered and the connection is closed, unless the length already
      broke it. */
  lemma RefusedCloses(q: Request, t: string, st: Http, accepts: string -> bool)
    requires Between(st) && Sendable(q) && !accepts(q.url)
    ensures HttpRun(Head(q) + t, st, accepts) == Report([], if LengthRead(q) > INT_MAX then Broken else Closed)
  {
    OneHeader(q, t, st, accepts);
  }

  lemma Delivered(q: Request, rest: string, st: Http, accepts: string -> bool)
    requires Between(st) && Understood(q) && accepts(q.url)
    ensures HttpRun(Print(q) + rest, st, accepts) == Prepend([(q.url, q.body)], HttpRun(rest, START, accepts))
  {
    Regroup(Head(q), q.body, rest);
    Halves(q.body, rest);
    OneHeader(q, q.body + rest, st, accepts);
  }

  lemma FirstPairIff(q: Request, rest: string, n: nat, more: Report)
    requires n == 0 || n == |q.body|
    ensures var pairs := Prepend([(q.url, (q.body + rest)[..n])], more).pairs;
            pairs != [] && (pairs[0] == (q.url, q.body) <==> n == |q.body|)
  {
    assert (q.body + rest)[..|q.body|] == q.body;
    var pairs := Prepend([(q.url, (q.body + rest)[..n])], more).pairs;
    assert |pairs[0].1| == n;
  }

  /** The first pair delivered is the one sent exactly when the URL is accepted, the length read fits
      an `int`, and either the body is empty, or its length field is spelled one of the two known ways
      and no WebSocket is asked for. */
  lemma DeliveredIff(q: Request, rest: string, st: Http, accepts: string -> bool)
    requires Between(st) && Sendable(q)
    ensures var pairs := HttpRun(Print(q) + rest, st, accepts).pairs;
            (pairs != [] && pairs[0] == (q.url, q.body)) <==>
              && accepts(q.url) && LengthRead(q) <= INT_MAX
              && (q.body == "" || (q.upgrade.None? && q.length.Some? && KnownName(q.length.value)))
  {
    var t, n := q.body + rest, LengthRead(q);
    Regroup(Head(q), q.body, rest);
    OneHeader(q, t, st, accepts);
    if q.upgrade.None? {
      FirstPairIff(q, rest, n, HttpRun(t[n..], START, accepts));
    }
  }

  // ---- What no stream can do -------------------------------------------------------------------

  /** On any stream at all, nothing is delivered under a URL that was not accepted. */
  lemma {:induction false} OnlyAccepted(s: string, st: Http, accepts: string -> bool)
    requires !st.gotHeader
    ensures forall p :: p in HttpRun(s, st, accepts).pairs ==> accepts(p.0)
    decreases |s|
  {
    if LineEnd(s).Newline? {
      var k := LineEnd(s).k;
      var rest, out := s[k + 1..], Handshake(st, StripCr(s[..k]), accepts);
      if out.Go? {
        AcceptedHeader(st, StripCr(s[..k]), accepts);
        if !out.st.gotHeader {
          OnlyAccepted(rest, out.st, accepts);
        } else if out.st.contentLength <= |rest| {
          OnlyAccepted(rest[out.st.contentLength..], NextRequest(out.st), accepts);
        }
      }
    }
  }

  /** A header is complete only after its URL has been accepted. */
  lemma AcceptedHeader(st: Http, line: string, accepts: string -> bool)
    requires !st.gotHeader && Handshake(st, line, accepts).Go?
    ensures var st' := Handshake(st, line, accepts).st;
            st'.gotHeader ==> accepts(st'.url) && st.gotFirst && line == ""
  {
    if st.gotFirst && line != "" {
      FieldKeepsUrl(st, FieldOf(line));
    }
  }

  lemma FieldKeepsUrl(st: Http, f: Field)
    requires SetField(st, f).Go?
    ensures SetField(st, f).st.url == st.url && SetField(st, f).st.gotHeader == st.gotHeader
    ensures SetField(st, f).st.gotFirst == st.gotFirst
  {
  }

  /** A first line that is neither GET nor POST closes the connection. */
  lemma OtherVerbsRefused(line: string, t: string, st: Http, accepts: string -> bool)
    requires Between(st) && Clean(line) && !("GET " <= line) && !("POST " <= line)
    ensures HttpRun(Crlf(line) + t, st, accepts) == Report([], Closed)
  {
    LineStep(line, t, st, accepts);
  }

  /** And so does a D-Bus greeting, wherever a line is expected. */
  lemma GreetingCloses(more: string, t: string, st: Http, accepts: string -> bool)
    requires Whole(more)
    ensures HttpRun("\U{01}\U{21}" + more + "\n" + t, st, accepts) == Report([], Closed)
  {
    var line := "\U{01}\U{21}" + more;
    var s := line + ("\n" + t);
    assert "\U{01}\U{21}" + more + "\n" + t == s;
    CleanUnfinished(line);
    LineEndAppend(line, "\n" + t);
    Halves(line, "\n" + t);
  }

  // ---- An input that is not delivered ----------------------------------------------------------

  /** A request with its field name in capitals, which section 5.1 of RFC 9110 allows. */
  const CAPITALS := Request(Post, "/json", "HTTP/1.1", [], None, Some("CONTENT-LENGTH"), [], "x")

  lemma CapitalsSendable()
    ensures Sendable(CAPITALS) && !KnownName(CAPITALS.length.value)
  {
    assert CAPITALS.length == Some("CONTENT-LENGTH");
  }

  /** Its body is not delivered. */
  lemma CapitalsLoseTheBody(rest: string, st: Http, accepts: string -> bool)
    requires Between(st) && accepts(CAPITALS.url)
    ensures var pairs := HttpRun(Print(CAPITALS) + rest, st, accepts).pairs;
            Sendable(CAPITALS) && !(pairs != [] && pairs[0] == (CAPITALS.url, CAPITALS.body))
  {
    CapitalsSendable();
    DeliveredIff(CAPITALS, rest, st, accepts);
  }

  // ---- Any number of requests ------------------------------------------------------------------

  lemma PrependTwice(p: (string, string), ps: seq<(string, string)>, r: Report)
    ensures Prepend([p], Prepend(ps, r)) == Prepend([p] + ps, r)
  {
    assert [p] + (ps + r.pairs) == [p] + ps + r.pairs;
  }

  /** Whatever delivers one request and goes on delivers any number of them. */
  lemma {:induction false} Chain(qs: seq<Request>, rest: string, run: string -> Report)
    requires forall q, t {:trigger run(Print(q) + t)} :: q in qs ==>
               run(Print(q) + t) == Prepend([(q.url, q.body)], run(t))
    ensures run(PrintAll(qs) + rest) == Prepend(Pairs(qs), run(rest))
  {
    if qs == [] {
      assert PrintAll(qs) + rest == rest;
    } else {
      var q, t := qs[0], PrintAll(qs[1..]) + rest;
      assert PrintAll(qs) + rest == Print(q) + t;
      assert run(Print(q) + t) == Prepend([(q.url, q.body)], run(t));
      Chain(qs[1..], rest, run);
      PrependTwice((q.url, q.body), Pairs(qs[1..]), run(rest));
    }
  }

  /** Keep-alive: any number of requests, sent back to back, give exactly their URLs and bodies, and
      the socket is left at the first byte after the last of them, ready for another request. */
  lemma KeepAliveRun(qs: seq<Request>, rest: string, st: Http, accepts: string -> bool)
    requires Between(st)
    requires forall q :: q in qs ==> Understood(q) && accepts(q.url)
    ensures HttpRun(PrintAll(qs) + rest, st, accepts) == Prepend(Pairs(qs), HttpRun(rest, START, accepts))
  {
    var run := s => HttpRun(s, START, accepts);
    forall q, t | q in qs ensures run(Print(q) + t) == Prepend([(q.url, q.body)], run(t)) {
      Delivered(q, t, START, accepts);
    }
    Chain(qs, rest, run);
    SameRun(PrintAll(qs) + rest, st, START, accepts);
  }

  lemma Conversation(qs: seq<Request>, accepts: string -> bool)
    requires forall q :: q in qs ==> Understood(q) && accepts(q.url)
    ensures HttpRun(PrintAll(qs), START, accepts) == Report(Pairs(qs), Eof)
  {
    KeepAliveRun(qs, "", START, accepts);
    assert PrintAll(qs) + "" == PrintAll(qs);
    assert HttpRun("", START, accepts) == Report([], Eof);
  }

  /** A whole conversation over a socket that cuts the bytes anywhere. */
  method Converse(qs: seq<Request>, accepts: string -> bool) returns (pairs: seq<(string, string)>, finish: Finish)
    requires forall q :: q in qs ==> Understood(q) && accepts(q.url)
    ensures pairs == Pairs(qs) && finish == Eof
  {
    Conversation(qs, accepts);
    var c := new Connection(PrintAll(qs));
    var h := new HttpSocket(accepts);
    assert c.Stream() == PrintAll(qs);
    finish := h.HandleHttp(c);
    pairs := h.delivered;
  }
}
