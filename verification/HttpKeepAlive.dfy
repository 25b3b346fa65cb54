/** HTTP requests on one connection, one after the other: header lines, then a body of the declared
    length, then the next request. */
module HttpKeepAlive {
  import opened Basics
  import opened StreamReader
  import Bits

  // ---- std::stoi -------------------------------------------------------------------------------

  const INT_MAX: int := 0x7fff_ffff

  predicate IsDigit(c: char) {
    '0' <= c <= '9'
  }

  function SkipSpace(s: string): string {
    if s != "" && IsSpace(s[0]) then SkipSpace(s[1..]) else s
  }

  /** The value of the leading digits of s, after digits worth acc. */
  function Value(s: string, acc: nat): nat {
    if s != "" && IsDigit(s[0]) then Value(s[1..], 10 * acc + (s[0] as int - '0' as int)) else acc
  }

  /** None is an exception: no digits, or out of the range of `int`. */
  function Stoi(s: string): Option<int> {
    var t := SkipSpace(s);
    var signed := t != "" && (t[0] == '-' || t[0] == '+');
    var u := if signed then t[1..] else t;
    if u == "" || !IsDigit(u[0]) then None
    else
      var v: int := Value(u, 0) * (if signed && t[0] == '-' then -1 else 1);
      if -INT_MAX - 1 <= v <= INT_MAX then Some(v) else None
  }

  // ---- One header line -------------------------------------------------------------------------

  /** What the socket remembers. */
  datatype Http = Http(
    gotFirst: bool, gotHeader: bool, keepAlive: bool, upgrade: bool,
    contentLength: nat, url: string, host: string, webkey: string)

  const START := Http(false, false, false, false, 0, "", "", "")

  /** Going on; hanging up on the client; or an exception that nothing catches. */
  datatype Outcome = Go(st: Http) | Refused | Crashed

  function ToSpace(s: string): string {
    if s == "" || s[0] == ' ' then "" else [s[0]] + ToSpace(s[1..])
  }

  /** The URL of a request line, if its verb is known. */
  function UrlOf(line: string): Option<string> {
    if "GET " <= line then Some(ToSpace(line[4..]))
    else if "POST " <= line then Some(ToSpace(line[5..]))
    else None
  }

  function FirstLine(st: Http, url: Option<string>): Outcome {
    match url
    case Some(u) => Go(st.(gotFirst := true, url := u))
    case None => Refused
  }

  /** A negative length becomes an enormous `size_t`. */
  function SetLength(st: Http, digits: string): Outcome {
    match Stoi(digits)
    case None => Crashed
    case Some(v) => Go(st.(contentLength := if v < 0 then v % Bits.SIZE_T else v))
  }

  /** What a header field is to the server. Names are matched as spelled. */
  datatype Field = Length(digits: string) | Host(name: string) | KeepAlive | Upgrade | Key(key: string) | Other

  function FieldOf(line: string): Field {
    if "Content-Length: " <= line then Length(line[16..])
    else if "content-length: " <= line then Length(line[16..])
    else if "Host: " <= line then Host(line[6..])
    else if "host: " <= line then Host(line[6..])
    else if "connection: keep-alive" <= line then KeepAlive
    else if "Upgrade: websocket" <= line then Upgrade
    else if "Sec-WebSocket-Key: " <= line then Key(line[19..])
    else Other
  }

  function SetField(st: Http, f: Field): Outcome {
    match f
    case Length(digits) => SetLength(st, digits)
    case Host(name) => Go(st.(host := name))
    case KeepAlive => Go(st.(keepAlive := true))
    case Upgrade => Go(st.(upgrade := true))
    case Key(key) => Go(st.(webkey := key))
    case Other => Go(st)
  }

  /** `HandshakeLine`; `accepts` is the verdict of `OnConnection` on a URL. */
  function Handshake(st: Http, line: string, accepts: string -> bool): Outcome {
    if !st.gotFirst then FirstLine(st, UrlOf(line))
    else if line != "" && !st.gotHeader then SetField(st, FieldOf(line))
    else if accepts(st.url) then Go(st.(gotHeader := true))
    else Refused
  }

  // ---- A whole connection ----------------------------------------------------------------------

  /** How a connection ends. `Cut`: an escape byte inside a header, after which what happens depends
      on how the bytes were cut. */
  datatype Finish = Eof | Closed | Broken | Upgraded | Cut

  /** The (URL, body) pairs passed to `OnLine`, and the end. */
  datatype Report = Report(pairs: seq<(string, string)>, finish: Finish)

  function Prepend(pairs: seq<(string, string)>, r: Report): Report {
    Report(pairs + r.pairs, r.finish)
  }

  function NextRequest(st: Http): Http {
    st.(gotHeader := false, gotFirst := false, contentLength := 0)
  }

  /** What the bytes s mean to a socket in state st, with no mention of how they arrive. */
  function HttpRun(s: string, st: Http, accepts: string -> bool): Report
    decreases |s|, 1
  {
    match LineEnd(s)
    case Unfinished => Report([], Eof)
    case Escape => Report([], Cut)
    case Newline(k) =>
      if IsDbus(s[..k]) then Report([], Closed)
      else AfterHandshake(s[k + 1..], Handshake(st, StripCr(s[..k]), accepts), accepts)
  }

  function AfterHandshake(rest: string, out: Outcome, accepts: string -> bool): Report
    decreases |rest|, 2
  {
    match out
    case Refused => Report([], Closed)
    case Crashed => Report([], Broken)
    case Go(st) =>
      if !st.gotHeader then HttpRun(rest, st, accepts)
      else if st.upgrade then Report([(st.url, "")], Upgraded)
      else if |rest| < st.contentLength then Report([], Eof)
      else Prepend([(st.url, rest[..st.contentLength])],
                   HttpRun(rest[st.contentLength..], NextRequest(st), accepts))
  }

  class HttpSocket {
    const accepts: string -> bool
    var gotFirst: bool
    var gotHeader: bool
    var keepAlive: bool
    var upgrade: bool
    var contentLength: nat
    var url: string
    var host: string
    var webkey: string
    var delivered: seq<(string, string)>

    constructor (accepts: string -> bool)
      ensures State() == START && delivered == [] && this.accepts == accepts
    {
      this.accepts := accepts;
      gotFirst, gotHeader, keepAlive, upgrade := false, false, false, false;
      contentLength, url, host, webkey, delivered := 0, "", "", "", [];
    }

    function State(): Http
      reads this
    {
      Http(gotFirst, gotHeader, keepAlive, upgrade, contentLength, url, host, webkey)
    }

    method FirstHttpLine(line: string) returns (out: Outcome)
      requires !gotFirst
      modifies this
      ensures out == FirstLine(old(State()), UrlOf(line)) && delivered == old(delivered)
      ensures out.Go? ==> out.st == State()
    {
      gotFirst := true;
      if "GET " <= line {
        url := ToSpace(line[4..]);
      } else if "POST " <= line {
        url := ToSpace(line[5..]);
      } else {
        return Refused;
      }
      out := Go(State());
    }

    method SetContentLength(digits: string) returns (out: Outcome)
      modifies this
      ensures out == SetLength(old(State()), digits) && delivered == old(delivered)
      ensures out.Go? ==> out.st == State()
    {
      match Stoi(digits)
      case None => out := Crashed;
      case Some(v) =>
        contentLength := if v < 0 then v % Bits.SIZE_T else v;
        out := Go(State());
    }

    method HeaderField(line: string) returns (out: Outcome)
      modifies this
      ensures out == SetField(old(State()), FieldOf(line)) && delivered == old(delivered)
      ensures out.Go? ==> out.st == State()
    {
      match FieldOf(line) {
        case Length(digits) =>
          out := SetContentLength(digits);
          return;
        case Host(name) => host := name;
        case KeepAlive => keepAlive := true;
        case Upgrade => upgrade := true;
        case Key(key) => webkey := key;
        case Other =>
      }
      out := Go(State());
    }

    method HandshakeLine(line: string) returns (out: Outcome)
      modifies this
      ensures out == Handshake(old(State()), line, accepts) && delivered == old(delivered)
      ensures out.Go? ==> out.st == State()
    {
      if !gotFirst {
        out := FirstHttpLine(line);
        return;
      }
      if !gotHeader && line == "" {
        gotHeader := true;
      }
      if !gotHeader {
        out := HeaderField(line);
        return;
      }
      out := if accepts(url) then Go(State()) else Refused;
    }

    /** `get_http_body`: the next bytes of the stream, as many as were declared; false if it ends. */
    method GetHttpBody(c: Connection) returns (ok: bool, body: string)
      modifies c
      ensures ok <==> contentLength <= |old(c.Stream())|
      ensures ok ==> body == old(c.Stream())[..contentLength] && c.Stream() == old(c.Stream())[contentLength..]
    {
      ghost var s := c.Stream();
      assert |s| == |c.buf| + |c.unread|;
      if contentLength == 0 {
        return true, "";
      }
      if |c.buf| < contentLength {
        ok := c.ReadExactly(contentLength - |c.buf|);
        if !ok {
          return false, "";
        }
      }
      body := c.buf[..contentLength];
      c.buf := c.buf[contentLength..];
      ok := true;
    }

    /** A complete header has been read: pass on the body and get ready for the next request. */
    method HandleBody(c: Connection) returns (ok: bool)
      modifies this, c
      ensures ok <==> old(contentLength) <= |old(c.Stream())|
      ensures ok ==> && delivered == old(delivered) + [(old(url), old(c.Stream())[..old(contentLength)])]
                     && c.Stream() == old(c.Stream())[old(contentLength)..]
                     && State() == NextRequest(old(State()))
      ensures !ok ==> delivered == old(delivered)
    {
      var body;
      ok, body := GetHttpBody(c);
      if ok {
        delivered := delivered + [(url, body)];
        gotHeader, gotFirst, contentLength := false, false, 0;
      }
    }

    /** What is done once `HandshakeLine` is back: None to go on reading. */
    method AfterLine(c: Connection, out: Outcome) returns (finish: Option<Finish>)
      requires out.Go? ==> out.st == State()
      modifies this, c
      ensures Settles(old(delivered), AfterHandshake(old(c.Stream()), out, accepts),
                      delivered, finish, c.Stream(), State())
      ensures finish.None? ==> !gotHeader && |c.Stream()| <= |old(c.Stream())|
      ensures old(delivered) <= delivered
    {
      ghost var before, due := delivered, AfterHandshake(c.Stream(), out, accepts);
      if out.Refused? {
        return Some(Closed);
      }
      if out.Crashed? {
        return Some(Broken);
      }
      if gotHeader {
        if upgrade {
          delivered := delivered + [(url, "")];
          return Some(Upgraded);
        }
        var ok := HandleBody(c);
        if !ok {
          return Some(Eof);
        }
        assert Prepend(before, due).pairs == delivered + HttpRun(c.Stream(), State(), accepts).pairs;
      }
      finish := None;
    }

    /** Having delivered `now` and then stopped, or with `left` still to come in state st, is what the
        report `due` asks of a socket that had delivered `before`. */
    ghost predicate Settles(before: seq<(string, string)>, due: Report, now: seq<(string, string)>,
                            finish: Option<Finish>, left: string, st: Http)
    {
      Prepend(before, due) ==
        match finish
        case Some(f) => Report(now, f)
        case None => Prepend(now, HttpRun(left, st, accepts))
    }

    /** One turn of the loop. */
    method HandleOne(c: Connection) returns (finish: Option<Finish>)
      requires !gotHeader
      modifies this, c
      ensures !LineEnd(old(c.Stream())).Escape? ==>
                Settles(old(delivered), HttpRun(old(c.Stream()), old(State()), accepts),
                        delivered, finish, c.Stream(), State())
      ensures finish.None? ==> !gotHeader && |c.Stream()| < |old(c.Stream())|
      ensures old(delivered) <= delivered
    {
      var ok, line := c.GetTelnetLine();
      if !ok {
        return Some(Eof);
      }
      if IsDbus(line) {
        return Some(Closed);
      }
      var out := HandshakeLine(StripCr(line));
      finish := AfterLine(c, out);
    }

    /** The loop of `handle_connection` on an HTTP socket. Whatever the cut, what is delivered is what
        the bytes mean, up to the first escape inside a header. */
    method HandleHttp(c: Connection) returns (finish: Finish)
      requires !gotHeader
      modifies this, c
      ensures var r := HttpRun(old(c.Stream()), old(State()), accepts);
              if r.finish.Cut? then old(delivered) + r.pairs <= delivered
              else delivered == old(delivered) + r.pairs && finish == r.finish
    {
      ghost var run := Prepend(delivered, HttpRun(c.Stream(), State(), accepts));
      ghost var cut := false;
      while true
        invariant !gotHeader
        invariant !cut ==> Prepend(delivered, HttpRun(c.Stream(), State(), accepts)) == run
        invariant cut ==> run.finish.Cut? && run.pairs <= delivered
        decreases |c.Stream()|
      {
        cut := cut || LineEnd(c.Stream()).Escape?;
        var stop := HandleOne(c);
        if stop.Some? {
          return stop.value;
        }
      }
    }
  }
}
