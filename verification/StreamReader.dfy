/** Reading lines and bodies off a socket whose bytes arrive in pieces of any size. Bytes are
    characters below 256. */
module StreamReader {
  import opened Basics

  /** How the first line of a stream ends: with a newline after k bytes, with a telnet escape or EOT
      before any newline, or not at all. */
  datatype Ending = Newline(k: nat) | Escape | Unfinished

  function LineEnd(s: string): (e: Ending)
    ensures e.Newline? ==> e.k < |s| && s[e.k] == '\n'
  {
    if s == "" then Unfinished
    else if s[0] == '\n' then Newline(0)
    else if s[0] == EOT || s[0] == IAC then Escape
    else match LineEnd(s[1..]) case Newline(k) => Newline(k + 1) case e => e
  }

  /** What has been seen of a line decides how it ends, whatever comes after. */
  lemma {:induction false} LineEndAppend(a: string, b: string)
    ensures LineEnd(a + b) ==
            match LineEnd(a)
            case Unfinished => (match LineEnd(b) case Newline(k) => Newline(|a| + k) case e => e)
            case e => e
  {
    if a == "" {
      assert a + b == b;
    } else {
      assert (a + b)[1..] == a[1..] + b;
      LineEndAppend(a[1..], b);
    }
  }

  /** `std::getline`: up to the first newline, which is dropped, or everything. */
  function FirstNewline(s: string): (k: nat)
    ensures k <= |s| && (k < |s| ==> s[k] == '\n')
  {
    if s == "" || s[0] == '\n' then 0 else 1 + FirstNewline(s[1..])
  }

  function AfterLine(s: string): string {
    var k := FirstNewline(s);
    if k == |s| then "" else s[k + 1..]
  }

  lemma {:induction false} FirstNewlineIs(s: string)
    ensures LineEnd(s).Newline? ==> FirstNewline(s) == LineEnd(s).k
    ensures LineEnd(s).Unfinished? ==> FirstNewline(s) == |s|
  {
    if s != "" {
      FirstNewlineIs(s[1..]);
    }
  }

  lemma {:induction false} NoNewlineBefore(s: string)
    ensures '\n' !in s[..FirstNewline(s)]
  {
    if s != "" && s[0] != '\n' {
      var k := FirstNewline(s[1..]);
      NoNewlineBefore(s[1..]);
      assert s[..1 + k] == [s[0]] + s[1..][..k];
    }
  }

  /** A search of b that began at `begin` stops at byte j: a newline, an EOT, or any byte up to 0xf0
      once an IAC has been passed. */
  ghost predicate Stops(b: string, begin: nat, j: nat)
    requires begin <= j < |b|
  {
    b[j] == '\n' || b[j] == EOT || (b[j] <= '\U{f0}' && exists i :: begin <= i < j && b[i] == IAC)
  }

  /** `match_eol_or_escape` on the part of the buffer not yet searched: just behind the first byte
      that stops the search. If a newline ends the line before any escape, that is the byte. */
  method MatchEolOrEscape(b: string, begin: nat) returns (i: nat, found: bool)
    requires begin <= |b|
    ensures if found then begin < i <= |b| && Stops(b, begin, i - 1) else i == |b|
    ensures forall j {:trigger Stops(b, begin, j)} :: begin <= j < (if found then i - 1 else i) ==> !Stops(b, begin, j)
    ensures LineEnd(b[begin..]).Newline? ==> found && i == begin + LineEnd(b[begin..]).k + 1
    ensures LineEnd(b[begin..]).Unfinished? ==> !found
  {
    var telnetMode := false;
    i := begin;
    ghost var whole := LineEnd(b[begin..]);
    while i != |b|
      invariant begin <= i <= |b|
      invariant telnetMode <==> exists j :: begin <= j < i && b[j] == IAC
      invariant forall j {:trigger Stops(b, begin, j)} :: begin <= j < i ==> !Stops(b, begin, j)
      invariant !whole.Escape? ==> !telnetMode
      invariant whole.Newline? ==> i - begin <= whole.k && LineEnd(b[i..]) == Newline(whole.k - (i - begin))
      invariant whole.Unfinished? ==> LineEnd(b[i..]).Unfinished?
      decreases |b| - i
    {
      assert b[i..][1..] == b[i + 1..];
      var c := b[i];
      i := i + 1;
      if c == IAC {
        telnetMode := true;
      }
      if c == '\n' || c == EOT || (telnetMode && c <= '\U{f0}') {
        return i, true;
      }
    }
    found := false;
  }

  /** Bytes in which no search stopped. */
  predicate Searched(s: string) {
    '\n' !in s && EOT !in s
  }

  lemma SearchedMore(b: string, begin: nat)
    requires begin <= |b| && Searched(b[..begin])
    requires forall j {:trigger Stops(b, begin, j)} :: begin <= j < |b| ==> !Stops(b, begin, j)
    ensures Searched(b)
  {
    forall j | 0 <= j < |b| ensures b[j] != '\n' && b[j] != EOT {
      if j < begin {
        assert b[j] in b[..begin];
      } else {
        assert !Stops(b, begin, j);
      }
    }
  }

  /** One connection: `unread` is what the peer still sends before it closes, `buf` what has been
      read and not yet used. */
  class Connection {
    var unread: string
    var buf: string

    constructor (sent: string)
      ensures unread == sent && buf == ""
    {
      unread, buf := sent, "";
    }

    /** All the bytes still to be used, however the network cuts them. */
    ghost function Stream(): string
      reads this
    {
      buf + unread
    }

    /** One read of at most `most` bytes: as many as the network likes, or the end of the stream. */
    method ReadSome(most: nat) returns (eof: bool)
      requires 0 < most
      modifies this
      ensures |buf| <= |old(buf)| + most
      ensures Stream() == old(Stream()) && old(buf) <= buf
      ensures eof <==> old(unread) == ""
      ensures !eof ==> |unread| < |old(unread)|
      ensures eof ==> buf == old(buf) && unread == ""
    {
      eof := unread == "";
      if !eof {
        assert 0 < 1 <= |unread| && 1 <= most;
        var n :| 0 < n <= |unread| && n <= most;
        buf, unread := buf + unread[..n], unread[n..];
      }
    }

    /** `asio::read_until` with the matcher above; false at the end of the stream. */
    method ReadUntilMatch() returns (ok: bool)
      modifies this
      ensures Stream() == old(Stream())
      ensures LineEnd(old(Stream())).Newline? ==> ok && LineEnd(old(Stream())).k < |buf|
      ensures LineEnd(old(Stream())).Unfinished? ==> !ok
      ensures ok ==> exists begin, j {:trigger Stops(buf, begin, j)} :: 0 <= begin <= j < |buf| && Stops(buf, begin, j)
      ensures !ok ==> unread == "" && Searched(buf)
    {
      var searched := 0;
      ghost var end := LineEnd(Stream());
      while true
        invariant 0 <= searched <= |buf| && Stream() == old(Stream())
        invariant !end.Escape? ==> LineEnd(buf[..searched]).Unfinished?
        invariant Searched(buf[..searched])
        decreases |unread|
      {
        var i, found := MatchEolOrEscape(buf, searched);
        assert buf == buf[..searched] + buf[searched..];
        LineEndAppend(buf[..searched], buf[searched..]);
        LineEndAppend(buf, unread);
        if found {
          assert Stops(buf, searched, i - 1);
          return true;
        }
        SearchedMore(buf, searched);
        searched := i;
        assert buf[..searched] == buf;
        ghost var before := buf;
        var most :| 0 < most;
        var eof := ReadSome(most);
        assert buf[..searched] == before;
        if eof {
          assert Stream() == buf;
          return false;
        }
      }
    }

    /** `asio::read` with `transfer_exactly`: `n` bytes more, or false at the end of the stream. */
    method ReadExactly(n: nat) returns (ok: bool)
      modifies this
      ensures Stream() == old(Stream()) && old(buf) <= buf
      ensures ok <==> n <= |old(unread)|
      ensures if ok then |buf| == |old(buf)| + n else unread == ""
    {
      ghost var before := Stream();
      var want := |buf| + n;
      while |buf| < want
        invariant Stream() == before && old(buf) <= buf
        invariant |buf| <= want
        decreases |unread|
      {
        assert |Stream()| == |buf| + |unread|;
        var eof := ReadSome(want - |buf|);
        if eof {
          return false;
        }
      }
      assert |Stream()| == |buf| + |unread|;
      ok := true;
    }

    /** `get_telnet_line`. No byte is lost: a line, at most one newline, and what is left make up the
        stream. When no escape comes before the first newline, the line is what precedes it. */
    method GetTelnetLine() returns (ok: bool, line: string)
      modifies this
      ensures ok ==> |Stream()| < |old(Stream())|
      ensures ok ==> '\n' !in line
      ensures ok ==> old(Stream()) == line + Stream() || old(Stream()) == line + "\n" + Stream()
      ensures LineEnd(old(Stream())).Newline? ==>
                var k := LineEnd(old(Stream())).k;
                ok && line == old(Stream())[..k] && Stream() == old(Stream())[k + 1..]
      ensures LineEnd(old(Stream())).Unfinished? ==> !ok
      ensures !ok ==> Stream() == old(Stream()) && unread == "" && Searched(buf)
    {
      ok := ReadUntilMatch();
      line := "";
      if ok {
        ghost var s := Stream();
        FirstNewlineIs(buf);
        FirstNewlineIs(s);
        LineEndAppend(buf, unread);
        NoNewlineBefore(buf);
        var k := FirstNewline(buf);
        line := buf[..k];
        ghost var was := buf;
        buf := AfterLine(buf);
        assert was == if k == |was| then line else line + "\n" + buf;
      }
    }
  }

  /** Drop one trailing carriage return. */
  function StripCr(line: string): string {
    if line != "" && line[|line| - 1] == '\r' then line[..|line| - 1] else line
  }

  /** The greeting of the local D-Bus daemon, on which the server hangs up. */
  predicate IsDbus(line: string) {
    1 < |line| && line[0] == '\U{01}' && line[1] == '\U{21}'
  }
}
