/** WebSocket frames (RFC 6455): lengths on the wire, and the reader that answers pings. */
module Frames {
  import opened Basics
  import opened Bits
  import opened WebSocket

  // ----- Lengths (section 5.2) -----

  /** The longest payload the server takes. */
  const MAX_LENGTH := 0x100_0000_0000

  /** The three ways the RFC has of writing a payload length. */
  datatype Form = Short | Medium | Long

  predicate Fits(n: nat, form: Form) {
    match form
    case Short => n < 126
    case Medium => n < 0x1_0000
    case Long => n < SIZE_T
  }

  /** The second byte of a frame and the extended length, most significant byte first. */
  function PrintLength(n: nat, form: Form, masked: bool): seq<Byte>
    requires Fits(n, form)
  {
    var m := if masked then 128 else 0;
    match form
    case Short => [m + n]
    case Medium => [m + 126, ByteAt(n, 1), ByteAt(n, 0)]
    case Long => [m + 127, ByteAt(n, 7), ByteAt(n, 6), ByteAt(n, 5), ByteAt(n, 4),
                  ByteAt(n, 3), ByteAt(n, 2), ByteAt(n, 1), ByteAt(n, 0)]
  }

  /** What `send_websocket` puts in front of a payload of n bytes. */
  function SendHeader(n: nat): seq<Byte>
    requires n < SIZE_T
  {
    if n < 126 then [0x81, n]
    else if n < 65536 then [0x81, 126, ByteAt(n, 1), ByteAt(n, 0)]
    else [0x81, 127, ByteAt(n, 7), ByteAt(n, 6), ByteAt(n, 5), ByteAt(n, 4),
          ByteAt(n, 3), ByteAt(n, 2), ByteAt(n, 1), ByteAt(n, 0)]
  }

  /** `ntohs` of two bytes read into a `uint16_t`. */
  function Ntohs(b: seq<Byte>): nat
    requires |b| == 2
  {
    var hi: int := b[0];
    256 * hi + b[1]
  }

  /** `ntohl` of four bytes read into a `uint32_t`. */
  function Ntohl(b: seq<Byte>): Uint32
    requires |b| == 4
  {
    Word(b[3], b[2], b[1], b[0])
  }

  datatype LengthRead = Length(n: nat, masked: bool, rest: seq<Byte>) | LengthEof | Insane

  /** The length decoder at the head of `get_websocket_data`. */
  function ReadLength(input: seq<Byte>): LengthRead {
    if |input| < 1 then LengthEof
    else
      var masked, paybyte := input[0] >= 128, input[0] % 128;
      if paybyte == 126 then
        if |input| < 3 then LengthEof else Length(Ntohs(input[1..3]), masked, input[3..])
      else if paybyte == 127 then
        if |input| < 9 then LengthEof
        else
          var lung := Ntohl(input[1..5]) * 0x1_0000_0000 + Ntohl(input[5..9]);
          if MAX_LENGTH < lung then Insane else Length(lung, masked, input[9..])
      else Length(paybyte, masked, input[1..])
  }

  lemma TwoBytes(n: nat)
    requires n < 0x1_0000
    ensures Ntohs([ByteAt(n, 1), ByteAt(n, 0)]) == n
  {
    assert ByteAt(n, 1) == ByteAt(n / 256, 0);
  }

  lemma ByteAtStep(n: nat, j: nat)
    ensures ByteAt(n, j + 1) == ByteAt(n / 256, j)
    ensures n == ByteAt(n, 0) + 256 * (n / 256)
  {
  }

  /** Four bytes of n from byte j on, and what is left above them. */
  lemma FourBytes(n: nat)
    ensures n == Word(ByteAt(n, 0), ByteAt(n, 1), ByteAt(n, 2), ByteAt(n, 3)) + 0x1_0000_0000 * (n / 256 / 256 / 256 / 256)
    ensures forall j: nat :: ByteAt(n, j + 4) == ByteAt(n / 256 / 256 / 256 / 256, j)
  {
    var n1 := n / 256;
    var n2 := n1 / 256;
    var n3 := n2 / 256;
    ByteAtStep(n, 0); ByteAtStep(n, 1); ByteAtStep(n, 2);
    ByteAtStep(n1, 0); ByteAtStep(n1, 1);
    ByteAtStep(n2, 0);
    ByteAtStep(n3, 0);
    forall j: nat
      ensures ByteAt(n, j + 4) == ByteAt(n3 / 256, j)
    {
      ByteAtStep(n, j + 3); ByteAtStep(n1, j + 2); ByteAtStep(n2, j + 1); ByteAtStep(n3, j);
    }
  }

  lemma EightBytes(n: nat)
    requires n < SIZE_T
    ensures Word(ByteAt(n, 4), ByteAt(n, 5), ByteAt(n, 6), ByteAt(n, 7)) * 0x1_0000_0000
            + Word(ByteAt(n, 0), ByteAt(n, 1), ByteAt(n, 2), ByteAt(n, 3)) == n
  {
    FourBytes(n);
    var hi := n / 256 / 256 / 256 / 256;
    assert hi < 0x1_0000_0000;
    WordOfBytes(hi);
    assert ByteAt(n, 0 + 4) == ByteAt(hi, 0) && ByteAt(n, 1 + 4) == ByteAt(hi, 1);
    assert ByteAt(n, 2 + 4) == ByteAt(hi, 2) && ByteAt(n, 3 + 4) == ByteAt(hi, 3);
  }

  lemma MediumRoundTrip(n: nat, masked: bool, rest: seq<Byte>)
    requires Fits(n, Medium)
    ensures ReadLength(PrintLength(n, Medium, masked) + rest) == Length(n, masked, rest)
  {
    var p := PrintLength(n, Medium, masked);
    var input := p + rest;
    TwoBytes(n);
    assert input[1..3] == [ByteAt(n, 1), ByteAt(n, 0)] && input[3..] == rest;
  }

  lemma LongRoundTrip(n: nat, masked: bool, rest: seq<Byte>)
    requires Fits(n, Long)
    ensures ReadLength(PrintLength(n, Long, masked) + rest) == if MAX_LENGTH < n then Insane else Length(n, masked, rest)
  {
    var p := PrintLength(n, Long, masked);
    var input := p + rest;
    EightBytes(n);
    assert input[1..5] == [ByteAt(n, 7), ByteAt(n, 6), ByteAt(n, 5), ByteAt(n, 4)];
    assert input[5..9] == [ByteAt(n, 3), ByteAt(n, 2), ByteAt(n, 1), ByteAt(n, 0)];
    assert input[9..] == rest;
  }

  /** Every form of every length is read back exactly, with its mask bit, whatever follows; the only
      lengths refused are those over the server's limit. */
  lemma LengthRoundTrip(n: nat, form: Form, masked: bool, rest: seq<Byte>)
    requires Fits(n, form)
    ensures ReadLength(PrintLength(n, form, masked) + rest) ==
            if form == Long && 0x100_0000_0000 < n then Insane else Length(n, masked, rest)
  {
    match form
    case Short => assert (PrintLength(n, Short, masked) + rest)[1..] == rest;
    case Medium => MediumRoundTrip(n, masked, rest);
    case Long => LongRoundTrip(n, masked, rest);
  }

  /** `send_websocket` writes the shortest form the RFC allows, and with the mask bit set the server's
      own decoder reads the length back, for every length up to its limit and for none above it. */
  lemma SendHeaderShortest(n: nat, rest: seq<Byte>)
    requires n < SIZE_T
    ensures SendHeader(n)[0] == 0x81
    ensures forall form :: Fits(n, form) ==> |SendHeader(n)| <= 1 + |PrintLength(n, form, false)|
    ensures exists form :: Fits(n, form) && SendHeader(n)[1..] == PrintLength(n, form, false)
    ensures var h := SendHeader(n);
            ReadLength([h[1] + 128] + h[2..] + rest) == if n <= 0x100_0000_0000 then Length(n, true, rest) else Insane
  {
    var form := if n < 126 then Short else if n < 65536 then Medium else Long;
    var h := SendHeader(n);
    assert Fits(n, form) && h[1..] == PrintLength(n, form, false);
    assert [h[1] + 128] + h[2..] == PrintLength(n, form, true);
    LengthRoundTrip(n, form, true, rest);
  }

  // ----- Reading frames -----

  /** What is read off the socket: data and what is left, the end of the stream, or a refusal. */
  datatype Read = Got(data: seq<Byte>, rest: seq<Byte>) | Eof | Refused

  /** `get_websocket_data`: the opcode byte has been read already. */
  function ReadData(input: seq<Byte>): (r: Read)
    ensures r.Got? ==> |r.rest| < |input|
  {
    match ReadLength(input)
    case LengthEof => Eof
    case Insane => Refused
    case Length(n, masked, rest) =>
      if !masked then Refused
      else if |rest| < 4 + n then Eof
      else Got(Unmasked(rest[4..4 + n], rest[..4]), rest[4 + n..])
  }

  /** The answer to a ping: the length goes into one byte whatever it is. */
  function Pong(data: seq<Byte>): seq<Byte> {
    [0x8a, |data| % 256] + data
  }

  /** `get_websocket_line`: the result, and the bytes sent on the way. */
  function ReadLine(input: seq<Byte>): (Read, seq<Byte>) {
    if |input| < 1 then (Eof, [])
    else
      var opcode := input[0] % 16;
      if opcode == 9 || opcode == 10 then
        var control := ReadData(input[1..]);
        if !control.Got? then (control, [])
        else
          var (line, sent) := ReadLine(control.rest);
          (line, (if opcode == 9 then Pong(control.data) else []) + sent)
      else if opcode != 1 then (Refused, [])
      else (ReadData(input[1..]), [])
  }

  lemma ControlStep(from: seq<Byte>)
    requires |from| > 0 && (from[0] % 16 == 9 || from[0] % 16 == 10) && ReadData(from[1..]).Got?
    ensures var control := ReadData(from[1..]);
            && ReadLine(from).0 == ReadLine(control.rest).0
            && ReadLine(from).1 == (if from[0] % 16 == 9 then Pong(control.data) else []) + ReadLine(control.rest).1
  {
  }

  lemma LastStep(from: seq<Byte>)
    requires |from| > 0 && from[0] % 16 != 9 && from[0] % 16 != 10
    ensures ReadLine(from) == (if from[0] % 16 == 1 then ReadData(from[1..]) else Refused, [])
  {
  }

  // ----- The reader as the source runs it -----

  class FrameSocket {
    var input: seq<Byte>    // what the peer has sent and is still to be read
    var sent: seq<Byte>

    constructor (input: seq<Byte>)
      ensures this.input == input && sent == []
    {
      this.input, sent := input, [];
    }

    /** `asio::read` of exactly n bytes; false at the end of the stream. */
    method ReadExactly(n: nat) returns (ok: bool, bytes: seq<Byte>)
      modifies this`input
      ensures ok <==> n <= |old(input)|
      ensures ok ==> bytes == old(input)[..n] && input == old(input)[n..]
    {
      ok := n <= |input|;
      if ok {
        bytes, input := input[..n], input[n..];
      } else {
        bytes, input := input, [];
      }
    }

    /** The length fields; `n` is meaningful when the result is `Length`. */
    method GetLength() returns (r: LengthRead)
      modifies this`input
      ensures ReadLength(old(input)).Length? ==> r == ReadLength(old(input)) && input == r.rest
      ensures !ReadLength(old(input)).Length? ==> r == ReadLength(old(input))
    {
      var ok, mpay := ReadExactly(1);
      if !ok { return LengthEof; }
      var maskbit := mpay[0] >= 128;
      var paybyte := mpay[0] % 128;
      var paylen: nat := paybyte;
      if 126 == paybyte {
        var shore;
        ok, shore := ReadExactly(2);
        if !ok { return LengthEof; }
        assert shore == old(input)[1..3] && input == old(input)[3..];
        paylen := Ntohs(shore);
      } else if 127 == paybyte {
        var lunghi, lunglo;
        ok, lunghi := ReadExactly(4);
        if !ok { return LengthEof; }
        assert lunghi == old(input)[1..5] && input == old(input)[5..];
        ok, lunglo := ReadExactly(4);
        if !ok { return LengthEof; }
        assert lunglo == old(input)[5..9] && input == old(input)[9..];
        var lung := Ntohl(lunghi) * 0x1_0000_0000 + Ntohl(lunglo);
        if MAX_LENGTH < lung { return Insane; }
        paylen := lung;
      }
      return Length(paylen, maskbit, input);
    }

    method GetWebsocketData() returns (r: Read)
      modifies this`input
      ensures r == ReadData(old(input))
      ensures r.Got? ==> input == r.rest
    {
      var len := GetLength();
      if len.LengthEof? { return Eof; }
      if len.Insane? { return Refused; }
      if !len.masked { return Refused; }
      var ok, mbytes := ReadExactly(4);
      if !ok { return Eof; }
      var mask := Word(mbytes[0], mbytes[1], mbytes[2], mbytes[3]);
      BytesOfWord(mbytes[0], mbytes[1], mbytes[2], mbytes[3]);
      assert WordBytes(mask) == mbytes;
      var blob;
      ok, blob := ReadExactly(len.n);
      if !ok { return Eof; }
      assert mbytes == len.rest[..4] && blob == len.rest[4..4 + len.n] && input == len.rest[4 + len.n..];
      var data := new Byte[len.n](i requires 0 <= i < len.n => blob[i]);
      assert data[..] == blob;
      Unmask(data, mask);
      return Got(data[..], input);
    }

    /** The body of the ping loop, for a frame whose opcode byte has been read: take its data and,
        for a ping, answer with a pong. */
    method AnswerControl(opcode: int) returns (control: Read)
      modifies this
      ensures control == ReadData(old(input))
      ensures control.Got? ==> input == control.rest
      ensures sent == old(sent) + if opcode == 9 && control.Got? then Pong(control.data) else []
    {
      control := GetWebsocketData();
      if control.Got? && 9 == opcode {
        Regroup(sent, [0x8a, |control.data| % 256], control.data);
        sent := sent + [0x8a, |control.data| % 256];
        sent := sent + control.data;
      }
    }

    method GetWebsocketLine() returns (r: Read)
      modifies this
      ensures r == ReadLine(old(input)).0 && sent == old(sent) + ReadLine(old(input)).1
      ensures r.Got? ==> input == r.rest
    {
      ghost var line, pongs := ReadLine(input).0, ReadLine(input).1;
      var ok, fop := ReadExactly(1);
      if !ok { return Eof; }
      ghost var from := old(input);
      var opcode := fop[0] % 16;
      while 9 == opcode || 10 == opcode
        invariant |from| > 0 && opcode == from[0] % 16 && input == from[1..]
        invariant ReadLine(from).0 == line && sent + ReadLine(from).1 == old(sent) + pongs
        decreases |input|
      {
        ghost var answered := sent;
        var pingd := AnswerControl(opcode);
        if !pingd.Got? { return pingd; }
        ControlStep(from);
        Regroup(answered, if opcode == 9 then Pong(pingd.data) else [], ReadLine(pingd.rest).1);
        from := pingd.rest;
        ok, fop := ReadExactly(1);
        if !ok { return Eof; }
        opcode := fop[0] % 16;
      }
      LastStep(from);
      if 8 == opcode { return Refused; }
      if 1 != opcode { return Refused; }
      r := GetWebsocketData();
    }

    method SendWebsocket(cmd: seq<Byte>)
      requires |cmd| < SIZE_T
      modifies this`sent
      ensures sent == old(sent) + SendHeader(|cmd|) + cmd
    {
      var paylen := |cmd|;
      var header := new Byte[10];
      header[0] := 0x81;
      if paylen < 126 {
        header[1] := paylen;
        sent := sent + header[..2];
      } else if paylen < 65536 {
        header[1] := 126;
        header[2] := ByteAt(paylen, 1);
        header[3] := ByteAt(paylen, 0);
        sent := sent + header[..4];
      } else {
        header[1] := 127;
        header[2], header[3], header[4], header[5] := ByteAt(paylen, 7), ByteAt(paylen, 6), ByteAt(paylen, 5), ByteAt(paylen, 4);
        header[6], header[7], header[8], header[9] := ByteAt(paylen, 3), ByteAt(paylen, 2), ByteAt(paylen, 1), ByteAt(paylen, 0);
        sent := sent + header[..10];
      }
      sent := sent + cmd;
    }
  }

  // ----- Streams of frames -----

  /** A frame as a client sends it; `fop` holds the FIN and reserved bits and the opcode. */
  datatype Frame = Frame(fop: Byte, form: Form, mask: seq<Byte>, payload: seq<Byte>)

  predicate WellFormed(f: Frame) {
    |f.mask| == 4 && Fits(|f.payload|, f.form) && |f.payload| <= 0x100_0000_0000
  }

  predicate IsControl(f: ClientFrame) {
    (f.fop % 16 == 9 || f.fop % 16 == 10) && |f.payload| <= 125
  }

  predicate IsText(f: ClientFrame) {
    f.fop % 16 == 1
  }

  type ClientFrame = f: Frame | WellFormed(f) witness Frame(0x81, Short, [0, 0, 0, 0], [])

  function Print(f: ClientFrame): seq<Byte> {
    [f.fop] + PrintLength(|f.payload|, f.form, true) + f.mask + Unmasked(f.payload, f.mask)
  }

  function PrintAll(fs: seq<ClientFrame>): seq<Byte> {
    if fs == [] then [] else Print(fs[0]) + PrintAll(fs[1..])
  }

  /** One pong for each ping, with its payload, in order. */
  function Pongs(fs: seq<ClientFrame>): seq<Byte> {
    if fs == [] then [] else (if fs[0].fop % 16 == 9 then Pong(fs[0].payload) else []) + Pongs(fs[1..])
  }

  /** A printed frame is read back: its payload, and exactly its bytes. */
  lemma DataRoundTrip(f: ClientFrame, rest: seq<Byte>)
    ensures (Print(f) + rest)[0] == f.fop
    ensures ReadData((Print(f) + rest)[1..]) == Got(f.payload, rest)
  {
    var len, masked := PrintLength(|f.payload|, f.form, true), Unmasked(f.payload, f.mask);
    var after := f.mask + masked + rest;
    assert (Print(f) + rest)[1..] == len + after;
    LengthRoundTrip(|f.payload|, f.form, true, after);
    assert after[..4] == f.mask && after[4..4 + |f.payload|] == masked && after[4 + |f.payload|..] == rest;
    UnmaskTwice(f.payload, f.mask);
  }

  /** Any number of masked pings and pongs and then a text frame: the reader returns exactly the
      text, consumes exactly those bytes, and answers each ping with its own payload, in order. */
  lemma {:induction false} StreamRead(controls: seq<ClientFrame>, text: ClientFrame, rest: seq<Byte>)
    requires (forall f :: f in controls ==> IsControl(f)) && IsText(text)
    ensures ReadLine(PrintAll(controls) + Print(text) + rest) == (Got(text.payload, rest), Pongs(controls))
  {
    if controls == [] {
      assert PrintAll(controls) + Print(text) == Print(text);
      DataRoundTrip(text, rest);
      LastStep(Print(text) + rest);
    } else {
      var f := controls[0];
      assert f in controls && IsControl(f);
      var after := PrintAll(controls[1..]) + Print(text) + rest;
      Regroup(Print(f), PrintAll(controls[1..]), Print(text));
      Regroup(Print(f), PrintAll(controls[1..]) + Print(text), rest);
      DataRoundTrip(f, after);
      ControlStep(Print(f) + after);
      StreamRead(controls[1..], text, rest);
    }
  }

  /** What a client makes of a frame from the server: FIN bit, opcode and payload, if the frame is
      complete, not masked, and nothing is left over. */
  datatype ServerFrame = ServerFrame(fin: bool, opcode: nat, payload: seq<Byte>) | NoFrame

  function ReadServerFrame(frame: seq<Byte>): ServerFrame
    requires |frame| >= 1
  {
    match ReadLength(frame[1..])
    case Length(n, masked, rest) =>
      if !masked && |rest| == n then ServerFrame(frame[0] >= 128, frame[0] % 16, rest) else NoFrame
    case _ => NoFrame
  }

  /** A pong on the wire, section 5.5.3: FIN and opcode 10, the length in its short form, the payload. */
  lemma PongBytes(data: seq<Byte>)
    requires |data| <= 125
    ensures Pong(data) == [0x80 + 10] + PrintLength(|data|, Short, false) + data
  {
  }

  /** The server answers any ping, but its answer is a final pong with the ping's payload exactly when
      that was within the 125 bytes section 5.5 allows: beyond that the one-byte length is wrong. */
  lemma PongFaithfulIff(data: seq<Byte>)
    ensures ReadServerFrame(Pong(data)) == ServerFrame(true, 10, data) <==> |data| <= 125
  {
    var body := Pong(data)[1..];
    assert body[0] == |data| % 256 && body[1..] == data;
  }

  /** A ping of 126 bytes is answered with a frame that does not carry its payload. */
  lemma LongPingMisanswered()
    ensures var data := seq(126, _ => 0);
            ReadServerFrame(Pong(data)) != ServerFrame(true, 10, data)
  {
    PongFaithfulIff(seq(126, _ => 0));
  }

  /** What `send_websocket` sends is a final text frame with the payload, for every length up to the
      decoder's limit. */
  lemma SentFrame(cmd: seq<Byte>)
    requires |cmd| <= 0x100_0000_0000
    ensures ReadServerFrame(SendHeader(|cmd|) + cmd) == ServerFrame(true, 1, cmd)
  {
    var n := |cmd|;
    var form := if n < 126 then Short else if n < 65536 then Medium else Long;
    assert (SendHeader(n) + cmd)[1..] == PrintLength(n, form, false) + cmd;
    LengthRoundTrip(n, form, false, cmd);
  }

  // ----- What is refused -----

  /** Data is read only off a frame with the mask bit set, and then the rest is what follows it. */
  lemma OnlyMasked(input: seq<Byte>)
    ensures ReadData(input).Got? ==> |input| > 0 && input[0] >= 128
  {
  }

  /** A frame without the mask bit is refused as soon as its length is known. */
  lemma UnmaskedRefused(n: nat, form: Form, rest: seq<Byte>)
    requires Fits(n, form)
    ensures ReadData(PrintLength(n, form, false) + rest) == Refused
  {
    LengthRoundTrip(n, form, false, rest);
  }

  /** Anything but text, ping and pong is refused, close frames included, and nothing is sent. */
  lemma OtherOpcodesRefused(fop: Byte, rest: seq<Byte>)
    requires fop % 16 !in [1, 9, 10]
    ensures ReadLine([fop] + rest) == (Refused, [])
  {
    LastStep([fop] + rest);
  }

  /** A stream that ends inside a frame gives no data: end of stream, with nothing made up. */
  lemma CutFrameIsEof(f: ClientFrame, k: nat)
    requires k < |Print(f)| - 1
    ensures ReadData(Print(f)[1..][..k]) == Eof
  {
    var len := PrintLength(|f.payload|, f.form, true);
    var tail := f.mask + Unmasked(f.payload, f.mask);
    assert Print(f)[1..] == len + tail;
    var cut := Print(f)[1..][..k];
    if k < |len| {
      assert cut == len[..k];
      CutLength(|f.payload|, f.form, k);
    } else {
      assert cut == len + tail[..k - |len|];
      LengthRoundTrip(|f.payload|, f.form, true, tail[..k - |len|]);
    }
  }

  lemma CutLength(n: nat, form: Form, k: nat)
    requires Fits(n, form) && k < |PrintLength(n, form, true)|
    ensures ReadLength(PrintLength(n, form, true)[..k]) == LengthEof
  {
  }
}
