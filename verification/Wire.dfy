/** Frames on the wire (protocol/common.go, network/common.go readLoop, router/router.go Process): a printer, the
    splitting of a byte stream by length prefix, and the parser, as values; then the code that writes and reads. */
module Wire {

  type byte = x: int | 0 <= x < 256
  type bytes = seq<byte>

  const PACKET_LIMIT := 1024 * 1024 * 8
  const PROTO_SIZE_BASE := 5
  const TWO16 := 65536
  const TWO32 := 0x1_0000_0000

  const MSG_TYPE_REQUEST: byte := 1
  const MSG_TYPE_RESPONSE: byte := 2
  const MSG_TYPE_CAST: byte := 3

  // ---- Little-endian numbers; casts wrap ----

  function U16(n: nat): (b: bytes)
    ensures |b| == 2
  {
    [n % 256, n / 256 % 256]
  }

  function U32(n: nat): (b: bytes)
    ensures |b| == 4
  {
    [n % 256, n / 256 % 256, n / 65536 % 256, n / 16777216 % 256]
  }

  function ReadU16(b: bytes): nat
    requires |b| >= 2
  {
    b[0] as int + 256 * (b[1] as int)
  }

  function ReadU32(b: bytes): nat
    requires |b| >= 4
  {
    b[0] as int + 256 * (b[1] as int) + 65536 * (b[2] as int) + 16777216 * (b[3] as int)
  }

  lemma TwoDigits(n: nat)
    ensures n % 65536 == n % 256 + 256 * (n / 256 % 256)
  {
    var h := n / 256;
    assert n == 256 * h + n % 256 && h == 256 * (h / 256) + h % 256;
    assert n == 65536 * (h / 256) + (n % 256 + 256 * (h % 256));
    Remainder(n, h / 256, n % 256 + 256 * (h % 256));
  }

  lemma Remainder(n: int, q: int, r: int)
    requires n == 65536 * q + r && 0 <= r < 65536
    ensures n % 65536 == r
  {
  }

  lemma FourDigits(n: nat)
    ensures n % 0x1_0000_0000 ==
      n % 256 + 256 * (n / 256 % 256) + 65536 * (n / 65536 % 256) + 16777216 * (n / 16777216 % 256)
  {
    var h := n / 65536;
    TwoDigits(n);
    TwoDigits(h);
    assert h / 256 == n / 16777216;
    assert n % 0x1_0000_0000 == n % 65536 + 65536 * (h % 65536);
  }

  lemma NumbersReadBack(n: nat, rest: bytes)
    ensures ReadU16(U16(n) + rest) == n % TWO16
    ensures ReadU32(U32(n) + rest) == n % TWO32
  {
    TwoDigits(n);
    FourDigits(n);
    assert (U16(n) + rest)[0] == U16(n)[0] && (U16(n) + rest)[1] == U16(n)[1];
    var b := U32(n) + rest;
    assert b[0] == U32(n)[0] && b[1] == U32(n)[1] && b[2] == U32(n)[2] && b[3] == U32(n)[3];
  }

  /** Casting a length before writing it loses nothing that writing it would not lose. */
  lemma WrappedLength(n: nat)
    ensures U16(n % TWO16) == U16(n)
    ensures U32(n % TWO32) == U32(n)
  {
    TwoDigits(n);
    FourDigits(n);
    Recompose(n % 256, n / 256 % 256, n / 65536 % 256, n / 16777216 % 256);
  }

  lemma Recompose(a: nat, b: nat, c: nat, d: nat)
    requires a < 256 && b < 256 && c < 256 && d < 256
    ensures U16(a + 256 * b) == [a, b]
    ensures U32(a + 256 * b + 65536 * c + 16777216 * d) == [a, b, c, d]
  {
    var m := a + 256 * b + 65536 * c + 16777216 * d;
    assert m / 256 == b + 256 * c + 65536 * d;
    assert m / 65536 == c + 256 * d;
    assert m / 16777216 == d;
  }

  // ---- Printing ----

  datatype Message = Message(uri: bytes, msgType: byte, id: bytes, body: bytes)

  function StringBytes(s: bytes): bytes
  {
    U16(|s|) + s
  }

  function Payload(m: Message): (p: bytes)
    ensures |p| == PROTO_SIZE_BASE + |m.uri| + |m.id| + |m.body|
  {
    StringBytes(m.uri) + [m.msgType] + StringBytes(m.id) + m.body
  }

  function FrameOf(payload: bytes): bytes
  {
    U32(|payload|) + payload
  }

  // ---- Reading ----

  /** Reading up to n bytes never fails: at the end of the data it yields what is left. */
  function Take(b: bytes, n: nat): bytes
  {
    if n <= |b| then b[..n] else b
  }

  function Skip(b: bytes, n: nat): bytes
  {
    if n <= |b| then b[n..] else []
  }

  datatype Read = NoString | Text(text: bytes, rest: bytes)

  function ReadString(b: bytes): Read
  {
    if |b| < 2 then NoString else Text(Take(b[2..], ReadU16(b)), Skip(b[2..], ReadU16(b)))
  }

  datatype Parsed = Malformed | Ok(message: Message)

  function Parse(b: bytes): Parsed
  {
    var u := ReadString(b);
    if u.NoString? || u.rest == [] then Malformed
    else
      var i := ReadString(u.rest[1..]);
      if i.NoString? then Malformed else Ok(Message(u.text, u.rest[0], i.text, i.rest))
  }

  /** What readLoop hands on from a stream: each declared length's worth of bytes, or what is left of it; it stops
      at a length it cannot read in full and at one over the limit. */
  function Split(s: bytes): seq<bytes>
    decreases |s|
  {
    if |s| < 4 || ReadU32(s) > PACKET_LIMIT then []
    else [Take(s[4..], ReadU32(s))] + Split(Skip(s[4..], ReadU32(s)))
  }

  function Join(payloads: seq<bytes>): bytes
  {
    if payloads == [] then [] else FrameOf(payloads[0]) + Join(payloads[1..])
  }

  // ---- One frame ----

  lemma StringReadsBack(s: bytes, rest: bytes)
    ensures ReadString(StringBytes(s) + rest).Text?
    ensures |s| < TWO16 ==> ReadString(StringBytes(s) + rest) == Text(s, rest)
    ensures |s| >= TWO16 ==> ReadString(StringBytes(s) + rest).text != s
  {
    hide U16, ReadU16, ReadU32;
    var b := StringBytes(s) + rest;
    NumbersReadBack(|s|, s + rest);
    assert b == U16(|s|) + (s + rest) && b[2..] == s + rest;
    if |s| < TWO16 {
      assert (s + rest)[..|s|] == s && (s + rest)[|s|..] == rest;
    } else {
      assert |ReadString(b).text| < TWO16;
    }
  }

  /** The four fields come back exactly if neither string outgrew its 16-bit length. */
  lemma ParseReadsBackIff(m: Message)
    ensures Parse(Payload(m)) == Ok(m) <==> |m.uri| < TWO16 && |m.id| < TWO16
  {
    hide StringBytes, ReadString;
    var tail := [m.msgType] + (StringBytes(m.id) + m.body);
    assert Payload(m) == StringBytes(m.uri) + tail;
    StringReadsBack(m.uri, tail);
    if |m.uri| < TWO16 {
      assert tail[0] == m.msgType && tail[1..] == StringBytes(m.id) + m.body;
      StringReadsBack(m.id, m.body);
    }
  }

  /** A frame's declared size is the number of bytes that follow it, so that it is read as one payload and the
      stream goes on right behind it. */
  lemma SplitFrame(payload: bytes, rest: bytes)
    requires |payload| <= PACKET_LIMIT
    ensures Split(FrameOf(payload) + rest) == [payload] + Split(rest)
  {
    hide U32, ReadU32, FrameOf, Take, Skip;
    var s, tail := FrameOf(payload) + rest, payload + rest;
    FrameBytes(payload, rest);
    NumbersReadBack(|payload|, tail);
    assert s[4..] == tail && ReadU32(s) == |payload|;
    TakeSkip(payload, rest);
  }

  lemma TakeSkip(a: bytes, b: bytes)
    ensures Take(a + b, |a|) == a && Skip(a + b, |a|) == b
  {
  }

  lemma FrameBytes(payload: bytes, rest: bytes)
    ensures FrameOf(payload) + rest == U32(|payload|) + (payload + rest)
    ensures |FrameOf(payload)| == 4 + |payload|
  {
  }

  // ---- Streams ----

  /** Any list of frames within the limit is delivered in full and in order, exactly if all are within it. */
  lemma {:induction false} StreamDeliversAllIff(payloads: seq<bytes>)
    requires forall i :: 0 <= i < |payloads| ==> |payloads[i]| < TWO32
    ensures Split(Join(payloads)) == payloads <==> forall i :: 0 <= i < |payloads| ==> |payloads[i]| <= PACKET_LIMIT
  {
    hide U32, ReadU32, FrameOf;
    if payloads != [] {
      var first, others := payloads[0], payloads[1..];
      assert payloads == [first] + others;
      if |first| <= PACKET_LIMIT {
        StreamDeliversAllIff(others);
        SplitFrame(first, Join(others));
      } else {
        NumbersReadBack(|first|, first + Join(others));
        assert Join(payloads) == U32(|first|) + (first + Join(others)) by {
          FrameBytes(first, Join(others));
        }
      }
    }
  }

  /** Where a stream of frames was cut: how many frames came through in full, and how far into the next. */
  ghost predicate CutAt(payloads: seq<bytes>, n: nat, full: nat, into: nat)
  {
    && full < |payloads| && into < |FrameOf(payloads[full])|
    && n == |Join(payloads[..full])| + into
  }

  /** Every proper prefix of a stream of frames delivers its complete payloads, then, if the next frame's length was
      read in full, one remainder shorter than that payload, and nothing else. */
  lemma {:induction false} TruncatedStream(payloads: seq<bytes>, n: nat) returns (full: nat, into: nat)
    requires forall i :: 0 <= i < |payloads| ==> |payloads[i]| <= PACKET_LIMIT
    requires n < |Join(payloads)|
    ensures CutAt(payloads, n, full, into)
    ensures Split(Join(payloads)[..n]) ==
      payloads[..full] + if into < 4 then [] else [payloads[full][..into - 4]]
  {
    hide FrameOf, Split;
    var first, others := payloads[0], payloads[1..];
    var frame := FrameOf(first);
    FrameBytes(first, []);
    if n < |frame| {
      full, into := 0, n;
      assert Join(payloads[..0]) == [] && payloads[..0] == [];
      CutFrame(first, n);
      assert Join(payloads)[..n] == frame[..n];
    } else {
      var f, i := TruncatedStream(others, n - |frame|);
      full, into := f + 1, i;
      assert Join(payloads)[..n] == frame + Join(others)[..n - |frame|];
      SplitFrame(first, Join(others)[..n - |frame|]);
      assert payloads[..full][1..] == others[..f] && payloads[..full] == [first] + others[..f];
      assert Join(payloads[..full]) == frame + Join(others[..f]);
    }
  }

  lemma CutFrame(payload: bytes, n: nat)
    requires |payload| <= PACKET_LIMIT && n < |FrameOf(payload)|
    ensures Split(FrameOf(payload)[..n]) == if n < 4 then [] else [payload[..n - 4]]
  {
    hide U32, ReadU32;
    if n >= 4 {
      var s := FrameOf(payload)[..n];
      NumbersReadBack(|payload|, payload[..n - 4]);
      assert s == U32(|payload|) + payload[..n - 4] && s[4..] == payload[..n - 4];
      assert Split([]) == [];
    }
  }

  function Payloads(ms: seq<Message>): (ps: seq<bytes>)
    ensures |ps| == |ms| && forall i :: 0 <= i < |ms| ==> ps[i] == Payload(ms[i])
  {
    seq(|ms|, i requires 0 <= i < |ms| => Payload(ms[i]))
  }

  /** Messages written one after another are read back as themselves, in order. */
  lemma MessagesRoundTrip(ms: seq<Message>)
    requires forall i :: 0 <= i < |ms| ==>
      |Payload(ms[i])| <= PACKET_LIMIT && |ms[i].uri| < TWO16 && |ms[i].id| < TWO16
    ensures
      var got := Split(Join(Payloads(ms)));
      |got| == |ms| && forall i :: 0 <= i < |ms| ==> Parse(got[i]) == Ok(ms[i])
  {
    hide Split, Join, Parse, Payload;
    StreamDeliversAllIff(Payloads(ms));
    forall i | 0 <= i < |ms| ensures Parse(Payload(ms[i])) == Ok(ms[i]) {
      ParseReadsBackIff(ms[i]);
    }
  }

  // ---- The code that writes and reads ----

  class Buffer {
    var data: bytes

    constructor (data: bytes)
      ensures this.data == data
    {
      this.data := data;
    }

    method Write(b: bytes)
      modifies this
      ensures data == old(data) + b
    {
      data := data + b;
    }

    /** Reads up to n bytes. */
    method Next(n: nat) returns (b: bytes)
      modifies this
      ensures b == Take(old(data), n) && data == Skip(old(data), n)
    {
      if n <= |data| {
        b, data := data[..n], data[n..];
      } else {
        b, data := data, [];
      }
    }
  }

  method WriteString(buffer: Buffer, s: bytes)
    modifies buffer
    ensures buffer.data == old(buffer.data) + StringBytes(s)
  {
    var length := |s| % TWO16;
    assert U16(length) == U16(|s|) by { WrappedLength(|s|); }
    buffer.Write(U16(length));
    buffer.Write(s);
  }

  lemma Associate(a: bytes, b: bytes, c: bytes, d: bytes, e: bytes)
    ensures [] + a + b + c + d + e == a + (b + c + d + e)
  {
  }

  method NewProtocol(uri: bytes, msgType: byte, id: bytes, body: bytes) returns (out: bytes)
    ensures out == FrameOf(Payload(Message(uri, msgType, id, body)))
  {
    hide U16, U32, StringBytes;
    var buffer := new Buffer([]);
    var size := PROTO_SIZE_BASE + |uri| + |id| + |body|;
    WrappedLength(size);
    buffer.Write(U32(size % TWO32));
    WriteString(buffer, uri);
    buffer.Write([msgType]);
    WriteString(buffer, id);
    buffer.Write(body);
    out := buffer.data;
    Associate(U32(size), StringBytes(uri), [msgType], StringBytes(id), body);
  }

  method ReadText(buffer: Buffer) returns (ok: bool, text: bytes)
    modifies buffer
    ensures ok <==> ReadString(old(buffer.data)).Text?
    ensures ok ==> Text(text, buffer.data) == ReadString(old(buffer.data))
  {
    if |buffer.data| < 2 {
      return false, [];
    }
    var head := buffer.Next(2);
    assert head[0] == old(buffer.data)[0] && head[1] == old(buffer.data)[1];
    text := buffer.Next(ReadU16(head));
    ok := true;
  }

  /** The header parse of Process. */
  method ParseMessage(data: bytes) returns (parsed: Parsed)
    ensures parsed == Parse(data)
  {
    var buffer := new Buffer(data);
    var ok, uri := ReadText(buffer);
    if !ok || |buffer.data| < 1 {
      return Malformed;
    }
    var head := buffer.Next(1);
    var id;
    ok, id := ReadText(buffer);
    if !ok {
      return Malformed;
    }
    parsed := Ok(Message(uri, head[0], id, buffer.data));
  }

  method ReadLoop(connection: Buffer) returns (delivered: seq<bytes>)
    modifies connection
    ensures delivered == Split(old(connection.data))
  {
    delivered := [];
    while true
      invariant delivered + Split(connection.data) == Split(old(connection.data))
      decreases |connection.data|
    {
      if |connection.data| < 4 {
        break;
      }
      var before := connection.data;
      var head := connection.Next(4);
      assert head == before[..4] && ReadU32(head) == ReadU32(before);
      var size := ReadU32(head);
      if size > PACKET_LIMIT {
        assert Split(before) == [];
        break;
      }
      var payload := connection.Next(size);
      delivered := delivered + [payload];
    }
  }
}
