/**
 RCON packets on the wire: a length, a request id and a type, each as four little-endian bytes, then the
 payload ended by a zero byte and one more zero byte as padding.

 The layout is that of the Source RCON Protocol, section "Basic Packet Structure".  A read returns all the
 bytes it asks for as long as the stream holds them.
 */
module Rcon {

  newtype byte = x: int | 0 <= x < 256
  newtype int32 = x: int | -0x8000_0000 <= x < 0x8000_0000

  const MAX_LENGTH := 4096 + 16
  const MIN_LENGTH := 10

  // ---------- Numbers ----------

  /** The conversion to an unsigned number. */
  function Low32(v: int): (u: nat)
    ensures u < 0x1_0000_0000
    ensures 0 <= v < 0x1_0000_0000 ==> u == v
    ensures -0x8000_0000 <= v < 0 ==> u == v + 0x1_0000_0000
  {
    v % 0x1_0000_0000
  }

  /** The four bytes of a number, its low 32 bits, least significant first. */
  function PutUint32(v: int): (b: seq<byte>)
    ensures |b| == 4
  {
    var u := Low32(v);
    [(u % 0x100) as byte, (u / 0x100 % 0x100) as byte, (u / 0x1_0000 % 0x100) as byte, (u / 0x100_0000) as byte]
  }

  function Uint32(b: seq<byte>): (v: nat)
    requires |b| == 4
    ensures v < 0x1_0000_0000
  {
    b[0] as int + 0x100 * (b[1] as int) + 0x1_0000 * (b[2] as int) + 0x100_0000 * (b[3] as int)
  }

  /** The conversion to a signed number. */
  function Signed(v: nat): int32
    requires v < 0x1_0000_0000
  {
    if v < 0x8000_0000 then v as int32 else (v - 0x1_0000_0000) as int32
  }

  lemma Uint32RoundTrip(v: int)
    ensures Uint32(PutUint32(v)) == Low32(v)
  {
    var u := Low32(v);
    assert u == u % 0x100 + 0x100 * (u / 0x100);
    assert u / 0x100 == u / 0x100 % 0x100 + 0x100 * (u / 0x1_0000);
    assert u / 0x1_0000 == u / 0x1_0000 % 0x100 + 0x100 * (u / 0x100_0000);
  }

  lemma Int32RoundTrip(v: int32)
    ensures Signed(Uint32(PutUint32(v as int))) == v
  {
    Uint32RoundTrip(v as int);
  }

  // ---------- Packets ----------

  /** The bytes of one packet. */
  function Frame(id: int32, typ: int32, payload: seq<byte>): seq<byte> {
    PutUint32(10 + |payload|) + Body(id, typ, payload)
  }

  function Body(id: int32, typ: int32, payload: seq<byte>): (b: seq<byte>)
    ensures |b| == 10 + |payload|
  {
    PutUint32(id as int) + PutUint32(typ as int) + payload + [0, 0]
  }

  /** Up to the first zero byte. */
  function UntilZero(s: seq<byte>): (r: seq<byte>)
    ensures |r| <= |s| && r == s[..|r|]
    ensures 0 !in r && (|r| < |s| ==> s[|r|] == 0)
  {
    if s == [] || s[0] == 0 then [] else [s[0]] + UntilZero(s[1..])
  }

  datatype Received =
    | Packet(id: int32, payload: seq<byte>, rest: seq<byte>)
    | TooLarge(left: seq<byte>)
    | TooShort(left: seq<byte>)
    | Incomplete

  /** One packet off the front of a stream. */
  function Receive(stream: seq<byte>): Received {
    if |stream| < 4 then Incomplete
    else
      var length, tail := Uint32(stream[..4]), stream[4..];
      if length > MAX_LENGTH then TooLarge(tail)
      else if |tail| < length then Incomplete
      else if length < MIN_LENGTH then TooShort(tail[length..])
      else Packet(Signed(Uint32(tail[..4])), UntilZero(tail[8..length]), tail[length..])
  }

  lemma {:induction false} UntilZeroOf(s: seq<byte>, rest: seq<byte>)
    requires 0 !in s
    ensures UntilZero(s + [0] + rest) == s
  {
    if s == [] {
      assert (s + [0] + rest)[0] == 0;
    } else {
      assert (s + [0] + rest)[1..] == s[1..] + [0] + rest;
      UntilZeroOf(s[1..], rest);
    }
  }

  /** Where the parts of a body are found. */
  lemma BodyParts(id: int32, typ: int32, payload: seq<byte>, rest: seq<byte>)
    ensures var tail := Body(id, typ, payload) + rest;
            && Signed(Uint32(tail[..4])) == id
            && tail[8..10 + |payload|] == payload + [0] + [0]
            && tail[10 + |payload|..] == rest
  {
    var i, t := PutUint32(id as int), PutUint32(typ as int);
    var tail := i + t + payload + [0, 0] + rest;
    Int32RoundTrip(id);
    assert tail[..4] == i;
    assert tail == (i + t) + (payload + [0] + [0]) + rest;
    assert tail[8..10 + |payload|] == payload + [0] + [0];
    assert tail[10 + |payload|..] == rest;
  }

  lemma FrameParts(id: int32, typ: int32, payload: seq<byte>, rest: seq<byte>)
    ensures var stream := Frame(id, typ, payload) + rest;
            |stream| >= 4 && Uint32(stream[..4]) == Low32(10 + |payload|)
                && stream[4..] == Body(id, typ, payload) + rest
  {
    Uint32RoundTrip(10 + |payload|);
    var l, b := PutUint32(10 + |payload|), Body(id, typ, payload);
    assert (l + b + rest)[..4] == l && (l + b + rest)[4..] == b + rest;
  }

  /**
   A packet of at most 4102 bytes comes back with its id, up to the first zero byte, and leaves the rest of the
   stream.
   */
  lemma ReceiveFrame(id: int32, typ: int32, payload: seq<byte>, rest: seq<byte>)
    requires |payload| <= MAX_LENGTH - 10
    ensures Receive(Frame(id, typ, payload) + rest) == Packet(id, UntilZero(payload + [0] + [0]), rest)
  {
    FrameParts(id, typ, payload, rest);
    BodyParts(id, typ, payload, rest);
    ReceiveParsed(Frame(id, typ, payload) + rest, Body(id, typ, payload) + rest, id, payload, rest);
  }

  lemma ReceiveParsed(stream: seq<byte>, tail: seq<byte>, id: int32, payload: seq<byte>, rest: seq<byte>)
    requires |payload| <= MAX_LENGTH - 10 && |tail| >= 10 + |payload|
    requires |stream| >= 4 && Uint32(stream[..4]) == 10 + |payload| && stream[4..] == tail
    requires Signed(Uint32(tail[..4])) == id && tail[8..10 + |payload|] == payload + [0] + [0]
             && tail[10 + |payload|..] == rest
    ensures Receive(stream) == Packet(id, UntilZero(payload + [0] + [0]), rest)
  {
  }

  lemma LongFrameIsLost(id: int32, typ: int32, payload: seq<byte>, rest: seq<byte>)
    requires |payload| > MAX_LENGTH - 10
    ensures var r := Receive(Frame(id, typ, payload) + rest); r.Packet? ==> r.payload != payload
  {
    FrameParts(id, typ, payload, rest);
  }

  /** A payload survives the way over the wire exactly when it has no zero byte and at most 4102 bytes. */
  lemma RoundTripIff(id: int32, typ: int32, payload: seq<byte>, rest: seq<byte>)
    ensures Receive(Frame(id, typ, payload) + rest) == Packet(id, payload, rest) <==>
            0 !in payload && |payload| <= 4102
  {
    if |payload| > MAX_LENGTH - 10 {
      LongFrameIsLost(id, typ, payload, rest);
    } else {
      ReceiveFrame(id, typ, payload, rest);
      if 0 !in payload { UntilZeroOf(payload, [0]); }
    }
  }

  datatype Message = Message(id: int32, typ: int32, payload: seq<byte>)

  predicate Sendable(m: Message) {
    0 !in m.payload && |m.payload| <= MAX_LENGTH - 10
  }

  function Frames(ms: seq<Message>): seq<byte> {
    if ms == [] then [] else Frame(ms[0].id, ms[0].typ, ms[0].payload) + Frames(ms[1..])
  }

  /** Packet after packet until the stream has no whole one left. */
  function ReceiveAll(stream: seq<byte>): seq<(int32, seq<byte>)>
    decreases |stream|
  {
    var r := Receive(stream);
    if r.Packet? then [(r.id, r.payload)] + ReceiveAll(r.rest) else []
  }

  /** Frames that follow one another come back one by one. */
  lemma {:induction false} FramesRoundTrip(ms: seq<Message>)
    requires forall i :: 0 <= i < |ms| ==> Sendable(ms[i])
    ensures |ReceiveAll(Frames(ms))| == |ms|
    ensures forall i :: 0 <= i < |ms| ==> ReceiveAll(Frames(ms))[i] == (ms[i].id, ms[i].payload)
  {
    if ms == [] {
      assert Receive([]) == Incomplete;
    } else {
      RoundTripIff(ms[0].id, ms[0].typ, ms[0].payload, Frames(ms[1..]));
      FramesRoundTrip(ms[1..]);
    }
  }

  /** A buffer whose parts are those of a frame. */
  lemma FrameIsAssembled(buf: seq<byte>, id: int32, typ: int32, payload: seq<byte>)
    requires |buf| == 14 + |payload|
    requires buf[0..4] == PutUint32(10 + |payload|) && buf[4..8] == PutUint32(id as int)
             && buf[8..12] == PutUint32(typ as int)
    requires buf[12..13 + |payload|] == payload + [0] && buf[13 + |payload|] == 0
    ensures buf == Frame(id, typ, payload)
  {
    assert buf == buf[0..4] + buf[4..8] + buf[8..12] + buf[12..13 + |payload|] + [buf[13 + |payload|]];
  }

  // ---------- The bytes on the wire ----------

  /** The number that four bytes spell, the first one counting ones. */
  function LittleEndian(s: seq<byte>, at: nat): int
    requires at + 4 <= |s|
  {
    s[at] as int + 256 * (s[at + 1] as int) + 65536 * (s[at + 2] as int) + 16777216 * (s[at + 3] as int)
  }

  lemma PutIsLittleEndian(v: int)
    ensures LittleEndian(PutUint32(v), 0) == if 0 <= v < 0x1_0000_0000 then v else Low32(v)
  {
    Uint32RoundTrip(v);
  }

  lemma NumberInside(s: seq<byte>, part: seq<byte>, at: nat)
    requires |part| == 4 && at + 4 <= |s| && s[at..at + 4] == part
    ensures LittleEndian(s, at) == LittleEndian(part, 0)
  {
    assert s[at] == part[0] && s[at + 1] == part[1] && s[at + 2] == part[2] && s[at + 3] == part[3];
  }

  /** A packet is its length, its id and its type, least significant byte first, its payload and two zero bytes. */
  lemma FrameLayout(id: int32, typ: int32, payload: seq<byte>)
    requires |payload| < 0x1_0000_0000 - 10
    ensures var f, n := Frame(id, typ, payload), |payload|;
            && |f| == n + 14 && LittleEndian(f, 0) == n + 10
            && LittleEndian(f, 4) == (if id >= 0 then id as int else id as int + 0x1_0000_0000)
            && LittleEndian(f, 8) == (if typ >= 0 then typ as int else typ as int + 0x1_0000_0000)
            && f[12..n + 12] == payload && f[n + 12] == f[n + 13] == 0
  {
    var f, n := Frame(id, typ, payload), |payload|;
    PutIsLittleEndian(10 + n);
    PutIsLittleEndian(id as int);
    PutIsLittleEndian(typ as int);
    NumberInside(f, PutUint32(10 + n), 0);
    NumberInside(f, PutUint32(id as int), 4);
    NumberInside(f, PutUint32(typ as int), 8);
  }

  /** What is received was laid out like that, with a length within bounds and a payload up to a zero byte. */
  lemma ReceivedLayout(stream: seq<byte>)
    requires Receive(stream).Packet?
    ensures |stream| >= 14
    ensures var r, n := Receive(stream), LittleEndian(stream, 0);
            && 10 <= n <= 4112 && 4 + n <= |stream| && r.rest == stream[4 + n..]
            && LittleEndian(stream, 4) == (if r.id >= 0 then r.id as int else r.id as int + 0x1_0000_0000)
            && |r.payload| <= n - 8 && r.payload == stream[12..12 + |r.payload|] && 0 !in r.payload
            && (|r.payload| < n - 8 ==> stream[12 + |r.payload|] == 0)
  {
    var n := LittleEndian(stream, 0);
    NumberInside(stream, stream[..4], 0);
    var tail := stream[4..];
    NumberInside(stream, tail[..4], 4);
    assert tail[8..n] == stream[12..4 + n];
  }

  /** A stream is refused or waited for exactly by its length field: 10 to 4112 bytes, all of them there. */
  lemma RefusedIff(stream: seq<byte>)
    requires |stream| >= 4
    ensures var n := LittleEndian(stream, 0);
            && (Receive(stream).TooLarge? <==> n > 4112)
            && (Receive(stream).Incomplete? <==> n <= 4112 && |stream| < 4 + n)
            && (Receive(stream).TooShort? <==> n < 10 && |stream| >= 4 + n)
            && (n > 4112 ==> Receive(stream).left == stream[4..])
            && (n < 10 && |stream| >= 4 + n ==> Receive(stream).left == stream[4 + n..])
  {
    NumberInside(stream, stream[..4], 0);
  }

  // ---------- The client ----------

  class Client {
    var requestID: int32
    var sent: seq<byte>
    var incoming: seq<byte>

    constructor (stream: seq<byte>)
      ensures requestID == 0 && sent == [] && incoming == stream
    {
      requestID, sent, incoming := 0, [], stream;
    }

    /** Ids count up and wrap around. */
    method NextID() returns (id: int32)
      modifies this`requestID
      ensures id == requestID != old(requestID)
      ensures id as int == old(requestID) as int + 1 || id as int == old(requestID) as int + 1 - 0x1_0000_0000
    {
      requestID := if requestID == 0x7FFF_FFFF then -0x8000_0000 else requestID + 1;
      id := requestID;
    }

    method Send(id: int32, typ: int32, payload: seq<byte>)
      modifies this`sent
      ensures sent == old(sent) + Frame(id, typ, payload)
    {
      var pl := payload + [0];
      var bodyLen := 4 + 4 + |pl| + 1;
      var buf := new byte[4 + bodyLen](_ => 0);
      PutAt(buf, 0, bodyLen);
      PutAt(buf, 4, id as int);
      PutAt(buf, 8, typ as int);
      CopyAt(buf, 12, pl);
      buf[12 + |pl|] := 0;
      FrameIsAssembled(buf[..], id, typ, payload);
      sent := sent + buf[..];
    }

    /** Bytes written into the buffer from a position on. */
    method CopyAt(buf: array<byte>, at: nat, b: seq<byte>)
      requires at + |b| <= buf.Length
      modifies buf
      ensures buf[at..at + |b|] == b
      ensures forall i :: 0 <= i < buf.Length && !(at <= i < at + |b|) ==> buf[i] == old(buf[i])
    {
      forall i | 0 <= i < |b| { buf[at + i] := b[i]; }
    }

    method PutAt(buf: array<byte>, at: nat, v: int)
      requires at + 4 <= buf.Length
      modifies buf
      ensures buf[at..at + 4] == PutUint32(v)
      ensures forall i :: 0 <= i < buf.Length && !(at <= i < at + 4) ==> buf[i] == old(buf[i])
    {
      CopyAt(buf, at, PutUint32(v));
    }

    method Recv() returns (r: Received)
      modifies this`incoming
      ensures r == Receive(old(incoming))
      ensures incoming == match r
                case Packet(_, _, rest) => rest
                case TooLarge(left) => left
                case TooShort(left) => left
                case Incomplete => []
    {
      if |incoming| < 4 { incoming := []; return Incomplete; }
      var length := Uint32(incoming[..4]);
      incoming := incoming[4..];
      if length > MAX_LENGTH { return TooLarge(incoming); }
      if |incoming| < length { incoming := []; return Incomplete; }
      var rest := incoming[..length];
      incoming := incoming[length..];
      if length < MIN_LENGTH { return TooShort(incoming); }
      var id := Signed(Uint32(rest[0..4]));
      var pay := UntilZero(rest[8..]);
      return Packet(id, pay, incoming);
    }
  }
}
