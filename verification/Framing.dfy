/** The wire format of the kinetic client: a nine-byte header (magic 'F', length of the protobuf
  * message, length of the value; both as big-endian signed 32-bit integers), the message, and the
  * value. Messages are opaque byte strings here.
  */
module Framing {
  import opened Options

  newtype Byte = b: int | 0 <= b < 256

  type Bytes = seq<Byte>

  const MAGIC: Byte := 70 // 'F'
  const HEADER_LENGTH := 9

  /** A message and its value, as `_build_packet` receives them and `_network_recv` returns them. */
  datatype Frame = Frame(proto: Bytes, value: Bytes) {
    /** Lengths that the 32-bit header fields can hold; struct.pack raises an error otherwise. */
    predicate Packable() { |proto| < TWO_31 && |value| < TWO_31 }
  }

  const TWO_31 := 0x8000_0000
  const TWO_32 := 0x1_0000_0000

  // ----- Signed big-endian integers -----

  function Unsigned(n: int): int { if n < 0 then n + TWO_32 else n }

  function PackInt(n: int): (b: Bytes)
    requires -TWO_31 <= n < TWO_31
    ensures |b| == 4
  {
    var u := Unsigned(n);
    [(u / 0x100_0000) as Byte, (u / 0x1_0000 % 256) as Byte, (u / 256 % 256) as Byte, (u % 256) as Byte]
  }

  function UnpackInt(b: Bytes): (n: int)
    requires |b| == 4
    ensures -TWO_31 <= n < TWO_31
  {
    var u := b[0] as int * 0x100_0000 + b[1] as int * 0x1_0000 + b[2] as int * 256 + b[3] as int;
    if u >= TWO_31 then u - TWO_32 else u
  }

  /** Dividing by the larger powers is dividing by 256 again and again. */
  lemma Halves(u: nat)
    ensures u / 0x1_0000 == u / 256 / 256 && u / 0x100_0000 == u / 0x1_0000 / 256
  {
  }

  lemma UnpackPack(n: int)
    requires -TWO_31 <= n < TWO_31
    ensures UnpackInt(PackInt(n)) == n
  {
    var u := Unsigned(n);
    Halves(u);
    assert u == u / 0x100_0000 * 0x100_0000 + u / 0x1_0000 % 256 * 0x1_0000 + u / 256 % 256 * 256 + u % 256;
  }

  lemma Quotient(q: int, r: int, d: int)
    requires 0 <= r < d && (d == 256 || d == 0x1_0000 || d == 0x100_0000)
    ensures (q * d + r) / d == q && (q * d + r) % d == r
  {
    if d == 256 {
    } else if d == 0x1_0000 {
    } else {
    }
  }

  lemma PackUnpack(b: Bytes)
    requires |b| == 4
    ensures PackInt(UnpackInt(b)) == b
  {
    var b0, b1, b2, b3 := b[0] as int, b[1] as int, b[2] as int, b[3] as int;
    var u := b0 * 0x100_0000 + b1 * 0x1_0000 + b2 * 256 + b3;
    assert Unsigned(UnpackInt(b)) == u;
    Quotient(b0, b1 * 0x1_0000 + b2 * 256 + b3, 0x100_0000);
    Quotient(b0 * 256 + b1, b2 * 256 + b3, 0x1_0000);
    Quotient(b0, b1, 256);
    Quotient(b0 * 0x1_0000 + b1 * 256 + b2, b3, 256);
    Quotient(b0 * 256 + b1, b2, 256);
  }

  /** Read as a number, the most significant byte first. */
  function BigEndian(b: Bytes): nat {
    if b == [] then 0 else BigEndian(b[..|b| - 1]) * 256 + b[|b| - 1] as int
  }

  /** A packed length is big-endian, negative ones as two's complement. */
  lemma PackIsBigEndian(n: int)
    requires -0x8000_0000 <= n < 0x8000_0000
    ensures BigEndian(PackInt(n)) == if n < 0 then n + 0x1_0000_0000 else n
  {
    var (b, u) := (PackInt(n), if n < 0 then n + 0x1_0000_0000 else n);
    assert b[..3][..2] == b[..2] && b[..2][..1] == b[..1] && b[..1][..0] == [];
    assert BigEndian(b[..1]) == b[0] as int;
    assert BigEndian(b[..2]) == b[0] as int * 256 + b[1] as int;
    assert BigEndian(b[..3]) == (b[0] as int * 256 + b[1] as int) * 256 + b[2] as int;
    Halves(u);
    assert u == u / 0x100_0000 * 0x100_0000 + u / 0x1_0000 % 256 * 0x1_0000 + u / 256 % 256 * 256 + u % 256;
  }

  // ----- Frames as byte strings -----

  function Header(f: Frame): (b: Bytes)
    requires f.Packable()
    ensures |b| == HEADER_LENGTH
  {
    [MAGIC] + PackInt(|f.proto|) + PackInt(|f.value|)
  }

  /** The packet `_build_packet` makes; the value is sent behind it. */
  function Packet(f: Frame): Bytes
    requires f.Packable()
  {
    Header(f) + f.proto
  }

  function Encode(f: Frame): Bytes
    requires f.Packable()
  {
    Packet(f) + f.value
  }

  /** Where everything is: the magic byte, both lengths, the message and the value. */
  lemma FrameLayout(f: Frame)
    requires f.Packable()
    ensures var (s, m) := (Encode(f), 9 + |f.proto|);
      && |s| == m + |f.value| && s[0] == 70
      && BigEndian(s[1..5]) == |f.proto| && BigEndian(s[5..9]) == |f.value|
      && s[9..m] == f.proto && s[m..] == f.value
  {
    assert Encode(f)[1..5] == PackInt(|f.proto|) && Encode(f)[5..9] == PackInt(|f.value|);
    PackIsBigEndian(|f.proto|);
    PackIsBigEndian(|f.value|);
  }

  function EncodeAll(fs: seq<Frame>): Bytes
    requires forall f <- fs :: f.Packable()
  {
    if fs == [] then [] else Encode(fs[0]) + EncodeAll(fs[1..])
  }

  /** Closed: the peer closed the connection first. BadLength: the header announces a negative
    * message length, for which bytearray raises ValueError. */
  datatype RecvError = Closed | BadLength

  /** What reading so many bytes yields: those bytes and the ones left over. */
  function Take(s: Bytes, wanted: int): Result<(Bytes, Bytes), RecvError> {
    if wanted < 0 then Err(BadLength)
    else if |s| < wanted then Err(Closed)
    else Ok((s[..wanted], s[wanted..]))
  }

  /** What reading one frame from the stream yields: the frame and the bytes left over. The magic
    * byte is not looked at, and a value length below one means an empty value. */
  function Decode(s: Bytes): Result<(Frame, Bytes), RecvError> {
    match Take(s, HEADER_LENGTH)
    case Err(e) => Err(e)
    case Ok((header, rest)) =>
      match Take(rest, UnpackInt(header[1..5]))
      case Err(e) => Err(e)
      case Ok((proto, rest)) =>
        if UnpackInt(header[5..9]) <= 0 then Ok((Frame(proto, []), rest))
        else match Take(rest, UnpackInt(header[5..9]))
          case Err(e) => Err(e)
          case Ok((value, rest)) => Ok((Frame(proto, value), rest))
  }

  /** Exactly what reading does with any bytes: the lengths are read where they are, a negative message
    * length is an error, a negative value length stands for no value, and with fewer bytes than
    * announced the stream is closed. */
  lemma DecodeReads(s: Bytes)
    ensures |s| < 9 ==> Decode(s) == Err(Closed)
    ensures |s| >= 9 ==>
      var (p, v) := (UnpackInt(s[1..5]), UnpackInt(s[5..9]));
      var (m, n) := (9 + p, 9 + p + if v < 0 then 0 else v);
      Decode(s) == if p < 0 then Err(BadLength) else if |s| < n then Err(Closed) else Ok((Frame(s[9..m], s[m..n]), s[n..]))
  {
    if |s| >= 9 {
      var (header, rest) := (s[..9], s[9..]);
      assert header[1..5] == s[1..5] && header[5..9] == s[5..9];
      var (p, v) := (UnpackInt(s[1..5]), UnpackInt(s[5..9]));
      hide UnpackInt;
      if 0 <= p <= |rest| {
        assert rest[..p] == s[9..9 + p] && rest[p..] == s[9 + p..];
        assert s[9 + p..9 + p] == [];
        if 0 < v && 9 + p + v <= |s| {
          assert rest[p..][..v] == s[9 + p..9 + p + v] && rest[p..][v..] == s[9 + p + v..];
        }
      }
    }
  }

  lemma HeaderFields(f: Frame)
    requires f.Packable()
    ensures UnpackInt(Header(f)[1..5]) == |f.proto| && UnpackInt(Header(f)[5..9]) == |f.value|
  {
    assert Header(f)[1..5] == PackInt(|f.proto|);
    assert Header(f)[5..9] == PackInt(|f.value|);
    UnpackPack(|f.proto|);
    UnpackPack(|f.value|);
  }

  lemma TakeFirst(a: Bytes, b: Bytes)
    ensures Take(a + b, |a|) == Ok((a, b))
  {
    assert (a + b)[..|a|] == a;
    assert (a + b)[|a|..] == b;
  }

  /** Reading takes exactly the bytes of one encoded frame, whatever follows it. */
  lemma RoundTrip(f: Frame, more: Bytes)
    requires f.Packable()
    ensures Decode(Encode(f) + more) == Ok((f, more))
  {
    HeaderFields(f);
    assert Encode(f) + more == Header(f) + (f.proto + (f.value + more));
    TakeFirst(Header(f), f.proto + (f.value + more));
    TakeFirst(f.proto, f.value + more);
    TakeFirst(f.value, more);
    assert f.value == [] ==> f.value + more == more;
  }

  /** A stream cut anywhere inside a frame is reported as closed, never as another frame. */
  lemma TruncatedIsClosed(f: Frame, cut: nat)
    requires f.Packable() && cut < |Encode(f)|
    ensures Decode(Encode(f)[..cut]) == Err(Closed)
  {
    var s := Encode(f)[..cut];
    HeaderFields(f);
    if HEADER_LENGTH <= cut {
      var body := (f.proto + f.value)[..cut - HEADER_LENGTH];
      assert s == Header(f) + body;
      TakeFirst(Header(f), body);
    }
  }

  /** Reading is lossy only in the two fields it does not check: the bytes taken are those of the
    * frame returned if and only if the magic byte is right and the value length not negative. */
  lemma DecodedIsCanonical(s: Bytes)
    requires Decode(s).Ok?
    ensures Decode(s).value.0.Packable()
    ensures s == Encode(Decode(s).value.0) + Decode(s).value.1 <==> s[0] == MAGIC && UnpackInt(s[5..9]) >= 0
  {
    BodyOf(s);
    var (f, more) := Decode(s).value;
    CanonicalIffHeader(s, f, more);
    HeaderFromFields(s[..HEADER_LENGTH], f);
  }

  lemma CanonicalIffHeader(s: Bytes, f: Frame, more: Bytes)
    requires f.Packable() && |s| >= HEADER_LENGTH && s[HEADER_LENGTH..] == f.proto + f.value + more
    ensures s == Encode(f) + more <==> s[..HEADER_LENGTH] == Header(f)
    ensures s[..HEADER_LENGTH][5..9] == s[5..9]
  {
    var rest := f.proto + f.value + more;
    assert s == s[..HEADER_LENGTH] + rest;
    assert Encode(f) + more == Header(f) + rest;
    assert (Header(f) + rest)[..HEADER_LENGTH] == Header(f);
  }

  lemma BodyOf(s: Bytes)
    requires Decode(s).Ok?
    ensures var (f, more) := Decode(s).value;
      && s[HEADER_LENGTH..] == f.proto + f.value + more
      && |f.proto| == UnpackInt(s[..HEADER_LENGTH][1..5])
      && |f.value| == if UnpackInt(s[..HEADER_LENGTH][5..9]) <= 0 then 0 else UnpackInt(s[..HEADER_LENGTH][5..9])
  {
    hide UnpackInt;
    var (f, more) := Decode(s).value;
    var header, rest := s[..HEADER_LENGTH], s[HEADER_LENGTH..];
    assert Take(s, HEADER_LENGTH) == Ok((header, rest));
    var m, n := UnpackInt(header[1..5]), UnpackInt(header[5..9]);
    assert f.proto == rest[..m];
    var rest' := rest[m..];
    assert rest == f.proto + rest';
    assert rest' == f.value + more;
  }

  lemma HeaderFromFields(header: Bytes, f: Frame)
    requires |header| == HEADER_LENGTH && f.Packable()
    requires |f.proto| == UnpackInt(header[1..5])
    requires |f.value| == if UnpackInt(header[5..9]) <= 0 then 0 else UnpackInt(header[5..9])
    ensures header == Header(f) <==> header[0] == MAGIC && UnpackInt(header[5..9]) >= 0
  {
    assert header == [header[0]] + header[1..5] + header[5..9];
    PackUnpack(header[1..5]);
    PackUnpack(header[5..9]);
    HeaderFields(f);
  }

  // ----- Receiving -----

  lemma DecodeShrinks(s: Bytes)
    ensures Decode(s).Ok? ==> |Decode(s).value.1| + HEADER_LENGTH <= |s|
    ensures Decode(s) == Err(BadLength) ==> HEADER_LENGTH <= |s|
  {
  }

  /** Frames read one after another until the stream ends. A header with a negative message length
    * is reported and skipped: the listener goes on behind it. */
  function DecodeAll(s: Bytes): (fs: seq<Frame>)
    decreases |s|
  {
    match Decode(s)
    case Ok((f, more)) =>
      DecodeShrinks(s);
      [f] + DecodeAll(more)
    case Err(BadLength) => DecodeAll(s[HEADER_LENGTH..])
    case Err(Closed) => []
  }

  lemma DecodeOne(s: Bytes, f: Frame, more: Bytes)
    requires Decode(s) == Ok((f, more))
    ensures DecodeAll(s) == [f] + DecodeAll(more)
  {
    hide Decode;
  }

  lemma ReadOne(read: seq<Frame>, s: Bytes, f: Frame, more: Bytes)
    requires Decode(s) == Ok((f, more))
    ensures |more| < |s| && read + DecodeAll(s) == read + [f] + DecodeAll(more)
  {
    DecodeShrinks(s);
    hide Decode;
    DecodeOne(s, f, more);
    assert read + [f] + DecodeAll(more) == read + ([f] + DecodeAll(more));
  }

  lemma StopHere(s: Bytes)
    requires Decode(s) == Err(Closed)
    ensures DecodeAll(s) == []
  {
    hide Decode;
  }

  lemma SkipOne(s: Bytes)
    requires Decode(s) == Err(BadLength)
    ensures |s| >= HEADER_LENGTH && DecodeAll(s) == DecodeAll(s[HEADER_LENGTH..])
  {
    DecodeShrinks(s);
    hide Decode;
  }

  /** The receiver gets back the list of frames that was sent, and behind them what it would get from
    * the rest of the stream. */
  lemma {:induction false} ListRoundTrip(fs: seq<Frame>, tail: Bytes)
    requires forall f <- fs :: f.Packable()
    ensures DecodeAll(EncodeAll(fs) + tail) == fs + DecodeAll(tail)
  {
    hide Decode, DecodeAll, Encode;
    if fs == [] {
      assert EncodeAll(fs) + tail == tail;
    } else {
      var more := EncodeAll(fs[1..]) + tail;
      assert EncodeAll(fs) + tail == Encode(fs[0]) + more;
      FirstOfMany(fs[0], more);
      ListRoundTrip(fs[1..], tail);
      assert fs + DecodeAll(tail) == [fs[0]] + (fs[1..] + DecodeAll(tail));
    }
  }

  lemma FirstOfMany(f: Frame, more: Bytes)
    requires f.Packable()
    ensures DecodeAll(Encode(f) + more) == [f] + DecodeAll(more)
  {
    RoundTrip(f, more);
    hide Decode, Encode;
    DecodeOne(Encode(f) + more, f, more);
  }

  /** The receiving half of a socket: the bytes the peer has sent and nobody has read. */
  class Incoming {
    var bytes: Bytes

    /** `recv_into`: some positive number of bytes, at most what is wanted and what there is, is
      * moved into the buffer; zero only once the peer has closed. The choice is the network's. */
    method RecvInto(buf: array<Byte>, at: nat, wanted: nat) returns (n: nat)
      requires at + wanted <= buf.Length && 0 < wanted
      modifies this, buf
      ensures n == 0 <==> old(bytes) == []
      ensures n <= wanted && n <= |old(bytes)|
      ensures bytes == old(bytes)[n..]
      ensures buf[..] == old(buf[..at]) + old(bytes)[..n] + old(buf[at + n..])
    {
      if bytes == [] {
        return 0;
      }
      n :| 0 < n <= wanted && n <= |bytes|;
      ghost var was := buf[..];
      for i := 0 to n
        invariant bytes == old(bytes)
        invariant buf[..] == was[..at] + bytes[..i] + was[at + i..]
      {
        buf[at + i] := bytes[i];
      }
      bytes := bytes[n..];
    }

    /** `_fast_read`: fill a buffer of the wanted size, however the network cuts the stream. */
    method FastRead(wanted: int) returns (r: Result<Bytes, RecvError>)
      modifies this
      ensures match Take(old(bytes), wanted)
        case Ok((taken, rest)) => r == Ok(taken) && bytes == rest
        case Err(e) => r == Err(e)
      ensures r == Err(Closed) ==> bytes == []
      ensures r == Err(BadLength) ==> bytes == old(bytes)
    {
      if wanted < 0 {
        return Err(BadLength);
      }
      var buf := new Byte[wanted];
      var toread: nat := wanted;
      while toread > 0
        invariant toread <= wanted && wanted - toread <= |old(bytes)|
        invariant buf[..wanted - toread] == old(bytes)[..wanted - toread]
        invariant bytes == old(bytes)[wanted - toread..]
      {
        var at := wanted - toread;
        ghost var was := bytes;
        var n := RecvInto(buf, at, toread);
        if n == 0 {
          return Err(Closed);
        }
        assert buf[..at + n] == old(bytes)[..at] + was[..n];
        toread := toread - n;
      }
      assert buf[..] == buf[..wanted];
      return Ok(buf[..]);
    }

    /** `_network_recv`, up to parsing the message. */
    method NetworkRecv() returns (r: Result<Frame, RecvError>)
      modifies this
      ensures match Decode(old(bytes))
        case Ok((f, more)) => r == Ok(f) && bytes == more
        case Err(e) => r == Err(e)
      ensures r == Err(Closed) ==> bytes == []
      ensures r == Err(BadLength) ==> |old(bytes)| >= HEADER_LENGTH && bytes == old(bytes)[HEADER_LENGTH..]
    {
      var header := FastRead(HEADER_LENGTH);
      if header.Err? {
        return Err(header.error);
      }
      var proto := FastRead(UnpackInt(header.value[1..5]));
      if proto.Err? {
        return Err(proto.error);
      }
      var valueLength := UnpackInt(header.value[5..9]);
      if valueLength > 0 {
        var value := FastRead(valueLength);
        if value.Err? {
          return Err(value.error);
        }
        return Ok(Frame(proto.value, value.value));
      }
      return Ok(Frame(proto.value, []));
    }

    /** The listener's loop over a stream that the peer closes in the end. */
    method ReadAll() returns (frames: seq<Frame>)
      modifies this
      ensures frames == DecodeAll(old(bytes)) && bytes == []
    {
      frames := [];
      while true
        invariant frames + DecodeAll(bytes) == DecodeAll(old(bytes))
        decreases |bytes|
      {
        hide Decode, DecodeAll;
        ghost var was := bytes;
        var r := NetworkRecv();
        if r.Err? {
          if r.error.Closed? {
            StopHere(was);
            return;
          }
          SkipOne(was);
        } else {
          ReadOne(frames, was, r.value, bytes);
          frames := frames + [r.value];
        }
      }
    }
  }

  // ----- Sending -----

  /** How the socket answers one `send`: it takes at most so many bytes (and at least one), times
    * out, or fails. */
  datatype SendEvent = Takes(most: nat) | Timeout | Fails {
    function Portion(length: nat): (n: nat)
      requires Takes?
      ensures 0 < length ==> 0 < n <= length
      ensures 0 < length ==> (n <= most || n == 1) && (most <= n || n == length)
    {
      if length <= most then length else if most == 0 then 1 else most
    }
  }

  lemma TakeMore(wire: Bytes, value: Bytes, i: nat, j: nat, n: nat)
    requires i <= j <= |value| && n <= j - i
    ensures wire + value[..i] + value[i..j][..n] == wire + value[..i + n]
  {
    assert value[i..j][..n] == value[i..i + n];
    assert value[..i + n] == value[..i] + value[i..i + n];
  }

  /** The sending half of a socket. `script` is what the network will do, `wire` what it has taken;
    * after the script it takes everything, so a script stands for any run that comes to an end. */
  class Outgoing {
    var script: seq<SendEvent>
    var wire: Bytes

    method Send(data: Bytes) returns (r: Result<nat, SendEvent>)
      requires data != []
      modifies this
      ensures script == if old(script) == [] then [] else old(script)[1..]
      ensures old(script) == [] ==> r == Ok(|data|) && wire == old(wire) + data
      ensures old(script) != [] ==>
        if old(script)[0].Takes? then r == Ok(old(script)[0].Portion(|data|)) && wire == old(wire) + data[..r.value]
        else r == Err(old(script)[0]) && wire == old(wire)
    {
      if script == [] {
        wire := wire + data;
        return Ok(|data|);
      }
      var event := script[0];
      script := script[1..];
      if !event.Takes? {
        return Err(event);
      }
      wire := wire + data[..event.Portion(|data|)];
      return Ok(event.Portion(|data|));
    }

    /** The value loop of `_packet_send`: short sends and timeouts are made good; a socket error
      * ends the loop silently, with a proper prefix of the value on the wire. */
    method SendValue(value: Bytes, chunkSize: nat) returns (failed: bool)
      requires 0 < chunkSize
      modifies this
      ensures !failed ==> wire == old(wire) + value
      ensures failed <==> exists j :: ValueFailsAt(|value|, chunkSize, old(script), j)
      ensures forall j :: ValueFailsAt(|value|, chunkSize, old(script), j) ==>
        wire == old(wire) + value[..ValueTaken(|value|, chunkSize, old(script)[..j])]
    {
      hide ValueTaken, ValueFailsAt;
      var i := 0;
      ghost var k := 0;
      NoneTaken(|value|, chunkSize, script);
      while i < |value|
        invariant i <= |value| && k <= |old(script)| && script == old(script)[k..]
        invariant wire == old(wire) + value[..i]
        invariant Fails !in old(script)[..k]
        invariant k < |old(script)| ==> i == ValueTaken(|value|, chunkSize, old(script)[..k])
        decreases |value| - i, |script|
      {
        var chunk := value[i..if i + chunkSize < |value| then i + chunkSize else |value|];
        ghost var was := k;
        if k < |old(script)| {
          OneAnswerMore(|value|, chunkSize, old(script), k);
          k := k + 1;
        }
        var r := Send(chunk);
        if r.Ok? {
          TakeMore(old(wire), value, i, i + |chunk|, r.value);
          i := i + r.value;
        } else if r.error.Fails? {
          FailsHere(|value|, chunkSize, old(script), was);
          return true;
        }
      }
      assert value[..i] == value;
      NeverFails(|value|, chunkSize, old(script), k);
      return false;
    }

    /** The packet loop of `_packet_send`. After a short send it starts again from the first byte;
      * a socket error leaves it as an exception. */
    method SendPacket(aux: Bytes) returns (failed: bool)
      modifies this
      ensures old(wire) <= wire
      ensures PacketLoop(aux, 0, old(script)) == Sent(failed, wire[|old(wire)|..], script)
    {
      var i := 0;
      while i < |aux|
        invariant old(wire) <= wire
        invariant PacketLoop(aux, 0, old(script)) == PacketLoop(aux, i, script).After(wire[|old(wire)|..])
        decreases |aux| - i, |script|
      {
        ghost var was, later := wire, script;
        var r := Send(aux);
        if r.Ok? {
          AfterAfter(was[|old(wire)|..], aux[..r.value], PacketLoop(aux, i + r.value, script));
          assert wire[|old(wire)|..] == was[|old(wire)|..] + aux[..r.value];
          i := i + r.value;
        } else if r.error.Fails? {
          return true;
        }
      }
      return false;
    }

    /** `_packet_send`. It raises exactly when the packet loop does. A socket error in the value loop
      * goes unreported, with `valueSent` bytes of the value on the wire. */
    method SendFrame(f: Frame, chunkSize: nat) returns (raised: bool, ghost valueSent: nat)
      requires f.Packable() && 0 < chunkSize
      modifies this
      ensures raised <==> exists j :: FailsAt(|Packet(f)|, 0, old(script), j)
      ensures forall j :: FailsAt(|Packet(f)|, 0, old(script), j) ==> wire == old(wire) + Prefixes(Packet(f), old(script)[..j])
      ensures ErrorFirst(old(script)) ==> raised && wire == old(wire)
      ensures valueSent <= |f.value|
      ensures wire == old(wire) + PacketLoop(Packet(f), 0, old(script)).sent + f.value[..valueSent]
      ensures raised ==> valueSent == 0
      ensures !raised ==>
        (valueSent < |f.value| <==> exists j :: ValueFailsAt(|f.value|, chunkSize, PacketLoop(Packet(f), 0, old(script)).script, j))
      ensures FirstSendWhole(|Packet(f)|, old(script)) && Fails !in old(script) ==>
        !raised && wire == old(wire) + Encode(f)
    {
      hide FailsAt, ValueFailsAt, Prefixes, ErrorFirst;
      ghost var before := script;
      raised := SendPacket(Packet(f));
      LoopFailsIff(Packet(f), 0, before);
      if ErrorFirst(before) {
        ErrorFirstRaises(Packet(f), before);
      }
      ScriptOnlyShrinks(Packet(f), 0, before);
      if FirstSendWhole(|Packet(f)|, before) {
        WholeSendIsIntact(Packet(f), before);
      }
      valueSent := 0;
      ghost var was := wire;
      assert was == old(wire) + PacketLoop(Packet(f), 0, before).sent;
      if raised {
        return;
      }
      ghost var later := script;
      var cut := SendValue(f.value, chunkSize);
      if cut {
        ghost var j :| ValueFailsAt(|f.value|, chunkSize, later, j);
        ValueErrorIsFailure(|f.value|, chunkSize, later, j);
        valueSent := ValueTaken(|f.value|, chunkSize, later[..j]);
      } else {
        valueSent := |f.value|;
        assert f.value[..valueSent] == f.value;
      }
    }
  }

  /** How much of a value these answers take, offered in chunks from where the last one ended. */
  function ValueTaken(length: nat, chunkSize: nat, events: seq<SendEvent>): (n: nat)
    requires 0 < chunkSize
    ensures n <= length
  {
    if events == [] then 0
    else
      var sent, last := ValueTaken(length, chunkSize, events[..|events| - 1]), events[|events| - 1];
      if last.Takes? && sent < length then sent + last.Portion(if chunkSize < length - sent then chunkSize else length - sent)
      else sent
  }

  /** The first socket error comes before the whole value is taken. */
  predicate ValueFailsAt(length: nat, chunkSize: nat, script: seq<SendEvent>, j: int)
    requires 0 < chunkSize
  {
    0 <= j < |script| && script[j].Fails? && Fails !in script[..j] && ValueTaken(length, chunkSize, script[..j]) < length
  }

  lemma ValueErrorIsFailure(length: nat, chunkSize: nat, script: seq<SendEvent>, j: int)
    requires 0 < chunkSize && ValueFailsAt(length, chunkSize, script, j)
    ensures 0 <= j < |script| && Fails in script && ValueTaken(length, chunkSize, script[..j]) < length
  {
    assert script[j] == Fails;
  }

  lemma NoneTaken(length: nat, chunkSize: nat, script: seq<SendEvent>)
    requires 0 < chunkSize
    ensures ValueTaken(length, chunkSize, script[..0]) == 0
  {
  }

  lemma OneAnswerMore(length: nat, chunkSize: nat, script: seq<SendEvent>, k: nat)
    requires 0 < chunkSize && k < |script|
    ensures script[..k + 1] == script[..k] + [script[k]]
    ensures var sent := ValueTaken(length, chunkSize, script[..k]);
      ValueTaken(length, chunkSize, script[..k + 1]) == sent +
        if script[k].Takes? && sent < length then script[k].Portion(if sent + chunkSize < length then chunkSize else length - sent) else 0
  {
    assert script[..k + 1][..k] == script[..k];
  }

  lemma FailsHere(length: nat, chunkSize: nat, script: seq<SendEvent>, k: nat)
    requires 0 < chunkSize && k < |script| && script[k].Fails? && Fails !in script[..k]
    requires ValueTaken(length, chunkSize, script[..k]) < length
    ensures ValueFailsAt(length, chunkSize, script, k)
    ensures forall j :: ValueFailsAt(length, chunkSize, script, j) ==> j == k
  {
  }

  lemma NeverFails(length: nat, chunkSize: nat, script: seq<SendEvent>, k: nat)
    requires 0 < chunkSize && k <= |script| && Fails !in script[..k]
    requires k == |script| || ValueTaken(length, chunkSize, script[..k]) == length
    ensures forall j :: !ValueFailsAt(length, chunkSize, script, j)
  {
    forall j ensures !ValueFailsAt(length, chunkSize, script, j) {
      if ValueFailsAt(length, chunkSize, script, j) {
        TakenAlready(length, chunkSize, script, k, j);
      }
    }
  }

  lemma {:induction false} TakenAlready(length: nat, chunkSize: nat, script: seq<SendEvent>, k: nat, j: nat)
    requires 0 < chunkSize && k <= j <= |script| && ValueTaken(length, chunkSize, script[..k]) == length
    ensures ValueTaken(length, chunkSize, script[..j]) == length
    decreases j
  {
    if k < j {
      TakenAlready(length, chunkSize, script, k, j - 1);
      assert script[..j][..j - 1] == script[..j - 1];
    }
  }

  /** What becomes of a frame whose value was cut off without a report: whatever is sent next fills
    * the gap, and the receiver takes it for the rest of the value. */
  lemma CutValueSwallowsNext(f: Frame, sent: nat, next: Bytes)
    requires f.Packable() && sent <= |f.value|
    ensures var (read, gap) := (Decode(Packet(f) + f.value[..sent] + next), |f.value| - sent);
      if |next| < gap then read == Err(Closed)
      else read == Ok((Frame(f.proto, f.value[..sent] + next[..gap]), next[gap..]))
  {
    var gap := |f.value| - sent;
    if |next| < gap {
      var g := Frame(f.proto, f.value[..sent] + next + seq(gap - |next|, _ => 0));
      assert Packet(g) == Packet(f);
      assert Encode(g)[..|Packet(f)| + sent + |next|] == Packet(f) + f.value[..sent] + next;
      TruncatedIsClosed(g, |Packet(f)| + sent + |next|);
    } else {
      var g := Frame(f.proto, f.value[..sent] + next[..gap]);
      assert Packet(f) + f.value[..sent] + next == Encode(g) + next[gap..];
      RoundTrip(g, next[gap..]);
    }
  }

  datatype Sent = Sent(failed: bool, sent: Bytes, script: seq<SendEvent>) {
    function After(earlier: Bytes): Sent { this.(sent := earlier + sent) }
  }

  lemma AfterAfter(a: Bytes, b: Bytes, s: Sent)
    ensures s.After(b).After(a) == s.After(a + b)
  {
    assert a + (b + s.sent) == a + b + s.sent;
  }

  /** What the packet loop puts on the wire once `i` bytes are counted as sent. */
  function PacketLoop(aux: Bytes, i: nat, script: seq<SendEvent>): Sent
    decreases |script|
  {
    if i >= |aux| then Sent(false, [], script)
    else if script == [] then Sent(false, aux, [])
    else match script[0]
      case Fails => Sent(true, [], script[1..])
      case Timeout => PacketLoop(aux, i, script[1..])
      case Takes(_) =>
        var n := script[0].Portion(|aux|);
        PacketLoop(aux, i + n, script[1..]).After(aux[..n])
  }

  /** How many bytes these answers take, if each is offered so many. */
  function Taken(length: nat, events: seq<SendEvent>): nat {
    if events == [] then 0
    else (if events[0].Takes? then events[0].Portion(length) else 0) + Taken(length, events[1..])
  }

  /** What they take, if each is offered the whole packet. */
  function Prefixes(aux: Bytes, events: seq<SendEvent>): Bytes {
    if events == [] then []
    else (if events[0].Takes? && aux != [] then aux[..events[0].Portion(|aux|)] else []) + Prefixes(aux, events[1..])
  }

  /** The first socket error comes before the sends, after `sent` bytes, have taken `length`. */
  predicate FailsAt(length: nat, sent: nat, script: seq<SendEvent>, j: int) {
    0 <= j < |script| && script[j].Fails? && Fails !in script[..j] && sent + Taken(length, script[..j]) < length
  }

  /** The socket fails before it takes any byte. */
  predicate ErrorFirst(script: seq<SendEvent>) {
    exists j :: 0 <= j < |script| && script[j].Fails? && forall i :: 0 <= i < j ==> script[i].Timeout?
  }

  lemma ErrorFirstRaises(aux: Bytes, script: seq<SendEvent>)
    requires aux != [] && ErrorFirst(script)
    ensures exists j :: FailsAt(|aux|, 0, script, j) && Prefixes(aux, script[..j]) == []
  {
    var j :| 0 <= j < |script| && script[j].Fails? && forall i :: 0 <= i < j ==> script[i].Timeout?;
    NothingTaken(aux, script[..j]);
    assert FailsAt(|aux|, 0, script, j);
  }

  lemma {:induction false} NothingTaken(aux: Bytes, events: seq<SendEvent>)
    requires forall i :: 0 <= i < |events| ==> events[i].Timeout?
    ensures Taken(|aux|, events) == 0 && Prefixes(aux, events) == [] && Fails !in events
  {
    if events != [] {
      NothingTaken(aux, events[1..]);
    }
  }

  lemma FailsLater(length: nat, sent: nat, script: seq<SendEvent>, j: int)
    requires script != [] && !script[0].Fails?
    ensures FailsAt(length, sent, script, j) <==>
      FailsAt(length, sent + if script[0].Takes? then script[0].Portion(length) else 0, script[1..], j - 1)
  {
    if 0 < j < |script| {
      assert script[..j] == [script[0]] + script[1..][..j - 1];
    }
  }

  /** Over the script alone: the packet loop raises if and only if the first socket error comes before
    * as many bytes are taken as the packet has, and then the wire has what was taken until then. */
  lemma {:induction false} LoopFailsIff(aux: Bytes, i: nat, script: seq<SendEvent>)
    ensures PacketLoop(aux, i, script).failed <==> exists j :: FailsAt(|aux|, i, script, j)
    ensures forall j :: FailsAt(|aux|, i, script, j) ==> PacketLoop(aux, i, script).sent == Prefixes(aux, script[..j])
    decreases |script|
  {
    FailsFirst(|aux|, i, script);
    hide FailsAt;
    if i < |aux| && script != [] && !script[0].Fails? {
      var n := if script[0].Takes? then script[0].Portion(|aux|) else 0;
      var sent, later := i + n, script[1..];
      LoopFailsIff(aux, sent, later);
      if j :| FailsAt(|aux|, sent, later, j) {
        FailsLater(|aux|, i, script, j + 1);
      }
      forall j | FailsAt(|aux|, i, script, j)
        ensures PacketLoop(aux, i, script).failed && PacketLoop(aux, i, script).sent == Prefixes(aux, script[..j])
      {
        FailsLater(|aux|, i, script, j);
        PrefixesFirst(aux, script, j);
      }
    }
  }

  lemma FailsFirst(length: nat, sent: nat, script: seq<SendEvent>)
    ensures script == [] || sent >= length ==> forall j :: !FailsAt(length, sent, script, j)
    ensures script != [] && sent < length && script[0].Fails? ==>
      FailsAt(length, sent, script, 0) && forall j :: FailsAt(length, sent, script, j) ==> j == 0
    ensures script != [] && !script[0].Fails? ==> forall j :: FailsAt(length, sent, script, j) ==> 0 < j < |script|
  {
  }

  lemma PrefixesFirst(aux: Bytes, script: seq<SendEvent>, j: nat)
    requires 0 < j < |script|
    ensures Prefixes(aux, script[..j]) ==
      (if script[0].Takes? && aux != [] then aux[..script[0].Portion(|aux|)] else []) + Prefixes(aux, script[1..][..j - 1])
  {
    assert script[..j] == [script[0]] + script[1..][..j - 1];
  }

  /** The first send that goes through takes the whole packet. */
  predicate FirstSendWhole(length: nat, script: seq<SendEvent>) {
    script == [] ||
    match script[0]
    case Fails => false
    case Timeout => FirstSendWhole(length, script[1..])
    case Takes(_) => script[0].Portion(length) == length
  }

  lemma {:induction false} ScriptOnlyShrinks(aux: Bytes, i: nat, script: seq<SendEvent>)
    ensures forall e <- PacketLoop(aux, i, script).script :: e in script
    decreases |script|
  {
    if i < |aux| && script != [] && !script[0].Fails? {
      ScriptOnlyShrinks(aux, if script[0].Takes? then i + script[0].Portion(|aux|) else i, script[1..]);
    }
  }

  lemma {:induction false} WholeSendIsIntact(aux: Bytes, script: seq<SendEvent>)
    requires aux != [] && FirstSendWhole(|aux|, script)
    ensures !PacketLoop(aux, 0, script).failed && PacketLoop(aux, 0, script).sent == aux
    decreases |script|
  {
    if script != [] {
      if script[0].Timeout? {
        WholeSendIsIntact(aux, script[1..]);
      } else {
        assert aux[..|aux|] == aux;
      }
    }
  }

  /** Anything the loop sends, it sends from the first byte on. */
  lemma {:induction false} LoopStartsOver(aux: Bytes, i: nat, script: seq<SendEvent>)
    requires aux != [] && PacketLoop(aux, i, script).sent != []
    ensures PacketLoop(aux, i, script).sent[0] == aux[0]
    decreases |script|
  {
    if i < |aux| && script != [] && script[0].Timeout? {
      LoopStartsOver(aux, i, script[1..]);
    }
  }

  /** A packet whose first byte occurs nowhere else. */
  function Marked(length: nat): Bytes
    requires 0 < length
  {
    [MAGIC] + seq(length - 1, _ => 0)
  }

  lemma {:induction false} ShortSendCorrupts(length: nat, script: seq<SendEvent>)
    requires 0 < length && !FirstSendWhole(length, script)
    ensures var r := PacketLoop(Marked(length), 0, script); r.failed || r.sent != Marked(length)
    decreases |script|
  {
    var aux := Marked(length);
    match script[0]
    case Fails =>
    case Timeout => ShortSendCorrupts(length, script[1..]);
    case Takes(_) =>
      var n := script[0].Portion(length);
      var later := PacketLoop(aux, n, script[1..]).sent;
      if later != [] {
        LoopStartsOver(aux, n, script[1..]);
        assert (aux[..n] + later)[n] == MAGIC;
      }
  }

  /** Every packet of this length reaches the wire whole and unchanged. */
  ghost predicate Intact(length: nat, script: seq<SendEvent>) {
    forall aux: Bytes | |aux| == length ::
      !PacketLoop(aux, 0, script).failed && PacketLoop(aux, 0, script).sent == aux
  }

  /** Exactly when the packet loop is right, whatever the bytes: the first send that goes through
    * takes the whole packet. A short send is repaired wrongly. */
  lemma PacketLoopRightIff(length: nat, script: seq<SendEvent>)
    requires 0 < length
    ensures Intact(length, script) <==> FirstSendWhole(length, script)
  {
    if FirstSendWhole(length, script) {
      forall aux: Bytes | |aux| == length
        ensures !PacketLoop(aux, 0, script).failed && PacketLoop(aux, 0, script).sent == aux
      {
        WholeSendIsIntact(aux, script);
      }
    } else {
      ShortSendCorrupts(length, script);
      assert |Marked(length)| == length;
    }
  }
}
