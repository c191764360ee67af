/** src/rpc/packet.h and the two directions of src/rpc/packet_parser.cc over byte strings: what
    SendPacket puts on the wire, and what the resumable parser makes of any piece of it. */
module Packets {
  import opened Buffers

  const META_SIZE: nat := 21
  const MAGIC: Byte := 0x2B

  function Pow256(n: nat): (r: nat)
    ensures r > 0
  {
    if n == 0 then 1 else 256 * Pow256(n - 1)
  }

  /** The memory of an n-byte unsigned integer on a little-endian machine. */
  function ToBytes(x: nat, n: nat): (s: seq<Byte>)
    ensures |s| == n
  {
    if n == 0 then [] else [x % 256] + ToBytes(x / 256, n - 1)
  }

  function FromBytes(s: seq<Byte>): (x: nat)
    ensures x < Pow256(|s|)
  {
    if s == [] then 0 else s[0] + 256 * FromBytes(s[1..])
  }

  lemma {:induction false} BytesRoundTrip(x: nat, n: nat)
    requires x < Pow256(n)
    ensures FromBytes(ToBytes(x, n)) == x
  {
    if n > 0 {
      BytesRoundTrip(x / 256, n - 1);
      assert ToBytes(x, n)[1..] == ToBytes(x / 256, n - 1);
    }
  }

  datatype Packet = Packet(magic: Byte, guid: nat, methodId: nat, size: nat, content: seq<Byte>)

  /** The constructor used for requests and responses; `size` is 32 bits wide. */
  function NewPacket(guid: nat, methodId: nat, content: seq<Byte>): Packet
  {
    Packet(MAGIC, guid, methodId, |content| % Pow256(4), content)
  }

  predicate WellFormed(p: Packet)
  {
    p.magic == MAGIC && p.guid < Pow256(8) && p.methodId < Pow256(8) && p.size == |p.content| < Pow256(4)
  }

  /** The bytes SendPacket writes. */
  function Encode(p: Packet): seq<Byte>
  {
    EncodeMeta(p) + p.content
  }

  function EncodeMeta(p: Packet): (s: seq<Byte>)
    ensures |s| == META_SIZE
  {
    [p.magic] + ToBytes(p.guid, 8) + ToBytes(p.methodId, 8) + ToBytes(p.size, 4)
  }

  function EncodeAll(ps: seq<Packet>): seq<Byte>
  {
    if ps == [] then [] else Encode(ps[0]) + EncodeAll(ps[1..])
  }

  lemma {:induction false} ToBytesAt(x: nat, n: nat, i: nat)
    requires i < n
    ensures ToBytes(x, n)[i] == x / Pow256(i) % 256
  {
    if i > 0 {
      ToBytesAt(x / 256, n - 1, i - 1);
      DivTwice(x, Pow256(i - 1));
    }
  }

  lemma DivTwice(x: nat, m: nat)
    requires m > 0
    ensures x / 256 / m == x / (256 * m)
  {
    var q, a, b := x / 256 / m, x / 256 % m, x % 256;
    assert x == 256 * (m * q + a) + b;
    assert 256 * (m * q + a) == (256 * m) * q + 256 * a;
    Quotient(x, 256 * m, q, 256 * a + b);
  }

  lemma Quotient(x: nat, d: nat, q: nat, r: nat)
    requires x == d * q + r && r < d
    ensures x / d == q
  {
    var k := q - x / d;
    assert d * k == x % d - r;
    assert k > 0 ==> d * k >= d;
    assert k < 0 ==> d * k <= 0 - d;
  }

  /** The bytes on the wire: 0x2B, then guid and method id in eight bytes each and the size of the
      content in four, the lowest byte first, then the content. */
  lemma WireBytes(guid: nat, methodId: nat, content: seq<Byte>)
    ensures var b := Encode(NewPacket(guid, methodId, content));
            && |b| == 21 + |content| && b[0] == 0x2B && b[21..] == content
            && (forall i :: 0 <= i < 8 ==> b[1 + i] == guid / Pow256(i) % 256)
            && (forall i :: 0 <= i < 8 ==> b[9 + i] == methodId / Pow256(i) % 256)
            && (forall i :: 0 <= i < 4 ==> b[17 + i] == |content| % Pow256(4) / Pow256(i) % 256)
    ensures Pow256(4) == 0x1_0000_0000 && Pow256(8) == 0x1_0000_0000_0000_0000
  {
    hide Pow256, ToBytes;
    var p := NewPacket(guid, methodId, content);
    var b := Encode(p);
    forall i | 0 <= i < 8 ensures b[1 + i] == guid / Pow256(i) % 256 { ToBytesAt(guid, 8, i); }
    forall i | 0 <= i < 8 ensures b[9 + i] == methodId / Pow256(i) % 256 { ToBytesAt(methodId, 8, i); }
    forall i | 0 <= i < 4 ensures b[17 + i] == p.size / Pow256(i) % 256 { ToBytesAt(p.size, 4, i); }
    Powers();
  }

  lemma Powers()
    ensures Pow256(4) == 0x1_0000_0000 && Pow256(8) == 0x1_0000_0000_0000_0000
  {
    assert Pow256(2) == 65536 && Pow256(4) == 256 * 256 * Pow256(2) && Pow256(8) == 256 * 256 * 256 * 256 * Pow256(4);
  }

  // ---- the parser ----

  datatype State = Header | Body | Done

  datatype Parser = Parser(state: State, packet: Packet)

  /** What one call of RecvPacket leaves: the parser, the unread bytes, and its answer. */
  datatype Received = Received(parser: Parser, rest: seq<Byte>, ok: bool)

  /** The header fields, read over those of the previous packet; the content stays for now. */
  function DecodeMeta(meta: seq<Byte>, content: seq<Byte>): Packet
    requires |meta| == META_SIZE
  {
    Packet(meta[0], FromBytes(meta[1..9]), FromBytes(meta[9..17]), FromBytes(meta[17..21]), content)
  }

  function RecvBody(packet: Packet, input: seq<Byte>): Received
  {
    if packet.size > |input| then Received(Parser(Body, packet), input, false)
    else Received(Parser(Header, packet.(content := input[..packet.size])), input[packet.size..], true)
  }

  function Recv(p: Parser, input: seq<Byte>): Received
    requires !p.state.Done?
  {
    if p.state.Body? then RecvBody(p.packet, input)
    else if |input| < META_SIZE then Received(p, input, false)
    else
      var packet := DecodeMeta(input[..META_SIZE], p.packet.content);
      if packet.magic != MAGIC then Received(Parser(Header, packet), input[META_SIZE..], false)
      else RecvBody(packet, input[META_SIZE..])
  }

  /** while (RecvPacket()): the packets found, and what is left. */
  function Drain(p: Parser, input: seq<Byte>): (Parser, seq<Byte>, seq<Packet>)
    requires !p.state.Done?
    decreases |input|, if p.state.Body? then 1 else 0
  {
    var r := Recv(p, input);
    if !r.ok then (r.parser, r.rest, [])
    else var (q, rest, packets) := Drain(r.parser, r.rest); (q, rest, [r.parser.packet] + packets)
  }

  /** Pieces arrive one after the other; each is appended to the buffer and the buffer drained. */
  function Feed(p: Parser, buffered: seq<Byte>, pieces: seq<seq<Byte>>): (Parser, seq<Byte>, seq<Packet>)
    requires !p.state.Done?
    decreases |pieces|
  {
    if pieces == [] then (p, buffered, [])
    else
      var (q, rest, now) := Drain(p, buffered + pieces[0]);
      assert !q.state.Done? by { DrainNotDone(p, buffered + pieces[0]); }
      var (z, left, later) := Feed(q, rest, pieces[1..]);
      (z, left, now + later)
  }

  /** RecvPacket never leaves the parser in RECV_DONE. */
  lemma DrainNotDone(p: Parser, input: seq<Byte>)
    requires !p.state.Done?
    ensures !Drain(p, input).0.state.Done?
    decreases |input|, if p.state.Body? then 1 else 0
  {
  }

  lemma RecvProgress(p: Parser, input: seq<Byte>)
    requires !p.state.Done? && Recv(p, input).ok
    ensures var r := Recv(p, input);
            r.parser.state.Header? && |r.rest| <= |input| && (p.state.Header? ==> |r.rest| < |input|)
  {
  }

  // ---- the stream ----

  lemma MetaRoundTrip(p: Packet, content: seq<Byte>)
    requires WellFormed(p)
    ensures DecodeMeta(EncodeMeta(p), content) == p.(content := content)
  {
    var m := EncodeMeta(p);
    assert m[1..9] == ToBytes(p.guid, 8) && m[9..17] == ToBytes(p.methodId, 8) && m[17..21] == ToBytes(p.size, 4);
    BytesRoundTrip(p.guid, 8);
    BytesRoundTrip(p.methodId, 8);
    BytesRoundTrip(p.size, 4);
  }

  ghost predicate AllWellFormed(ps: seq<Packet>)
  {
    forall i :: 0 <= i < |ps| ==> WellFormed(ps[i])
  }

  /** `buffered`, and then `coming`, are what is left of the encoding of `ps`. */
  ghost predicate InSync(p: Parser, buffered: seq<Byte>, ps: seq<Packet>, coming: seq<Byte>)
  {
    match p.state
    case Header => buffered + coming == EncodeAll(ps)
    case Body =>
      && ps != [] && p.packet.(content := ps[0].content) == ps[0]
      && buffered + coming == ps[0].content + EncodeAll(ps[1..])
    case Done => false
  }

  /** Not enough is buffered for the first of `ps`. */
  ghost predicate Short(p: Parser, buffered: seq<Byte>, ps: seq<Packet>)
  {
    match p.state
    case Header => |buffered| < META_SIZE
    case Body => |buffered| < p.packet.size
    case Done => false
  }

  /** One call: either the first packet of the stream, or nothing because it is not complete. */
  lemma RecvInSync(p: Parser, buffered: seq<Byte>, ps: seq<Packet>, coming: seq<Byte>)
    requires AllWellFormed(ps) && InSync(p, buffered, ps, coming)
    ensures var r := Recv(p, buffered);
            if r.ok then ps != [] && r.parser == Parser(Header, ps[0]) && InSync(r.parser, r.rest, ps[1..], coming)
            else InSync(r.parser, r.rest, ps, coming) && Short(r.parser, r.rest, ps)
  {
    if p.state.Header? {
      if |buffered| >= META_SIZE {
        assert ps != [];
        var all := EncodeMeta(ps[0]) + (ps[0].content + EncodeAll(ps[1..]));
        assert buffered + coming == all;
        assert buffered[..META_SIZE] == all[..META_SIZE] == EncodeMeta(ps[0]);
        assert buffered[META_SIZE..] + coming == all[META_SIZE..] == ps[0].content + EncodeAll(ps[1..]);
        MetaRoundTrip(ps[0], p.packet.content);
        BodyInSync(p.packet.content, buffered[META_SIZE..], ps, coming);
      }
    } else {
      BodyInSync(p.packet.content, buffered, ps, coming);
    }
  }

  lemma BodyInSync(content: seq<Byte>, buffered: seq<Byte>, ps: seq<Packet>, coming: seq<Byte>)
    requires AllWellFormed(ps) && ps != [] && buffered + coming == ps[0].content + EncodeAll(ps[1..])
    ensures var r := RecvBody(ps[0].(content := content), buffered);
            if r.ok then r.parser == Parser(Header, ps[0]) && r.rest + coming == EncodeAll(ps[1..])
            else r.parser == Parser(Body, ps[0].(content := content)) && r.rest == buffered && |buffered| < ps[0].size
  {
    var n := ps[0].size;
    if n <= |buffered| {
      assert buffered[..n] == (buffered + coming)[..n] == ps[0].content;
      assert buffered[n..] + coming == (buffered + coming)[n..] == EncodeAll(ps[1..]);
    }
  }

  lemma DrainInSync(p: Parser, buffered: seq<Byte>, ps: seq<Packet>, coming: seq<Byte>) returns (k: nat)
    requires AllWellFormed(ps) && InSync(p, buffered, ps, coming)
    ensures var (q, rest, packets) := Drain(p, buffered);
            k <= |ps| && packets == ps[..k] && InSync(q, rest, ps[k..], coming) && Short(q, rest, ps[k..])
    decreases |ps|
  {
    RecvInSync(p, buffered, ps, coming);
    var r := Recv(p, buffered);
    if r.ok {
      var j := DrainInSync(r.parser, r.rest, ps[1..], coming);
      k := j + 1;
      assert ps[1..][j..] == ps[k..] && [ps[0]] + ps[1..][..j] == ps[..k];
    } else {
      k := 0;
    }
  }

  /** A header that does not begin with 0x2B is dropped as a whole, and RecvPacket finds nothing; if
      packets follow it, the parser is in step with them again. */
  lemma WrongMagic(p: Parser, head: seq<Byte>, buffered: seq<Byte>, ps: seq<Packet>, coming: seq<Byte>)
    requires p.state.Header? && |head| == 21 && head[0] != 0x2B && buffered + coming == EncodeAll(ps)
    ensures var r := Recv(p, head + buffered);
            !r.ok && r.rest == buffered && InSync(r.parser, r.rest, ps, coming)
  {
    hide EncodeAll, FromBytes;
    assert (head + buffered)[..META_SIZE] == head && (head + buffered)[META_SIZE..] == buffered;
  }

  function Flatten(pieces: seq<seq<Byte>>): seq<Byte>
  {
    if pieces == [] then [] else pieces[0] + Flatten(pieces[1..])
  }

  lemma Arrive(p: Parser, buffered: seq<Byte>, piece: seq<Byte>, ps: seq<Packet>, coming: seq<Byte>)
    requires InSync(p, buffered, ps, piece + coming)
    ensures InSync(p, buffered + piece, ps, coming) && !p.state.Done?
  {
    assert buffered + (piece + coming) == (buffered + piece) + coming;
  }

  lemma FeedInSync(p: Parser, buffered: seq<Byte>, pieces: seq<seq<Byte>>, ps: seq<Packet>, coming: seq<Byte>) returns (k: nat)
    requires AllWellFormed(ps) && InSync(p, buffered, ps, Flatten(pieces) + coming) && Short(p, buffered, ps)
    ensures var (q, rest, packets) := Feed(p, buffered, pieces);
            k <= |ps| && packets == ps[..k] && InSync(q, rest, ps[k..], coming) && Short(q, rest, ps[k..])
    decreases |pieces|
  {
    hide Drain, InSync, Short, EncodeAll, WellFormed;
    if pieces == [] {
      k := 0;
      assert InSync(p, buffered, ps, coming) by { assert Flatten(pieces) + coming == coming; }
    } else {
      assert pieces[0] + (Flatten(pieces[1..]) + coming) == Flatten(pieces) + coming;
      Arrive(p, buffered, pieces[0], ps, Flatten(pieces[1..]) + coming);
      var i := DrainInSync(p, buffered + pieces[0], ps, Flatten(pieces[1..]) + coming);
      var (q, rest, now) := Drain(p, buffered + pieces[0]);
      var j := FeedInSync(q, rest, pieces[1..], ps[i..], coming);
      k := i + j;
      assert ps[..i] + ps[i..][..j] == ps[..k] && ps[i..][j..] == ps[k..];
    }
  }

  lemma {:induction false} EncodeSplit(xs: seq<Packet>, ys: seq<Packet>)
    ensures EncodeAll(xs + ys) == EncodeAll(xs) + EncodeAll(ys)
  {
    hide Encode;
    if xs == [] {
      assert xs + ys == ys;
    } else {
      EncodeSplit(xs[1..], ys);
      assert (xs + ys)[0] == xs[0] && (xs + ys)[1..] == xs[1..] + ys;
      assert Encode(xs[0]) + (EncodeAll(xs[1..]) + EncodeAll(ys)) == (Encode(xs[0]) + EncodeAll(xs[1..])) + EncodeAll(ys);
    }
  }

  /** For any packets, and any way of cutting a prefix of their encoding into pieces: the packets
      received are exactly those whose last byte has arrived, in order and unchanged. */
  lemma StreamRoundTrip(start: Packet, ps: seq<Packet>, pieces: seq<seq<Byte>>, coming: seq<Byte>) returns (k: nat)
    requires AllWellFormed(ps) && Flatten(pieces) + coming == EncodeAll(ps)
    ensures k <= |ps| && Feed(Parser(Header, start), [], pieces).2 == ps[..k]
    ensures |EncodeAll(ps[..k])| <= |Flatten(pieces)|
    ensures k < |ps| ==> |Flatten(pieces)| < |EncodeAll(ps[..k + 1])|
  {
    var p := Parser(Header, start);
    assert [] + (Flatten(pieces) + coming) == EncodeAll(ps);
    k := FeedInSync(p, [], pieces, ps, coming);
    var (q, rest, packets) := Feed(p, [], pieces);
    assert ps == ps[..k] + ps[k..];
    EncodeSplit(ps[..k], ps[k..]);
    if k < |ps| {
      assert ps[..k + 1] == ps[..k] + [ps[k]];
      EncodeSplit(ps[..k], [ps[k]]);
      assert EncodeAll([ps[k]]) == Encode(ps[k]);
    }
  }
}
