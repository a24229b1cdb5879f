/**
  The two receive loops.  Bytes arrive in arbitrary pieces; a zero byte ends a
  segment; a segment that outgrows the buffer is dropped up to its delimiter.
  Both loops are compared with a reader that sees the whole stream at once.
  */
module FrameReader {
  import opened Frames
  import opened FrameCodec

  type Decoder = seq<byte> -> Option<Frame>

  // ------------------------------------------------- the whole-stream reading

  function FirstZero(s: seq<byte>): (z: nat)
    ensures z <= |s|
    ensures forall i | 0 <= i < z :: s[i] != 0
    ensures z < |s| ==> s[z] == 0
  {
    if s == [] || s[0] == 0 then 0 else 1 + FirstZero(s[1..])
  }

  predicate ZeroFree(s: seq<byte>) { forall i | 0 <= i < |s| :: s[i] != 0 }

  // What one delimited segment contributes.
  function Yield(segment: seq<byte>, limit: nat, decode: Decoder): (out: seq<Frame>)
    ensures |out| <= 1
  {
    if 0 < |segment| <= limit && decode(segment).Some? then [decode(segment).value] else []
  }

  function Received(stream: seq<byte>, limit: nat, decode: Decoder): seq<Frame>
    decreases |stream|
  {
    var z := FirstZero(stream);
    if z == |stream| then [] else Yield(stream[..z], limit, decode) + Received(stream[z + 1..], limit, decode)
  }

  // ------------------------------------------------------- one byte at a time

  datatype State = State(encoded: seq<byte>, discard: bool, frames: seq<Frame>)

  const START := State([], false, [])

  function Feed(s: State, b: byte, limit: nat, decode: Decoder): State {
    if b == 0 then
      State([], false, s.frames + if s.discard then [] else Yield(s.encoded, limit, decode))
    else if s.discard then s
    else if |s.encoded| >= limit then s.(discard := true)
    else s.(encoded := s.encoded + [b])
  }

  function FeedAll(s: State, bytes: seq<byte>, limit: nat, decode: Decoder): State
    decreases |bytes|
  {
    if bytes == [] then s
    else Feed(FeedAll(s, bytes[..|bytes| - 1], limit, decode), bytes[|bytes| - 1], limit, decode)
  }

  // Pieces of the stream may be cut anywhere.
  lemma {:induction false} FeedSplit(s: State, a: seq<byte>, b: seq<byte>, limit: nat, decode: Decoder)
    ensures FeedAll(s, a + b, limit, decode) == FeedAll(FeedAll(s, a, limit, decode), b, limit, decode)
    decreases |b|
  {
    if b == [] {
      assert a + b == a;
    } else {
      var m := |b| - 1;
      FeedSplit(s, a, b[..m], limit, decode);
      assert (a + b)[..|a + b| - 1] == a + b[..m];
    }
  }

  // Collecting a zero-free piece fills the buffer and then only sets discard.
  lemma {:induction false} FeedPiece(s: State, piece: seq<byte>, limit: nat, decode: Decoder)
    requires s.encoded == [] && !s.discard && ZeroFree(piece)
    ensures var t := FeedAll(s, piece, limit, decode);
            t.frames == s.frames && t.discard == (|piece| > limit) && (!t.discard ==> t.encoded == piece)
            && (t.discard ==> |t.encoded| == limit)
    decreases |piece|
  {
    if piece != [] {
      var m := |piece| - 1;
      FeedPiece(s, piece[..m], limit, decode);
      assert piece == piece[..m] + [piece[m]];
    }
  }

  lemma {:induction false} FeedIsReceived(s: State, stream: seq<byte>, limit: nat, decode: Decoder)
    requires s.encoded == [] && !s.discard
    ensures FeedAll(s, stream, limit, decode).frames == s.frames + Received(stream, limit, decode)
    decreases |stream|
  {
    hide FeedAll, Feed, Yield;
    var z := FirstZero(stream);
    var piece := stream[..z];
    if z == |stream| {
      FeedPiece(s, piece, limit, decode);
      assert piece == stream;
    } else {
      var more := stream[z + 1..];
      var t := FeedSegment(s, piece, limit, decode);
      FeedIsReceived(t, more, limit, decode);
      FeedRest(s, t, piece, more, limit, decode);
      assert stream == piece + [0] + more;
      assert Received(stream, limit, decode) == Yield(piece, limit, decode) + Received(more, limit, decode);
    }
  }

  lemma FeedRest(s: State, t: State, piece: seq<byte>, more: seq<byte>, limit: nat, decode: Decoder)
    requires t == FeedAll(s, piece + [0], limit, decode) && t.frames == s.frames + Yield(piece, limit, decode)
    requires FeedAll(t, more, limit, decode).frames == t.frames + Received(more, limit, decode)
    ensures FeedAll(s, piece + [0] + more, limit, decode).frames
            == s.frames + (Yield(piece, limit, decode) + Received(more, limit, decode))
  {
    hide FeedAll, Yield, Received;
    FeedSplit(s, piece + [0], more, limit, decode);
  }

  lemma FeedSegment(s: State, piece: seq<byte>, limit: nat, decode: Decoder) returns (t: State)
    requires s.encoded == [] && !s.discard && ZeroFree(piece)
    ensures t == FeedAll(s, piece + [0], limit, decode)
    ensures t == State([], false, s.frames + Yield(piece, limit, decode))
  {
    hide FeedAll;
    FeedPiece(s, piece, limit, decode);
    FeedSplit(s, piece, [0], limit, decode);
    FeedOne(FeedAll(s, piece, limit, decode), 0, limit, decode);
    t := FeedAll(s, piece + [0], limit, decode);
  }

  lemma FeedOne(s: State, b: byte, limit: nat, decode: Decoder)
    ensures FeedAll(s, [b], limit, decode) == Feed(s, b, limit, decode)
  {
    assert FeedAll(s, [b][..0], limit, decode) == s;
  }

  // ----------------------------------------------------------- resynchronising

  // A stream as the wire saw it: frames the peer sent and arbitrary damage.
  datatype Item = Sent(frame: Frame) | Junk(bytes: seq<byte>)

  predicate Plausible(items: seq<Item>) {
    forall i | 0 <= i < |items| ::
      match items[i]
      case Sent(f) => Legal(f)
      case Junk(j) => ZeroFree(j)
  }

  function Segment(item: Item, crc: Crc): seq<byte>
    requires item.Sent? ==> Legal(item.frame)
  {
    match item
    case Sent(f) => Stuff(Raw(f, crc))
    case Junk(j) => j
  }

  function Wire(items: seq<Item>, crc: Crc): seq<byte>
    requires Plausible(items)
  {
    if items == [] then [] else Segment(items[0], crc) + [0] + Wire(items[1..], crc)
  }

  // Every frame sent comes out, in order; junk only where it decodes itself.
  function Salvaged(items: seq<Item>, limit: nat, decode: Decoder): seq<Frame> {
    if items == [] then []
    else
      (match items[0]
       case Sent(f) => [f]
       case Junk(j) => Yield(j, limit, decode))
      + Salvaged(items[1..], limit, decode)
  }

  lemma ReceivedHead(piece: seq<byte>, rest: seq<byte>, limit: nat, decode: Decoder)
    requires ZeroFree(piece)
    ensures Received(piece + [0] + rest, limit, decode) == Yield(piece, limit, decode) + Received(rest, limit, decode)
  {
    var s := piece + [0] + rest;
    assert s[|piece|] == 0;
    assert FirstZero(s) == |piece|;
    assert s[..|piece|] == piece && s[|piece| + 1..] == rest;
  }

  lemma {:induction false} Resynchronises(items: seq<Item>, limit: nat, decode: Decoder, crc: Crc)
    requires Plausible(items)
    requires forall f | Legal(f) :: Yield(Stuff(Raw(f, crc)), limit, decode) == [f]
    ensures Received(Wire(items, crc), limit, decode) == Salvaged(items, limit, decode)
  {
    if items != [] {
      Resynchronises(items[1..], limit, decode, crc);
      ReceivedHead(Segment(items[0], crc), Wire(items[1..], crc), limit, decode);
    }
  }

  // ------------------------------------------------------------- the two ends

  function HostDecoder(crc: Crc): Decoder { e => Decoded(e, crc) }

  function DeviceDecoder(crc: Crc): Decoder { e => DeviceDecoded(e, crc) }

  // The device accepts any kind byte here and sorts kinds out afterwards.
  function DeviceDecoded(e: seq<byte>, crc: Crc): Option<Frame> {
    match Unstuff(e)
    case None => None
    case Some(b) => Parse(b, crc)
  }

  lemma HostResynchronises(items: seq<Item>, crc: Crc)
    requires Plausible(items)
    ensures FeedAll(START, Wire(items, crc), DECODE_LIMIT, HostDecoder(crc)).frames
         == Salvaged(items, DECODE_LIMIT, HostDecoder(crc))
  {
    forall f | Legal(f) ensures Yield(Stuff(Raw(f, crc)), DECODE_LIMIT, HostDecoder(crc)) == [f] {
      RoundTrip(f, crc);
    }
    Resynchronises(items, DECODE_LIMIT, HostDecoder(crc), crc);
    FeedIsReceived(START, Wire(items, crc), DECODE_LIMIT, HostDecoder(crc));
  }

  lemma DeviceResynchronises(items: seq<Item>, crc: Crc)
    requires Plausible(items)
    ensures FeedAll(START, Wire(items, crc), DEVICE_LIMIT, DeviceDecoder(crc)).frames
         == Salvaged(items, DEVICE_LIMIT, DeviceDecoder(crc))
  {
    forall f | Legal(f) ensures Yield(Stuff(Raw(f, crc)), DEVICE_LIMIT, DeviceDecoder(crc)) == [f] {
      RoundTrip(f, crc);
      DeviceReadsHostFrames(f, crc);
    }
    Resynchronises(items, DEVICE_LIMIT, DeviceDecoder(crc), crc);
    FeedIsReceived(START, Wire(items, crc), DEVICE_LIMIT, DeviceDecoder(crc));
  }

  // The host's reader goroutine between two calls to Read.
  class HostReader {
    const crc: Crc
    var encoded: seq<byte>
    var discard: bool
    var invalid: nat
    var accepted: seq<Frame>

    ghost function View(): State
      reads this
    {
      State(encoded, discard, accepted)
    }

    constructor (crc: Crc)
      ensures View() == START && this.crc == crc
    {
      this.crc := crc;
      encoded, discard, invalid, accepted := [], false, 0, [];
    }

    method Consume(buf: seq<byte>)
      modifies this
      ensures View() == FeedAll(old(View()), buf, DECODE_LIMIT, HostDecoder(crc))
    {
      for i := 0 to |buf|
        invariant View() == FeedAll(old(View()), buf[..i], DECODE_LIMIT, HostDecoder(crc))
      {
        assert buf[..i + 1][..i] == buf[..i];
        var b := buf[i];
        if b == 0 {
          if !discard && |encoded| > 0 {
            var f := Decode(encoded, crc);
            if f.None? {
              invalid := invalid + 1;
            } else {
              accepted := accepted + [f.value];
            }
          }
          encoded := [];
          discard := false;
        } else if !discard {
          if |encoded| >= MAX_PAYLOAD + 64 {
            discard := true;
            invalid := invalid + 1;
          } else {
            encoded := encoded + [b];
          }
        }
      }
      assert buf[..|buf|] == buf;
    }
  }

  // The device's receive task, with its two fixed buffers.
  class DeviceReader {
    const crc: Crc
    const encoded: array<byte>
    const raw: array<byte>
    var n: nat
    var overflow: bool
    var accepted: seq<Frame>

    ghost predicate Valid()
      reads this
    {
      encoded != raw && encoded.Length == raw.Length == DEVICE_LIMIT && n <= DEVICE_LIMIT
    }

    ghost function View(): State
      reads this, encoded
      requires Valid()
    {
      State(encoded[..n], overflow, accepted)
    }

    constructor (crc: Crc)
      ensures Valid() && View() == START && this.crc == crc && fresh(encoded) && fresh(raw)
    {
      this.crc := crc;
      encoded := new byte[DEVICE_LIMIT];
      raw := new byte[DEVICE_LIMIT];
      n, overflow, accepted := 0, false, [];
    }

    method Consume(input: seq<byte>)
      requires Valid()
      modifies this, encoded, raw
      ensures Valid() && View() == FeedAll(old(View()), input, DEVICE_LIMIT, DeviceDecoder(crc))
    {
      for i := 0 to |input|
        invariant Valid()
        invariant View() == FeedAll(old(View()), input[..i], DEVICE_LIMIT, DeviceDecoder(crc))
      {
        assert input[..i + 1][..i] == input[..i];
        var b := input[i];
        if b != 0 {
          if n < 4200 && !overflow {
            encoded[n] := b;
            n := n + 1;
          } else {
            overflow := true;
          }
        } else {
          EndSegment();
        }
      }
      assert input[..|input|] == input;
    }

    method EndSegment()
      requires Valid()
      modifies this, raw
      ensures Valid() && View() == Feed(old(View()), 0, DEVICE_LIMIT, DeviceDecoder(crc))
    {
      if !overflow && n > 0 {
        var valid, w := UnstuffSegment(encoded, n, raw);
        if valid {
          var f := Parse(raw[..w], crc);
          if f.Some? {
            accepted := accepted + [f.value];
          }
        }
      }
      n, overflow := 0, false;
    }
  }
}
