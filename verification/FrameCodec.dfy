/**
  Frame encoding: a little-endian header, the payload and a CRC, stuffed with
  COBS (consistent overhead byte stuffing) so that a zero byte only ever ends a
  frame.  The host's slices and the device's fixed buffers are both modelled.
  The checksum is a parameter: nothing here depends on how CRC-32 is computed.
  */
module FrameCodec {
  import opened Frames

  type Crc = seq<byte> -> u32

  const DECODE_LIMIT := MAX_PAYLOAD + 64
  const DEVICE_LIMIT := 4200
  const MAGIC: u16 := 0x3255

  // ---------------------------------------------------------------- integers

  function Put16(n: u16): (b: seq<byte>) { [n % 0x100, n / 0x100] }

  function Put32(n: u32): (b: seq<byte>) { Put16(n % 0x1_0000) + Put16(n / 0x1_0000) }

  function Get16(b: seq<byte>, at: nat): (n: u16)
    requires at + 2 <= |b|
  {
    b[at] as int + 0x100 * (b[at + 1] as int)
  }

  function Get32(b: seq<byte>, at: nat): (n: u32)
    requires at + 4 <= |b|
  {
    Get16(b, at) as int + 0x1_0000 * (Get16(b, at + 2) as int)
  }

  lemma Get16Iff(b: seq<byte>, at: nat, n: u16)
    requires at + 2 <= |b|
    ensures Get16(b, at) == n <==> b[at..at + 2] == Put16(n)
  {
    assert b[at..at + 2] == [b[at], b[at + 1]];
  }

  lemma Get32Iff(b: seq<byte>, at: nat, n: u32)
    requires at + 4 <= |b|
    ensures Get32(b, at) == n <==> b[at..at + 4] == Put32(n)
  {
    var low: u16, high: u16 := n % 0x1_0000, n / 0x1_0000;
    Get16Iff(b, at, low);
    Get16Iff(b, at + 2, high);
    assert b[at..at + 4] == b[at..at + 2] + b[at + 2..at + 4];
    if b[at..at + 4] == Put32(n) {
      assert b[at..at + 2] == Put32(n)[..2] == Put16(low) && b[at + 2..at + 4] == Put32(n)[2..] == Put16(high);
    }
  }

  // ------------------------------------------------------------ byte stuffing

  // Length of the leading run of non-zero bytes, cut at 254.
  function Run(b: seq<byte>): (n: nat)
    ensures n <= |b| && n <= 254
    ensures forall i | 0 <= i < n :: b[i] != 0
    ensures n < 254 && n < |b| ==> b[n] == 0
  {
    RunFrom(b, 0)
  }

  function RunFrom(b: seq<byte>, k: nat): (n: nat)
    requires k <= |b| && k <= 254
    requires forall i | 0 <= i < k :: b[i] != 0
    ensures k <= n <= |b| && n <= 254
    ensures forall i | 0 <= i < n :: b[i] != 0
    ensures n < 254 && n < |b| ==> b[n] == 0
    decreases |b| - k
  {
    if k == |b| || k == 254 || b[k] == 0 then k else RunFrom(b, k + 1)
  }

  // The stuffed form, block by block: a code byte, then code-1 literal bytes.
  // A code below 255 stands for a zero after the block, unless it is the last.
  function Stuff(b: seq<byte>): (e: seq<byte>)
    ensures |e| >= |b| + 1
    ensures forall i | 0 <= i < |e| :: e[i] != 0
    decreases |b|
  {
    var n := Run(b);
    if n == 254 then [255] + b[..254] + Stuff(b[254..])
    else if n == |b| then [n + 1] + b
    else [n + 1] + b[..n] + Stuff(b[n + 1..])
  }

  function Unstuff(e: seq<byte>): (b: Option<seq<byte>>)
    ensures b.Some? ==> |b.value| <= |e|
    decreases |e|
  {
    if e == [] then Some([])
    else if e[0] == 0 || e[0] > |e| then None
    else
      var rest := e[e[0]..];
      match Unstuff(rest)
      case None => None
      case Some(t) => Some(e[1..e[0]] + Separator(e[0], rest) + t)
  }

  function Separator(code: byte, rest: seq<byte>): seq<byte> {
    if code < 255 && rest != [] then [0] else []
  }

  lemma UnstuffBlock(code: byte, block: seq<byte>, rest: seq<byte>)
    requires code == |block| + 1
    ensures Unstuff([code] + block + rest) == Prepend(block + Separator(code, rest), Unstuff(rest))
    ensures Unstuff([]) == Some([])
  {
    var e := [code] + block + rest;
    assert e[code..] == rest && e[1..code] == block;
  }

  // The three shapes of a stuffed string.
  lemma StuffShape(b: seq<byte>)
    ensures var n := Run(b);
            if n == 254 then Stuff(b) == [255] + b[..254] + Stuff(b[254..])
            else if n == |b| then Stuff(b) == [n + 1] + b
            else Stuff(b) == [n + 1] + b[..n] + Stuff(b[n + 1..])
  {
  }

  lemma {:induction false} UnstuffStuff(b: seq<byte>)
    ensures Unstuff(Stuff(b)) == Some(b)
    decreases |b|
  {
    hide Stuff;
    hide Unstuff;
    var n := Run(b);
    StuffShape(b);
    if n == 254 {
      UnstuffStuff(b[254..]);
      UnstuffBlock(255, b[..254], Stuff(b[254..]));
      assert b[..254] + [] + b[254..] == b;
    } else if n == |b| {
      UnstuffBlock(n + 1, b, []);
      assert [n + 1] + b + [] == [n + 1] + b;
      assert b + [] + [] == b;
    } else {
      UnstuffStuff(b[n + 1..]);
      UnstuffBlock(n + 1, b[..n], Stuff(b[n + 1..]));
      assert b[..n] + [0] + b[n + 1..] == b;
    }
  }

  function Prepend(b: seq<byte>, r: Option<seq<byte>>): Option<seq<byte>> {
    match r
    case None => None
    case Some(t) => Some(b + t)
  }

  lemma PrependNothing(r: Option<seq<byte>>)
    ensures Prepend([], r) == r
  {
    if r.Some? { assert [] + r.value == r.value; }
  }

  // One overhead byte for every 254 bytes begun: the size both encoders reserve.
  lemma {:induction false} StuffLength(b: seq<byte>)
    ensures |Stuff(b)| <= |b| + |b| / 254 + 1
    decreases |b|
  {
    var n := Run(b);
    if n == 254 {
      StuffLength(b[254..]);
      assert |b| / 254 == (|b| - 254) / 254 + 1;
    } else if n < |b| {
      StuffLength(b[n + 1..]);
    }
  }

  // How the encoders' open block relates to the block-wise definition.
  lemma StuffZero(open: seq<byte>, rest: seq<byte>)
    requires |open| < 254
    requires forall i | 0 <= i < |open| :: open[i] != 0
    ensures Stuff(open + [0] + rest) == [|open| + 1] + open + Stuff(rest)
  {
    var b := open + [0] + rest;
    assert b[|open|] == 0;
    assert Run(b) == |open|;
    assert b[..|open|] == open && b[|open| + 1..] == rest;
  }

  lemma StuffFull(open: seq<byte>, rest: seq<byte>)
    requires |open| == 254
    requires forall i | 0 <= i < |open| :: open[i] != 0
    ensures Stuff(open + rest) == [255] + open + Stuff(rest)
  {
    var b := open + rest;
    assert Run(b) == 254;
    assert b[..254] == open && b[254..] == rest;
  }

  lemma StuffLast(open: seq<byte>, b: seq<byte>)
    requires |open| < 254
    requires forall i | 0 <= i < |open| :: open[i] != 0
    ensures Stuff(open + b[|b|..]) == [|open| + 1] + open
  {
    assert open + b[|b|..] == open;
    assert Run(open) == |open|;
  }

  lemma NextByte(open: seq<byte>, b: seq<byte>, i: nat)
    requires i < |b|
    ensures open + b[i..] == (open + [b[i]]) + b[i + 1..]
    ensures [] + b[i + 1..] == b[i + 1..]
  {
    assert b[i..] == [b[i]] + b[i + 1..];
  }

  // One iteration of either encoder's loop, open being the unfinished block.
  lemma StuffStep(open: seq<byte>, b: seq<byte>, i: nat)
    requires i < |b| && |open| < 254
    requires forall k | 0 <= k < |open| :: open[k] != 0
    ensures b[i] == 0 ==> Stuff(open + b[i..]) == [|open| + 1] + open + Stuff([] + b[i + 1..])
    ensures b[i] != 0 ==> open + b[i..] == (open + [b[i]]) + b[i + 1..]
    ensures b[i] != 0 && |open| == 253 ==>
              Stuff(open + b[i..]) == [255] + (open + [b[i]]) + Stuff([] + b[i + 1..])
  {
    hide Stuff, Run;
    var rest := b[i + 1..];
    NextByte(open, b, i);
    if b[i] == 0 {
      StuffZero(open, rest);
    } else if |open| == 253 {
      StuffFull(open + [b[i]], rest);
    }
  }

  // The same with the blocks already done in front.
  lemma StuffMoves(b: seq<byte>, done: seq<byte>, open: seq<byte>, i: nat)
    requires i < |b| && |open| < 254 && Stuff(b) == done + Stuff(open + b[i..])
    requires forall k | 0 <= k < |open| :: open[k] != 0
    ensures b[i] == 0 ==> Stuff(b) == (done + [|open| + 1] + open) + Stuff([] + b[i + 1..])
    ensures b[i] != 0 ==> Stuff(b) == done + Stuff((open + [b[i]]) + b[i + 1..])
    ensures b[i] != 0 && |open| == 253 ==>
              Stuff(b) == (done + [255] + (open + [b[i]])) + Stuff([] + b[i + 1..])
  {
    hide Stuff;
    StuffStep(open, b, i);
    var tail := Stuff([] + b[i + 1..]);
    if b[i] == 0 {
      Regroup(done, |open| + 1, open, tail);
    } else if |open| == 253 {
      Regroup(done, 255, open + [b[i]], tail);
    }
  }

  lemma Regroup(done: seq<byte>, code: byte, open: seq<byte>, tail: seq<byte>)
    ensures done + ([code] + open + tail) == (done + [code] + open) + tail
  {
  }

  // --------------------------------------------------------- the frame layout

  function Head(f: Frame): (b: seq<byte>)
    requires |f.payload| <= MAX_PAYLOAD
    ensures |b| == 18
  {
    Put16(MAGIC) + [1, f.kind] + Put32(f.session) + [f.channel, 0] +
    Put32(f.sequence) + Put16(|f.payload|) + [0, 0]
  }

  function Raw(f: Frame, crc: Crc): (b: seq<byte>)
    requires |f.payload| <= MAX_PAYLOAD
    ensures |b| == 22 + |f.payload|
  {
    Head(f) + f.payload + Put32(crc(Head(f) + f.payload))
  }

  // The layout byte by byte: little-endian numbers at fixed places, the payload
  // from byte 18, and the checksum of all of that behind it.
  lemma LayoutBytes(f: Frame, crc: Crc)
    requires |f.payload| <= MAX_PAYLOAD
    ensures var b, n := Raw(f, crc), |f.payload|;
            |b| == 22 + n && b[0] == 0x55 && b[1] == 0x32 && b[2] == 1 && b[3] == f.kind
            && Little(b[4], b[5], b[6], b[7]) == f.session && b[8] == f.channel && b[9] == 0
            && Little(b[10], b[11], b[12], b[13]) == f.sequence && Little(b[14], b[15], 0, 0) == n
            && b[16] == 0 && b[17] == 0 && b[18..18 + n] == f.payload
            && Little(b[18 + n], b[19 + n], b[20 + n], b[21 + n]) == crc(b[..18 + n])
  {
    var b, n := Raw(f, crc), |f.payload|;
    assert b[..18 + n] == Head(f) + f.payload;
    assert b[18 + n..] == Put32(crc(Head(f) + f.payload));
  }

  function Little(a: int, b: int, c: int, d: int): int { a + 0x100 * b + 0x1_0000 * c + 0x100_0000 * d }

  // The structural checks both receivers make on an unstuffed segment.
  function Parse(b: seq<byte>, crc: Crc): (r: Option<Frame>) {
    if |b| < 22 || Get16(b, 0) != MAGIC || b[2] != 1 || b[8] >= CHANNELS || b[9] != 0 || Get16(b, 16) != 0 then None
    else
      var n := Get16(b, 14);
      if n > MAX_PAYLOAD || |b| != 22 + n || crc(b[..|b| - 4]) != Get32(b, |b| - 4) then None
      else Some(Frame(b[3], Get32(b, 4), b[8], Get32(b, 10), b[18..18 + n]))
  }

  // A segment parses to a frame exactly when it is that frame's own layout.
  lemma ParseIff(b: seq<byte>, f: Frame, crc: Crc)
    ensures Parse(b, crc) == Some(f) <==>
            |f.payload| <= MAX_PAYLOAD && f.channel < CHANNELS && b == Raw(f, crc)
  {
    if Parse(b, crc) == Some(f) {
      ParseIsRaw(b, f, crc);
    }
    if |f.payload| <= MAX_PAYLOAD && f.channel < CHANNELS && b == Raw(f, crc) {
      RawParses(f, crc);
    }
  }

  lemma ParseIsRaw(b: seq<byte>, f: Frame, crc: Crc)
    requires Parse(b, crc) == Some(f)
    ensures |f.payload| <= MAX_PAYLOAD && f.channel < CHANNELS && b == Raw(f, crc)
  {
    var n := |f.payload|;
    Get16Iff(b, 0, MAGIC);
    Get32Iff(b, 4, f.session);
    Get32Iff(b, 10, f.sequence);
    Get16Iff(b, 14, n);
    Get16Iff(b, 16, 0);
    assert b[..18] == b[0..2] + [b[2], b[3]] + b[4..8] + [b[8], b[9]] + b[10..14] + b[14..16] + b[16..18];
    assert b[..18] == Head(f);
    assert b[..18 + n] == b[..18] + b[18..18 + n];
    Get32Iff(b, 18 + n, crc(Head(f) + f.payload));
    assert b == b[..18 + n] + b[18 + n..18 + n + 4];
  }

  lemma RawParses(f: Frame, crc: Crc)
    requires |f.payload| <= MAX_PAYLOAD && f.channel < CHANNELS
    ensures Parse(Raw(f, crc), crc) == Some(f)
  {
    var b, n := Raw(f, crc), |f.payload|;
    var h := Head(f);
    assert b[..18] == h && b[18..18 + n] == f.payload && b[..18 + n] == h + f.payload;
    assert b[0..2] == Put16(MAGIC);
    Get16Iff(b, 0, MAGIC);
    assert b[4..8] == h[4..8] == Put32(f.session);
    Get32Iff(b, 4, f.session);
    assert b[10..14] == h[10..14] == Put32(f.sequence);
    Get32Iff(b, 10, f.sequence);
    assert b[14..16] == h[14..16] == Put16(n);
    Get16Iff(b, 14, n);
    assert b[16..18] == h[16..18] == Put16(0);
    Get16Iff(b, 16, 0);
    assert b[18 + n..18 + n + 4] == Put32(crc(h + f.payload));
    Get32Iff(b, 18 + n, crc(h + f.payload));
  }

  // ----------------------------------------------------------- host functions

  function Decoded(e: seq<byte>, crc: Crc): (r: Option<Frame>) {
    if |e| > DECODE_LIMIT then None
    else
      match Unstuff(e)
      case None => None
      case Some(b) =>
        var p := Parse(b, crc);
        if p.Some? && HELLO <= p.value.kind <= ABORT then p else None
  }

  // What the host accepts: exactly the segments that unstuff to a legal frame.
  lemma DecodedIff(e: seq<byte>, f: Frame, crc: Crc)
    ensures Decoded(e, crc) == Some(f) <==>
            |e| <= DECODE_LIMIT && Legal(f) && Unstuff(e) == Some(Raw(f, crc))
  {
    match Unstuff(e) {
      case None =>
      case Some(b) => ParseIff(b, f, crc);
    }
  }

  // Every legal frame survives the link, in at most 4135 bytes and a delimiter.
  lemma RoundTrip(f: Frame, crc: Crc)
    requires Legal(f)
    ensures Decoded(Stuff(Raw(f, crc)), crc) == Some(f)
    ensures |Stuff(Raw(f, crc))| + 1 <= |f.payload| + 22 + (|f.payload| + 22) / 254 + 2
    ensures 0 < |Stuff(Raw(f, crc))| <= 4135 < DECODE_LIMIT < DEVICE_LIMIT
  {
    StuffLength(Raw(f, crc));
    UnstuffStuff(Raw(f, crc));
    DecodedIff(Stuff(Raw(f, crc)), f, crc);
  }

  // Code bytes are patched in once their block is complete.
  method StuffBytes(b: seq<byte>) returns (out: seq<byte>)
    ensures out == Stuff(b)
  {
    hide Stuff;
    out := [0];
    var codeAt: nat, code: byte := 0, 1;
    ghost var done: seq<byte>, open: seq<byte> := [], [];
    assert open + b[0..] == b;
    for i := 0 to |b|
      invariant out == done + [0] + open && codeAt == |done| && code == |open| + 1 <= 254
      invariant forall k | 0 <= k < |open| :: open[k] != 0
      invariant Stuff(b) == done + Stuff(open + b[i..])
    {
      StuffStep(open, b, i);
      if b[i] == 0 {
        out := out[codeAt := code];
        done, open := done + [code] + open, [];
        codeAt := |out|;
        out := out + [0];
        code := 1;
      } else {
        out := out + [b[i]];
        open := open + [b[i]];
        code := code + 1;
        if code == 255 {
          out := out[codeAt := code];
          done, open := done + [code] + open, [];
          codeAt := |out|;
          out := out + [0];
          code := 1;
        }
      }
    }
    StuffLast(open, b);
    out := out[codeAt := code];
  }

  method Encode(f: Frame, crc: Crc) returns (r: Option<seq<byte>>)
    ensures r.Some? <==> |f.payload| <= MAX_PAYLOAD && f.channel < CHANNELS
    ensures r.Some? ==> r.value == Stuff(Raw(f, crc)) + [0]
  {
    if |f.payload| > MAX_PAYLOAD || f.channel >= CHANNELS {
      return None;
    }
    var out := StuffBytes(Raw(f, crc));
    return Some(out + [0]);
  }

  method UnstuffBytes(encoded: seq<byte>) returns (r: Option<seq<byte>>)
    ensures r == Unstuff(encoded)
  {
    hide Unstuff;
    var b: seq<byte> := [];
    var i := 0;
    assert encoded[0..] == encoded;
    PrependNothing(Unstuff(encoded));
    while i < |encoded|
      invariant 0 <= i <= |encoded|
      invariant Unstuff(encoded) == Prepend(b, Unstuff(encoded[i..]))
    {
      var code := encoded[i];
      UnstuffStep(encoded, i);
      i := i + 1;
      if code == 0 || i + code - 1 > |encoded| {
        return None;
      }
      ghost var before, block := b, encoded[i..i + code - 1];
      b := b + encoded[i..i + code - 1];
      i := i + code - 1;
      PrependTwice(before, block + Separator(code, encoded[i..]), Unstuff(encoded[i..]));
      if code < 255 && i < |encoded| {
        b := b + [0];
      }
      assert b == before + (block + Separator(code, encoded[i..]));
    }
    UnstuffNothing();
    assert encoded[i..] == [] && b + [] == b;
    return Some(b);
  }

  lemma UnstuffNothing()
    ensures Unstuff([]) == Some([])
  {
  }

  lemma UnstuffStep(e: seq<byte>, i: nat)
    requires i < |e|
    ensures e[i] == 0 || i + e[i] > |e| ==> Unstuff(e[i..]) == None
    ensures e[i] != 0 && i + e[i] <= |e| ==>
              Unstuff(e[i..]) == Prepend(e[i + 1..i + e[i]] + Separator(e[i], e[i + e[i]..]), Unstuff(e[i + e[i]..]))
  {
    if e[i] != 0 && i + e[i] <= |e| {
      UnstuffBlock(e[i], e[i + 1..i + e[i]], e[i + e[i]..]);
      assert e[i..] == [e[i]] + e[i + 1..i + e[i]] + e[i + e[i]..];
    }
  }

  lemma PrependTwice(a: seq<byte>, b: seq<byte>, r: Option<seq<byte>>)
    ensures Prepend(a, Prepend(b, r)) == Prepend(a + b, r)
  {
    if r.Some? { assert a + (b + r.value) == (a + b) + r.value; }
  }

  method Decode(encoded: seq<byte>, crc: Crc) returns (r: Option<Frame>)
    ensures r == Decoded(encoded, crc)
    ensures forall f :: r == Some(f) <==>
              |encoded| <= DECODE_LIMIT && Legal(f) && Unstuff(encoded) == Some(Raw(f, crc))
  {
    forall f { DecodedIff(encoded, f, crc); }
    if |encoded| > DECODE_LIMIT {
      return None;
    }
    var unstuffed := UnstuffBytes(encoded);
    if unstuffed.None? {
      return None;
    }
    r := Parse(unstuffed.value, crc);
    if r.Some? && (r.value.kind < HELLO || r.value.kind > ABORT) {
      return None;
    }
  }

  // --------------------------------------------------------- device functions

  // The device's encoder writes into a buffer of exactly the reserved size.
  method StuffInto(b: seq<byte>, out: array<byte>) returns (w: nat)
    requires |b| + |b| / 254 + 2 <= out.Length
    modifies out
    ensures w < out.Length && out[..w] == Stuff(b)
  {
    hide Stuff;
    StuffLength(b);
    var codeAt: nat, code: byte := 0, 1;
    w := 1;
    ghost var done: seq<byte>, open: seq<byte>, stale: byte := [], [], out[0];
    assert open + b[0..] == b;
    assert out[..w] == done + [stale] + open;
    for i := 0 to |b|
      invariant codeAt == |done| && code == |open| + 1 <= 254 && w == codeAt + code <= out.Length
      invariant out[..w] == done + [stale] + open
      invariant forall k | 0 <= k < |open| :: open[k] != 0
      invariant Stuff(b) == done + Stuff(open + b[i..])
    {
      StuffMoves(b, done, open, i);
      assert |Stuff(open + b[i..])| >= |open| + |b| - i + 1;
      if b[i] != 0 {
        AppendByte(out, w, b[i]);
        w, code, open := w + 1, code + 1, open + [b[i]];
      }
      if b[i] == 0 || code == 255 {
        assert |Stuff([] + b[i + 1..])| >= 1;
        CloseBlock(out, codeAt, code, w, done, stale, open);
        done, open, stale := done + [code] + open, [], out[w];
        codeAt, code, w := w, 1, w + 1;
      }
    }
    StuffLast(open, b);
    PatchCode(out, codeAt, code, w);
  }

  method CloseBlock(out: array<byte>, codeAt: nat, code: byte, w: nat,
                    ghost done: seq<byte>, ghost stale: byte, ghost open: seq<byte>)
    requires codeAt == |done| && w == |done| + 1 + |open| < out.Length && out[..w] == done + [stale] + open
    modifies out
    ensures out[..w + 1] == done + [code] + open + [out[w]]
  {
    PatchCode(out, codeAt, code, w);
    assert out[..w] == done + [code] + open;
  }

  method AppendByte(out: array<byte>, w: nat, v: byte)
    requires w < out.Length
    modifies out
    ensures out[..w + 1] == old(out[..w]) + [v]
  {
    out[w] := v;
  }

  method PatchCode(out: array<byte>, codeAt: nat, code: byte, w: nat)
    requires codeAt < w <= out.Length
    modifies out
    ensures out[..w] == old(out[..w])[codeAt := code]
  {
    out[codeAt] := code;
  }

  method WireSend(f: Frame, crc: Crc) returns (out: array<byte>, w: nat)
    requires |f.payload| <= MAX_PAYLOAD
    ensures fresh(out) && out.Length == 24 + |f.payload| + (|f.payload| + 22) / 254
    ensures w <= out.Length && out[..w] == Stuff(Raw(f, crc)) + [0]
  {
    out := new byte[24 + |f.payload| + (|f.payload| + 22) / 254];
    w := StuffInto(Raw(f, crc), out);
    out[w] := 0;
    w := w + 1;
  }

  // The inner loop of the device's decoder.
  method CopyBlock(encoded: array<byte>, r0: nat, count: nat, raw: array<byte>, w0: nat, ghost e: seq<byte>)
    returns (w: nat, r: nat)
    requires encoded != raw && r0 + count <= |e| <= encoded.Length && w0 + count <= raw.Length
    requires encoded[..|e|] == e
    modifies raw
    ensures w == w0 + count && r == r0 + count
    ensures raw[..w] == old(raw[..w0]) + e[r0..r]
  {
    w, r := w0, r0;
    for j := 0 to count
      invariant r == r0 + j && w == w0 + j
      invariant raw[..w] == old(raw[..w0]) + e[r0..r]
    {
      assert e[r] == encoded[r];
      raw[w] := encoded[r];
      w, r := w + 1, r + 1;
    }
  }

  // The device unstuffs one buffer into another of the same fixed size: the
  // write index stays behind the read index, so neither buffer overflows.
  method UnstuffSegment(encoded: array<byte>, n: nat, raw: array<byte>) returns (valid: bool, w: nat)
    requires encoded != raw && encoded.Length == raw.Length == DEVICE_LIMIT && n <= DEVICE_LIMIT
    modifies raw
    ensures w <= n && encoded[..] == old(encoded[..])
    ensures Unstuff(encoded[..n]) == if valid then Some(raw[..w]) else None
  {
    hide Unstuff;
    var r := 0;
    w, valid := 0, true;
    ghost var e := encoded[..n];
    assert e[0..] == e;
    PrependNothing(Unstuff(e));
    while r < n
      invariant w <= r <= n && encoded[..n] == e
      invariant encoded[..] == old(encoded[..])
      invariant Unstuff(e) == Prepend(raw[..w], Unstuff(e[r..]))
    {
      ghost var start, before := r, raw[..w];
      UnstuffStep(e, r);
      var code := encoded[r];
      r := r + 1;
      if code == 0 || r + code - 1 > n {
        valid := false;
        return;
      }
      w, r := CopyBlock(encoded, r, code - 1, raw, w, e);
      PrependTwice(before, e[start + 1..r] + Separator(code, e[r..]), Unstuff(e[r..]));
      if code < 255 && r < n {
        raw[w] := 0;
        w := w + 1;
      }
      assert raw[..w] == before + (e[start + 1..r] + Separator(code, e[r..]));
    }
    UnstuffNothing();
    assert e[r..] == [] && raw[..w] + [] == raw[..w];
  }

  // A frame the host encoded passes the device's buffers and structural checks.
  lemma DeviceReadsHostFrames(f: Frame, crc: Crc)
    requires Legal(f)
    ensures |Stuff(Raw(f, crc))| <= DEVICE_LIMIT
    ensures Unstuff(Stuff(Raw(f, crc))) == Some(Raw(f, crc)) && Parse(Raw(f, crc), crc) == Some(f)
  {
    RoundTrip(f, crc);
    UnstuffStuff(Raw(f, crc));
    RawParses(f, crc);
  }
}
