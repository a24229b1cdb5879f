/**
  The bounded protobuf codec of the pairing messages: what the writer builds the
  reader takes apart again, and a response is accepted exactly when the device
  reports no failure.
  */
module Protobuf {
  import opened Frames

  const LIMIT := 4096
  const TWO64: nat := 0x1_0000_0000_0000_0000
  const TWO61: nat := 0x2000_0000_0000_0000

  // ------------------------------------------------------------------- integers

  // binary.PutUvarint
  function Varint(v: nat): (b: seq<byte>)
    ensures |b| >= 1
  {
    if v < 0x80 then [v] else [0x80 + v % 0x80] + Varint(v / 0x80)
  }

  datatype Number = Number(value: nat, length: nat)

  // binary.Uvarint, reading byte number i: at most ten bytes, and the tenth
  // carries one bit.
  function Uvarint(b: seq<byte>, i: nat): (r: Option<Number>)
    ensures r.Some? ==> 1 <= r.value.length <= |b|
    decreases |b|
  {
    if b == [] || i >= 10 then None
    else if b[0] < 0x80 then
      if i == 9 && b[0] > 1 then None else Some(Number(b[0], 1))
    else
      var rest := Uvarint(b[1..], i + 1);
      if rest.None? then None
      else Some(Number(b[0] - 0x80 + 0x80 * rest.value.value, rest.value.length + 1))
  }

  // The numbers that still fit after i bytes of seven bits.
  function Room(i: nat): (n: nat)
    requires i <= 9
    ensures n >= 2
    decreases 9 - i
  {
    if i == 9 then 2 else 0x80 * Room(i + 1)
  }

  lemma {:induction false} UvarintUndoesVarint(v: nat, i: nat, rest: seq<byte>)
    requires i <= 9 && v < Room(i)
    ensures Uvarint(Varint(v) + rest, i) == Some(Number(v, |Varint(v)|))
    decreases 10 - i
  {
    var b := Varint(v) + rest;
    if v >= 0x80 {
      assert v / 0x80 < Room(i + 1);
      UvarintUndoesVarint(v / 0x80, i + 1, rest);
      assert b[1..] == Varint(v / 0x80) + rest;
    }
  }

  lemma WholeRange()
    ensures Room(0) == TWO64
  {
    assert Room(7) == 0x8000;
    assert Room(5) == 0x2000_0000;
    assert Room(3) == 0x800_0000_0000;
    assert Room(1) == 0x200_0000_0000_0000;
  }

  lemma NumberRoundTrip(v: nat, rest: seq<byte>)
    requires v < TWO64
    ensures Uvarint(Varint(v) + rest, 0) == Some(Number(v, |Varint(v)|))
  {
    WholeRange();
    UvarintUndoesVarint(v, 0, rest);
  }

  // What is read always fits 64 bits.
  lemma {:induction false} UvarintFits(b: seq<byte>, i: nat)
    requires i <= 9 && Uvarint(b, i).Some?
    ensures Uvarint(b, i).value.value < Room(i)
    decreases |b|
  {
    if b[0] >= 0x80 {
      assert i < 9;
      UvarintFits(b[1..], i + 1);
    }
  }

  // --------------------------------------------------------------------- fields

  // The zero value is what a missing field reads as.
  datatype Value = Value(wire: nat, bytes: seq<byte>, number: nat)

  const ABSENT := Value(0, [], 0)

  datatype Field = IntField(id: nat, number: nat) | BytesField(id: nat, bytes: seq<byte>)

  function Tag(f: Field): nat { if f.IntField? then f.id * 8 else f.id * 8 + 2 }

  function Encode(f: Field): seq<byte> {
    Varint(Tag(f))
    + if f.IntField? then Varint(f.number) else Varint(|f.bytes|) + f.bytes
  }

  function Meaning(f: Field): Value {
    if f.IntField? then Value(0, [], f.number) else Value(2, f.bytes, 0)
  }

  function EncodeAll(fs: seq<Field>): seq<byte> {
    if fs == [] then [] else Encode(fs[0]) + EncodeAll(fs[1..])
  }

  predicate Writable(f: Field) {
    1 <= f.id < TWO61 && (if f.IntField? then f.number < TWO64 else |f.bytes| < TWO64)
  }

  datatype Result<T> = Ok(value: T) | Err

  datatype Item = Item(id: nat, value: Value, rest: seq<byte>)

  // The part of a field after its tag.
  function Body(wire: nat, id: nat, b: seq<byte>): (r: Option<Item>)
    ensures r.Some? ==> |r.value.rest| <= |b| && r.value.id == id
  {
    if wire == 0 then
      var x := Uvarint(b, 0);
      if x.None? then None else Some(Item(id, Value(0, [], x.value.value), b[x.value.length..]))
    else if wire == 2 then
      var x := Uvarint(b, 0);
      if x.None? then None
      else
        var tail := b[x.value.length..];
        if x.value.value > |tail| then None
        else Some(Item(id, Value(2, tail[..x.value.value], 0), tail[x.value.value..]))
    else if wire == 1 then if |b| < 8 then None else Some(Item(id, Value(1, [], 0), b[8..]))
    else if wire == 5 then if |b| < 4 then None else Some(Item(id, Value(5, [], 0), b[4..]))
    else None
  }

  // The reader's loop; a repeated field is refused before its body is read.
  function FieldsFrom(b: seq<byte>, seen: map<nat, Value>): Result<map<nat, Value>>
    decreases |b|
  {
    if b == [] then Ok(seen)
    else
      var tag := Uvarint(b, 0);
      if tag.None? || tag.value.value / 8 == 0 then Err
      else if tag.value.value / 8 in seen then Err
      else
        var item := Body(tag.value.value % 8, tag.value.value / 8, b[tag.value.length..]);
        if item.None? then Err else FieldsFrom(item.value.rest, seen[item.value.id := item.value.value])
  }

  function Fields(b: seq<byte>): Result<map<nat, Value>> {
    if |b| > LIMIT then Err else FieldsFrom(b, map[])
  }

  // The same, as the loop that consumes its input.
  method ReadFields(input: seq<byte>) returns (r: Result<map<nat, Value>>)
    ensures r == Fields(input)
  {
    if |input| > LIMIT { return Err; }
    var b, out: map<nat, Value> := input, map[];
    while b != []
      invariant FieldsFrom(b, out) == FieldsFrom(input, map[])
      decreases |b|
    {
      var tag := Uvarint(b, 0);
      if tag.None? || tag.value.value / 8 == 0 { return Err; }
      b := b[tag.value.length..];
      var id := tag.value.value / 8;
      if id in out { return Err; }
      var v := Value(tag.value.value % 8, [], 0);
      if v.wire == 0 {
        var x := Uvarint(b, 0);
        if x.None? { return Err; }
        v := v.(number := x.value.value);
        b := b[x.value.length..];
      } else if v.wire == 2 {
        var x := Uvarint(b, 0);
        if x.None? { return Err; }
        b := b[x.value.length..];
        if x.value.value > |b| { return Err; }
        v := v.(bytes := b[..x.value.value]);
        b := b[x.value.value..];
      } else if v.wire == 1 {
        if |b| < 8 { return Err; }
        b := b[8..];
      } else if v.wire == 5 {
        if |b| < 4 { return Err; }
        b := b[4..];
      } else {
        return Err;
      }
      out := out[id := v];
    }
    return Ok(out);
  }

  // ----------------------------------------------------------------- round trips

  function Table(fs: seq<Field>, seen: map<nat, Value>): map<nat, Value> {
    if fs == [] then seen else Table(fs[1..], seen[fs[0].id := Meaning(fs[0])])
  }

  predicate Distinct(fs: seq<Field>, seen: set<nat>) {
    fs == [] || (fs[0].id !in seen && Distinct(fs[1..], seen + {fs[0].id}))
  }

  lemma OneField(f: Field, rest: seq<byte>)
    requires Writable(f)
    ensures var b := Encode(f) + rest;
            Uvarint(b, 0) == Some(Number(Tag(f), |Varint(Tag(f))|))
            && Body(Tag(f) % 8, f.id, b[|Varint(Tag(f))|..]) == Some(Item(f.id, Meaning(f), rest))
            && Tag(f) / 8 == f.id
  {
    var b, t := Encode(f) + rest, Varint(Tag(f));
    if f.IntField? {
      hide Varint, Uvarint;
      assert b == t + (Varint(f.number) + rest);
      NumberRoundTrip(Tag(f), Varint(f.number) + rest);
      assert b[|t|..] == Varint(f.number) + rest;
      NumberRoundTrip(f.number, rest);
      assert (Varint(f.number) + rest)[|Varint(f.number)|..] == rest;
    } else {
      hide Varint, Uvarint;
      var n := Varint(|f.bytes|);
      assert b == t + (n + (f.bytes + rest));
      NumberRoundTrip(Tag(f), n + (f.bytes + rest));
      assert b[|t|..] == n + (f.bytes + rest);
      NumberRoundTrip(|f.bytes|, f.bytes + rest);
      assert (n + (f.bytes + rest))[|n|..] == f.bytes + rest;
      assert (f.bytes + rest)[..|f.bytes|] == f.bytes && (f.bytes + rest)[|f.bytes|..] == rest;
    }
  }

  // Every field written is read back, whatever was read before it.
  lemma {:induction false} FieldsRoundTrip(fs: seq<Field>, seen: map<nat, Value>)
    requires forall f | f in fs :: Writable(f)
    requires Distinct(fs, seen.Keys)
    ensures FieldsFrom(EncodeAll(fs), seen) == Ok(Table(fs, seen))
    decreases |fs|
  {
    if fs != [] {
      var f := fs[0];
      OneField(f, EncodeAll(fs[1..]));
      assert (seen[f.id := Meaning(f)]).Keys == seen.Keys + {f.id};
      FieldsRoundTrip(fs[1..], seen[f.id := Meaning(f)]);
      assert EncodeAll(fs) != [];
    }
  }

  // A repeated identifier is refused wherever it stands.
  lemma {:induction false} RepetitionRefused(fs: seq<Field>, seen: map<nat, Value>)
    requires forall f | f in fs :: Writable(f)
    requires !Distinct(fs, seen.Keys)
    ensures FieldsFrom(EncodeAll(fs), seen) == Err
    decreases |fs|
  {
    var f := fs[0];
    OneField(f, EncodeAll(fs[1..]));
    assert EncodeAll(fs) != [];
    if f.id !in seen {
      assert (seen[f.id := Meaning(f)]).Keys == seen.Keys + {f.id};
      RepetitionRefused(fs[1..], seen[f.id := Meaning(f)]);
    }
  }

  // A fixed-width field of eight or four bytes is skipped over; groups and
  // unassigned wire types are refused.
  lemma OtherWireTypes(id: nat, wire: nat, b: seq<byte>, seen: map<nat, Value>)
    requires 1 <= id < TWO61 && id !in seen && wire < 8 && wire != 0 && wire != 2
    ensures var width := if wire == 1 then 8 else 4;
            FieldsFrom(Varint(id * 8 + wire) + b, seen)
            == if (wire == 1 || wire == 5) && |b| >= width then FieldsFrom(b[width..], seen[id := Value(wire, [], 0)])
               else Err
  {
    hide Varint, Uvarint, FieldsFrom;
    TagIsRead(id, wire, b, seen);
  }

  lemma TagParts(id: nat, wire: nat)
    requires wire < 8
    ensures (id * 8 + wire) / 8 == id && (id * 8 + wire) % 8 == wire
  {
  }

  lemma TagIsRead(id: nat, wire: nat, b: seq<byte>, seen: map<nat, Value>)
    requires 1 <= id < TWO61 && wire < 8 && id !in seen
    ensures var item := Body(wire, id, b);
            FieldsFrom(Varint(id * 8 + wire) + b, seen)
            == if item.None? then Err else FieldsFrom(item.value.rest, seen[id := item.value.value])
  {
    var t := Varint(id * 8 + wire);
    NumberRoundTrip(id * 8 + wire, b);
    TagParts(id, wire);
    hide Varint, Uvarint, Body;
    assert (t + b)[|t|..] == b && t + b != [];
  }

  // ---------------------------------------------------------- the session message

  function Session(msg: nat, id: nat, payload: seq<byte>): seq<byte> {
    EncodeAll([IntField(2, 2), BytesField(12, EncodeAll([IntField(1, msg), BytesField(id, payload)]))])
  }

  // The bytes on the wire, for numbers and payloads that take one byte to write
  // and fields that take two, as those of the pairing do.
  lemma SessionBytes(msg: nat, id: nat, payload: seq<byte>)
    requires msg < 0x80 && 16 <= id < 0x800 && |payload| < 0x78
    ensures Session(msg, id, payload)
            == [0x10, 2, 0x62, |payload| + 5, 0x08, msg, 0x80 + (id * 8 + 2) % 0x80, (id * 8 + 2) / 0x80, |payload|]
               + payload
  {
    var f1, f2 := IntField(1, msg), BytesField(id, payload);
    FieldBytes(1, msg, id, payload);
    PairBytes(f1, f2);
    var inner := EncodeAll([f1, f2]);
    FieldBytes(2, 2, 12, inner);
    PairBytes(IntField(2, 2), BytesField(12, inner));
    hide Encode, EncodeAll, Varint;
  }

  lemma FieldBytes(i: nat, n: nat, id: nat, b: seq<byte>)
    requires i < 16 && n < 0x80 && id < 0x800 && |b| < 0x80
    ensures Encode(IntField(i, n)) == [i * 8, n]
    ensures Encode(BytesField(id, b))
            == (if id < 16 then [id * 8 + 2] else [0x80 + (id * 8 + 2) % 0x80, (id * 8 + 2) / 0x80]) + [|b|] + b
  {
    assert id >= 16 ==> Varint((id * 8 + 2) / 0x80) == [(id * 8 + 2) / 0x80];
  }

  lemma PairBytes(f: Field, g: Field)
    ensures EncodeAll([f, g]) == Encode(f) + Encode(g)
  {
    hide Encode;
    assert [f, g][1..] == [g] && [g][1..] == [];
    assert EncodeAll([g]) == Encode(g) + EncodeAll([]);
  }

  function Get(m: map<nat, Value>, id: nat): Value { if id in m then m[id] else ABSENT }

  function ResponseBody(b: seq<byte>, msg: nat, id: nat): Result<seq<byte>> {
    var f := Fields(b);
    if f.Err? then Err
    else if Get(f.value, 2).wire != 0 || Get(f.value, 2).number != 2 || Get(f.value, 12).wire != 2 then Err
    else
      var s := Fields(Get(f.value, 12).bytes);
      if s.Err? then Err
      else if Get(s.value, 1).wire != 0 || Get(s.value, 1).number != msg || Get(s.value, id).wire != 2 then Err
      else
        var p := Fields(Get(s.value, id).bytes);
        if p.Err? then Err
        else if Get(p.value, 1).wire != 0 || Get(p.value, 1).number != 0 then Err
        else Ok(Get(s.value, id).bytes)
  }

  // The device reports success: a body that parses, with status absent or zero.
  predicate Successful(payload: seq<byte>) {
    var p := Fields(payload);
    p.Ok? && (1 !in p.value || p.value[1] == ABSENT)
  }

  lemma TwoFields(f: Field, g: Field)
    requires Writable(f) && Writable(g) && f.id != g.id
    ensures FieldsFrom(EncodeAll([f, g]), map[]) == Ok(map[f.id := Meaning(f), g.id := Meaning(g)])
    ensures |EncodeAll([f, g])| == |Encode(f)| + |Encode(g)|
  {
    var fs := [f, g];
    assert fs[1..] == [g] && [g][1..] == [];
    var none: map<nat, Value> := map[];
    var one := none[f.id := Meaning(f)];
    assert one.Keys == {f.id};
    assert Distinct([g], one.Keys);
    assert none.Keys == {};
    assert {} + {f.id} == one.Keys;
    hide FieldsFrom, Encode;
    FieldsRoundTrip(fs, none);
    assert Table(fs, none) == Table([g], one) == one[g.id := Meaning(g)];
    assert EncodeAll([g]) == Encode(g) + EncodeAll([]);
  }

  lemma BodyHoldsNoBytes(wire: nat, id: nat, b: seq<byte>)
    ensures var r := Body(wire, id, b);
            r.Some? && r.value.value.wire == 0 ==> r.value.value.bytes == []
  {
  }

  // In a field map a value of wire type 0 holds no bytes.
  lemma {:induction false} IntegersHoldNoBytes(b: seq<byte>, seen: map<nat, Value>)
    requires FieldsFrom(b, seen).Ok? && forall k | k in seen :: seen[k].wire == 0 ==> seen[k].bytes == []
    ensures forall k | k in FieldsFrom(b, seen).value ::
              FieldsFrom(b, seen).value[k].wire == 0 ==> FieldsFrom(b, seen).value[k].bytes == []
    decreases |b|
  {
    hide Uvarint, Body;
    if b != [] {
      var tag := Uvarint(b, 0);
      BodyHoldsNoBytes(tag.value.value % 8, tag.value.value / 8, b[tag.value.length..]);
      var item := Body(tag.value.value % 8, tag.value.value / 8, b[tag.value.length..]).value;
      IntegersHoldNoBytes(item.rest, seen[item.id := item.value]);
    }
  }

  // Whatever version, message number and field a message carries, the reader
  // takes its payload exactly when all three are the expected ones, the message
  // is within the limit and the payload reports success.
  lemma AnswersAreMatched(version: nat, number: nat, field: nat, payload: seq<byte>, msg: nat, id: nat)
    requires version < TWO64 && number < TWO64 && 2 <= field < TWO61 && |payload| < TWO61 && id >= 2
    ensures var b := EncodeAll([IntField(2, version),
                                BytesField(12, EncodeAll([IntField(1, number), BytesField(field, payload)]))]);
            ResponseBody(b, msg, id)
            == if |b| <= LIMIT && version == 2 && number == msg && field == id && Successful(payload) then Ok(payload)
               else Err
  {
    var f1, f2 := IntField(1, number), BytesField(field, payload);
    var inner := EncodeAll([f1, f2]);
    TwoFields(f1, f2);
    var g1, g2 := IntField(2, version), BytesField(12, inner);
    var outer := EncodeAll([g1, g2]);
    if |outer| <= LIMIT {
      InnerIsShorter(g1, g2);
      TwoFields(g1, g2);
      var s := map[1 := Meaning(f1), field := Meaning(f2)];
      assert Get(s, 1) == Value(0, [], number) && Get(s, field) == Value(2, payload, 0);
      assert id != field ==> Get(s, id) == ABSENT;
      if Fields(payload).Ok? {
        IntegersHoldNoBytes(payload, map[]);
      }
      hide FieldsFrom, EncodeAll, Encode;
    }
  }

  // The reader accepts the writer's message exactly when it is within the
  // limit and reports success, and then returns the very payload.
  lemma ResponseRoundTrip(msg: nat, id: nat, payload: seq<byte>)
    requires msg < TWO64 && 2 <= id < TWO61 && |payload| < TWO61
    ensures ResponseBody(Session(msg, id, payload), msg, id)
            == if |Session(msg, id, payload)| <= LIMIT && Successful(payload) then Ok(payload) else Err
  {
    AnswersAreMatched(2, msg, id, payload, msg, id);
    hide EncodeAll, ResponseBody, Successful;
  }

  lemma InnerIsShorter(f: Field, g: Field)
    requires g.BytesField?
    ensures |g.bytes| < |EncodeAll([f, g])|
  {
    assert [f, g][1..] == [g] && [g][1..] == [];
    assert EncodeAll([g]) == Encode(g) + EncodeAll([]);
    assert |EncodeAll([f, g])| == |Encode(f)| + |Encode(g)|;
  }
}
