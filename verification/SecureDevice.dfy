/**
  The device's half of the pairing handshake (ESP-IDF protocomm security 2):
  what it reads out of the client's two commands, field by field, and what it
  answers.  Everything is told by field numbers and by the formulas of RFC 5054.
  */
module SecureDevice {
  import opened Frames
  import Srp
  import P = Protobuf

  type Bytes = seq<byte>

  // A provisioned device in one handshake: b its private number, pub the bytes
  // it sends for its public key.
  datatype Device = Device(h: Srp.Hash, mix: Srp.Mixer, group: Srp.Group, username: Bytes, password: Bytes,
                           salt: Bytes, b: nat, pub: Bytes)
  {
    // Digests are SHA-512's, and the answers fit a message.
    ghost predicate Valid() {
      (forall x :: |h(x)| == 64) && group.Valid() && |username| <= 128
      && Srp.Integer(pub) == Public() && |pub| + |salt| <= 3000
    }

    // x, v, k and B of RFC 5054, sections 2.4 and 2.5.3
    function X(): nat { Srp.Integer(h(salt + h(username + [0x3a] + password))) }

    function V(): nat
      requires group.n > 0
    {
      Srp.Exp(group.g, X(), group.n)
    }

    function Multiplier(): nat { Srp.Integer(h(Srp.Padded(group.n, 384) + Srp.Padded(group.g, 384))) }

    function Public(): nat
      requires group.n > 0
    {
      (Multiplier() * V() + Srp.Exp(group.g, b, group.n)) % group.n
    }

    // u and the secret, for the client's public key
    function Scrambler(publicA: Bytes): nat {
      Srp.Integer(h(Srp.Padded(Srp.Integer(publicA), 384) + Srp.Padded(Srp.Integer(pub), 384)))
    }

    function Secret(publicA: Bytes): nat
      requires group.n > 0
    {
      Srp.Exp(Srp.Integer(publicA) * Srp.Pow(V(), Scrambler(publicA)), b, group.n)
    }

    function Key(publicA: Bytes): Bytes
      requires group.n > 0
    {
      h(Srp.Shortest(Secret(publicA)))
    }

    // H(H(N) xor H(g), H(I), s, A, B, K), which the client must show
    function Expected(publicA: Bytes): Bytes
      requires group.n > 0
    {
      h(mix(h(Srp.Shortest(group.n)), h(Srp.Padded(group.g, 384))) + h(username) + salt + publicA + pub + Key(publicA))
    }

    // H(A, M, K), with which it answers
    function Proof(publicA: Bytes): Bytes
      requires group.n > 0
    {
      h(publicA + Expected(publicA) + Key(publicA))
    }

    // What the client's checks demand of the challenge.
    predicate Acceptable(publicA: Bytes)
      requires group.n > 0
    {
      1 <= |salt| <= 64 && 1 <= |pub| <= 384 && Srp.Integer(pub) != 0 && Scrambler(publicA) != 0 && Secret(publicA) != 0
    }
  }

  // ------------------------------------------------------------------- commands

  // A command's payload: scheme 2 in field 2, and in field 12 the number of the
  // message in field 1 and its payload in the field named id.
  function Payload(command: Bytes, msg: nat, id: nat): Option<map<nat, P.Value>> {
    var f := P.Fields(command);
    if f.Err? || 2 !in f.value || f.value[2] != P.Value(0, [], 2) || 12 !in f.value then None
    else
      var s := P.Fields(f.value[12].bytes);
      if s.Err? || 1 !in s.value || s.value[1] != P.Value(0, [], msg) || id !in s.value then None
      else
        var p := P.Fields(s.value[id].bytes);
        if p.Err? then None else Some(p.value)
  }

  // The first command names the user in field 1 and the client's public key in
  // field 2; the second shows a proof in field 1.
  predicate Opens(command: Bytes, username: Bytes, publicA: Bytes) {
    var p := Payload(command, 0, 20);
    p.Some? && 1 in p.value && p.value[1] == P.Value(2, username, 0)
    && 2 in p.value && p.value[2] == P.Value(2, publicA, 0)
  }

  predicate Shows(command: Bytes, proof: Bytes) {
    var p := Payload(command, 2, 22);
    p.Some? && 1 in p.value && p.value[1] == P.Value(2, proof, 0)
  }

  // The first answer holds the public key in field 2 and the salt in field 3.
  function FirstAnswer(d: Device): Bytes {
    P.Session(1, 21, P.EncodeAll([P.BytesField(2, d.pub), P.BytesField(3, d.salt)]))
  }

  // The second holds a proof in field 2 and a nonce in field 3.
  function SecondAnswer(proof: Bytes, nonce: Bytes): Bytes {
    P.Session(3, 23, P.EncodeAll([P.BytesField(2, proof), P.BytesField(3, nonce)]))
  }

  // The transport leads to this device, which was told publicA, and which
  // answers a right proof with the proof and the nonce given.
  ghost predicate Serves(rpc: Bytes -> P.Result<Bytes>, d: Device, publicA: Bytes, proof: Bytes, nonce: Bytes)
    requires d.group.n > 0
  {
    && (forall c {:trigger rpc(c)} | Opens(c, d.username, publicA) :: rpc(c) == P.Ok(FirstAnswer(d)))
    && (forall c {:trigger rpc(c)} | Shows(c, d.Expected(publicA)) :: rpc(c) == P.Ok(SecondAnswer(proof, nonce)))
  }

  // ---------------------------------------------------------------------- sizes

  lemma {:induction false} VarintIsShort(v: nat, i: nat)
    requires i <= 9 && v < P.Room(i)
    ensures |P.Varint(v)| <= 10 - i
    decreases 10 - i
  {
    if v >= 0x80 { VarintIsShort(v / 0x80, i + 1); }
  }

  lemma FieldIsShort(f: P.Field)
    requires P.Writable(f)
    ensures |P.Encode(f)| <= 20 + (if f.IntField? then 0 else |f.bytes|)
  {
    P.WholeRange();
    VarintIsShort(P.Tag(f), 0);
    VarintIsShort(if f.IntField? then f.number else |f.bytes|, 0);
  }

  lemma TwoAreShort(f: P.Field, g: P.Field)
    requires P.Writable(f) && P.Writable(g) && f.id != g.id
    ensures |P.EncodeAll([f, g])|
            <= 40 + (if f.IntField? then 0 else |f.bytes|) + (if g.IntField? then 0 else |g.bytes|)
  {
    FieldIsShort(f);
    FieldIsShort(g);
    P.TwoFields(f, g);
  }

  lemma SessionIsShort(msg: nat, id: nat, payload: Bytes)
    requires msg < P.TWO64 && 2 <= id < P.TWO61 && |payload| < P.TWO61
    ensures |P.Session(msg, id, payload)| <= |payload| + 80
  {
    var f1, f2 := P.IntField(1, msg), P.BytesField(id, payload);
    TwoAreShort(f1, f2);
    TwoAreShort(P.IntField(2, 2), P.BytesField(12, P.EncodeAll([f1, f2])));
  }

  // ------------------------------------------------------------ round trips

  lemma OneFieldRead(f: P.Field)
    requires P.Writable(f) && |P.EncodeAll([f])| <= P.LIMIT
    ensures P.Fields(P.EncodeAll([f])) == P.Ok(map[f.id := P.Meaning(f)])
  {
    var none: map<nat, P.Value> := map[];
    assert [f][1..] == [];
    assert P.Distinct([f], none.Keys);
    P.FieldsRoundTrip([f], none);
    assert P.Table([f], none) == none[f.id := P.Meaning(f)];
  }

  lemma TwoFieldsRead(f: P.Field, g: P.Field)
    requires P.Writable(f) && P.Writable(g) && f.id != g.id && |P.EncodeAll([f, g])| <= P.LIMIT
    ensures P.Fields(P.EncodeAll([f, g])) == P.Ok(map[f.id := P.Meaning(f), g.id := P.Meaning(g)])
  {
    P.TwoFields(f, g);
  }

  // A session message's payload is found under its number.
  lemma PayloadIsFound(msg: nat, id: nat, payload: Bytes)
    requires msg < P.TWO64 && 2 <= id < P.TWO61 && |payload| <= 4000
    ensures Payload(P.Session(msg, id, payload), msg, id)
         == if P.Fields(payload).Err? then None else Some(P.Fields(payload).value)
  {
    var f1, f2 := P.IntField(1, msg), P.BytesField(id, payload);
    var inner := P.EncodeAll([f1, f2]);
    TwoAreShort(f1, f2);
    SessionIsShort(msg, id, payload);
    TwoFieldsRead(f1, f2);
    TwoFieldsRead(P.IntField(2, 2), P.BytesField(12, inner));
    hide P.Fields, P.EncodeAll;
  }
}
