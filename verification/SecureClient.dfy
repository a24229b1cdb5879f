/**
  The pairing client as the code has it: a handshake that may run once, and
  calls that share one nonce counter between requests and replies.
  The transport and the cipher are parameters; AES-GCM is the pair seal/open.
  */
module SecureClient {
  import opened Frames
  import D = SecureDevice
  import P = Protobuf
  import Srp

  type Bytes = seq<byte>

  // ---------------------------------------------------------------------- nonces

  const NONCE_LENGTH := 12
  const LAST_COUNTER: nat := 0xffff_fffe

  // The last four bytes, big-endian.
  function Counter(nonce: Bytes): nat
    requires |nonce| == NONCE_LENGTH
  {
    Srp.Integer(nonce[8..])
  }

  function WithCounter(nonce: Bytes, c: nat): (r: Bytes)
    requires |nonce| == NONCE_LENGTH
    ensures |r| == NONCE_LENGTH
  {
    nonce[..8] + Srp.Padded(c, 4)
  }

  lemma CounterIsStored(nonce: Bytes, c: nat)
    requires |nonce| == NONCE_LENGTH && c <= 0xffff_ffff
    ensures Counter(WithCounter(nonce, c)) == c
    ensures WithCounter(nonce, c)[..8] == nonce[..8]
  {
    assert Srp.Pow(0x100, 4) == 0x1_0000_0000 by {
      assert Srp.Pow(0x100, 2) == 0x1_0000;
      Srp.PowAdd(0x100, 2, 2);
    }
    Srp.PaddedIsInteger(c, 4);
    assert WithCounter(nonce, c)[8..] == Srp.Padded(c, 4);
  }

  // ------------------------------------------------------------------- handshake

  // SHA-512 digests and the strings hashed into the two proofs.
  datatype Setup = Setup(h: Srp.Hash, group: Srp.Group, username: Bytes, password: Bytes, a: nat)

  datatype Proofs = Proofs(proof: Bytes, response: Bytes, key: Bytes)

  // The three digests of an agreed secret: what the client shows, what it
  // wants to see, and the session key.
  function ProofsOf(st: Setup, mix: Srp.Mixer, salt: Bytes, pub: Bytes, secret: nat): Proofs
    requires st.group.n > 0
  {
    var publicA := Srp.Shortest(Srp.Exp(st.group.g, st.a, st.group.n));
    var key := st.h(Srp.Shortest(secret));
    var group := mix(st.h(Srp.Shortest(st.group.n)), st.h(Srp.Padded(st.group.g, Srp.WIDTH)));
    var proof := st.h(group + st.h(st.username) + salt + publicA + pub + key);
    Proofs(proof, st.h(publicA + proof + key), key)
  }

  function Identity(st: Setup): Bytes { st.username + [0x3a] + st.password }

  // getBytes
  function BytesField(b: Bytes, id: nat): P.Result<Bytes> {
    var f := P.Fields(b);
    if f.Err? || id !in f.value || f.value[id].wire != 2 then P.Err else P.Ok(f.value[id].bytes)
  }

  function FirstCommand(st: Setup): Bytes
    requires st.group.n > 0
  {
    P.Session(0, 20, P.EncodeAll([P.BytesField(1, st.username),
                                  P.BytesField(2, Srp.Shortest(Srp.Exp(st.group.g, st.a, st.group.n)))]))
  }

  function SecondCommand(proof: Bytes): Bytes { P.Session(2, 22, P.EncodeAll([P.BytesField(1, proof)])) }

  datatype Outcome = Failed | Paired(key: Bytes, nonce: Bytes)

  // What the first response gives: the proofs to use.
  function FirstStep(st: Setup, mix: Srp.Mixer, response: P.Result<Bytes>): P.Result<Proofs>
    requires st.group.n > 0
  {
    if response.Err? then P.Err
    else
      var body := P.ResponseBody(response.value, 1, 21);
      if body.Err? then P.Err
      else
        var pub, salt := BytesField(body.value, 2), BytesField(body.value, 3);
        if pub.Err? || salt.Err? then P.Err
        else
          var c := Srp.Client(st.h, st.group, Identity(st), st.a, salt.value, pub.value);
          if c.Refused? then P.Err else P.Ok(ProofsOf(st, mix, salt.value, pub.value, c.secret))
  }

  // What the second gives: the nonce, once the device has proved itself.
  function SecondStep(p: Proofs, response: P.Result<Bytes>): Outcome {
    if response.Err? then Failed
    else
      var body := P.ResponseBody(response.value, 3, 23);
      if body.Err? then Failed
      else
        var proof, nonce := BytesField(body.value, 2), BytesField(body.value, 3);
        if proof.Err? || proof.value != p.response || nonce.Err? then Failed
        else if |nonce.value| != NONCE_LENGTH || Counter(nonce.value) == 0 then Failed
        else Paired(p.key, nonce.value)
  }

  // A transport: what comes back for a command.
  type Rpc = Bytes -> P.Result<Bytes>

  function HandshakeOf(st: Setup, mix: Srp.Mixer, rpc: Rpc): Outcome
    requires st.group.n > 0
  {
    var first := FirstStep(st, mix, rpc(FirstCommand(st)));
    if first.Err? then Failed else SecondStep(first.value, rpc(SecondCommand(first.value.proof)))
  }

  // ------------------------------------------------------------ an honest device

  function PublicA(st: Setup): Bytes
    requires st.group.n > 0
  {
    Srp.Shortest(Srp.Exp(st.group.g, st.a, st.group.n))
  }

  // The transport leads to device d, provisioned for this user, which answers
  // the client's proof with the proof and the nonce given.
  ghost predicate Faces(st: Setup, mix: Srp.Mixer, rpc: Rpc, d: D.Device, proof: Bytes, nonce: Bytes)
    requires st.group.n > 0
  {
    && d.Valid() && d.h == st.h && d.mix == mix && d.group == st.group
    && d.username == st.username && d.password == st.password
    && |proof| <= 256 && |nonce| <= 256 && D.Serves(rpc, d, PublicA(st), proof, nonce)
  }

  lemma FirstCommandOpens(st: Setup)
    requires st.group.Valid() && |st.username| <= 128
    ensures D.Opens(FirstCommand(st), st.username, PublicA(st))
  {
    var f1, f2 := P.BytesField(1, st.username), P.BytesField(2, PublicA(st));
    Srp.ShortestIsShort(Srp.Exp(st.group.g, st.a, st.group.n), Srp.WIDTH);
    D.TwoAreShort(f1, f2);
    D.TwoFieldsRead(f1, f2);
    D.PayloadIsFound(0, 20, P.EncodeAll([f1, f2]));
  }

  lemma SecondCommandShows(proof: Bytes)
    requires |proof| <= 256
    ensures D.Shows(SecondCommand(proof), proof)
  {
    var f := P.BytesField(1, proof);
    D.FieldIsShort(f);
    assert P.EncodeAll([f]) == P.Encode(f) + P.EncodeAll([]);
    D.OneFieldRead(f);
    D.PayloadIsFound(2, 22, P.EncodeAll([f]));
  }

  // An answer with two fields of bytes is read back.
  lemma AnswerIsRead(msg: nat, id: nat, b2: Bytes, b3: Bytes)
    requires msg < P.TWO64 && 2 <= id < P.TWO61 && |b2| + |b3| <= 3000
    ensures var answer := P.Session(msg, id, P.EncodeAll([P.BytesField(2, b2), P.BytesField(3, b3)]));
            var body := P.ResponseBody(answer, msg, id);
            body.Ok? && BytesField(body.value, 2) == P.Ok(b2) && BytesField(body.value, 3) == P.Ok(b3)
  {
    var f2, f3 := P.BytesField(2, b2), P.BytesField(3, b3);
    var payload := P.EncodeAll([f2, f3]);
    D.TwoAreShort(f2, f3);
    D.TwoFieldsRead(f2, f3);
    D.SessionIsShort(msg, id, payload);
    P.ResponseRoundTrip(msg, id, payload);
    hide P.EncodeAll, P.ResponseBody, P.Session, P.Fields;
  }

  // The client reads key and salt out of the answer and puts them to the test.
  lemma ChallengeIsRead(st: Setup, mix: Srp.Mixer, d: D.Device)
    requires st.group.n > 0 && |d.pub| + |d.salt| <= 3000
    ensures var c := Srp.Client(st.h, st.group, Identity(st), st.a, d.salt, d.pub);
            FirstStep(st, mix, P.Ok(D.FirstAnswer(d)))
            == if c.Refused? then P.Err else P.Ok(ProofsOf(st, mix, d.salt, d.pub, c.secret))
  {
    AnswerIsRead(1, 21, d.pub, d.salt);
    hide P.ResponseBody, BytesField, P.Session, P.EncodeAll, Srp.Client, ProofsOf, Identity;
  }

  lemma ChallengeIsMet(st: Setup, d: D.Device)
    requires d.Valid() && d.h == st.h && d.group == st.group
    requires d.username == st.username && d.password == st.password
    ensures Srp.Client(st.h, st.group, Identity(st), st.a, d.salt, d.pub)
         == if d.Acceptable(PublicA(st)) then Srp.Agreed(d.Secret(PublicA(st))) else Srp.Refused
  {
    SameChallenge(st, d);
    hide D.Device.Secret, D.Device.Scrambler, D.Device.V, D.Device.X, D.Device.Multiplier, D.Device.Public,
         Srp.DevicePublic, Srp.DeviceSecret, Srp.Verifier, Srp.K, Srp.U, Srp.X, Srp.Client, Identity, PublicA, Srp.Exp,
         Srp.Integer;
    Srp.Agreement(st.h, st.group, Identity(st), d.salt, st.a, d.b, d.pub);
  }

  lemma SameProofs(st: Setup, mix: Srp.Mixer, d: D.Device)
    requires st.group.n > 0 && d.h == st.h && d.mix == mix && d.group == st.group && d.username == st.username
    ensures var a := PublicA(st);
            ProofsOf(st, mix, d.salt, d.pub, d.Secret(a)) == Proofs(d.Expected(a), d.Proof(a), d.Key(a))
  {
    hide D.Device.Secret, Srp.Exp, Srp.Shortest, Srp.Padded;
  }

  lemma ChallengeIsAnswered(st: Setup, mix: Srp.Mixer, d: D.Device)
    requires d.Valid() && d.h == st.h && d.mix == mix && d.group == st.group
    requires d.username == st.username && d.password == st.password
    ensures FirstStep(st, mix, P.Ok(D.FirstAnswer(d)))
         == if d.Acceptable(PublicA(st))
            then P.Ok(Proofs(d.Expected(PublicA(st)), d.Proof(PublicA(st)), d.Key(PublicA(st))))
            else P.Err
  {
    ChallengeIsRead(st, mix, d);
    ChallengeIsMet(st, d);
    SameProofs(st, mix, d);
    hide FirstStep, D.FirstAnswer, D.Device.Acceptable, D.Device.Secret, D.Device.Expected, D.Device.Proof,
         D.Device.Key, ProofsOf, Srp.Client, PublicA, Identity;
  }

  lemma SameChallenge(st: Setup, d: D.Device)
    requires st.group.Valid() && d.h == st.h && d.group == st.group
    requires d.username == st.username && d.password == st.password
    ensures d.X() == Srp.X(st.h, d.salt, Identity(st)) && d.V() == Srp.Verifier(st.h, st.group, Identity(st), d.salt)
    ensures d.Multiplier() == Srp.K(st.h, st.group)
    ensures d.Public() == Srp.DevicePublic(st.group, d.Multiplier(), d.V(), d.b)
    ensures var publicA := Srp.Exp(st.group.g, st.a, st.group.n);
            d.Scrambler(PublicA(st)) == Srp.U(st.h, publicA, Srp.Integer(d.pub))
            && d.Secret(PublicA(st)) == Srp.DeviceSecret(st.group, d.V(), publicA, d.Scrambler(PublicA(st)), d.b)
  {
    Srp.ShortestIsInteger(Srp.Exp(st.group.g, st.a, st.group.n));
    hide Srp.Exp, Srp.Pow, Srp.Integer, Srp.Padded, Srp.Shortest;
  }

  lemma CounterIsZero(nonce: Bytes)
    requires |nonce| == NONCE_LENGTH
    ensures Counter(nonce) == 0 <==> nonce[8..] == [0, 0, 0, 0]
  {
    var b := nonce[8..];
    var b3, b2, b1 := b[..3], b[..2], b[..1];
    assert b3[..2] == b2 && b2[..1] == b1 && b1[..0] == [];
    assert Srp.Integer(b1) == b[0] && Srp.Integer(b2) == Srp.Integer(b1) * 0x100 + b[1];
    assert Srp.Integer(b3) == Srp.Integer(b2) * 0x100 + b[2] && Srp.Integer(b) == Srp.Integer(b3) * 0x100 + b[3];
    assert b == [b[0], b[1], b[2], b[3]];
  }

  // What pairing with device d should come to.
  function Wanted(st: Setup, d: D.Device, proof: Bytes, nonce: Bytes): Outcome
    requires st.group.n > 0 && d.group.n > 0
  {
    var a := PublicA(st);
    if d.Acceptable(a) && proof == d.Proof(a) && |nonce| == 12 && nonce[8..] != [0, 0, 0, 0] then
      Paired(d.Key(a), nonce)
    else
      Failed
  }

  // Whenever its checks hold the client pairs with the device it was
  // provisioned for, and shares its key; it pairs with no device that answers
  // with another proof, or with a nonce that is not one.
  ghost predicate PairsRightly(st: Setup, mix: Srp.Mixer, rpc: Rpc, o: Outcome)
    requires st.group.n > 0
  {
    forall d, proof, n | Faces(st, mix, rpc, d, proof, n) :: o == Wanted(st, d, proof, n)
  }

  lemma ProofIsJudged(p: Proofs, proof: Bytes, nonce: Bytes)
    requires |proof| <= 256 && |nonce| <= 256
    ensures SecondStep(p, P.Ok(D.SecondAnswer(proof, nonce)))
         == if proof == p.response && |nonce| == 12 && nonce[8..] != [0, 0, 0, 0] then Paired(p.key, nonce) else Failed
  {
    AnswerIsRead(3, 23, proof, nonce);
    if |nonce| == NONCE_LENGTH { CounterIsZero(nonce); }
    hide P.ResponseBody, BytesField, P.Session, P.EncodeAll, Counter;
  }

  lemma PairsWithHonestDevice(st: Setup, mix: Srp.Mixer, rpc: Rpc, d: D.Device, proof: Bytes, nonce: Bytes)
    requires st.group.n > 0 && Faces(st, mix, rpc, d, proof, nonce)
    ensures HandshakeOf(st, mix, rpc) == Wanted(st, d, proof, nonce)
  {
    FirstCommandOpens(st);
    ChallengeIsAnswered(st, mix, d);
    SecondCommandShows(d.Expected(PublicA(st)));
    hide FirstStep, SecondStep, D.Opens, D.Shows, D.FirstAnswer, D.SecondAnswer, PublicA, D.Device.Valid,
         D.Device.Acceptable, D.Device.Expected, D.Device.Proof, D.Device.Key;
    if d.Acceptable(PublicA(st)) {
      var a := PublicA(st);
      ProofIsJudged(Proofs(d.Expected(a), d.Proof(a), d.Key(a)), proof, nonce);
    }
  }

  lemma OutcomeIsRight(st: Setup, mix: Srp.Mixer, rpc: Rpc)
    requires st.group.n > 0
    ensures PairsRightly(st, mix, rpc, HandshakeOf(st, mix, rpc))
  {
    forall d, proof, n | Faces(st, mix, rpc, d, proof, n) ensures HandshakeOf(st, mix, rpc) == Wanted(st, d, proof, n) {
      PairsWithHonestDevice(st, mix, rpc, d, proof, n);
    }
    hide HandshakeOf, Wanted, Faces;
  }

  // ----------------------------------------------------------------------- calls

  // Both key and nonce are arguments: key, nonce, text.
  datatype Cipher = Cipher(seal: (Bytes, Bytes, Bytes) -> Bytes, unseal: (Bytes, Bytes, Bytes) -> P.Result<Bytes>)

  predicate NeverTwice(used: seq<Bytes>) {
    (forall i | 0 <= i < |used| :: |used[i]| == NONCE_LENGTH)
    && (forall i, j | 0 <= i < j < |used| :: Counter(used[i]) < Counter(used[j]))
  }

  predicate AllBelow(used: seq<Bytes>, nonce: Bytes)
    requires |nonce| == NONCE_LENGTH
  {
    forall i | 0 <= i < |used| ::
      |used[i]| == NONCE_LENGTH && Counter(used[i]) < Counter(nonce) && used[i][..8] == nonce[..8]
  }

  lemma UseOne(used: seq<Bytes>, nonce: Bytes, c: nat)
    requires |nonce| == NONCE_LENGTH && NeverTwice(used) && AllBelow(used, nonce) && Counter(nonce) < c <= 0xffff_ffff
    ensures NeverTwice(used + [nonce]) && AllBelow(used + [nonce], WithCounter(nonce, c))
  {
    CounterIsStored(nonce, c);
    hide Counter, WithCounter;
  }

  lemma StoreAgain(nonce: Bytes, b: nat, c: nat)
    requires |nonce| == NONCE_LENGTH
    ensures WithCounter(WithCounter(nonce, b), c) == WithCounter(nonce, c)
  {
    assert WithCounter(nonce, b)[..8] == nonce[..8];
  }

  class Client {
    const st: Setup
    var started: bool
    var ready: bool
    var key: Bytes
    var nonce: Bytes
    ghost var used: seq<Bytes>        // every nonce a message was sealed under

    ghost predicate Valid()
      reads this
    {
      && st.group.n > 0
      && (ready ==> started && |nonce| == NONCE_LENGTH && Counter(nonce) <= 0xffff_ffff)
      && (!started ==> used == [])
      && NeverTwice(used)
      && (ready ==> AllBelow(used, nonce))
    }

    constructor (setup: Setup)
      requires setup.group.n > 0
      ensures Valid() && !started && !ready && used == [] && st == setup
    {
      st := setup;
      started, ready, key, nonce, used := false, false, [], [], [];
    }

    // A client makes one attempt; it is ready exactly when that one succeeds.
    method Handshake(mix: Srp.Mixer, rpc: Rpc) returns (ok: bool)
      requires Valid()
      modifies this
      ensures Valid() && started && used == old(used)
      ensures old(started) ==> !ok && ready == old(ready) && key == old(key) && nonce == old(nonce)
      ensures !old(started) ==> ok == ready == HandshakeOf(st, mix, rpc).Paired?
      ensures !old(started) && ok ==> HandshakeOf(st, mix, rpc) == Paired(key, nonce)
      ensures !old(started) ==> PairsRightly(st, mix, rpc, if ready then Paired(key, nonce) else Failed)
    {
      OutcomeIsRight(st, mix, rpc);
      hide PairsRightly, P.ResponseBody, BytesField, Counter, FirstStep, FirstCommand, SecondCommand, NeverTwice;
      if started { return false; }
      started := true;
      ready := false;
      var first := FirstStep(st, mix, rpc(FirstCommand(st)));
      if first.Err? { return false; }
      var response := rpc(SecondCommand(first.value.proof));
      if response.Err? { return false; }
      var body := P.ResponseBody(response.value, 3, 23);
      if body.Err? { return false; }
      var proof := BytesField(body.value, 2);
      if proof.Err? || proof.value != first.value.response { return false; }
      var n := BytesField(body.value, 3);
      if n.Err? || |n.value| != NONCE_LENGTH || Counter(n.value) == 0 { return false; }
      CounterFits(n.value);
      key, nonce, ready := first.value.key, n.value, true;
      return true;
    }

    method Invalidate()
      modifies this
      ensures !ready && started == old(started) && used == old(used)
    {
      ready := false;
      key, nonce := [], [];
    }

    // Each call seals once, under a nonce never used before, and opens the
    // answer under the next one; any failure is the last thing it does.
    method Call(c: Cipher, rpc: Rpc, payload: Bytes) returns (r: P.Result<Bytes>)
      requires Valid()
      modifies this
      ensures Valid() && started == old(started)
      ensures !old(ready) ==> r.Err? && !ready && used == old(used)
      ensures r.Err? ==> !ready
      ensures old(ready) && Counter(old(nonce)) >= LAST_COUNTER ==> r.Err? && used == old(used)
      ensures old(ready) && Counter(old(nonce)) < LAST_COUNTER ==>
                var n := old(nonce);
                var response := rpc(c.seal(old(key), n, payload));
                used == old(used) + [n]
                && r == if response.Err? then P.Err
                    else c.unseal(old(key), WithCounter(n, Counter(n) + 1), response.value)
      ensures r.Ok? ==> ready && key == old(key) && nonce == WithCounter(old(nonce), Counter(old(nonce)) + 2)
    {
      if !ready { return P.Err; }
      var counter := Counter(nonce);
      if counter >= LAST_COUNTER {
        Invalidate();
        return P.Err;
      }
      hide NeverTwice, AllBelow, Counter, WithCounter;
      UseOne(used, nonce, counter + 2);
      CounterIsStored(nonce, counter + 2);
      StoreAgain(nonce, counter + 1, counter + 2);
      var encrypted := c.seal(key, nonce, payload);
      used := used + [nonce];
      nonce := WithCounter(nonce, counter + 1);
      var response := rpc(encrypted);
      if response.Err? {
        Invalidate();
        return P.Err;
      }
      var plain := c.unseal(key, nonce, response.value);
      if plain.Err? {
        Invalidate();
        return P.Err;
      }
      nonce := WithCounter(nonce, counter + 2);
      return plain;
    }
  }

  lemma CounterFits(nonce: Bytes)
    requires |nonce| == NONCE_LENGTH
    ensures Counter(nonce) <= 0xffff_ffff
  {
    var b := nonce[8..];
    var b3, b2, b1 := b[..3], b[..2], b[..1];
    assert b3[..2] == b2 && b2[..1] == b1 && b1[..0] == [];
    assert Srp.Integer(b1) <= 0xff;
    assert Srp.Integer(b2) <= 0xffff;
    assert Srp.Integer(b3) <= 0xff_ffff;
  }
}
