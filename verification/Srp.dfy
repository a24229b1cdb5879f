/**
  The SRP-6a arithmetic of the pairing handshake (RFC 5054, sections 2.4 to
  2.6): the secret the client computes from the device's public key is the one
  the device computes from the verifier it was provisioned with.
  Hash stands for SHA-512; the group is any modulus and generator.
  */
module Srp {
  import opened Frames

  // --------------------------------------------------------- modular arithmetic

  function Pow(b: int, e: nat): int {
    if e == 0 then 1 else b * Pow(b, e - 1)
  }

  // big.Int.Exp with a modulus.
  function Exp(b: int, e: nat, n: nat): (r: nat)
    requires n > 0
    ensures r < n
  {
    Pow(b, e) % n
  }

  ghost predicate Same(a: int, b: int, n: nat)
    requires n > 0
  {
    exists k: int :: a == b + k * n
  }

  lemma SameMod(a: int, n: nat)
    requires n > 0
    ensures Same(a, a % n, n)
  {
    assert a == a % n + (a / n) * n;
  }

  lemma SameSwap(a: int, b: int, n: nat)
    requires n > 0 && Same(a, b, n)
    ensures Same(b, a, n)
  {
    var k :| a == b + k * n;
    assert b == a + (-k) * n;
  }

  lemma SameTrans(a: int, b: int, c: int, n: nat)
    requires n > 0 && Same(a, b, n) && Same(b, c, n)
    ensures Same(a, c, n)
  {
    var k :| a == b + k * n;
    var j :| b == c + j * n;
    assert a == c + (k + j) * n;
  }

  lemma SameMul(a: int, a': int, b: int, b': int, n: nat)
    requires n > 0 && Same(a, a', n) && Same(b, b', n)
    ensures Same(a * b, a' * b', n)
  {
    var k :| a == a' + k * n;
    var j :| b == b' + j * n;
    calc {
      a * b;
      (a' + k * n) * (b' + j * n);
      a' * b' + a' * (j * n) + (k * n) * b' + (k * n) * (j * n);
      {
        assert a' * (j * n) == (a' * j) * n;
        assert (k * n) * b' == (k * b') * n;
        assert (k * n) * (j * n) == (k * n * j) * n;
      }
      a' * b' + (a' * j) * n + (k * b') * n + (k * n * j) * n;
      a' * b' + (a' * j + k * b' + k * n * j) * n;
    }
  }

  // Residues decide: two numbers are the same modulo n when their remainders are.
  lemma SameRemainder(a: int, b: int, n: nat)
    requires n > 0 && Same(a, b, n)
    ensures a % n == b % n
  {
    var k :| a == b + k * n;
    var r, q := b % n, b / n;
    assert b == q * n + r;
    assert a == (q + k) * n + r;
    UniqueRemainder(a, q + k, r, n);
  }

  lemma UniqueRemainder(a: int, q: int, r: nat, n: nat)
    requires n > 0 && r < n && a == q * n + r
    ensures a % n == r
  {
    var q' := a / n;
    assert a == q' * n + a % n;
    if q' < q {
      AtLeast(q' + 1, q, n);
    } else if q < q' {
      AtLeast(q + 1, q', n);
    }
  }

  lemma AtLeast(x: int, y: int, n: nat)
    requires x <= y
    ensures (x - 1) * n + n <= y * n
  {
    assert (x - 1) * n + n == x * n;
    assert (y - x) * n >= 0;
    assert y * n == x * n + (y - x) * n;
  }

  lemma {:induction false} SamePow(a: int, b: int, e: nat, n: nat)
    requires n > 0 && Same(a, b, n)
    ensures Same(Pow(a, e), Pow(b, e), n)
    decreases e
  {
    if e == 0 {
      assert 1 == 1 + 0 * n;
    } else {
      SamePow(a, b, e - 1, n);
      SameMul(a, b, Pow(a, e - 1), Pow(b, e - 1), n);
    }
  }

  lemma {:induction false} PowAdd(b: int, d: nat, e: nat)
    ensures Pow(b, d + e) == Pow(b, d) * Pow(b, e)
    decreases d
  {
    if d != 0 { PowAdd(b, d - 1, e); }
  }

  lemma {:induction false} PowPow(b: int, d: nat, e: nat)
    ensures d * e >= 0 && Pow(Pow(b, d), e) == Pow(b, d * e)
    decreases e
  {
    if e == 0 {
    } else {
      PowPow(b, d, e - 1);
      assert d * e == d + d * (e - 1);
      PowAdd(b, d, d * (e - 1));
    }
  }

  // ------------------------------------------------------ big-endian byte strings

  // big.Int.SetBytes
  function Integer(b: seq<byte>): nat {
    if b == [] then 0 else Integer(b[..|b| - 1]) * 0x100 + b[|b| - 1]
  }

  // big.Int.FillBytes into a buffer of the given width; wider numbers panic there.
  function Padded(n: nat, width: nat): (b: seq<byte>)
    ensures |b| == width
  {
    if width == 0 then [] else Padded(n / 0x100, width - 1) + [n % 0x100]
  }

  // big.Int.Bytes
  function Shortest(n: nat): seq<byte> { if n == 0 then [] else Shortest(n / 0x100) + [n % 0x100] }

  lemma {:induction false} ShortestIsInteger(n: nat)
    ensures Integer(Shortest(n)) == n
    decreases n
  {
    if n != 0 {
      ShortestIsInteger(n / 0x100);
      var front := Shortest(n / 0x100);
      assert (front + [n % 0x100])[..|front|] == front;
    }
  }

  lemma {:induction false} ShortestIsShort(n: nat, width: nat)
    requires n < Pow(0x100, width)
    ensures |Shortest(n)| <= width
    decreases width
  {
    if width != 0 && n != 0 {
      assert Pow(0x100, width) == 0x100 * Pow(0x100, width - 1);
      ShortestIsShort(n / 0x100, width - 1);
    }
  }

  lemma {:induction false} PaddedIsInteger(n: nat, width: nat)
    requires n < Pow(0x100, width)
    ensures Integer(Padded(n, width)) == n
    decreases width
  {
    if width != 0 {
      var b := Padded(n / 0x100, width - 1);
      assert n / 0x100 < Pow(0x100, width - 1) by {
        assert Pow(0x100, width) == 0x100 * Pow(0x100, width - 1);
      }
      PaddedIsInteger(n / 0x100, width - 1);
      assert (b + [n % 0x100])[..width - 1] == b;
    }
  }

  lemma {:induction false} LeadingZeros(zeros: seq<byte>, b: seq<byte>)
    requires forall i | 0 <= i < |zeros| :: zeros[i] == 0
    ensures Integer(zeros + b) == Integer(b)
    decreases |zeros| + |b|
  {
    if b != [] {
      assert (zeros + b)[..|zeros + b| - 1] == zeros + b[..|b| - 1];
      LeadingZeros(zeros, b[..|b| - 1]);
    } else if zeros != [] {
      assert zeros + b == zeros;
      var front := zeros[..|zeros| - 1];
      assert front + [] == front;
      LeadingZeros(front, []);
    }
  }

  // -------------------------------------------------------------------- the client

  const WIDTH := 384

  datatype Group = Group(n: nat, g: nat) {
    predicate Valid() { 1 < n < Pow(0x100, WIDTH) && g < Pow(0x100, WIDTH) }
  }

  type Hash = seq<byte> -> seq<byte>

  // The combination of two digests by exclusive or.
  type Mixer = (seq<byte>, seq<byte>) -> seq<byte>

  datatype Challenge = Refused | Agreed(secret: nat)

  // The scrambling parameter, the multiplier and the private exponent.
  function U(h: Hash, publicA: nat, publicB: nat): nat {
    Integer(h(Padded(publicA, WIDTH) + Padded(publicB, WIDTH)))
  }

  function K(h: Hash, group: Group): nat { Integer(h(Padded(group.n, WIDTH) + Padded(group.g, WIDTH))) }

  function X(h: Hash, salt: seq<byte>, identity: seq<byte>): nat { Integer(h(salt + h(identity))) }

  // (B - k v)^(a + u x), over the mathematical modulus big.Int.Mod takes.
  function ClientSecret(group: Group, k: nat, x: nat, u: nat, a: nat, publicB: nat): nat
    requires group.n > 0
  {
    Exp((publicB - k * Exp(group.g, x, group.n)) % group.n, a + u * x, group.n)
  }

  // The client's half of the agreement, with the checks that refuse a
  // challenge; identity is username ":" password.
  function Client(h: Hash, group: Group, identity: seq<byte>, a: nat, salt: seq<byte>, pub: seq<byte>): Challenge
    requires group.n > 0
  {
    var publicB := Integer(pub);
    if |salt| == 0 || |salt| > 64 || |pub| == 0 || |pub| > WIDTH then Refused
    else if publicB == 0 || publicB >= group.n then Refused
    else
      var u := U(h, Exp(group.g, a, group.n), publicB);
      if u == 0 then Refused
      else
        var s := ClientSecret(group, K(h, group), X(h, salt, identity), u, a, publicB);
        if s == 0 then Refused else Agreed(s)
  }

  // -------------------------------------------------------------------- the device

  // What provisioning stores.
  function Verifier(h: Hash, group: Group, identity: seq<byte>, salt: seq<byte>): nat
    requires group.n > 0
  {
    Exp(group.g, X(h, salt, identity), group.n)
  }

  function DevicePublic(group: Group, k: nat, v: nat, b: nat): (r: nat)
    requires group.n > 0
    ensures r < group.n
  {
    (k * v + Exp(group.g, b, group.n)) % group.n
  }

  // RFC 5054, section 2.6
  function DeviceSecret(group: Group, v: nat, publicA: nat, u: nat, b: nat): nat
    requires group.n > 0
  {
    Exp(publicA * Pow(v, u), b, group.n)
  }

  // ------------------------------------------------------------------- agreement

  // (B - k v) is g^b again.
  lemma BaseIsPower(group: Group, k: nat, v: nat, b: nat)
    requires group.n > 0
    ensures Same(((k * v + Exp(group.g, b, group.n)) % group.n - k * v) % group.n, Pow(group.g, b), group.n)
  {
    var n, kv := group.n, k * v;
    var e := Pow(group.g, b);
    var r := (kv + e % n) % n;
    SameMod(kv + e % n, n);
    SameMod(e, n);
    var i :| kv + e % n == r + i * n;
    var j :| e == e % n + j * n;
    assert r - kv == e + (-i - j) * n;
    SameMod(r - kv, n);
    SameSwap(r - kv, (r - kv) % n, n);
    assert Same(r - kv, e, n);
    SameTrans((r - kv) % n, r - kv, e, n);
  }

  // (g^a mod N) (g^x mod N)^u is g^(a + u x).
  lemma ProductIsPower(group: Group, a: nat, x: nat, u: nat)
    requires group.n > 0
    ensures u * x >= 0
    ensures Same(Exp(group.g, a, group.n) * Pow(Exp(group.g, x, group.n), u), Pow(group.g, a + u * x), group.n)
  {
    var n, g := group.n, group.g;
    SameMod(Pow(g, a), n);
    SameSwap(Pow(g, a), Exp(g, a, n), n);
    SameMod(Pow(g, x), n);
    SameSwap(Pow(g, x), Exp(g, x, n), n);
    SamePow(Exp(g, x, n), Pow(g, x), u, n);
    SameMul(Exp(g, a, n), Pow(g, a), Pow(Exp(g, x, n), u), Pow(Pow(g, x), u), n);
    PowPow(g, x, u);
    assert x * u == u * x;
    PowAdd(g, a, u * x);
  }

  // Both sides of the exchange reach the same number.
  lemma SecretsAgree(group: Group, k: nat, x: nat, u: nat, a: nat, b: nat)
    requires group.n > 0
    ensures var v := Exp(group.g, x, group.n);
            ClientSecret(group, k, x, u, a, DevicePublic(group, k, v, b))
            == DeviceSecret(group, v, Exp(group.g, a, group.n), u, b)
  {
    var n, g := group.n, group.g;
    var v := Exp(g, x, n);
    ProductIsPower(group, a, x, u);
    var e := a + u * x;
    var base := ((k * v + Exp(g, b, n)) % n - k * v) % n;
    BaseIsPower(group, k, v, b);
    SamePow(base, Pow(g, b), e, n);
    PowPow(g, b, e);
    PowPow(g, e, b);
    assert b * e == e * b;
    var product := Exp(g, a, n) * Pow(v, u);
    SamePow(product, Pow(g, e), b, n);
    SameSwap(Pow(product, b), Pow(g, e * b), n);
    SameTrans(Pow(base, e), Pow(g, b * e), Pow(product, b), n);
    SameRemainder(Pow(base, e), Pow(product, b), n);
  }

  // For every salt, identity, password and pair of private numbers: when the
  // device answers with the public key the protocol prescribes, in any number
  // of bytes, the client either refuses the challenge or holds the device's
  // secret.  It refuses exactly when one of its checks fails.
  lemma Agreement(h: Hash, group: Group, identity: seq<byte>, salt: seq<byte>, a: nat, b: nat, pub: seq<byte>)
    requires group.Valid()
    requires Integer(pub) == DevicePublic(group, K(h, group), Verifier(h, group, identity, salt), b)
    ensures var v := Verifier(h, group, identity, salt);
            var publicA := Exp(group.g, a, group.n);
            var u := U(h, publicA, Integer(pub));
            var s := DeviceSecret(group, v, publicA, u, b);
            Client(h, group, identity, a, salt, pub)
            == if 1 <= |salt| <= 64 && 1 <= |pub| <= WIDTH && Integer(pub) != 0 && u != 0 && s != 0 then Agreed(s)
               else Refused
  {
    var publicA := Exp(group.g, a, group.n);
    SecretsAgree(group, K(h, group), X(h, salt, identity), U(h, publicA, Integer(pub)), a, b);
    hide ClientSecret, DeviceSecret, DevicePublic, Exp, U, K, X, Integer, Pow;
  }

  // Padding a public value to the width that is hashed loses nothing.
  lemma PaddingIsFaithful(group: Group, publicA: nat, publicB: nat)
    requires group.Valid() && publicA < group.n && publicB < group.n
    ensures Padded(publicA, WIDTH) == Padded(publicB, WIDTH) <==> publicA == publicB
  {
    PaddedIsInteger(publicA, WIDTH);
    PaddedIsInteger(publicB, WIDTH);
  }
}
