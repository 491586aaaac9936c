/**
 The checksum of Bech32 and Bech32m (`bech32.cpp`, BIP 173 and BIP 350): a list of 5-bit values
 is a polynomial over GF(32), and its checksum is the remainder modulo a generator of degree six.
 `PolyMod` keeps the remainder packed in a 32-bit word.
*/
module Bech32Code {
  import opened Common

  // ----- GF(32), modulo a^5 + a^3 + 1

  /** All ones if the lowest bit is set, zero otherwise. */
  function Spread(b: bv5): bv5 {
    0 - (b & 1)
  }

  /** Multiplication by a. */
  function Double(k: bv5): bv5 {
    (k << 1) ^ (9 & Spread(k >> 4))
  }

  /** The product of two elements: `a` picks among the doublings of `k`. */
  function Product(k: bv5, a: bv5): bv5 {
    var k2 := Double(k);
    var k4 := Double(k2);
    var k8 := Double(k4);
    var k16 := Double(k8);
    (k & Spread(a)) ^ (k2 & Spread(a >> 1)) ^ (k4 & Spread(a >> 2)) ^ (k8 & Spread(a >> 3)) ^ (k16 & Spread(a >> 4))
  }

  /** `Unfold(true)` opens the definition. */
  ghost predicate IsProduct(k: bv5, a: bv5, r: bv5) {
    forall b {:trigger Unfold(b)} :: Unfold(b) ==> r == Product(k, a)
  }

  /** The product, without its definition. */
  ghost function Times(k: bv5, a: bv5): bv5 {
    assert IsProduct(k, a, Product(k, a));
    var r: bv5 :| IsProduct(k, a, r);
    r
  }

  lemma {:induction false} TimesIs(k: bv5, a: bv5)
    ensures Times(k, a) == Product(k, a)
  {
    assert Unfold(true);
  }

  // ----- remainders

  /** A polynomial of degree at most five, the highest coefficient first. */
  datatype Poly = Poly(c0: bv5, c1: bv5, c2: bv5, c3: bv5, c4: bv5, c5: bv5)

  const ZERO := Poly(0, 0, 0, 0, 0, 0)
  const ONE := Poly(0, 0, 0, 0, 0, 1)

  function Plus(p: Poly, q: Poly): Poly {
    Poly(p.c0 ^ q.c0, p.c1 ^ q.c1, p.c2 ^ q.c2, p.c3 ^ q.c3, p.c4 ^ q.c4, p.c5 ^ q.c5)
  }

  /** {a} times the generator without its leading term. */
  ghost function Scaled(a: bv5): Poly {
    Poly(Times(29, a), Times(22, a), Times(20, a), Times(21, a), Times(29, a), Times(18, a))
  }

  /** p(x) * x + v modulo the generator x^6 + {29}x^5 + {22}x^4 + {20}x^3 + {21}x^2 + {29}x + {18}. */
  ghost function Reduced(p: Poly, v: bv5): Poly {
    Plus(Moved(p, v), Scaled(p.c0))
  }

  function Moved(p: Poly, v: bv5): Poly {
    Poly(p.c1, p.c2, p.c3, p.c4, p.c5, v)
  }

  ghost predicate IsNext(p: Poly, v: bv5, r: Poly) {
    forall b {:trigger Unfold(b)} :: Unfold(b) ==> r == Reduced(p, v)
  }

  ghost function Next(p: Poly, v: bv5): Poly {
    assert IsNext(p, v, Reduced(p, v));
    var r: Poly :| IsNext(p, v, r);
    r
  }

  lemma {:induction false} NextIs(p: Poly, v: bv5)
    ensures Next(p, v) == Reduced(p, v)
  {
    assert Unfold(true);
  }

  /** Horner's rule over a list of coefficients. */
  ghost function Remainder(p: Poly, v: seq<bv5>): Poly
    decreases |v|
  {
    if v == [] then p else Remainder(Next(p, v[0]), v[1..])
  }

  // ----- the packed form

  /** Six groups of five bits. */
  function Unpack(c: bv32): Poly {
    Poly(((c >> 25) & 31) as bv5, ((c >> 20) & 31) as bv5, ((c >> 15) & 31) as bv5,
         ((c >> 10) & 31) as bv5, ((c >> 5) & 31) as bv5, (c & 31) as bv5)
  }

  ghost predicate IsSum(x: bv5, y: bv5, z: bv5) {
    forall b {:trigger Unfold(b)} :: Unfold(b) ==> x == y ^ z
  }

  lemma {:induction false} Product29Add(a: bv5, b: bv5)
    ensures IsSum(Product(29, a ^ b), Product(29, a), Product(29, b))
  {
    if a & 1 == 0 {
      if b & 1 == 0 {
        assert Product(29, a ^ b) == Product(29, a) ^ Product(29, b);
      } else {
        assert Product(29, a ^ b) == Product(29, a) ^ Product(29, b);
      }
    } else {
      if b & 1 == 0 {
        assert Product(29, a ^ b) == Product(29, a) ^ Product(29, b);
      } else {
        assert Product(29, a ^ b) == Product(29, a) ^ Product(29, b);
      }
    }
  }

  lemma {:induction false} Product22Add(a: bv5, b: bv5)
    ensures IsSum(Product(22, a ^ b), Product(22, a), Product(22, b))
  {
    assert Product(22, a ^ b) == Product(22, a) ^ Product(22, b);
  }

  lemma {:induction false} Product20Add(a: bv5, b: bv5)
    ensures IsSum(Product(20, a ^ b), Product(20, a), Product(20, b))
  {
    assert Product(20, a ^ b) == Product(20, a) ^ Product(20, b);
  }

  lemma {:induction false} Product21Add(a: bv5, b: bv5)
    ensures IsSum(Product(21, a ^ b), Product(21, a), Product(21, b))
  {
    assert Product(21, a ^ b) == Product(21, a) ^ Product(21, b);
  }

  lemma {:induction false} Product18Add(a: bv5, b: bv5)
    ensures IsSum(Product(18, a ^ b), Product(18, a), Product(18, b))
  {
    assert Product(18, a ^ b) == Product(18, a) ^ Product(18, b);
  }

  lemma {:induction false} TimesSum(k: bv5, a: bv5, b: bv5)
    requires IsSum(Product(k, a ^ b), Product(k, a), Product(k, b))
    ensures IsSum(Times(k, a ^ b), Times(k, a), Times(k, b))
  {
    TimesIs(k, a);
    TimesIs(k, b);
    TimesIs(k, a ^ b);
  }

  lemma {:induction false} SumIs(x: bv5, y: bv5, z: bv5)
    requires IsSum(x, y, z)
    ensures x == y ^ z
  {
    assert Unfold(true);
  }

  lemma {:induction false} TimesAdd(k: bv5, a: bv5, b: bv5)
    requires IsSum(Product(k, a ^ b), Product(k, a), Product(k, b))
    ensures Times(k, a ^ b) == Times(k, a) ^ Times(k, b)
  {
    TimesSum(k, a, b);
    SumIs(Times(k, a ^ b), Times(k, a), Times(k, b));
  }

  lemma {:induction false} ScaledAdd(a: bv5, b: bv5)
    ensures Scaled(a ^ b) == Plus(Scaled(a), Scaled(b))
  {
    Product29Add(a, b);
    TimesAdd(29, a, b);
    Product22Add(a, b);
    TimesAdd(22, a, b);
    Product20Add(a, b);
    TimesAdd(20, a, b);
    Product21Add(a, b);
    TimesAdd(21, a, b);
    Product18Add(a, b);
    TimesAdd(18, a, b);
  }

  lemma {:induction false} PlusAssociative(p: Poly, q: Poly, r: Poly)
    ensures Plus(Plus(p, q), r) == Plus(p, Plus(q, r))
  {
  }

  lemma {:induction false} UnpackPlus(c: bv32, d: bv32)
    ensures Unpack(c ^ d) == Plus(Unpack(c), Unpack(d))
  {
  }

  /** The five constants of the code are the generator times 1, 2, 4, 8 and 16. */
  lemma {:induction false} Constants()
    ensures Unpack(0x3b6a57b2) == Scaled(1) && Unpack(0x26508e6d) == Scaled(2) && Unpack(0x1ea119fa) == Scaled(4)
    ensures Unpack(0x3d4233dd) == Scaled(8) && Unpack(0x2a1462b3) == Scaled(16)
  {
    assert Unfold(true);
  }

  /** One conditional addition; `done` is the part of the leaving coefficient already accounted for. */
  method AddIf(c: bv32, on: bool, g: bv32, ghost base: Poly, ghost done: bv5, ghost bit: bv5) returns (r: bv32)
    requires c < 0x4000_0000 && g < 0x4000_0000
    requires Unpack(c) == Plus(base, Scaled(done)) && Unpack(g) == Scaled(bit)
    ensures r < 0x4000_0000
    ensures Unpack(r) == Plus(base, Scaled(BitIf(on, done, bit)))
  {
    r := c;
    if on {
      UnpackPlus(c, g);
      ScaledAdd(done, bit);
      PlusAssociative(base, Scaled(done), Scaled(bit));
      r := r ^ g;
    }
  }

  function BitIf(on: bool, done: bv5, bit: bv5): bv5 {
    if on then done ^ bit else done
  }

  /** The bits of the leaving coefficient, one at a time. */
  function Bits(c0: bv32): bv5 {
    BitIf(c0 & 16 != 0, BitIf(c0 & 8 != 0, BitIf(c0 & 4 != 0, BitIf(c0 & 2 != 0, BitIf(c0 & 1 != 0, 0, 1), 2), 4), 8), 16)
  }

  lemma {:induction false} BitsTogether(c: bv32)
    requires c < 0x4000_0000
    ensures Bits(c >> 25) == Unpack(c).c0
  {
  }

  lemma {:induction false} UnpackShifted(c: bv32, v: bv5)
    ensures ((c & 0x1ffffff) << 5) ^ (v as bv32) < 0x4000_0000
    ensures var p := Unpack(c);
            Unpack(((c & 0x1ffffff) << 5) ^ (v as bv32)) == Poly(p.c1, p.c2, p.c3, p.c4, p.c5, v)
  {
  }

  lemma {:induction false} PlusNothing(p: Poly)
    ensures Plus(p, Scaled(0)) == p
  {
    assert Unfold(true);
  }

  /** Add {c0} times the generator, bit by bit. */
  method Reduce(c: bv32, c0: bv32) returns (r: bv32)
    requires c < 0x4000_0000
    ensures r < 0x4000_0000
    ensures Unpack(r) == Plus(Unpack(c), Scaled(Bits(c0)))
  {
    ghost var base := Unpack(c);
    PlusNothing(base);
    Constants();
    r := AddIf(c, c0 & 1 != 0, 0x3b6a57b2, base, 0, 1);
    ghost var b1 := BitIf(c0 & 1 != 0, 0, 1);
    r := AddIf(r, c0 & 2 != 0, 0x26508e6d, base, b1, 2);
    ghost var b2 := BitIf(c0 & 2 != 0, b1, 2);
    r := AddIf(r, c0 & 4 != 0, 0x1ea119fa, base, b2, 4);
    ghost var b3 := BitIf(c0 & 4 != 0, b2, 4);
    r := AddIf(r, c0 & 8 != 0, 0x3d4233dd, base, b3, 8);
    ghost var b4 := BitIf(c0 & 8 != 0, b3, 8);
    r := AddIf(r, c0 & 16 != 0, 0x2a1462b3, base, b4, 16);
  }

  method NextRemainder(c: bv32, v: bv5) returns (r: bv32)
    requires c < 0x4000_0000
    ensures r < 0x4000_0000
    ensures Unpack(r) == Next(Unpack(c), v)
  {
    var c0 := c >> 25;
    r := ((c & 0x1ffffff) << 5) ^ (v as bv32);
    UnpackShifted(c, v);
    r := Reduce(r, c0);
    BitsTogether(c);
    NextIs(Unpack(c), v);
  }

  method PolyMod(v: seq<bv5>) returns (c: bv32)
    ensures c < 0x4000_0000
    ensures Unpack(c) == Remainder(ONE, v)
  {
    c := 1;
    for i := 0 to |v|
      invariant c < 0x4000_0000
      invariant Remainder(Unpack(c), v[i..]) == Remainder(ONE, v)
    {
      assert v[i..][0] == v[i] && v[i..][1..] == v[i + 1..];
      c := NextRemainder(c, v[i]);
    }
  }

  // ----- linearity

  lemma {:induction false} Exchange(a: Poly, b: Poly, c: Poly, d: Poly)
    ensures Plus(Plus(a, b), Plus(c, d)) == Plus(Plus(a, c), Plus(b, d))
  {
  }

  ghost predicate IsPlus(x: Poly, p: Poly, q: Poly) {
    forall b {:trigger Unfold(b)} :: Unfold(b) ==> x == Plus(p, q)
  }

  lemma {:induction false} PlusIs(x: Poly, p: Poly, q: Poly)
    requires IsPlus(x, p, q)
    ensures x == Plus(p, q)
  {
    assert Unfold(true);
  }

  lemma {:induction false} NextLinear(p: Poly, q: Poly, v: bv5, w: bv5)
    ensures IsPlus(Reduced(Plus(p, q), v ^ w), Reduced(p, v), Reduced(q, w))
  {
    ScaledAdd(p.c0, q.c0);
    assert Moved(Plus(p, q), v ^ w) == Plus(Moved(p, v), Moved(q, w));
    Exchange(Moved(p, v), Moved(q, w), Scaled(p.c0), Scaled(q.c0));
  }

  lemma {:induction false} NextAdd(x: Poly, p: Poly, q: Poly, u: bv5, v: bv5, w: bv5)
    requires IsPlus(x, p, q) && IsSum(u, v, w)
    ensures IsPlus(Next(x, u), Next(p, v), Next(q, w))
  {
    PlusIs(x, p, q);
    SumIs(u, v, w);
    NextIs(x, u);
    NextIs(p, v);
    NextIs(q, w);
    NextLinear(p, q, v, w);
  }

  /** An elementwise sum. */
  ghost predicate IsSumOf(u: seq<bv5>, v: seq<bv5>, w: seq<bv5>) {
    |u| == |v| == |w| && forall i {:trigger u[i]} {:trigger v[i]} {:trigger w[i]} :: 0 <= i < |u| ==> IsSum(u[i], v[i], w[i])
  }

  /** The remainder of a sum is the sum of the remainders. */
  lemma {:induction false} RemainderLinear(x: Poly, p: Poly, q: Poly, u: seq<bv5>, v: seq<bv5>, w: seq<bv5>)
    requires IsPlus(x, p, q) && IsSumOf(u, v, w)
    ensures IsPlus(Remainder(x, u), Remainder(p, v), Remainder(q, w))
    decreases |u|
  {
    if u != [] {
      assert IsSum(u[0], v[0], w[0]);
      NextAdd(x, p, q, u[0], v[0], w[0]);
      RemainderLinear(Next(x, u[0]), Next(p, v[0]), Next(q, w[0]), u[1..], v[1..], w[1..]);
    }
  }

  lemma {:induction false} RemainderConcat(p: Poly, v: seq<bv5>, w: seq<bv5>)
    ensures Remainder(p, v + w) == Remainder(Remainder(p, v), w)
    decreases |v|
  {
    if v == [] {
      assert v + w == w;
    } else {
      assert (v + w)[1..] == v[1..] + w;
      RemainderConcat(Next(p, v[0]), v[1..], w);
    }
  }

  // ----- bursts

  function FromCoefficients(d: seq<bv5>): Poly
    requires |d| == 6
  {
    Poly(d[0], d[1], d[2], d[3], d[4], d[5])
  }

  ghost predicate AllZero(v: seq<bv5>) {
    forall i :: 0 <= i < |v| ==> v[i] == 0
  }

  lemma {:induction false} NextBelow(p: Poly, v: bv5)
    requires p.c0 == 0
    ensures Next(p, v) == Moved(p, v)
  {
    NextIs(p, v);
    PlusNothing(Moved(p, v));
  }

  lemma {:induction false} TakeOne(p: Poly, d: seq<bv5>, i: nat)
    requires p.c0 == 0 && i < |d|
    ensures Remainder(p, d[i..]) == Remainder(Moved(p, d[i]), d[i + 1..])
  {
    NextBelow(p, d[i]);
    assert d[i..][0] == d[i] && d[i..][1..] == d[i + 1..];
  }

  /** Six values fill the register. */
  lemma {:induction false} SixIn(d: seq<bv5>)
    requires |d| == 6
    ensures Remainder(ZERO, d) == FromCoefficients(d)
  {
    assert d[0..] == d;
    TakeOne(ZERO, d, 0);
    TakeOne(Poly(0, 0, 0, 0, 0, d[0]), d, 1);
    TakeOne(Poly(0, 0, 0, 0, d[0], d[1]), d, 2);
    TakeOne(Poly(0, 0, 0, d[0], d[1], d[2]), d, 3);
    TakeOne(Poly(0, 0, d[0], d[1], d[2], d[3]), d, 4);
    TakeOne(Poly(0, d[0], d[1], d[2], d[3], d[4]), d, 5);
    assert d[6..] == [];
  }

  lemma {:induction false} NoDivisor(a: bv5)
    requires a != 0
    ensures Times(18, a) != 0
  {
    TimesIs(18, a);
    assert Product(18, a) != 0;
  }

  lemma {:induction false} NextNonZero(p: Poly)
    requires p != ZERO
    ensures Next(p, 0) != ZERO
  {
    if p.c0 == 0 {
      NextBelow(p, 0);
    } else {
      NextIs(p, 0);
      NoDivisor(p.c0);
    }
  }

  lemma {:induction false} StaysNonZero(p: Poly, v: seq<bv5>)
    requires p != ZERO && AllZero(v)
    ensures Remainder(p, v) != ZERO
    decreases |v|
  {
    if v != [] {
      NextNonZero(p);
      StaysNonZero(Next(p, v[0]), v[1..]);
    }
  }

  lemma {:induction false} StaysZero(v: seq<bv5>)
    requires AllZero(v)
    ensures Remainder(ZERO, v) == ZERO
    decreases |v|
  {
    if v != [] {
      NextBelow(ZERO, 0);
      StaysZero(v[1..]);
    }
  }

  lemma {:induction false} FilledNonZero(d: seq<bv5>, j: nat)
    requires |d| == 6 && j < 6 && d[j] != 0
    ensures FromCoefficients(d) != ZERO
  {
  }

  lemma {:induction false} SixNonZero(u: seq<bv5>, k: nat, j: nat)
    requires k <= j < k + 6 <= |u| && u[j] != 0
    requires forall i :: 0 <= i < |u| && !(k <= i < k + 6) ==> u[i] == 0
    ensures Remainder(ZERO, u) != ZERO
  {
    var d, rest := u[k..k + 6], u[k + 6..];
    assert u == u[..k] + (d + rest);
    RemainderConcat(ZERO, u[..k], d + rest);
    StaysZero(u[..k]);
    RemainderConcat(ZERO, d, rest);
    SixIn(d);
    assert d[j - k] == u[j];
    FilledNonZero(d, j - k);
    StaysNonZero(FromCoefficients(d), rest);
  }

  /** No difference within six consecutive positions is a multiple of the generator. */
  lemma {:induction false} WindowNonZero(u: seq<bv5>, k: nat, j: nat)
    requires k <= j < |u| && j < k + 6 && u[j] != 0
    requires forall i :: 0 <= i < |u| && !(k <= i < k + 6) ==> u[i] == 0
    ensures Remainder(ZERO, u) != ZERO
  {
    if k + 6 <= |u| {
      SixNonZero(u, k, j);
    } else {
      var zeros: seq<bv5> := [0, 0, 0, 0, 0, 0];
      RemainderConcat(ZERO, zeros, u);
      StaysZero(zeros);
      assert forall i :: 0 <= i < |u| ==> (zeros + u)[6 + i] == u[i];
      SixNonZero(zeros + u, |u|, 6 + j);
    }
  }

  lemma {:induction false} SumFor(v: seq<bv5>, w: seq<bv5>) returns (u: seq<bv5>)
    requires |v| == |w|
    ensures IsSumOf(u, v, w)
    ensures forall i :: 0 <= i < |u| ==> (u[i] == 0 <==> v[i] == w[i])
  {
    u := [];
    for i := 0 to |v|
      invariant |u| == i
      invariant forall j {:trigger u[j]} :: 0 <= j < i ==> IsSum(u[j], v[j], w[j]) && (u[j] == 0 <==> v[j] == w[j])
    {
      var s := v[i] ^ w[i];
      assert IsSum(s, v[i], w[i]);
      u := u + [s];
    }
  }

  lemma {:induction false} EqualSum(x: Poly, p: Poly)
    requires IsPlus(x, p, p)
    ensures x == ZERO
  {
    PlusIs(x, p, p);
  }

  /** Lists that differ only within six consecutive positions have different checksums. */
  lemma {:induction false} BurstsDetected(v: seq<bv5>, w: seq<bv5>, k: nat)
    requires |v| == |w| && v != w
    requires forall i :: 0 <= i < |v| && !(k <= i < k + 6) ==> v[i] == w[i]
    ensures Remainder(ONE, v) != Remainder(ONE, w)
  {
    var u := SumFor(v, w);
    var j :| 0 <= j < |v| && v[j] != w[j];
    assert u[j] != 0;
    WindowNonZero(u, k, j);
    assert Plus(ONE, ONE) == ZERO;
    RemainderLinear(ZERO, ONE, ONE, u, v, w);
    if Remainder(ONE, v) == Remainder(ONE, w) {
      EqualSum(Remainder(ZERO, u), Remainder(ONE, v));
      assert false;
    }
  }
}
