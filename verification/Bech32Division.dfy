/**
 The reference for the Bech32 checksum: division with remainder of polynomials over GF(32), with
 products given coefficient by coefficient.
*/
module Bech32Division {
  import opened Bech32Code

  /** The generator's coefficients, the leading one first. */
  function Generator(j: int): bv5 {
    if j == 0 then 1
    else if j == 1 then 29
    else if j == 2 then 22
    else if j == 3 then 20
    else if j == 4 then 21
    else if j == 5 then 29
    else if j == 6 then 18
    else 0
  }

  /** Coefficient `k`, counted from the leading one, of q(x) times the generator. */
  ghost function Coefficient(q: seq<bv5>, k: int): bv5 {
    if q == [] then 0 else Times(Generator(k), q[0]) ^ Coefficient(q[1..], k - 1)
  }

  /** The coefficient of `r` that lines up with position `k` after `n` others. */
  function Tail(n: nat, r: Poly, k: int): bv5 {
    if k == n then r.c0
    else if k == n + 1 then r.c1
    else if k == n + 2 then r.c2
    else if k == n + 3 then r.c3
    else if k == n + 4 then r.c4
    else if k == n + 5 then r.c5
    else 0
  }

  ghost predicate DividedAt(d: seq<bv5>, q: seq<bv5>, r: Poly, k: int)
    requires 0 <= k < |d|
  {
    IsSum(d[k], Coefficient(q, k), Tail(|q|, r, k))
  }

  /** d(x) is q(x) times the generator plus r(x). */
  ghost predicate Divided(d: seq<bv5>, q: seq<bv5>, r: Poly) {
    |d| == |q| + 6 && forall k {:trigger DividedAt(d, q, r, k)} :: 0 <= k < |d| ==> DividedAt(d, q, r, k)
  }

  lemma {:induction false} TimesZero(a: bv5)
    ensures Times(0, a) == 0
  {
    TimesIs(0, a);
  }

  lemma {:induction false} TimesOne(a: bv5)
    ensures Times(1, a) == a
  {
    TimesIs(1, a);
  }

  lemma {:induction false} Associate(a: bv5, b: bv5, c: bv5)
    ensures (a ^ b) ^ c == a ^ (b ^ c)
  {
  }

  lemma {:induction false} CoefficientSnoc(q: seq<bv5>, a: bv5, k: int)
    ensures Coefficient(q + [a], k) == Coefficient(q, k) ^ Times(Generator(k - |q|), a)
    decreases |q|
  {
    if q == [] {
      assert q + [a] == [a];
    } else {
      assert (q + [a])[1..] == q[1..] + [a];
      CoefficientSnoc(q[1..], a, k - 1);
      Associate(Times(Generator(k), q[0]), Coefficient(q[1..], k - 1), Times(Generator(k - |q|), a));
    }
  }

  /** The product has degree |q| + 5. */
  lemma {:induction false} Degree(q: seq<bv5>, k: int)
    requires k < 0 || |q| + 6 <= k
    ensures Coefficient(q, k) == 0
    decreases |q|
  {
    if q != [] {
      Degree(q[1..], k - 1);
      TimesZero(q[0]);
    }
  }

  lemma {:induction false} AddBoth(d: bv5, x: bv5, y: bv5, t: bv5)
    requires IsSum(d, x, y)
    ensures IsSum(d, x ^ t, y ^ t)
  {
    SumIs(d, x, y);
    assert d == (x ^ t) ^ (y ^ t);
  }

  lemma {:induction false} SumHolds(x: bv5, y: bv5)
    ensures IsSum(x ^ y, x, y)
  {
  }

  lemma {:induction false} PlusFields(p: Poly, q: Poly)
    ensures var r := Plus(p, q);
            && IsSum(r.c0, p.c0, q.c0) && IsSum(r.c1, p.c1, q.c1) && IsSum(r.c2, p.c2, q.c2)
            && IsSum(r.c3, p.c3, q.c3) && IsSum(r.c4, p.c4, q.c4) && IsSum(r.c5, p.c5, q.c5)
  {
    SumHolds(p.c0, q.c0);
    SumHolds(p.c1, q.c1);
    SumHolds(p.c2, q.c2);
    SumHolds(p.c3, q.c3);
    SumHolds(p.c4, q.c4);
    SumHolds(p.c5, q.c5);
  }

  lemma {:induction false} NextFields(p: Poly, v: bv5)
    ensures var r, a := Next(p, v), p.c0;
            && IsSum(r.c0, p.c1, Times(29, a)) && IsSum(r.c1, p.c2, Times(22, a)) && IsSum(r.c2, p.c3, Times(20, a))
            && IsSum(r.c3, p.c4, Times(21, a)) && IsSum(r.c4, p.c5, Times(29, a)) && IsSum(r.c5, v, Times(18, a))
  {
    NextIs(p, v);
    PlusFields(Moved(p, v), Scaled(p.c0));
  }

  /** Both sides of a coefficient change by the same term. */
  lemma {:induction false} Shared(e: bv5, x: bv5, y: bv5, t: bv5, x': bv5, y': bv5)
    requires IsSum(e, x, y) && IsSum(x', x, t) && IsSum(y', y, t)
    ensures IsSum(e, x', y')
  {
    SumIs(x', x, t);
    SumIs(y', y, t);
    AddBoth(e, x, y, t);
  }

  lemma {:induction false} SnocSum(q: seq<bv5>, a: bv5, k: int)
    ensures IsSum(Coefficient(q + [a], k), Coefficient(q, k), Times(Generator(k - |q|), a))
  {
    CoefficientSnoc(q, a, k);
  }

  lemma {:induction false} TailLeaves(n: nat, p: Poly, v: bv5, k: nat)
    requires k <= n
    ensures IsSum(Tail(n + 1, Next(p, v), k), Tail(n, p, k), Times(Generator(k - n), p.c0))
  {
    if k < n {
      TimesZero(p.c0);
    } else {
      TimesOne(p.c0);
    }
  }

  lemma {:induction false} TailStays(n: nat, p: Poly, v: bv5, k: nat)
    requires n < k < n + 6
    ensures IsSum(Tail(n + 1, Next(p, v), k), Tail(n, p, k), Times(Generator(k - n), p.c0))
  {
    NextFields(p, v);
    if k == n + 1 {
    } else if k == n + 2 {
    } else if k == n + 3 {
    } else if k == n + 4 {
    }
  }

  lemma {:induction false} TailEnters(n: nat, p: Poly, v: bv5)
    ensures IsSum(Tail(n + 1, Next(p, v), n + 6), v, Times(Generator(6), p.c0))
  {
    NextFields(p, v);
  }

  lemma {:induction false} DivideOld(e: bv5, q: seq<bv5>, p: Poly, v: bv5, k: nat)
    requires k < |q| + 6 && IsSum(e, Coefficient(q, k), Tail(|q|, p, k))
    ensures IsSum(e, Coefficient(q + [p.c0], k), Tail(|q| + 1, Next(p, v), k))
  {
    var n, a := |q|, p.c0;
    SnocSum(q, a, k);
    if k <= n {
      TailLeaves(n, p, v, k);
    } else {
      TailStays(n, p, v, k);
    }
    Shared(e, Coefficient(q, k), Tail(n, p, k), Times(Generator(k - n), a),
           Coefficient(q + [a], k), Tail(n + 1, Next(p, v), k));
  }

  lemma {:induction false} DivideLast(q: seq<bv5>, p: Poly, v: bv5)
    ensures IsSum(v, Coefficient(q + [p.c0], |q| + 6), Tail(|q| + 1, Next(p, v), |q| + 6))
  {
    var n, a := |q|, p.c0;
    SnocSum(q, a, n + 6);
    TailEnters(n, p, v);
    Degree(q, n + 6);
    assert IsSum(v, 0, v);
    Shared(v, 0, v, Times(Generator(6), a), Coefficient(q + [a], n + 6), Tail(n + 1, Next(p, v), n + 6));
  }

  lemma {:induction false} DivideNextAt(d: seq<bv5>, q: seq<bv5>, p: Poly, v: bv5, k: nat)
    requires Divided(d, q, p) && k < |q| + 7
    ensures DividedAt(d + [v], q + [p.c0], Next(p, v), k)
  {
    if k < |q| + 6 {
      assert DividedAt(d, q, p, k);
      DivideOld(d[k], q, p, v, k);
    } else {
      DivideLast(q, p, v);
    }
  }

  /** Divide one more coefficient. */
  lemma {:induction false} DivideNext(d: seq<bv5>, q: seq<bv5>, p: Poly, v: bv5)
    requires Divided(d, q, p)
    ensures Divided(d + [v], q + [p.c0], Next(p, v))
  {
    forall k | 0 <= k < |q| + 7 ensures DividedAt(d + [v], q + [p.c0], Next(p, v), k) {
      DivideNextAt(d, q, p, v, k);
    }
  }

  lemma {:induction false} DivideAll(d: seq<bv5>, q: seq<bv5>, p: Poly, v: seq<bv5>) returns (q': seq<bv5>)
    requires Divided(d, q, p)
    ensures |q'| == |q| + |v| && Divided(d + v, q', Remainder(p, v))
    decreases |v|
  {
    if v == [] {
      q' := q;
      assert d + v == d;
    } else {
      DivideNext(d, q, p, v[0]);
      q' := DivideAll(d + [v[0]], q + [p.c0], Next(p, v[0]), v[1..]);
      assert d + [v[0]] + v[1..] == d + v;
    }
  }

  /** The list with the implicit one in front, as a polynomial of degree at least five. */
  function Dividend(v: seq<bv5>): seq<bv5> {
    [0, 0, 0, 0, 0, 1] + v
  }

  /** What `PolyMod` computes is the remainder. */
  lemma {:induction false} RemainderDivides(v: seq<bv5>) returns (q: seq<bv5>)
    ensures |q| == |v| && Divided(Dividend(v), q, Remainder(ONE, v))
  {
    var d: seq<bv5> := [0, 0, 0, 0, 0, 1];
    assert Divided(d, [], ONE) by {
      forall k | 0 <= k < 6 ensures DividedAt(d, [], ONE, k) {
      }
    }
    q := DivideAll(d, [], ONE, v);
  }

  // ----- division is unique

  lemma {:induction false} CoefficientPrefix(q: seq<bv5>, k: nat)
    requires k < |q|
    ensures Coefficient(q, k) == Coefficient(q[..k + 1], k)
    decreases k
  {
    if k == 0 {
      Degree(q[1..], -1);
      Degree(q[..1][1..], -1);
    } else {
      CoefficientPrefix(q[1..], k - 1);
      assert q[..k + 1][1..] == q[1..][..k];
    }
  }

  lemma {:induction false} LeadingDetermined(d: seq<bv5>, q: seq<bv5>, r: Poly, k: nat)
    requires Divided(d, q, r) && k < |q|
    ensures IsSum(d[k], Coefficient(q[..k], k), q[k])
  {
    assert DividedAt(d, q, r, k);
    CoefficientPrefix(q, k);
    assert q[..k + 1] == q[..k] + [q[k]];
    CoefficientSnoc(q[..k], q[k], k);
    TimesOne(q[k]);
    SumIs(d[k], Coefficient(q, k), 0);
  }

  lemma {:induction false} Cancelled(d: bv5, a: bv5, x: bv5, y: bv5)
    requires IsSum(d, a, x) && IsSum(d, a, y)
    ensures x == y
  {
    SumIs(d, a, x);
    SumIs(d, a, y);
  }

  lemma {:induction false} QuotientUnique(d: seq<bv5>, q: seq<bv5>, r: Poly, q': seq<bv5>, r': Poly, k: nat)
    requires Divided(d, q, r) && Divided(d, q', r') && k <= |q|
    ensures q[..k] == q'[..k]
    decreases k
  {
    if k > 0 {
      QuotientUnique(d, q, r, q', r', k - 1);
      LeadingDetermined(d, q, r, k - 1);
      LeadingDetermined(d, q', r', k - 1);
      Cancelled(d[k - 1], Coefficient(q[..k - 1], k - 1), q[k - 1], q'[k - 1]);
      assert q[..k] == q[..k - 1] + [q[k - 1]];
      assert q'[..k] == q'[..k - 1] + [q'[k - 1]];
    }
  }

  lemma {:induction false} TailUnique(d: seq<bv5>, q: seq<bv5>, r: Poly, r': Poly, j: nat)
    requires Divided(d, q, r) && Divided(d, q, r') && j < 6
    ensures Tail(|q|, r, |q| + j) == Tail(|q|, r', |q| + j)
  {
    var k := |q| + j;
    assert DividedAt(d, q, r, k) && DividedAt(d, q, r', k);
    Cancelled(d[k], Coefficient(q, k), Tail(|q|, r, k), Tail(|q|, r', k));
  }

  /** Quotient and remainder are determined by the polynomial. */
  lemma {:induction false} DivisionUnique(d: seq<bv5>, q: seq<bv5>, r: Poly, q': seq<bv5>, r': Poly)
    requires Divided(d, q, r) && Divided(d, q', r')
    ensures q == q' && r == r'
  {
    QuotientUnique(d, q, r, q', r', |q|);
    assert q[..|q|] == q && q'[..|q|] == q';
    TailUnique(d, q, r, r', 0);
    TailUnique(d, q, r, r', 1);
    TailUnique(d, q, r, r', 2);
    TailUnique(d, q, r, r', 3);
    TailUnique(d, q, r, r', 4);
    TailUnique(d, q, r, r', 5);
  }
}
