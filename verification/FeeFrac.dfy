/**
 Fee/size pairs and their orderings (`util/feefrac.h`).

 Feerates are compared by cross-multiplication, never by division.  `Cross` is the
 difference of the two cross products, so its sign is the outcome of the comparison; it
 is additive in each argument, which is what every argument about merging groups of
 transactions uses.
*/
module FeeFracs {

  datatype FeeFrac = FeeFrac(fee: int, size: int) {

    predicate IsEmpty() {
      size == 0
    }

    function Plus(other: FeeFrac): FeeFrac {
      FeeFrac(fee + other.fee, size + other.size)
    }

    function Minus(other: FeeFrac): FeeFrac {
      FeeFrac(fee - other.fee, size - other.size)
    }

    /** Positive when this has the higher feerate, negative when it has the lower one. */
    function Cross(other: FeeFrac): int {
      fee * other.size - other.fee * size
    }

    /** `this << other`: strictly lower feerate. */
    predicate Lower(other: FeeFrac) {
      fee * other.size < other.fee * size
    }

    /** `this >> other`: strictly higher feerate. */
    predicate Higher(other: FeeFrac) {
      fee * other.size > other.fee * size
    }

    /** `this > other`: higher feerate, or the same feerate and smaller. */
    predicate Better(other: FeeFrac) {
      Cross(other) > 0 || (Cross(other) == 0 && size < other.size)
    }

    /** `this >= other` in the same total order. */
    predicate AtLeast(other: FeeFrac) {
      Cross(other) > 0 || (Cross(other) == 0 && size <= other.size)
    }

    /** How far this lies above the line of slope `p/q` through the origin (times `q`). */
    ghost function Above(p: int, q: int): int {
      q * fee - p * size
    }
  }

  const EMPTY := FeeFrac(0, 0)

  lemma {:induction false} CrossPlus(a: FeeFrac, b: FeeFrac, c: FeeFrac)
    ensures a.Plus(b).Cross(c) == a.Cross(c) + b.Cross(c)
    ensures c.Cross(a.Plus(b)) == c.Cross(a) + c.Cross(b)
    ensures a.Cross(b) == -b.Cross(a)
    ensures a.Cross(a) == 0
  {
    assert (a.fee + b.fee) * c.size == a.fee * c.size + b.fee * c.size;
    assert c.fee * (a.size + b.size) == c.fee * a.size + c.fee * b.size;
    assert c.size * (a.fee + b.fee) == c.size * a.fee + c.size * b.fee;
  }

  lemma {:induction false} AbovePlus(a: FeeFrac, b: FeeFrac, p: int, q: int)
    ensures a.Plus(b).Above(p, q) == a.Above(p, q) + b.Above(p, q)
  {
    assert q * (a.fee + b.fee) == q * a.fee + q * b.fee;
    assert p * (a.size + b.size) == p * a.size + p * b.size;
  }

  lemma {:induction false} MulLe(x: int, y: int, z: int)
    requires x <= y && 0 <= z
    ensures x * z <= y * z
  {
  }

  lemma {:induction false} MulLt(x: int, y: int, z: int)
    requires x < y && 0 < z
    ensures x * z < y * z
  {
  }

  /** A feerate that is not lower is not below any line the other one is above. */
  lemma {:induction false} SlopeTransfer(a: FeeFrac, b: FeeFrac, p: int, q: int)
    requires 0 < a.size && 0 < b.size && 0 < q
    requires a.Cross(b) >= 0
    ensures b.Above(p, q) > 0 ==> a.Above(p, q) > 0
    ensures b.Above(p, q) >= 0 ==> a.Above(p, q) >= 0
  {
    var fa, sa, fb, sb := a.fee, a.size, b.fee, b.size;
    MulLe(fb * sa, fa * sb, q);
    assert (q * fb) * sa <= (q * fa) * sb by { Commute(fb, sa, q); Commute(fa, sb, q); }
    if b.Above(p, q) > 0 {
      MulLt(p * sb, q * fb, sa);
      assert (p * sb) * sa == (p * sa) * sb by { Swap(p, sb, sa); }
      if q * fa <= p * sa {
        MulLe(q * fa, p * sa, sb);
        assert false;
      }
    } else if b.Above(p, q) >= 0 {
      MulLe(p * sb, q * fb, sa);
      assert (p * sb) * sa == (p * sa) * sb by { Swap(p, sb, sa); }
      if q * fa < p * sa {
        MulLt(q * fa, p * sa, sb);
        assert false;
      }
    }
  }

  lemma {:induction false} Commute(x: int, y: int, z: int)
    ensures (x * y) * z == (z * x) * y
  {
  }

  lemma {:induction false} Swap(x: int, y: int, z: int)
    ensures (x * y) * z == (x * z) * y
  {
  }

  /** Feerate order is transitive through a middle term of positive size. */
  lemma {:induction false} CrossTransitive(a: FeeFrac, b: FeeFrac, c: FeeFrac)
    requires 0 < a.size && 0 < b.size && 0 < c.size
    requires a.Cross(b) >= 0 && b.Cross(c) >= 0
    ensures a.Cross(c) >= 0
    ensures a.Cross(b) > 0 || b.Cross(c) > 0 ==> a.Cross(c) > 0
  {
    // Slope c.fee/c.size: b lies on or above it, hence so does a.
    assert b.Above(c.fee, c.size) == b.Cross(c);
    assert a.Above(c.fee, c.size) == a.Cross(c);
    SlopeTransfer(a, b, c.fee, c.size);
    if a.Cross(b) > 0 && a.Cross(c) <= 0 {
      // Then c is at least a, so b is at least c at least a: against a.Cross(b) > 0.
      assert c.Cross(a) >= 0;
      assert c.Above(a.fee, a.size) == c.Cross(a);
      assert b.Above(a.fee, a.size) == b.Cross(a);
      SlopeTransfer(b, c, a.fee, a.size);
      assert false;
    }
  }
}
