/** Powers, division and bits of natural numbers. */
module Numbers {
  function Pow(b: nat, e: nat): nat {
    if e == 0 then 1 else b * Pow(b, e - 1)
  }

  lemma {:induction false} PowAdd(b: nat, i: nat, j: nat)
    ensures Pow(b, i + j) == Pow(b, i) * Pow(b, j)
  {
    if i > 0 {
      PowAdd(b, i - 1, j);
      Assoc(b, Pow(b, i - 1), Pow(b, j));
    }
  }

  lemma {:induction false} Assoc(x: int, y: int, z: int)
    ensures x * (y * z) == (x * y) * z
  {
  }

  lemma {:induction false} PowPositive(b: nat, e: nat)
    requires 0 < b
    ensures 0 < Pow(b, e)
  {
    if e > 0 {
      PowPositive(b, e - 1);
      MulPositive(b, Pow(b, e - 1));
    }
  }

  lemma {:induction false} MulPositive(x: int, y: int)
    requires 0 < x && 0 < y
    ensures 0 < x * y
  {
  }

  lemma {:induction false} MulLess(x: int, y: int, z: int)
    requires x < y && 0 < z
    ensures x * z < y * z
  {
  }

  lemma {:induction false} MulAtMost(x: int, y: int, z: int)
    requires x <= y && 0 <= z
    ensures x * z <= y * z
  {
  }

  lemma {:induction false} Distribute(x: int, y: int, z: int)
    ensures (x + y) * z == x * z + y * z && z * (x + y) == z * x + z * y
  {
  }

  lemma {:induction false} PowMonotone(b: nat, i: nat, j: nat)
    requires 0 < b && i <= j
    ensures Pow(b, i) <= Pow(b, j)
  {
    PowAdd(b, i, j - i);
    PowPositive(b, i);
    PowPositive(b, j - i);
    MulAtMost(1, Pow(b, j - i), Pow(b, i));
  }

  /** A power of a power. */
  lemma {:induction false} PowPow(b: nat, i: nat, j: nat)
    ensures Pow(Pow(b, i), j) == Pow(b, i * j)
  {
    if j == 0 {
      assert i * j == 0;
    } else {
      PowPow(b, i, j - 1);
      PowAdd(b, i, i * (j - 1));
      assert i * j == i + i * (j - 1);
    }
  }

  // ----- division

  /** Quotient and remainder are determined by what they mean. */
  lemma {:induction false} DivMod(x: int, d: int, q: int, r: int)
    requires 0 < d && 0 <= r < d && x == q * d + r
    ensures x / d == q && x % d == r
  {
    var q', r' := x / d, x % d;
    assert x == q' * d + r';
    if q < q' {
      MulAtMost(q + 1, q', d);
      Distribute(q, 1, d);
      assert false;
    }
    if q' < q {
      MulAtMost(q' + 1, q, d);
      Distribute(q', 1, d);
      assert false;
    }
  }

  /** The remainder modulo `d` of a number that is off by a multiple of `d`. */
  lemma {:induction false} ModOf(x: int, d: int, q: int, r: int)
    requires 0 < d && 0 <= r < d && r + q * d == x
    ensures r == x % d
  {
    DivMod(x, d, q, r);
  }

  lemma {:induction false} DivDiv(x: nat, a: nat, b: nat)
    requires 0 < a && 0 < b
    ensures 0 < a * b && x / a / b == x / (a * b)
  {
    MulPositive(a, b);
    var q, r := x / a, x % a;
    var q', r' := q / b, q % b;
    assert x == q * a + r && q == q' * b + r';
    assert q * a == q' * (a * b) + r' * a by {
      Distribute(q' * b, r', a);
      Assoc(q', b, a);
      assert b * a == a * b;
    }
    assert r' * a + r < a * b by {
      MulAtMost(r' + 1, b, a);
      Distribute(r', 1, a);
      assert b * a == a * b;
    }
    MulAtMost(0, r', a);
    DivMod(x, a * b, q', r' * a + r);
  }

  lemma {:induction false} DivExact(x: nat, d: nat)
    requires 0 < d
    ensures (x * d) / d == x && (x * d) % d == 0
  {
    DivMod(x * d, d, x, 0);
  }

  lemma {:induction false} DivLess(x: nat, d: nat, m: nat)
    requires 0 < d && x < m * d
    ensures x / d < m
  {
    assert x == (x / d) * d + x % d;
    if m <= x / d {
      MulAtMost(m, x / d, d);
      assert false;
    }
  }

  lemma {:induction false} DivAtLeast(x: nat, d: nat, m: nat)
    requires 0 < d && m * d <= x
    ensures m <= x / d
  {
    assert x == (x / d) * d + x % d;
    if x / d < m {
      MulAtMost(x / d + 1, m, d);
      Distribute(x / d, 1, d);
      assert false;
    }
  }

  // ----- bits

  /** Bitwise or. */
  function Or(x: nat, y: nat): nat
    decreases x + y
  {
    if x == 0 && y == 0 then 0
    else 2 * Or(x / 2, y / 2) + (if x % 2 == 1 || y % 2 == 1 then 1 else 0)
  }

  lemma {:induction false} OrZero(x: nat)
    ensures Or(x, 0) == x && Or(0, x) == x
  {
    if x > 0 {
      OrZero(x / 2);
    }
  }

  /** Numbers without a bit in common: or is addition. */
  lemma {:induction false} OrDisjoint(x: nat, y: nat, s: nat)
    requires x < Pow(2, s) && y % Pow(2, s) == 0
    ensures Or(x, y) == x + y && Or(y, x) == x + y
    decreases s
  {
    if s == 0 {
      OrZero(y);
    } else {
      var p := Pow(2, s - 1);
      PowPositive(2, s - 1);
      var q := y / (2 * p);
      assert y == q * (2 * p);
      Assoc(q, 2, p);
      assert y == 2 * (q * p);
      assert y / 2 == q * p;
      DivExact(q, p);
      OrDisjoint(x / 2, y / 2, s - 1);
    }
  }
}
