/** The value of a little-endian sequence of 32-bit limbs. */
module Limbs {
  import opened Numbers

  const BASE: nat := 0x1_0000_0000

  type uint32 = x: int | 0 <= x < 0x1_0000_0000
  type uint64 = x: int | 0 <= x < 0x1_0000_0000_0000_0000

  ghost function Val(s: seq<uint32>): nat {
    if s == [] then 0 else Val(s[..|s| - 1]) + s[|s| - 1] * Pow(BASE, |s| - 1)
  }

  /** One more than the largest value of `n` limbs. */
  ghost function Modulus(n: nat): (m: nat)
    ensures 0 < m
  {
    PowPositive(BASE, n);
    Pow(BASE, n)
  }

  lemma {:induction false} ValSnoc(s: seq<uint32>, x: uint32)
    ensures Val(s + [x]) == Val(s) + x * Pow(BASE, |s|)
  {
    assert (s + [x])[..|s|] == s;
  }

  lemma {:induction false} ValTake(s: seq<uint32>, i: nat)
    requires i < |s|
    ensures Val(s[..i + 1]) == Val(s[..i]) + s[i] * Pow(BASE, i)
  {
    assert s[..i + 1] == s[..i] + [s[i]];
    ValSnoc(s[..i], s[i]);
  }

  lemma {:induction false} ValBound(s: seq<uint32>)
    ensures Val(s) < Pow(BASE, |s|)
  {
    if s != [] {
      var n := |s| - 1;
      ValBound(s[..n]);
      PowPositive(BASE, n);
      MulAtMost(s[n], BASE - 1, Pow(BASE, n));
      Distribute(BASE - 1, 1, Pow(BASE, n));
    }
  }

  lemma {:induction false} ValConcat(a: seq<uint32>, b: seq<uint32>)
    ensures Val(a + b) == Val(a) + Pow(BASE, |a|) * Val(b)
  {
    if b == [] {
      assert a + b == a;
    } else {
      var n := |b| - 1;
      assert a + b == (a + b[..n]) + [b[n]];
      ValConcat(a, b[..n]);
      ValSnoc(a + b[..n], b[n]);
      PowAdd(BASE, |a|, n);
      Distribute(Val(b[..n]), b[n] * Pow(BASE, n), Pow(BASE, |a|));
      Rotate(b[n], Pow(BASE, |a|), Pow(BASE, n));
    }
  }

  lemma {:induction false} Rotate(x: int, y: int, z: int)
    ensures x * (y * z) == y * (x * z)
  {
  }

  lemma {:induction false} ValZero(s: seq<uint32>)
    requires forall i :: 0 <= i < |s| ==> s[i] == 0
    ensures Val(s) == 0
  {
    if s != [] {
      ValZero(s[..|s| - 1]);
    }
  }

  /** Changing one limb changes the value by its weight. */
  lemma {:induction false} ValUpdate(s: seq<uint32>, p: nat, x: uint32)
    requires p < |s|
    ensures Val(s[p := x]) == Val(s) + (x - s[p]) * Pow(BASE, p)
  {
    var n := |s| - 1;
    if p == n {
      assert s[p := x][..n] == s[..n];
      Distribute(x - s[p], s[p], Pow(BASE, p));
    } else {
      assert s[p := x][..n] == s[..n][p := x];
      ValUpdate(s[..n], p, x);
    }
  }

  lemma {:induction false} ValSplit(s: seq<uint32>, k: nat)
    requires k <= |s|
    ensures Val(s) == Val(s[..k]) + Pow(BASE, k) * Val(s[k..])
  {
    assert s == s[..k] + s[k..];
    ValConcat(s[..k], s[k..]);
  }

  /** Equal values of equal length are equal limbs. */
  lemma {:induction false} ValInjective(a: seq<uint32>, b: seq<uint32>)
    requires |a| == |b| && Val(a) == Val(b)
    ensures a == b
  {
    if a != [] {
      var n := |a| - 1;
      ValBound(a[..n]);
      ValBound(b[..n]);
      PowPositive(BASE, n);
      DivMod(Val(a), Pow(BASE, n), a[n], Val(a[..n]));
      DivMod(Val(b), Pow(BASE, n), b[n], Val(b[..n]));
      ValInjective(a[..n], b[..n]);
      assert a == a[..n] + [a[n]] && b == b[..n] + [b[n]];
    }
  }
}
