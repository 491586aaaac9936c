/** The loops of the limb shifts, one iteration at a time. */
module Shifts {
  import opened Numbers
  import opened Limbs

  lemma {:induction false} PowSplit(s: nat)
    requires s <= 32
    ensures Pow(2, 32) == BASE && Pow(2, 32 - s) * Pow(2, s) == BASE && Pow(2, s) * Pow(2, 32 - s) == BASE
    ensures 0 < Pow(2, s) <= BASE && 0 < Pow(2, 32 - s)
  {
    PowAdd(2, s, 32 - s);
    PowAdd(2, 32 - s, s);
    PowPositive(2, s);
    PowPositive(2, 32 - s);
    PowMonotone(2, s, 32);
    TwoTo32();
  }

  lemma {:induction false} TwoTo32()
    ensures Pow(2, 32) == BASE
  {
    assert Pow(2, 8) == 256;
    PowAdd(2, 8, 8);
    PowAdd(2, 16, 16);
  }

  // ----- to the left

  /** Multiplying by `d` where `d * e` is the base: quotient and remainder of the product. */
  lemma {:induction false} ScaledParts(x: int, d: int, e: int, base: int)
    requires 0 < d && 0 < e && d * e == base && 0 <= x < base
    ensures 0 < base && (x * d) / base == x / e && (x * d) % base == (x % e) * d
    ensures 0 <= x / e < d && 0 <= (x % e) * d < base && ((x % e) * d) % d == 0
    ensures x * d == (x / e) * base + (x % e) * d && x == (x / e) * e + x % e
  {
    var h, l := x / e, x % e;
    assert x == h * e + l;
    assert x * d == h * base + l * d by {
      Distribute(h * e, l, d);
      Assoc(h, e, d);
      assert e * d == base;
    }
    assert l * d < base by {
      MulLess(l, e, d);
      assert e * d == base;
    }
    MulAtMost(0, l, d);
    DivMod(x * d, base, h, l * d);
    DivExact(l, d);
    DivLess(x, e, d);
  }

  /** The limb's part that stays in its place and the part that moves on, for a shift below 32. */
  lemma {:induction false} LeftParts(x: uint32, s: nat)
    requires s < 32
    ensures var t := x * Pow(2, s);
      && t == (t / BASE) * BASE + t % BASE && 0 <= t / BASE < Pow(2, s) && (t % BASE) % Pow(2, s) == 0
      && 0 <= t % BASE < BASE && 0 < Pow(2, 32 - s) && x / Pow(2, 32 - s) == t / BASE
  {
    PowSplit(s);
    ScaledParts(x, Pow(2, s), Pow(2, 32 - s), BASE);
  }

  /** One limb shifted into its two places. */
  function LeftNext(now: seq<uint32>, a: seq<uint32>, k: nat, s: nat, i: nat): seq<uint32>
    requires i < |a| == |now| && s < 32
  {
    LeftParts(a[i], s);
    PowSplit(s);
    var high := a[i] / Pow(2, 32 - s);
    var low := (a[i] * Pow(2, s)) % BASE;
    var one := if i + k + 1 < |now| && s != 0 then SetOr(now, i + k + 1, high) else now;
    if i + k < |now| then SetOr(one, i + k, low) else one
  }

  /** Bits added to a limb. */
  function SetOr(now: seq<uint32>, p: nat, x: uint32): (r: seq<uint32>)
    requires p < |now|
    ensures |r| == |now|
  {
    TwoTo32();
    OrBound(now[p], x, 32);
    now[p := Or(now[p], x)]
  }

  lemma {:induction false} OrBound(x: nat, y: nat, n: nat)
    requires x < Pow(2, n) && y < Pow(2, n)
    ensures Or(x, y) < Pow(2, n)
    decreases n
  {
    if n == 0 {
      assert x == 0 && y == 0;
    } else {
      OrBound(x / 2, y / 2, n - 1);
    }
  }

  /** The first `i` limbs have been shifted, up to `over` times the modulus. */
  ghost predicate ShiftedLeft(now: seq<uint32>, a: seq<uint32>, k: nat, s: nat, i: nat, over: int)
    requires i <= |a| == |now|
  {
    && (forall m :: i + k < m < |now| ==> now[m] == 0)
    && (i + k < |now| ==> now[i + k] < Pow(2, s))
    && Val(now) + over * Modulus(|now|) == Val(a[..i]) * (Pow(2, s) * Pow(BASE, k))
  }

  lemma {:induction false} LeftWeight(a: seq<uint32>, k: nat, s: nat, i: nat)
    requires i < |a|
    ensures Val(a[..i + 1]) * (Pow(2, s) * Pow(BASE, k))
         == Val(a[..i]) * (Pow(2, s) * Pow(BASE, k)) + (a[i] * Pow(2, s)) * Pow(BASE, i + k)
  {
    var d, p, q := Pow(2, s), Pow(BASE, i), Pow(BASE, k);
    ValTake(a, i);
    PowAdd(BASE, i, k);
    Distribute(Val(a[..i]), a[i] * p, d * q);
    assert (a[i] * p) * (d * q) == (a[i] * d) * (p * q) by {
      Assoc(a[i], p, d * q);
      Rotate(p, d, q);
      Assoc(a[i], d, p * q);
    }
  }

  /** Writing two adjacent limbs. */
  lemma {:induction false} TwoPlaces(now: seq<uint32>, p: nat, h: uint32, l: int)
    requires p + 1 < |now| && now[p + 1] == 0 && 0 <= now[p] + l < BASE
    ensures Val(now[p + 1 := h][p := now[p] + l]) == Val(now) + (h * BASE + l) * Pow(BASE, p)
  {
    var one := now[p + 1 := h];
    ValUpdate(now, p + 1, h);
    ValUpdate(one, p, now[p] + l);
    Assoc(h, BASE, Pow(BASE, p));
    Distribute(h * BASE, l, Pow(BASE, p));
  }

  /** The low bits of a limb are free for what moved in from below. */
  lemma {:induction false} Fits(x: nat, l: nat, d: nat)
    requires 0 < d && x < d && l % d == 0 && l < BASE && BASE % d == 0
    ensures x + l < BASE
  {
    var q, n := l / d, BASE / d;
    assert l == q * d && BASE == n * d;
    if n <= q {
      MulAtMost(n, q, d);
      assert false;
    }
    MulAtMost(q + 1, n, d);
    Distribute(q, 1, d);
  }

  lemma {:induction false} BaseMultiple(s: nat)
    requires s <= 32
    ensures 0 < Pow(2, s) && BASE % Pow(2, s) == 0
  {
    PowSplit(s);
    DivExact(Pow(2, 32 - s), Pow(2, s));
  }

  /** Both places inside. */
  lemma {:induction false} LeftInsideIs(now: seq<uint32>, a: seq<uint32>, k: nat, s: nat, i: nat)
    requires i < |a| == |now| && s < 32 && i + k + 1 < |now| && now[i + k + 1] == 0 && now[i + k] < Pow(2, s)
    ensures var p := i + k; var t := a[i] * Pow(2, s);
      && 0 <= t / BASE < BASE && 0 <= now[p] + t % BASE < BASE
      && LeftNext(now, a, k, s, i) == now[p + 1 := t / BASE][p := now[p] + t % BASE]
  {
    var p, t := i + k, a[i] * Pow(2, s);
    LeftParts(a[i], s);
    PowSplit(s);
    BaseMultiple(s);
    Fits(now[p], t % BASE, Pow(2, s));
    OrZero(t / BASE);
    OrDisjoint(now[p], t % BASE, s);
    if s == 0 {
      assert Pow(2, 0) == 1;
      assert now[p + 1 := 0] == now;
    }
  }

  lemma {:induction false} LeftInside(now: seq<uint32>, a: seq<uint32>, k: nat, s: nat, i: nat)
    requires i < |a| == |now| && s < 32 && i + k + 1 < |now| && now[i + k + 1] == 0 && now[i + k] < Pow(2, s)
    ensures var next := LeftNext(now, a, k, s, i);
      && Val(next) == Val(now) + (a[i] * Pow(2, s)) * Pow(BASE, i + k)
      && |next| == |now| && next[i + k + 1] < Pow(2, s) && forall m :: i + k + 1 < m < |now| ==> next[m] == now[m]
  {
    var p, t := i + k, a[i] * Pow(2, s);
    LeftInsideIs(now, a, k, s, i);
    LeftParts(a[i], s);
    TwoPlaces(now, p, t / BASE, t % BASE);
  }

  /** At the top limb the high part falls out. */
  lemma {:induction false} LeftTop(now: seq<uint32>, a: seq<uint32>, k: nat, s: nat, i: nat)
    requires i < |a| == |now| && s < 32 && i + k + 1 == |now| && now[i + k] < Pow(2, s)
    ensures var next := LeftNext(now, a, k, s, i); var t := a[i] * Pow(2, s);
      |next| == |now| && Val(next) + (t / BASE) * Modulus(|now|) == Val(now) + t * Pow(BASE, i + k)
  {
    var p, t := i + k, a[i] * Pow(2, s);
    LeftParts(a[i], s);
    PowSplit(s);
    BaseMultiple(s);
    Fits(now[p], t % BASE, Pow(2, s));
    OrDisjoint(now[p], t % BASE, s);
    TopPlace(now, p, t / BASE, t % BASE);
  }

  lemma {:induction false} TopPlace(now: seq<uint32>, p: nat, h: int, l: int)
    requires p + 1 == |now| && 0 <= now[p] + l < BASE
    ensures Val(now[p := now[p] + l]) + h * Modulus(|now|) == Val(now) + (h * BASE + l) * Pow(BASE, p)
  {
    ValUpdate(now, p, now[p] + l);
    Assoc(h, BASE, Pow(BASE, p));
    Distribute(h * BASE, l, Pow(BASE, p));
  }

  lemma {:induction false} LeftStep(now: seq<uint32>, a: seq<uint32>, k: nat, s: nat, i: nat, over: int) returns (over': int)
    requires i < |a| == |now| && s < 32 && ShiftedLeft(now, a, k, s, i, over)
    ensures |LeftNext(now, a, k, s, i)| == |now| && ShiftedLeft(LeftNext(now, a, k, s, i), a, k, s, i + 1, over')
  {
    var m, t := Modulus(|now|), a[i] * Pow(2, s);
    LeftWeight(a, k, s, i);
    if i + k + 1 < |now| {
      LeftInside(now, a, k, s, i);
      over' := over;
    } else if i + k + 1 == |now| {
      LeftTop(now, a, k, s, i);
      over' := over + t / BASE;
      Distribute(over, t / BASE, m);
    } else {
      var e := Pow(BASE, i + k - |now|);
      PowAdd(BASE, i + k - |now|, |now|);
      over' := over + t * e;
      Distribute(over, t * e, m);
      Assoc(t, e, m);
    }
  }

  // ----- to the right

  /** The limb's part that stays in its place and the part that moves down. */
  lemma {:induction false} RightParts(x: uint32, s: nat)
    requires s < 32
    ensures var d := Pow(2, s); var e := Pow(2, 32 - s);
      && 0 < d && 0 < e && x == (x / d) * d + x % d && 0 <= x / d < e && 0 <= x / d < BASE
      && (x * e) % BASE == (x % d) * e && 0 <= (x % d) * e < BASE && ((x % d) * e) % e == 0
  {
    PowSplit(s);
    ScaledParts(x, Pow(2, 32 - s), Pow(2, s), BASE);
  }

  /** Bits added to two adjacent limbs, to the lower one unless there is nothing to add. */
  function OrTwo(now: seq<uint32>, p: nat, low: uint32, high: uint32, skip: bool): seq<uint32>
    requires p + 1 < |now|
  {
    SetOr(if skip then now else SetOr(now, p, low), p + 1, high)
  }

  lemma {:induction false} OrTwoIs(now: seq<uint32>, p: nat, low: uint32, high: uint32, skip: bool)
    requires p + 1 < |now| && now[p + 1] == 0 && Or(now[p], low) == now[p] + low < BASE && (skip ==> low == 0)
    ensures OrTwo(now, p, low, high, skip) == now[p + 1 := high][p := now[p] + low]
  {
    OrZero(high);
  }

  function RightNext(now: seq<uint32>, a: seq<uint32>, k: nat, s: nat, i: nat): seq<uint32>
    requires i < |a| == |now| && s < 32
  {
    RightParts(a[i], s);
    var low := (a[i] * Pow(2, 32 - s)) % BASE;
    var high := a[i] / Pow(2, s);
    var one := if i - k - 1 >= 0 && s != 0 then SetOr(now, i - k - 1, low) else now;
    if i - k >= 0 then SetOr(one, i - k, high) else one
  }

  /** What the first `i` limbs make of the quotient by 2^s * BASE^k, with the rest. */
  ghost predicate ShiftedRight(now: seq<uint32>, a: seq<uint32>, k: nat, s: nat, i: nat, rest: int)
    requires i <= |a| == |now|
  {
    && (forall m :: 0 <= m < |now| && i - k <= m ==> now[m] == 0)
    && s <= 32 && (i > k ==> now[i - k - 1] < Pow(2, 32 - s))
    && (i <= k ==> 0 <= rest < Pow(BASE, i) && Val(now) == 0)
    && 0 <= rest < Pow(2, s) * Pow(BASE, k)
    && Val(now) * (Pow(2, s) * Pow(BASE, k)) + rest == Val(a[..i])
  }

  lemma {:induction false} RightBelow(now: seq<uint32>, a: seq<uint32>, k: nat, s: nat, i: nat, rest: int)
    requires i < |a| == |now| && s < 32 && i < k && ShiftedRight(now, a, k, s, i, rest)
    ensures ShiftedRight(now, a, k, s, i + 1, rest + a[i] * Pow(BASE, i))
  {
    ValTake(a, i);
    ValBound(a[..i + 1]);
    PowMonotone(BASE, i + 1, k);
    PowPositive(2, s);
    PowPositive(BASE, k);
    MulAtMost(1, Pow(2, s), Pow(BASE, k));
    MulAtMost(0, a[i], Pow(BASE, i));
    PowPositive(BASE, i);
  }

  /** The first limb that counts: its low bits are dropped. */
  lemma {:induction false} RightFirst(now: seq<uint32>, a: seq<uint32>, k: nat, s: nat, rest: int)
    requires k < |a| == |now| && s < 32 && ShiftedRight(now, a, k, s, k, rest)
    ensures |RightNext(now, a, k, s, k)| == |now|
    ensures 0 < Pow(2, s) && ShiftedRight(RightNext(now, a, k, s, k), a, k, s, k + 1, rest + (a[k] % Pow(2, s)) * Pow(BASE, k))
  {
    var d, p := Pow(2, s), Pow(BASE, k);
    RightParts(a[k], s);
    var h, l := a[k] / d, a[k] % d;
    OrZero(h);
    assert RightNext(now, a, k, s, k) == now[0 := h];
    ValUpdate(now, 0, h);
    ValTake(a, k);
    FirstWeight(h, l, d, p, rest);
  }

  lemma {:induction false} FirstWeight(h: int, l: int, d: int, p: int, rest: int)
    requires 0 <= l < d && 0 <= rest < p
    ensures h * (d * p) + (rest + l * p) == rest + (h * d + l) * p && 0 <= rest + l * p < d * p
  {
    Assoc(h, d, p);
    Distribute(h * d, l, p);
    MulAtMost(l + 1, d, p);
    Distribute(l, 1, p);
    MulAtMost(0, l, p);
  }

  lemma {:induction false} RightInsideOr(now: seq<uint32>, a: seq<uint32>, k: nat, s: nat, i: nat)
    requires k < i < |a| == |now| && s < 32
    ensures 0 < Pow(2, s) && 0 <= a[i] / Pow(2, s) < BASE
    ensures RightNext(now, a, k, s, i) == OrTwo(now, i - k - 1, (a[i] * Pow(2, 32 - s)) % BASE, a[i] / Pow(2, s), s == 0)
  {
    RightParts(a[i], s);
  }

  /** What moves down finds the high bits of the limb below free. */
  lemma {:induction false} RightOr(x: uint32, y: uint32, s: nat)
    requires s < 32 && x < Pow(2, 32 - s)
    ensures var low := (y * Pow(2, 32 - s)) % BASE; Or(x, low) == x + low < BASE && (s == 0 ==> low == 0)
  {
    RightParts(y, s);
    RightFree(x, (y % Pow(2, s)) * Pow(2, 32 - s), 32 - s);
    if s == 0 {
      NothingLow(y, Pow(2, s), Pow(2, 32 - s));
    }
  }

  lemma {:induction false} RightFree(x: uint32, low: uint32, e: nat)
    requires e <= 32 && 0 < Pow(2, e) && x < Pow(2, e) && low % Pow(2, e) == 0
    ensures Or(x, low) == x + low < BASE
  {
    BaseMultiple(e);
    Fits(x, low, Pow(2, e));
    OrDisjoint(x, low, e);
  }

  lemma {:induction false} NothingLow(y: nat, d: nat, e: nat)
    requires d == 1
    ensures (y % d) * e == 0
  {
    assert y % d == 0;
  }

  lemma {:induction false} RightInsideIs(now: seq<uint32>, a: seq<uint32>, k: nat, s: nat, i: nat)
    requires k < i < |a| == |now| && s < 32 && now[i - k] == 0 && now[i - k - 1] < Pow(2, 32 - s)
    ensures var p := i - k - 1; var low := (a[i] * Pow(2, 32 - s)) % BASE;
      && 0 < Pow(2, s) && 0 <= a[i] / Pow(2, s) < BASE && now[p] + low < BASE
      && RightNext(now, a, k, s, i) == now[p + 1 := a[i] / Pow(2, s)][p := now[p] + low]
  {
    RightInsideOr(now, a, k, s, i);
    RightOr(now[i - k - 1], a[i], s);
    OrTwoIs(now, i - k - 1, (a[i] * Pow(2, 32 - s)) % BASE, a[i] / Pow(2, s), s == 0);
  }

  lemma {:induction false} RightInsideSum(now: seq<uint32>, a: seq<uint32>, k: nat, s: nat, i: nat, rest: int)
    requires k < i < |a| == |now| && s < 32 && now[i - k] == 0 && now[i - k - 1] < Pow(2, 32 - s)
    requires Val(now) * (Pow(2, s) * Pow(BASE, k)) + rest == Val(a[..i])
    ensures Val(RightNext(now, a, k, s, i)) * (Pow(2, s) * Pow(BASE, k)) + rest == Val(a[..i + 1])
  {
    var p, d, e := i - k - 1, Pow(2, s), Pow(2, 32 - s);
    RightInsideIs(now, a, k, s, i);
    RightParts(a[i], s);
    var h, l := a[i] / d, a[i] % d;
    TwoPlaces(now, p, h, l * e);
    ValTake(a, i);
    PowSplit(s);
    PowAdd(BASE, p, k);
    RightValue(Val(now), Val(RightNext(now, a, k, s, i)), h, l, d, e, Pow(BASE, p), Pow(BASE, k), rest, Val(a[..i]), Val(a[..i + 1]), a[i], Pow(BASE, i));
  }

  lemma {:induction false} RightInside(now: seq<uint32>, a: seq<uint32>, k: nat, s: nat, i: nat, rest: int)
    requires k < i < |a| == |now| && s < 32 && ShiftedRight(now, a, k, s, i, rest)
    ensures |RightNext(now, a, k, s, i)| == |now| && ShiftedRight(RightNext(now, a, k, s, i), a, k, s, i + 1, rest)
  {
    RightInsideIs(now, a, k, s, i);
    RightParts(a[i], s);
    RightInsideSum(now, a, k, s, i, rest);
  }

  lemma {:induction false} RightValue(
    v: int, v': int, h: int, l: int, d: int, e: int, p: int, q: int, rest: int, total: int, total': int, x: int, w: int)
    requires e * d == BASE && v' == v + (h * BASE + l * e) * p && x == h * d + l && w == BASE * (p * q)
    requires v * (d * q) + rest == total && total' == total + x * w
    ensures v' * (d * q) + rest == total'
  {
    RightWeight(v, h, l, d, e, p, q);
  }

  lemma {:induction false} RightWeight(v: int, h: int, l: int, d: int, e: int, p: int, q: int)
    requires e * d == BASE
    ensures (v + (h * BASE + l * e) * p) * (d * q) == v * (d * q) + (h * d + l) * (BASE * (p * q))
  {
    Distribute(v, (h * BASE + l * e) * p, d * q);
    var n := h * BASE + l * e;
    assert (n * p) * (d * q) == (n * d) * (p * q) by {
      Assoc(n, p, d * q);
      Rotate(p, d, q);
      Assoc(n, d, p * q);
    }
    assert n * d == (h * d + l) * BASE by {
      Distribute(h * BASE, l * e, d);
      Assoc(l, e, d);
      Distribute(h * d, l, BASE);
      assert (h * BASE) * d == (h * d) * BASE;
    }
    Assoc(h * d + l, BASE, p * q);
  }

  lemma {:induction false} RightStep(now: seq<uint32>, a: seq<uint32>, k: nat, s: nat, i: nat, rest: int) returns (rest': int)
    requires i < |a| == |now| && s < 32 && ShiftedRight(now, a, k, s, i, rest)
    ensures |RightNext(now, a, k, s, i)| == |now| && ShiftedRight(RightNext(now, a, k, s, i), a, k, s, i + 1, rest')
  {
    if i < k {
      RightBelow(now, a, k, s, i, rest);
      rest' := rest + a[i] * Pow(BASE, i);
    } else if i == k {
      RightFirst(now, a, k, s, rest);
      rest' := rest + (a[k] % Pow(2, s)) * Pow(BASE, k);
    } else {
      RightInside(now, a, k, s, i, rest);
      rest' := rest;
    }
  }
}
