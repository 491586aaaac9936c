/**
 Unsigned big integers of any number of 32-bit limbs (`arith_uint256.h`, `arith_uint256.cpp`):
 every operation on limbs is the operation on values modulo 2^BITS, and no intermediate value
 exceeds 64 bits.
*/
module ArithUint {
  import opened Common
  import opened Numbers
  import opened Limbs
  import opened Shifts

  // ----- one step of each loop

  /** A digit and a carry for a column sum. */
  lemma {:induction false} ColumnStep(low: int, p: int, n: int, total: int, column: int, carry: int)
    requires low + carry * p == total && n == carry + column
    ensures (low + (n % BASE) * p) + (n / BASE) * (BASE * p) == total + column * p
  {
    var x, c := n % BASE, n / BASE;
    assert n == c * BASE + x;
    Assoc(c, BASE, p);
    Distribute(c * BASE, x, p);
    Distribute(carry, column, p);
  }

  /** The first `i` limbs and the carry hold the sum of the first `i` limbs. */
  ghost predicate Adding(now: seq<uint32>, x: seq<uint32>, y: seq<uint32>, i: nat, carry: int)
    requires i <= |now| == |x| == |y|
  {
    forall b {:trigger Unfold(b)} :: Unfold(b) ==> Val(now[..i]) + carry * Pow(BASE, i) == Val(x[..i]) + Val(y[..i])
  }

  lemma {:induction false} AddStart(x: seq<uint32>, y: seq<uint32>)
    requires |x| == |y|
    ensures Adding(x, x, y, 0, 0)
  {
  }

  lemma {:induction false} AddStep(now: seq<uint32>, x: seq<uint32>, y: seq<uint32>, i: nat, carry: int)
    requires i < |now| == |x| == |y| && Adding(now, x, y, i, carry) && 0 <= carry <= 1
    ensures var n := carry + x[i] + y[i]; Adding(now[i := n % BASE], x, y, i + 1, n / BASE)
  {
    assert Unfold(true);
    var n := carry + x[i] + y[i];
    ColumnStep(Val(now[..i]), Pow(BASE, i), n, Val(x[..i]) + Val(y[..i]), (x[i] as int) + (y[i] as int), carry);
    assert now[i := n % BASE][..i] == now[..i];
    TakeMore(now, now[i := n % BASE], i);
    ValTake(x, i);
    ValTake(y, i);
    Distribute(x[i], y[i], Pow(BASE, i));
  }

  lemma {:induction false} AddEnd(now: seq<uint32>, x: seq<uint32>, y: seq<uint32>, carry: int)
    requires |now| == |x| == |y| && Adding(now, x, y, |x|, carry)
    ensures Val(now) == (Val(x) + Val(y)) % Modulus(|now|)
  {
    assert Unfold(true);
    Whole(x);
    Whole(y);
    Whole(now);
    Reduced(now, carry, Val(x) + Val(y));
  }

  ghost predicate Scaling(now: seq<uint32>, x: seq<uint32>, w: uint32, i: nat, carry: int)
    requires i <= |now| == |x|
  {
    forall b {:trigger Unfold(b)} :: Unfold(b) ==> Val(now[..i]) + carry * Pow(BASE, i) == Val(x[..i]) * w
  }

  lemma {:induction false} ScaleStart(x: seq<uint32>, w: uint32)
    ensures Scaling(x, x, w, 0, 0)
  {
  }

  lemma {:induction false} ScaleStep(now: seq<uint32>, x: seq<uint32>, w: uint32, i: nat, carry: int)
    requires i < |now| == |x| && Scaling(now, x, w, i, carry) && 0 <= carry < BASE
    ensures var n := carry + w * x[i]; Scaling(now[i := n % BASE], x, w, i + 1, n / BASE)
  {
    assert Unfold(true);
    var n := carry + w * x[i];
    ColumnStep(Val(now[..i]), Pow(BASE, i), n, Val(x[..i]) * w, w * x[i], carry);
    assert now[i := n % BASE][..i] == now[..i];
    TakeMore(now, now[i := n % BASE], i);
    WordColumn(x, i, w);
  }

  lemma {:induction false} ScaleEnd(now: seq<uint32>, x: seq<uint32>, w: uint32, carry: int)
    requires |now| == |x| && Scaling(now, x, w, |x|, carry)
    ensures Val(now) == (Val(x) * w) % Modulus(|now|)
  {
    assert Unfold(true);
    Whole(x);
    Whole(now);
    Reduced(now, carry, Val(x) * w);
  }

  ghost predicate AddingRow(now: seq<uint32>, x: seq<uint32>, y: seq<uint32>, w: uint32, i: nat, j: nat, carry: int)
    requires i + j <= |now| == |x| == |y|
  {
    forall b {:trigger Unfold(b)} :: Unfold(b) ==>
      Val(now[..i + j]) + carry * Pow(BASE, i + j) == Val(x[..i + j]) + (w * Pow(BASE, j)) * Val(y[..i])
  }

  lemma {:induction false} RowStart(x: seq<uint32>, y: seq<uint32>, w: uint32, j: nat)
    requires j <= |x| == |y|
    ensures AddingRow(x, x, y, w, 0, j, 0)
  {
  }

  lemma {:induction false} RowStep(now: seq<uint32>, x: seq<uint32>, y: seq<uint32>, w: uint32, i: nat, j: nat, carry: int)
    requires i + j < |now| == |x| == |y| && AddingRow(now, x, y, w, i, j, carry)
    ensures var n := carry + x[i + j] + w * y[i]; AddingRow(now[i + j := n % BASE], x, y, w, i + 1, j, n / BASE)
  {
    assert Unfold(true);
    var k, n := i + j, carry + x[i + j] + w * y[i];
    ColumnStep(Val(now[..k]), Pow(BASE, k), n, Val(x[..k]) + (w * Pow(BASE, j)) * Val(y[..i]), (x[k] as int) + w * y[i], carry);
    assert now[k := n % BASE][..k] == now[..k];
    TakeMore(now, now[k := n % BASE], k);
    RowColumn(x, y, i, j, w);
  }

  /** A row has been added, up to `q` times the modulus. */
  ghost predicate RowAdded(x: seq<uint32>, now: seq<uint32>, y: seq<uint32>, w: uint32, j: nat, q: int) {
    forall b {:trigger Unfold(b)} :: Unfold(b) ==>
      Val(now) + q * Modulus(|now|) == Val(x) + (w * Pow(BASE, j)) * Val(y)
  }

  lemma {:induction false} RowEnd(now: seq<uint32>, x: seq<uint32>, y: seq<uint32>, w: uint32, i: nat, j: nat, carry: int) returns (q: int)
    requires i + j == |now| == |x| == |y| && AddingRow(now, x, y, w, i, j, carry)
    ensures RowAdded(x, now, y, w, j, q)
  {
    assert Unfold(true);
    Whole(x);
    Whole(now);
    RowRest(y, i, j, w);
    q := carry + w * Val(y[i..]);
    Distribute(carry, w * Val(y[i..]), Modulus(|now|));
  }

  ghost predicate Multiplying(now: seq<uint32>, x: seq<uint32>, y: seq<uint32>, j: nat, q: int)
    requires j <= |x|
  {
    forall b {:trigger Unfold(b)} :: Unfold(b) ==> Val(now) + q * Modulus(|now|) == Val(x[..j]) * Val(y)
  }

  lemma {:induction false} MulStart(now: seq<uint32>, x: seq<uint32>, y: seq<uint32>)
    requires Val(now) == 0
    ensures Multiplying(now, x, y, 0, 0)
  {
  }

  lemma {:induction false} MulStep(was: seq<uint32>, now: seq<uint32>, x: seq<uint32>, y: seq<uint32>, j: nat, q: int, row: int)
    requires j < |x| && |was| == |now| && Multiplying(was, x, y, j, q) && RowAdded(was, now, y, x[j], j, row)
    ensures Multiplying(now, x, y, j + 1, q + row)
  {
    assert Unfold(true);
    ValTake(x, j);
    Distribute(Val(x[..j]), x[j] * Pow(BASE, j), Val(y));
    Distribute(q, row, Modulus(|now|));
  }

  lemma {:induction false} MulEnd(now: seq<uint32>, x: seq<uint32>, y: seq<uint32>, q: int)
    requires Multiplying(now, x, y, |x|, q)
    ensures Val(now) == (Val(x) * Val(y)) % Modulus(|now|)
  {
    assert Unfold(true);
    Whole(x);
    Reduced(now, q, Val(x) * Val(y));
  }

  /** `Val` of the first limbs of an array, one limb further. */
  lemma {:induction false} TakeMore(s: seq<uint32>, s': seq<uint32>, i: nat)
    requires i < |s| == |s'| && s'[..i] == s[..i]
    ensures Val(s'[..i + 1]) == Val(s[..i]) + s'[i] * Pow(BASE, i) && Pow(BASE, i + 1) == BASE * Pow(BASE, i)
  {
    ValTake(s', i);
  }

  lemma {:induction false} Whole(s: seq<uint32>)
    ensures s[..|s|] == s
  {
  }

  /** The value below the modulus that a carry leaves. */
  lemma {:induction false} Reduced(s: seq<uint32>, carry: int, total: int)
    requires Val(s) + carry * Modulus(|s|) == total
    ensures Val(s) == total % Modulus(|s|) && 0 < Modulus(|s|)
  {
    ValBound(s);
    ModOf(total, Modulus(|s|), carry, Val(s));
  }

  class BaseUint {
    const pn: array<uint32>

    ghost predicate Valid() {
      0 < pn.Length
    }

    ghost function Value(): nat
      reads pn
    {
      Val(pn[..])
    }

    ghost function M(): nat {
      Modulus(pn.Length)
    }

    constructor Zero(width: nat)
      requires 0 < width
      ensures Valid() && fresh(pn) && pn.Length == width && Value() == 0
    {
      pn := new uint32[width](_ => 0);
      new;
      ValZero(pn[..]);
    }

    constructor Copy(b: BaseUint)
      requires b.Valid()
      ensures Valid() && fresh(pn) && pn.Length == b.pn.Length && pn[..] == b.pn[..]
    {
      pn := new uint32[b.pn.Length](i requires 0 <= i < b.pn.Length reads b.pn => b.pn[i]);
    }

    /** Limbs and value determine each other, so what is said of values below is said of the limbs. */
    lemma {:induction false} SameLimbs(b: BaseUint)
      requires Valid() && b.pn.Length == pn.Length
      ensures pn[..] == b.pn[..] <==> Value() == b.Value()
    {
      if Value() == b.Value() {
        ValInjective(pn[..], b.pn[..]);
      }
    }

    // ----- addition and subtraction

    /** Addition; `b` may be the same object. */
    method Add(b: BaseUint)
      requires Valid() && b.pn.Length == pn.Length
      modifies pn
      ensures Value() == (old(Value()) + old(b.Value())) % M()
    {
      ghost var x, y := pn[..], b.pn[..];
      var carry: uint64 := 0;
      AddStart(x, y);
      for i := 0 to pn.Length
        invariant carry <= 1 && Adding(pn[..], x, y, i, carry) && pn[i..] == x[i..] && b.pn[i..] == y[i..]
      {
        ghost var was, other := pn[..], b.pn[..];
        assert pn[i] == pn[i..][0] == x[i] && b.pn[i] == b.pn[i..][0] == y[i];
        AddStep(was, x, y, i, carry);
        var n: uint64 := carry + pn[i] + b.pn[i];
        pn[i] := n % BASE;
        carry := n / BASE;
        assert pn[..] == was[i := pn[i]];
        AfterWrite(pn[..], was, x, i);
        assert b.pn[..] == other[i := b.pn[i]];
        AfterWrite(b.pn[..], other, y, i);
      }
      AddEnd(pn[..], x, y, carry);
    }

    method Complement() returns (r: BaseUint)
      requires Valid()
      ensures fresh(r) && fresh(r.pn) && r.Valid() && r.pn.Length == pn.Length
      ensures r.Value() == M() - 1 - Value()
    {
      r := new BaseUint.Zero(pn.Length);
      ghost var x := pn[..];
      for i := 0 to pn.Length
        invariant pn[..] == x && Val(r.pn[..i]) + Val(x[..i]) == Pow(BASE, i) - 1
      {
        ghost var was := r.pn[..];
        r.pn[i] := 0xffff_ffff - pn[i];
        assert r.pn[..][..i] == was[..i];
        ComplementStep(was, r.pn[..], x, i);
        assert r.pn[..][..i + 1] == r.pn[..i + 1];
      }
      Whole(x);
      assert r.pn[..pn.Length] == r.pn[..];
    }

    method Increment()
      requires Valid()
      modifies pn
      ensures Value() == (old(Value()) + 1) % M()
    {
      ghost var x := Value();
      var i := 0;
      CountStart(pn[..]);
      while i < pn.Length
        invariant i <= pn.Length && CountingUp(pn[..], x, i)
      {
        ghost var was := pn[..];
        IncrementStep(was, x, i);
        pn[i] := (pn[i] + 1) % BASE;
        assert pn[..] == was[i := pn[i]];
        if pn[i] != 0 {
          return;
        }
        i := i + 1;
      }
      CountUpEnd(pn[..], x);
    }

    method Decrement()
      requires Valid()
      modifies pn
      ensures Value() == (old(Value()) - 1) % M()
    {
      ghost var x := Value();
      var i := 0;
      CountStart(pn[..]);
      while i < pn.Length
        invariant i <= pn.Length && CountingDown(pn[..], x, i)
      {
        ghost var was := pn[..];
        DecrementStep(was, x, i);
        pn[i] := (pn[i] - 1) % BASE;
        assert pn[..] == was[i := pn[i]];
        if pn[i] != 0xffff_ffff {
          return;
        }
        i := i + 1;
      }
      CountDownEnd(pn[..], x);
    }

    method Negate() returns (r: BaseUint)
      requires Valid()
      ensures fresh(r) && fresh(r.pn) && r.Valid() && r.pn.Length == pn.Length
      ensures r.Value() == (M() - Value()) % M()
    {
      r := Complement();
      r.Increment();
    }

    method Sub(b: BaseUint)
      requires Valid() && b.pn.Length == pn.Length
      modifies pn
      ensures Value() == (old(Value()) - old(b.Value())) % M()
    {
      ghost var x, y, m := Value(), b.Value(), M();
      var n := b.Negate();
      Add(n);
      SubRemainder(x, y, m);
    }

    // ----- multiplication

    method MulWord(b32: uint32)
      requires Valid()
      modifies pn
      ensures Value() == (old(Value()) * b32) % M()
    {
      ghost var x := pn[..];
      var carry: uint64 := 0;
      ScaleStart(x, b32);
      for i := 0 to pn.Length
        invariant carry < BASE && Scaling(pn[..], x, b32, i, carry) && pn[i..] == x[i..]
      {
        ghost var was := pn[..];
        assert pn[i] == pn[i..][0] == x[i];
        WordProduct(carry, 0, b32, pn[i]);
        ScaleStep(was, x, b32, i, carry);
        var n: uint64 := carry + b32 * pn[i];
        pn[i] := n % BASE;
        carry := n / BASE;
        assert pn[..] == was[i := pn[i]];
        AfterWrite(pn[..], was, x, i);
      }
      ScaleEnd(pn[..], x, b32, carry);
    }

    /** Add a product and a carry to one limb. */
    static method AddLimb(acc: array<uint32>, k: nat, carry: uint64, w: uint32, y: uint32) returns (next: uint64)
      requires k < acc.Length && carry < BASE
      modifies acc
      ensures var n := carry + old(acc[k]) + w * y;
        next == n / BASE < BASE && acc[..] == old(acc[..])[k := n % BASE]
    {
      WordProduct(carry, acc[k], w, y);
      var n: uint64 := carry + acc[k] + w * y;
      acc[k] := n % BASE;
      next := n / BASE;
    }

    /** Add `w` times `b`, shifted by `j` limbs, to `acc`. */
    static method AddRow(acc: array<uint32>, b: array<uint32>, w: uint32, j: nat) returns (ghost q: int)
      requires acc != b && j < acc.Length == b.Length
      modifies acc
      ensures RowAdded(old(acc[..]), acc[..], b[..], w, j, q)
    {
      ghost var x, y := acc[..], b[..];
      var carry: uint64 := 0;
      var i := 0;
      RowStart(x, y, w, j);
      while i + j < acc.Length
        invariant i + j <= acc.Length && carry < BASE && b[..] == y && acc[i + j..] == x[i + j..]
        invariant AddingRow(acc[..], x, y, w, i, j, carry)
      {
        ghost var was := acc[..];
        assert acc[i + j] == acc[i + j..][0] == x[i + j];
        RowStep(was, x, y, w, i, j, carry);
        carry := AddLimb(acc, i + j, carry, w, b[i]);
        AfterWrite(acc[..], was, x, i + j);
        i := i + 1;
      }
      q := RowEnd(acc[..], x, y, w, i, j, carry);
    }

    /** Multiplication; `b` may be the same object. */
    method Mul(b: BaseUint)
      requires Valid() && b.pn.Length == pn.Length
      modifies pn
      ensures Value() == (old(Value()) * old(b.Value())) % M()
    {
      ghost var x, y := pn[..], b.pn[..];
      var a := new BaseUint.Zero(pn.Length);
      ghost var q := 0;
      MulStart(a.pn[..], x, y);
      for j := 0 to pn.Length
        invariant pn[..] == x && b.pn[..] == y && Multiplying(a.pn[..], x, y, j, q)
      {
        ghost var was := a.pn[..];
        ghost var row := AddRow(a.pn, b.pn, pn[j], j);
        MulStep(was, a.pn[..], x, y, j, q, row);
        q := q + row;
      }
      MulEnd(a.pn[..], x, y, q);
      CopyLimbs(a.pn, pn);
    }

    static method CopyLimbs(source: array<uint32>, target: array<uint32>)
      requires source != target && source.Length == target.Length
      modifies target
      ensures target[..] == old(source[..]) && source[..] == old(source[..])
    {
      for i := 0 to target.Length
        invariant target[..i] == source[..i] && source[..] == old(source[..])
      {
        target[i] := source[i];
      }
    }

    // ----- shifts

    static method SetBits(limbs: array<uint32>, p: nat, x: uint32)
      requires p < limbs.Length
      modifies limbs
      ensures limbs[..] == SetOr(old(limbs[..]), p, x)
    {
      TwoTo32();
      OrBound(limbs[p], x, 32);
      limbs[p] := Or(limbs[p], x);
    }

    /** Enter limb `i` of `a`, shifted up by `k` limbs and `s` bits. */
    static method MoveLeft(a: array<uint32>, limbs: array<uint32>, k: nat, s: nat, i: nat)
      requires a != limbs && i < a.Length == limbs.Length && s < 32
      modifies limbs
      ensures limbs[..] == LeftNext(old(limbs[..]), a[..], k, s, i)
    {
      WordParts(a[i], 32 - s);
      if i + k + 1 < limbs.Length && s != 0 {
        SetBits(limbs, i + k + 1, a[i] / Pow(2, 32 - s));
      }
      if i + k < limbs.Length {
        SetBits(limbs, i + k, (a[i] * Pow(2, s)) % BASE);
      }
    }

    /** Enter limb `i` of `a`, shifted down by `k` limbs and `s` bits. */
    static method MoveRight(a: array<uint32>, limbs: array<uint32>, k: nat, s: nat, i: nat)
      requires a != limbs && i < a.Length == limbs.Length && s < 32
      modifies limbs
      ensures limbs[..] == RightNext(old(limbs[..]), a[..], k, s, i)
    {
      WordParts(a[i], s);
      if i - k - 1 >= 0 && s != 0 {
        SetBits(limbs, i - k - 1, (a[i] * Pow(2, 32 - s)) % BASE);
      }
      if i - k >= 0 {
        SetBits(limbs, i - k, a[i] / Pow(2, s));
      }
    }

    method ShiftLeft(shift: nat)
      requires Valid()
      modifies pn
      ensures Value() == (old(Value()) * Pow(2, shift)) % M()
    {
      ghost var x := pn[..];
      var a := new BaseUint.Copy(this);
      for i := 0 to pn.Length
        invariant a.pn[..] == x && forall j :: 0 <= j < i ==> pn[j] == 0
      {
        pn[i] := 0;
      }
      var k, s := shift / 32, shift % 32;
      ghost var over := 0;
      LeftStart(pn[..], x, k, s);
      for i := 0 to pn.Length
        invariant a.pn[..] == x && ShiftingLeft(pn[..], x, k, s, i, over)
      {
        ghost var was := pn[..];
        over := LeftMove(was, x, k, s, i, over);
        MoveLeft(a.pn, pn, k, s, i);
      }
      LeftEnd(pn[..], x, shift, over);
    }

    method ShiftRight(shift: nat)
      requires Valid()
      modifies pn
      ensures 0 < Pow(2, shift) && Value() == old(Value()) / Pow(2, shift)
    {
      ghost var x := pn[..];
      var a := new BaseUint.Copy(this);
      for i := 0 to pn.Length
        invariant a.pn[..] == x && forall j :: 0 <= j < i ==> pn[j] == 0
      {
        pn[i] := 0;
      }
      var k, s := shift / 32, shift % 32;
      ghost var rest := 0;
      RightStart(pn[..], x, k, s);
      for i := 0 to pn.Length
        invariant a.pn[..] == x && ShiftingRight(pn[..], x, k, s, i, rest)
      {
        ghost var was := pn[..];
        rest := RightMove(was, x, k, s, i, rest);
        MoveRight(a.pn, pn, k, s, i);
      }
      RightEnd(pn[..], x, shift, rest);
    }

    // ----- comparison and bits

    method CompareTo(b: BaseUint) returns (r: int)
      requires Valid() && b.pn.Length == pn.Length
      ensures r == if Value() < b.Value() then -1 else if Value() > b.Value() then 1 else 0
    {
      var i := pn.Length;
      while i > 0
        invariant 0 <= i <= pn.Length && pn[..][i..] == b.pn[..][i..]
      {
        i := i - 1;
        if pn[i] < b.pn[i] {
          TopDecides(pn[..], b.pn[..], i);
          return -1;
        }
        if pn[i] > b.pn[i] {
          TopDecides(b.pn[..], pn[..], i);
          return 1;
        }
        SameFrom(pn[..], b.pn[..], i);
      }
      assert pn[..] == pn[..][0..] == b.pn[..][0..] == b.pn[..];
      return 0;
    }

    method EqualTo(b: uint64) returns (r: bool)
      requires Valid() && 2 <= pn.Length
      ensures r <==> Value() == b
    {
      var i := pn.Length;
      while i > 2
        invariant 2 <= i <= pn.Length && forall j :: i <= j < pn.Length ==> pn[j] == 0
      {
        i := i - 1;
        if pn[i] != 0 {
          LargeLimb(pn[..], i);
          return false;
        }
      }
      LowLimbs(pn[..]);
      return pn[1] == b / BASE && pn[0] == b % BASE;
    }

    method SetWord(b: uint64)
      requires Valid() && 2 <= pn.Length
      modifies pn
      ensures Value() == b
    {
      Clear(pn);
      pn[0] := b % BASE;
      pn[1] := b / BASE;
      LowLimbs(pn[..]);
    }

    method GetLow64() returns (r: uint64)
      requires Valid() && 2 <= pn.Length
      ensures r == Value() % 0x1_0000_0000_0000_0000
    {
      LowHalf(pn[..]);
      r := Or(pn[0], pn[1] * BASE);
    }

    /** The number of bits: one more than the position of the highest bit set. */
    method Bits() returns (r: nat)
      requires Valid()
      ensures r <= 32 * pn.Length && HasBits(Value(), r)
    {
      var pos := pn.Length;
      while pos > 0
        invariant 0 <= pos <= pn.Length && forall j :: pos <= j < pn.Length ==> pn[j] == 0
      {
        pos := pos - 1;
        if pn[pos] != 0 {
          var nbits := 31;
          TwoTo32();
          while nbits > 0
            invariant 0 <= nbits <= 31 && pn[pos] < Pow(2, nbits + 1)
          {
            HighBit(pn[pos], nbits);
            if (pn[pos] / Pow(2, nbits)) % 2 == 1 {
              TopBits(pn[..], pos, nbits);
              return 32 * pos + nbits + 1;
            }
            nbits := nbits - 1;
          }
          assert Pow(2, 0) == 1;
          TopBits(pn[..], pos, 0);
          return 32 * pos + 1;
        }
      }
      ValZero(pn[..]);
      return 0;
    }

    // ----- division

    /** Shift-and-subtract division; `false` stands for the division by zero error. */
    method Div(b: BaseUint) returns (ok: bool)
      requires Valid() && b.pn.Length == pn.Length
      modifies pn
      ensures ok <==> old(b.Value()) != 0
      ensures ok ==> Value() == old(Value()) / old(b.Value())
    {
      ghost var n, d := Value(), b.Value();
      var div := new BaseUint.Copy(b);
      var num := new BaseUint.Copy(this);
      Clear(pn);
      var numBits := num.Bits();
      var divBits := div.Bits();
      if divBits == 0 {
        return false;
      }
      if divBits > numBits {
        FewerBits(n, numBits, d, divBits);
        return true;
      }
      var shift := numBits - divBits;
      DivStart(n, d, numBits, divBits, pn.Length);
      div.ShiftLeft(shift);
      QuotientStart(pn[..], shift);
      LongDivision(num, div, shift, n, d);
      ok := true;
    }

    /** One bit of the quotient: subtract the divisor if it fits, and shift it back. */
    method DivideBit(num: BaseUint, div: BaseUint, shift: nat, ghost n: nat, ghost d: nat)
      requires Valid() && num.pn.Length == div.pn.Length == pn.Length
      requires pn != num.pn && pn != div.pn && num.pn != div.pn && shift < 32 * pn.Length
      requires Dividing(Value(), num.Value(), div.Value(), n, d, shift) && QuotientSoFar(pn[..], shift)
      modifies pn, num.pn, div.pn
      ensures Dividing(Value(), num.Value(), div.Value(), n, d, shift - 1) && QuotientSoFar(pn[..], shift - 1)
    {
      var c := num.CompareTo(div);
      if c >= 0 {
        ValBound(num.pn[..]);
        SubStep(Value(), num.Value(), div.Value(), n, d, shift, M());
        num.Sub(div);
        SetBit(pn, shift);
      } else {
        SkipStep(Value(), num.Value(), div.Value(), n, d, shift);
        QuotientSkip(pn[..], shift);
      }
      div.ShiftRight(1);
    }

    method LongDivision(num: BaseUint, div: BaseUint, start: nat, ghost n: nat, ghost d: nat)
      requires Valid() && num.pn.Length == div.pn.Length == pn.Length
      requires pn != num.pn && pn != div.pn && num.pn != div.pn && start < 32 * pn.Length
      requires Dividing(Value(), num.Value(), div.Value(), n, d, start) && QuotientSoFar(pn[..], start)
      modifies pn, num.pn, div.pn
      ensures 0 < d && Value() == n / d
    {
      var shift: int := start;
      while shift >= 0
        invariant -1 <= shift < 32 * pn.Length
        invariant Dividing(Value(), num.Value(), div.Value(), n, d, shift) && QuotientSoFar(pn[..], shift)
        decreases shift
      {
        DivideBit(num, div, shift, n, d);
        shift := shift - 1;
      }
      DivEnd(Value(), num.Value(), div.Value(), n, d);
    }

    static method Clear(limbs: array<uint32>)
      modifies limbs
      ensures Val(limbs[..]) == 0 && forall j :: 0 <= j < limbs.Length ==> limbs[j] == 0
    {
      for i := 0 to limbs.Length
        invariant forall j :: 0 <= j < i ==> limbs[j] == 0
      {
        limbs[i] := 0;
      }
      ValZero(limbs[..]);
    }

    /** Set a bit of the quotient that is not set yet. */
    static method SetBit(limbs: array<uint32>, shift: nat)
      requires shift < 32 * limbs.Length && QuotientSoFar(limbs[..], shift)
      modifies limbs
      ensures Val(limbs[..]) == Val(old(limbs[..])) + Pow(2, shift) && QuotientSoFar(limbs[..], shift - 1)
    {
      ghost var was := limbs[..];
      BitWord(shift % 32);
      SetBits(limbs, shift / 32, Pow(2, shift % 32));
      BitSet(was, shift);
    }
  }

  lemma {:induction false} AfterWrite(now: seq<uint32>, was: seq<uint32>, x: seq<uint32>, i: nat)
    requires i < |now| == |was| == |x| && was[i..] == x[i..] && now == was[i := now[i]]
    ensures now[i + 1..] == x[i + 1..]
  {
    assert forall j :: i < j < |x| ==> now[j] == was[j] == was[i..][j - i] == x[i..][j - i] == x[j];
  }

  /** Numbers that differ by a multiple of `m` leave the same remainder. */
  lemma {:induction false} SameRemainder(x: int, y: int, k: int, m: int)
    requires 0 < m && x == y + k * m
    ensures x % m == y % m
  {
    var q, r := y / m, y % m;
    Distribute(q, k, m);
    DivMod(x, m, q + k, r);
  }

  lemma {:induction false} SubRemainder(x: int, y: int, m: int)
    requires 0 < m
    ensures (x + (m - y) % m) % m == (x - y) % m
  {
    var q, r := (m - y) / m, (m - y) % m;
    assert m - y == q * m + r;
    Distribute(1, 0 - q, m);
    SameRemainder(x + r, x - y, 1 - q, m);
  }

  lemma {:induction false} ComplementStep(was: seq<uint32>, now: seq<uint32>, x: seq<uint32>, i: nat)
    requires i < |was| == |now| == |x| && now[..i] == was[..i] && now[i] == BASE - 1 - x[i]
    requires Val(was[..i]) + Val(x[..i]) == Pow(BASE, i) - 1
    ensures Val(now[..i + 1]) + Val(x[..i + 1]) == Pow(BASE, i + 1) - 1
  {
    var p := Pow(BASE, i);
    TakeMore(was, now, i);
    ValTake(x, i);
    Distribute(now[i], x[i], p);
    Distribute(BASE - 1, 1, p);
  }

  /** A one is still to be added at limb `i`. */
  ghost predicate CountingUp(s: seq<uint32>, x: int, i: nat) {
    forall b {:trigger Unfold(b)} :: Unfold(b) ==> Val(s) + Pow(BASE, i) == x + 1
  }

  /** A one is still to be taken off at limb `i`. */
  ghost predicate CountingDown(s: seq<uint32>, x: int, i: nat) {
    forall b {:trigger Unfold(b)} :: Unfold(b) ==> Val(s) + 1 == x + Pow(BASE, i)
  }

  lemma {:induction false} CountStart(s: seq<uint32>)
    ensures CountingUp(s, Val(s), 0) && CountingDown(s, Val(s), 0)
  {
  }

  /** One limb of an increment: done, or a carry into the next. */
  lemma {:induction false} IncrementStep(s: seq<uint32>, x: int, i: nat)
    requires i < |s| && CountingUp(s, x, i)
    ensures var n := (s[i] + 1) % BASE;
      if n == 0 then CountingUp(s[i := n], x, i + 1) else Val(s[i := n]) == (x + 1) % Modulus(|s|)
  {
    assert Unfold(true);
    var p := Pow(BASE, i);
    if s[i] == BASE - 1 {
      assert (s[i] + 1) % BASE == 0;
      ValUpdate(s, i, 0);
      Distribute(BASE - 1, 1, p);
    } else {
      assert (s[i] + 1) % BASE == s[i] + 1;
      ValUpdate(s, i, s[i] + 1);
      Reduced(s[i := s[i] + 1], 0, x + 1);
    }
  }

  lemma {:induction false} CountUpEnd(s: seq<uint32>, x: int)
    requires CountingUp(s, x, |s|)
    ensures Val(s) == (x + 1) % Modulus(|s|)
  {
    assert Unfold(true);
    Reduced(s, 1, x + 1);
  }

  lemma {:induction false} DecrementStep(s: seq<uint32>, x: int, i: nat)
    requires i < |s| && CountingDown(s, x, i)
    ensures var n := (s[i] - 1) % BASE;
      if n == BASE - 1 then CountingDown(s[i := n], x, i + 1) else Val(s[i := n]) == (x - 1) % Modulus(|s|)
  {
    assert Unfold(true);
    var p := Pow(BASE, i);
    if s[i] == 0 {
      assert (s[i] - 1) % BASE == BASE - 1;
      ValUpdate(s, i, BASE - 1);
      Distribute(BASE - 1, 1, p);
    } else {
      assert (s[i] - 1) % BASE == s[i] - 1;
      ValUpdate(s, i, s[i] - 1);
      Reduced(s[i := s[i] - 1], 0, x - 1);
    }
  }

  lemma {:induction false} CountDownEnd(s: seq<uint32>, x: int)
    requires CountingDown(s, x, |s|)
    ensures Val(s) == (x - 1) % Modulus(|s|)
  {
    assert Unfold(true);
    Reduced(s, -1, x - 1);
  }

  /** Neither a product of words with two more words nor its high half overflows. */
  lemma {:induction false} WordProduct(carry: int, acc: uint32, w: uint32, x: uint32)
    requires 0 <= carry < BASE
    ensures 0 <= carry + acc + w * x < 0x1_0000_0000_0000_0000 && (carry + acc + w * x) / BASE < BASE
  {
    MulAtMost(w, BASE - 1, x);
    MulAtMost(x, BASE - 1, BASE - 1);
    MulAtMost(0, w, x);
    DivLess(carry + acc + w * x, BASE, BASE);
  }

  lemma {:induction false} WordColumn(x: seq<uint32>, i: nat, w: uint32)
    requires i < |x|
    ensures Val(x[..i + 1]) * w == Val(x[..i]) * w + (w * x[i]) * Pow(BASE, i)
  {
    ValTake(x, i);
    Distribute(Val(x[..i]), x[i] * Pow(BASE, i), w);
    Assoc(w, x[i], Pow(BASE, i));
  }

  lemma {:induction false} RowColumn(x: seq<uint32>, y: seq<uint32>, i: nat, j: nat, w: uint32)
    requires i + j < |x| == |y|
    ensures Val(x[..i + j + 1]) + (w * Pow(BASE, j)) * Val(y[..i + 1])
         == Val(x[..i + j]) + (w * Pow(BASE, j)) * Val(y[..i]) + (x[i + j] + w * y[i]) * Pow(BASE, i + j)
  {
    ValTake(x, i + j);
    ValTake(y, i);
    PowAdd(BASE, i, j);
    var p, q := Pow(BASE, i), Pow(BASE, j);
    Distribute(Val(y[..i]), y[i] * p, w * q);
    assert (w * q) * (y[i] * p) == (w * y[i]) * (p * q) by {
      Assoc(w, q, y[i] * p);
      Rotate(q, y[i], p);
      Assoc(w, y[i], q * p);
      assert q * p == p * q;
    }
    Distribute(x[i + j], w * y[i], p * q);
  }

  lemma {:induction false} Regroup(w: nat, q: nat, p: nat, rest: nat)
    ensures (w * q) * (p * rest) == (w * rest) * (p * q)
  {
    Assoc(w, q, p * rest);
    Rotate(q, p, rest);
    assert q * rest == rest * q;
    Rotate(p, rest, q);
    Assoc(w, rest, p * q);
  }

  /** The limbs of a row beyond the width count in multiples of the modulus. */
  lemma {:induction false} RowRest(y: seq<uint32>, i: nat, j: nat, w: uint32)
    requires i + j == |y|
    ensures (w * Pow(BASE, j)) * Val(y) == (w * Pow(BASE, j)) * Val(y[..i]) + (w * Val(y[i..])) * Modulus(|y|)
  {
    var p, q, rest := Pow(BASE, i), Pow(BASE, j), Val(y[i..]);
    ValSplit(y, i);
    PowAdd(BASE, i, j);
    Distribute(Val(y[..i]), p * rest, w * q);
    Regroup(w, q, p, rest);
  }

  // ----- shifts

  lemma {:induction false} ShiftWeight(shift: nat)
    ensures Pow(2, shift) == Pow(2, shift % 32) * Pow(BASE, shift / 32)
  {
    var k, s := shift / 32, shift % 32;
    PowAdd(2, s, 32 * k);
    TwoTo32();
    PowPow(2, 32, k);
  }

  lemma {:induction false} WordParts(x: uint32, s: nat)
    ensures 0 < Pow(2, s) && 0 <= x / Pow(2, s) < BASE
  {
    PowPositive(2, s);
    MulAtMost(1, Pow(2, s), BASE);
    DivLess(x, Pow(2, s), BASE);
  }

  /** `ShiftedLeft`, taken as a whole. */
  ghost predicate ShiftingLeft(now: seq<uint32>, a: seq<uint32>, k: nat, s: nat, i: nat, over: int)
    requires i <= |a| == |now|
  {
    forall b {:trigger Unfold(b)} :: Unfold(b) ==> ShiftedLeft(now, a, k, s, i, over)
  }

  lemma {:induction false} LeftStart(now: seq<uint32>, a: seq<uint32>, k: nat, s: nat)
    requires |a| == |now| && (forall j :: 0 <= j < |now| ==> now[j] == 0)
    ensures ShiftingLeft(now, a, k, s, 0, 0)
  {
    ValZero(now);
    PowPositive(2, s);
  }

  lemma {:induction false} LeftMove(now: seq<uint32>, a: seq<uint32>, k: nat, s: nat, i: nat, over: int) returns (over': int)
    requires i < |a| == |now| && s < 32 && ShiftingLeft(now, a, k, s, i, over)
    ensures |LeftNext(now, a, k, s, i)| == |now| && ShiftingLeft(LeftNext(now, a, k, s, i), a, k, s, i + 1, over')
  {
    assert Unfold(true);
    over' := LeftStep(now, a, k, s, i, over);
  }

  lemma {:induction false} LeftEnd(now: seq<uint32>, a: seq<uint32>, shift: nat, over: int)
    requires |a| == |now| && ShiftingLeft(now, a, shift / 32, shift % 32, |a|, over)
    ensures Val(now) == (Val(a) * Pow(2, shift)) % Modulus(|now|)
  {
    assert Unfold(true);
    ShiftWeight(shift);
    Whole(a);
    Reduced(now, over, Val(a) * Pow(2, shift));
  }

  ghost predicate ShiftingRight(now: seq<uint32>, a: seq<uint32>, k: nat, s: nat, i: nat, rest: int)
    requires i <= |a| == |now|
  {
    forall b {:trigger Unfold(b)} :: Unfold(b) ==> ShiftedRight(now, a, k, s, i, rest)
  }

  lemma {:induction false} RightStart(now: seq<uint32>, a: seq<uint32>, k: nat, s: nat)
    requires |a| == |now| && (forall j :: 0 <= j < |now| ==> now[j] == 0) && s < 32
    ensures ShiftingRight(now, a, k, s, 0, 0)
  {
    ValZero(now);
    PowPositive(2, s);
    PowPositive(BASE, k);
    MulPositive(Pow(2, s), Pow(BASE, k));
  }

  lemma {:induction false} RightMove(now: seq<uint32>, a: seq<uint32>, k: nat, s: nat, i: nat, rest: int) returns (rest': int)
    requires i < |a| == |now| && s < 32 && ShiftingRight(now, a, k, s, i, rest)
    ensures |RightNext(now, a, k, s, i)| == |now| && ShiftingRight(RightNext(now, a, k, s, i), a, k, s, i + 1, rest')
  {
    assert Unfold(true);
    rest' := RightStep(now, a, k, s, i, rest);
  }

  lemma {:induction false} RightEnd(now: seq<uint32>, a: seq<uint32>, shift: nat, rest: int)
    requires |a| == |now| && ShiftingRight(now, a, shift / 32, shift % 32, |a|, rest)
    ensures 0 < Pow(2, shift) && Val(now) == Val(a) / Pow(2, shift)
  {
    assert Unfold(true);
    ShiftWeight(shift);
    PowPositive(2, shift);
    Whole(a);
    DivMod(Val(a), Pow(2, shift), Val(now), rest);
  }

  // ----- comparison and bits

  /** The highest limb that differs decides. */
  lemma {:induction false} TopDecides(x: seq<uint32>, y: seq<uint32>, i: nat)
    requires i < |x| == |y| && x[i + 1..] == y[i + 1..] && x[i] < y[i]
    ensures Val(x) < Val(y)
  {
    var p := Pow(BASE, i);
    ValSplit(x, i + 1);
    ValSplit(y, i + 1);
    ValTake(x, i);
    ValTake(y, i);
    ValBound(x[..i]);
    MulAtMost(x[i] + 1, y[i], p);
    Distribute(x[i], 1, p);
  }

  lemma {:induction false} SameFrom(x: seq<uint32>, y: seq<uint32>, i: nat)
    requires i < |x| == |y| && x[i + 1..] == y[i + 1..] && x[i] == y[i]
    ensures x[i..] == y[i..]
  {
    assert x[i..] == [x[i]] + x[i + 1..] && y[i..] == [y[i]] + y[i + 1..];
  }

  lemma {:induction false} SquareOfBase()
    ensures Pow(BASE, 2) == 0x1_0000_0000_0000_0000
  {
    assert Pow(BASE, 1) == BASE * Pow(BASE, 0);
  }

  lemma {:induction false} Heavy(low: int, x: int, p: int, q: int, rest: int)
    requires 0 <= low && 1 <= x && 0 <= p && 0 <= q && 0 <= rest
    ensures p <= low + x * p + q * rest
  {
    MulAtMost(1, x, p);
    MulAtMost(0, q, rest);
  }

  lemma {:induction false} LargeLimb(s: seq<uint32>, i: nat)
    requires 2 <= i < |s| && s[i] != 0
    ensures Val(s) >= 0x1_0000_0000_0000_0000
  {
    ValSplit(s, i + 1);
    ValTake(s, i);
    Heavy(Val(s[..i]), s[i], Pow(BASE, i), Pow(BASE, i + 1), Val(s[i + 1..]));
    PowMonotone(BASE, 2, i);
    SquareOfBase();
  }

  lemma {:induction false} LowLimbs(s: seq<uint32>)
    requires 2 <= |s| && forall j :: 2 <= j < |s| ==> s[j] == 0
    ensures Val(s) == s[0] + s[1] * BASE
  {
    ValSplit(s, 2);
    ValZero(s[2..]);
    ValTake(s, 0);
    ValTake(s, 1);
    assert Pow(BASE, 1) == BASE * Pow(BASE, 0);
  }

  lemma {:induction false} LowHalf(s: seq<uint32>)
    requires 2 <= |s|
    ensures Or(s[0], s[1] * BASE) == Val(s) % 0x1_0000_0000_0000_0000
  {
    ValSplit(s, 2);
    ValTake(s, 0);
    ValTake(s, 1);
    SquareOfBase();
    assert Pow(BASE, 1) == BASE * Pow(BASE, 0);
    TwoTo32();
    DivExact(s[1], BASE);
    OrDisjoint(s[0], s[1] * BASE, 32);
    ModOf(Val(s), 0x1_0000_0000_0000_0000, Val(s[2..]), s[0] + s[1] * BASE);
  }

  /** `r` is the number of bits of `v`. */
  ghost predicate HasBits(v: nat, r: nat) {
    if r == 0 then v == 0 else Pow(2, r - 1) <= v < Pow(2, r)
  }

  lemma {:induction false} HighBitOf(x: nat, d: nat)
    requires 0 < d && x < 2 * d
    ensures (x / d) % 2 == 1 <==> d <= x
  {
    if d <= x {
      DivMod(x, d, 1, x - d);
    } else {
      DivMod(x, d, 0, x);
    }
  }

  lemma {:induction false} HighBit(x: nat, n: nat)
    requires x < Pow(2, n + 1)
    ensures 0 < Pow(2, n) && ((x / Pow(2, n)) % 2 == 1 <==> Pow(2, n) <= x)
  {
    PowPositive(2, n);
    HighBitOf(x, Pow(2, n));
  }

  lemma {:induction false} Between(low: int, x: int, p: int, a: int, b: int)
    requires 0 <= low < p && a <= x < b
    ensures a * p <= low + x * p < b * p
  {
    MulAtMost(a, x, p);
    MulAtMost(x + 1, b, p);
    Distribute(x, 1, p);
  }

  lemma {:induction false} TopBits(s: seq<uint32>, pos: nat, n: nat)
    requires pos < |s| && (forall j :: pos < j < |s| ==> s[j] == 0) && Pow(2, n) <= s[pos] < Pow(2, n + 1)
    ensures HasBits(Val(s), 32 * pos + n + 1)
  {
    TopLimb(s, pos);
    ValBound(s[..pos]);
    Between(Val(s[..pos]), s[pos], Pow(BASE, pos), Pow(2, n), Pow(2, n + 1));
    BitWeight(pos, n);
    BitWeight(pos, n + 1);
  }

  lemma {:induction false} TopLimb(s: seq<uint32>, pos: nat)
    requires pos < |s| && forall j :: pos < j < |s| ==> s[j] == 0
    ensures Val(s) == Val(s[..pos]) + s[pos] * Pow(BASE, pos)
  {
    ValSplit(s, pos + 1);
    ValZero(s[pos + 1..]);
    ValTake(s, pos);
  }

  lemma {:induction false} BitWeight(pos: nat, n: nat)
    ensures Pow(2, 32 * pos + n) == Pow(2, n) * Pow(BASE, pos)
  {
    TwoTo32();
    PowPow(2, 32, pos);
    PowAdd(2, n, 32 * pos);
  }

  // ----- division

  /** The lowest `n` bits are zero. */
  ghost predicate LowClear(x: nat, n: nat) {
    forall b {:trigger Unfold(b)} :: Unfold(b) ==> 0 < Pow(2, n) && x % Pow(2, n) == 0
  }

  lemma {:induction false} LowClearZero(n: nat)
    ensures LowClear(0, n)
  {
    PowPositive(2, n);
  }

  lemma {:induction false} LowClearLess(x: nat, n: nat)
    requires LowClear(x, n + 1)
    ensures LowClear(x, n) && LowClear(x + Pow(2, n), n)
  {
    assert Unfold(true);
    PowPositive(2, n);
    DoubleMultiple(x, Pow(2, n));
  }

  lemma {:induction false} DoubleMultiple(x: nat, d: nat)
    requires 0 < d && x % (2 * d) == 0
    ensures x % d == 0 && (x + d) % d == 0
  {
    var q := x / (2 * d);
    assert x == q * (2 * d);
    Assoc(q, 2, d);
    DivExact(q * 2, d);
    Distribute(q * 2, 1, d);
    DivExact(q * 2 + 1, d);
  }

  /** Limbs below the next bit are zero, and so are the bits of its limb from there down. */
  ghost predicate QuotientSoFar(s: seq<uint32>, shift: int) {
    && (forall j :: 0 <= j < |s| && 32 * (j + 1) <= shift + 1 ==> s[j] == 0)
    && (0 <= shift && shift / 32 < |s| ==> LowClear(s[shift / 32], shift % 32 + 1))
  }

  lemma {:induction false} QuotientStart(s: seq<uint32>, shift: nat)
    requires forall j :: 0 <= j < |s| ==> s[j] == 0
    ensures QuotientSoFar(s, shift)
  {
    LowClearZero(shift % 32 + 1);
  }

  lemma {:induction false} BitWord(s: nat)
    requires s < 32
    ensures 0 < Pow(2, s) < BASE
  {
    PowSplit(s);
    PowMonotone(2, s + 1, 32);
  }

  /** From one bit to the next lower one. */
  lemma {:induction false} NextBit(was: seq<uint32>, now: seq<uint32>, shift: nat)
    requires shift / 32 < |was| == |now| && QuotientSoFar(was, shift) && now == was[shift / 32 := now[shift / 32]]
    requires LowClear(now[shift / 32], shift % 32)
    ensures QuotientSoFar(now, shift - 1)
  {
    var p, t := shift / 32, shift % 32;
    assert shift == 32 * p + t;
    if t > 0 {
      assert (shift - 1) / 32 == p && (shift - 1) % 32 + 1 == t;
    } else if p > 0 {
      assert (shift - 1) / 32 == p - 1 && (shift - 1) % 32 + 1 == 32;
      LowClearZero(32);
    }
  }

  lemma {:induction false} QuotientSkip(s: seq<uint32>, shift: nat)
    requires shift / 32 < |s| && QuotientSoFar(s, shift)
    ensures QuotientSoFar(s, shift - 1)
  {
    LowClearLess(s[shift / 32], shift % 32);
    NextBit(s, s, shift);
  }

  lemma {:induction false} OrBit(x: uint32, t: nat)
    requires t < 32 && LowClear(x, t + 1)
    ensures Or(x, Pow(2, t)) == x + Pow(2, t) < BASE && LowClear(x + Pow(2, t), t)
  {
    LowClearLess(x, t);
    assert Unfold(true);
    PowPositive(2, t);
    OrDisjoint(Pow(2, t), x, t + 1);
    BitWord(t);
    TwoTo32();
    OrBound(x, Pow(2, t), 32);
  }

  lemma {:induction false} BitSet(was: seq<uint32>, shift: nat)
    requires shift / 32 < |was| && QuotientSoFar(was, shift) && 0 < Pow(2, shift % 32) < BASE
    ensures Val(SetOr(was, shift / 32, Pow(2, shift % 32))) == Val(was) + Pow(2, shift)
    ensures QuotientSoFar(SetOr(was, shift / 32, Pow(2, shift % 32)), shift - 1)
  {
    var p, t := shift / 32, shift % 32;
    OrBit(was[p], t);
    var now := was[p := was[p] + Pow(2, t)];
    ValUpdate(was, p, was[p] + Pow(2, t));
    BitWeight(p, t);
    NextBit(was, now, shift);
  }

  /** The dividend is the remainder so far and the quotient so far; the divisor is aligned. */
  ghost predicate Dividing(q: nat, num: int, div: int, n: nat, d: nat, shift: int)
    requires -1 <= shift
  {
    forall b {:trigger Unfold(b)} :: Unfold(b) ==>
      && 0 < d && n == num + q * d && 0 <= num < d * Pow(2, shift + 1)
      && (0 <= shift ==> div == d * Pow(2, shift))
  }

  lemma {:induction false} FewerBits(n: nat, nBits: nat, d: nat, dBits: nat)
    requires HasBits(n, nBits) && HasBits(d, dBits) && nBits < dBits
    ensures 0 < d && n / d == 0
  {
    PowMonotone(2, nBits, dBits - 1);
    PowPositive(2, dBits - 1);
    assert Pow(2, 0) == 1;
    DivMod(n, d, 0, n);
  }

  lemma {:induction false} DivStart(n: nat, d: nat, nBits: nat, dBits: nat, width: nat)
    requires HasBits(n, nBits) && HasBits(d, dBits) && 0 < dBits <= nBits <= 32 * width
    ensures (d * Pow(2, nBits - dBits)) % Modulus(width) == d * Pow(2, nBits - dBits)
    ensures Dividing(0, n, d * Pow(2, nBits - dBits), n, d, nBits - dBits)
  {
    var shift := nBits - dBits;
    PowAdd(2, dBits, shift);
    PowAdd(2, dBits - 1, shift + 1);
    PowPositive(2, shift);
    PowPositive(2, shift + 1);
    PowPositive(2, dBits - 1);
    PowMonotone(2, nBits, 32 * width);
    BitWeight(width, 0);
    assert Pow(2, 0) == 1;
    MulLess(d, Pow(2, dBits), Pow(2, shift));
    MulAtMost(Pow(2, dBits - 1), d, Pow(2, shift + 1));
    MulAtMost(0, d, Pow(2, shift));
    DivMod(d * Pow(2, shift), Modulus(width), 0, d * Pow(2, shift));
  }

  lemma {:induction false} SubStep(q: nat, num: nat, div: nat, n: nat, d: nat, shift: nat, m: nat)
    requires Dividing(q, num, div, n, d, shift) && div <= num < m
    ensures (num - div) % m == num - div
    ensures 0 < Pow(2, 1) && Dividing(q + Pow(2, shift), num - div, div / Pow(2, 1), n, d, shift - 1)
  {
    assert Unfold(true);
    DivMod(num - div, m, 0, num - div);
    var p := Pow(2, shift);
    Distribute(q, p, d);
    assert d * (2 * p) == d * p + d * p;
    HalfDivisor(d, div, shift);
  }

  lemma {:induction false} SkipStep(q: nat, num: nat, div: nat, n: nat, d: nat, shift: nat)
    requires Dividing(q, num, div, n, d, shift) && num < div
    ensures 0 < Pow(2, 1) && Dividing(q, num, div / Pow(2, 1), n, d, shift - 1)
  {
    assert Unfold(true);
    HalfDivisor(d, div, shift);
  }

  lemma {:induction false} HalfDivisor(d: nat, div: nat, shift: nat)
    requires div == d * Pow(2, shift)
    ensures Pow(2, 1) == 2 && (0 < shift ==> div / 2 == d * Pow(2, shift - 1))
  {
    assert Pow(2, 1) == 2 * Pow(2, 0);
    if 0 < shift {
      Rotate(d, 2, Pow(2, shift - 1));
    }
  }

  lemma {:induction false} DivEnd(q: nat, num: nat, div: nat, n: nat, d: nat)
    requires Dividing(q, num, div, n, d, -1)
    ensures 0 < d && q == n / d
  {
    assert Unfold(true);
    assert Pow(2, 0) == 1;
    DivMod(n, d, q, num);
  }
}
