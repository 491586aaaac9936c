/**
 The compact encoding of targets and the work of a block (`arith_uint256.cpp`, `chain.cpp`).

 A compact number has an exponent byte, a sign bit and 23 bits of mantissa; it stands for
 mantissa * 256^(exponent - 3).
*/
module Compact {
  import opened Numbers
  import opened Limbs
  import opened ArithUint

  const WIDTH: nat := 8
  const SIGN: nat := 0x80_0000
  const HIGH: nat := 0x100_0000

  // ----- what the encoding means

  function Exponent(c: nat): nat {
    c / HIGH
  }

  function Word(c: nat): nat {
    c % SIGN
  }

  function SignBit(c: nat): bool {
    (c / SIGN) % 2 == 1
  }

  /** The number before reduction modulo 2^256. */
  ghost function Target(c: nat): nat {
    if Exponent(c) <= 3 then
      PowPositive(256, 3 - Exponent(c));
      Quotient(Word(c), Pow(256, 3 - Exponent(c)))
    else Times(Word(c), Pow(256, Exponent(c) - 3))
  }

  function Quotient(x: nat, d: nat): nat
    requires 0 < d
  {
    x / d
  }

  function Times(x: nat, y: nat): nat {
    MulAtMost(0, x, y);
    x * y
  }

  ghost function Limit(): nat {
    Modulus(WIDTH)
  }

  /** The number of bytes. */
  ghost function Bytes(x: nat): nat {
    if x == 0 then 0 else 1 + Bytes(x / 256)
  }

  /** The three most significant bytes. */
  ghost function Top(x: nat): nat {
    PowPositive(256, if Bytes(x) <= 3 then 0 else Bytes(x) - 3);
    if Bytes(x) <= 3 then x * Pow(256, 3 - Bytes(x)) else x / Pow(256, Bytes(x) - 3)
  }

  /** Mantissa and exponent; the mantissa moves down a byte when it would touch the sign bit. */
  ghost function Mantissa(x: nat): nat {
    if Top(x) < SIGN then Top(x) else Top(x) / 256
  }

  ghost function Scale(x: nat): nat {
    if Top(x) < SIGN then Bytes(x) else Bytes(x) + 1
  }

  ghost function Encoded(x: nat, negative: bool): nat {
    Mantissa(x) + Scale(x) * HIGH + if negative && Mantissa(x) != 0 then SIGN else 0
  }

  // ----- bytes

  lemma {:induction false} BytesBound(x: nat)
    ensures x < Pow(256, Bytes(x)) && (0 < x ==> 0 < Bytes(x) && Pow(256, Bytes(x) - 1) <= x)
  {
    if x > 0 {
      BytesBound(x / 256);
      assert x == 256 * (x / 256) + x % 256;
      if x / 256 == 0 {
        assert Bytes(0) == 0 && Pow(256, 0) == 1;
      }
    }
  }

  lemma {:induction false} BytesUnique(x: nat, n: nat)
    requires 0 < n && Pow(256, n - 1) <= x < Pow(256, n)
    ensures Bytes(x) == n
    decreases n
  {
    PowPositive(256, n - 1);
    if n == 1 {
      assert Pow(256, 0) == 1 && Pow(256, 1) == 256 * Pow(256, 0);
      assert Bytes(x / 256) == 0;
    } else {
      assert Pow(256, n) == 256 * Pow(256, n - 1) && Pow(256, n - 1) == 256 * Pow(256, n - 2);
      BytesUnique(x / 256, n - 1);
    }
  }

  lemma {:induction false} SmallPowers()
    ensures Pow(256, 0) == 1 && Pow(256, 1) == 256 && Pow(256, 2) == 0x1_0000 && Pow(256, 3) == HIGH
  {
    assert Pow(256, 1) == 256 * Pow(256, 0);
    assert Pow(256, 2) == 256 * Pow(256, 1);
    assert Pow(256, 3) == 256 * Pow(256, 2);
  }

  /** Three bytes, the first of them not zero. */
  lemma {:induction false} TopRange(x: nat)
    requires 0 < x
    ensures 0x1_0000 <= Top(x) < HIGH
  {
    var n := Bytes(x);
    BytesBound(x);
    SmallPowers();
    if n <= 3 {
      PowAdd(256, n, 3 - n);
      PowAdd(256, n - 1, 3 - n);
      PowPositive(256, 3 - n);
      MulLess(x, Pow(256, n), Pow(256, 3 - n));
      MulAtMost(Pow(256, n - 1), x, Pow(256, 3 - n));
    } else {
      PowAdd(256, 3, n - 3);
      PowAdd(256, 2, n - 3);
      PowPositive(256, n - 3);
      DivLess(x, Pow(256, n - 3), HIGH);
      DivAtLeast(x, Pow(256, n - 3), 0x1_0000);
    }
  }

  lemma {:induction false} MantissaRange(x: nat)
    ensures Mantissa(x) < SIGN && (0 < x ==> 0x8000 <= Mantissa(x)) && (x == 0 ==> Mantissa(x) == 0 && Scale(x) == 0)
  {
    if 0 < x {
      TopRange(x);
    } else {
      assert Bytes(0) == 0;
    }
  }

  /** Fields of an encoding without sign. */
  lemma {:induction false} Fields(m: nat, s: nat)
    requires m < SIGN
    ensures var c := m + s * HIGH; Exponent(c) == s && Word(c) == m && !SignBit(c)
  {
    var c := m + s * HIGH;
    DivMod(c, HIGH, s, m);
    DivMod(c, SIGN, 2 * s, m);
  }

  // ----- the round trip

  /** What decoding gives back: the number with its low bytes cut off. */
  lemma {:induction false} DecodedIs(x: nat)
    ensures var c := Encoded(x, false);
      && Exponent(c) == Scale(x) && Word(c) == Mantissa(x) && !SignBit(c)
      && (if Scale(x) <= 3 then Target(c) == x
          else 0 < Pow(256, Scale(x) - 3) && Target(c) == (x / Pow(256, Scale(x) - 3)) * Pow(256, Scale(x) - 3))
  {
    MantissaRange(x);
    Fields(Mantissa(x), Scale(x));
    if Scale(x) <= 3 {
      SmallDecoded(x);
    } else {
      LargeDecoded(x);
    }
  }

  lemma {:induction false} SmallDecoded(x: nat)
    requires Scale(x) <= 3
    ensures 0 < Pow(256, 3 - Scale(x)) && Mantissa(x) / Pow(256, 3 - Scale(x)) == x
  {
    var n := Bytes(x);
    PowPositive(256, 3 - Scale(x));
    if Top(x) < SIGN {
      DivExact(x, Pow(256, 3 - n));
    } else {
      var p := Pow(256, 2 - n);
      assert Pow(256, 3 - n) == 256 * p;
      Rotate(x, 256, p);
      assert Top(x) == 256 * (x * p);
      assert Top(x) / 256 == x * p;
      DivExact(x, p);
    }
  }

  lemma {:induction false} LargeDecoded(x: nat)
    requires 3 < Scale(x)
    ensures 0 < Pow(256, Scale(x) - 3) && Mantissa(x) == x / Pow(256, Scale(x) - 3)
  {
    var n := Bytes(x);
    PowPositive(256, Scale(x) - 3);
    if Top(x) >= SIGN {
      SmallPowers();
      if n == 3 {
        assert Top(x) == x * Pow(256, 0) == x;
      } else {
        PowPositive(256, n - 3);
        DivDiv(x, Pow(256, n - 3), 256);
        assert Pow(256, n - 2) == 256 * Pow(256, n - 3);
      }
    } else if n == 3 {
      assert false;
    }
  }

  /** The number of bytes of a mantissa and its power. */
  lemma {:induction false} ScaledBytes(m: nat, n: nat, k: nat)
    requires k < n && Pow(256, n - 1 - k) <= m < Pow(256, n - k)
    ensures Bytes(m * Pow(256, k)) == n
  {
    PowAdd(256, n - 1 - k, k);
    PowAdd(256, n - k, k);
    PowPositive(256, k);
    MulAtMost(Pow(256, n - 1 - k), m, Pow(256, k));
    MulLess(m, Pow(256, n - k), Pow(256, k));
    BytesUnique(m * Pow(256, k), n);
  }

  /** Cutting off the low bytes does not change the encoding. */
  lemma {:induction false} CutKeepsEncoding(x: nat)
    requires 3 < Scale(x)
    ensures var y := Mantissa(x) * Pow(256, Scale(x) - 3); Mantissa(y) == Mantissa(x) && Scale(y) == Scale(x)
  {
    var n, m := Bytes(x), Mantissa(x);
    MantissaRange(x);
    TopRange(x);
    SmallPowers();
    if Top(x) < SIGN {
      ScaledBytes(m, n, n - 3);
      PowPositive(256, n - 3);
      DivExact(m, Pow(256, n - 3));
    } else {
      ScaledBytes(m, n, n - 2);
      HighCut(m, n);
    }
  }

  lemma {:induction false} HighCut(m: nat, n: nat)
    requires 3 <= n && 0x8000 <= m < 0x1_0000 && Bytes(m * Pow(256, n - 2)) == n
    ensures Top(m * Pow(256, n - 2)) == m * 256
  {
    SmallPowers();
    if n > 3 {
      var p := Pow(256, n - 3);
      PowPositive(256, n - 3);
      assert Pow(256, n - 2) == 256 * p;
      Assoc(m, 256, p);
      DivExact(m * 256, p);
    }
  }

  lemma {:induction false} LimitIs()
    ensures Limit() == Pow(256, 32)
  {
    SmallPowers();
    PowAdd(256, 2, 2);
    assert Pow(256, 4) == BASE;
    PowPow(256, 4, 8);
  }

  lemma {:induction false} BytesAtMost(x: nat, n: nat)
    requires x < Pow(256, n)
    ensures Bytes(x) <= n
  {
    BytesBound(x);
    if Bytes(x) > n {
      PowMonotone(256, n, Bytes(x) - 1);
    }
  }

  lemma {:induction false} CutLoss(x: nat, p: nat)
    requires 0 < p
    ensures (x / p) * p <= x && x - (x / p) * p < p
  {
    assert x == (x / p) * p + x % p;
  }

  /** At most the low bytes are lost, and the result has the same encoding. */
  lemma {:induction false} DecodedClose(x: nat)
    ensures var y := Target(Encoded(x, false));
      && y <= x && x - y < Pow(256, if Scale(x) <= 3 then 0 else Scale(x) - 3)
      && Mantissa(y) == Mantissa(x) && Scale(y) == Scale(x)
  {
    DecodedIs(x);
    if Scale(x) <= 3 {
      SmallPowers();
    } else {
      LargeDecoded(x);
      CutKeepsEncoding(x);
      CutLoss(x, Pow(256, Scale(x) - 3));
    }
  }

  /** Encoding and decoding a 256-bit number: no flag, at most the low bytes lost, and the result
      has the same encoding. */
  lemma {:induction false} CompactRoundTrip(x: nat)
    requires x < Limit()
    ensures var c := Encoded(x, false);
      && c < BASE && !SignBit(c) && Target(c) < Limit()
      && Target(c) <= x && x - Target(c) < Pow(256, if Exponent(c) <= 3 then 0 else Exponent(c) - 3)
      && Encoded(Target(c), false) == c
  {
    DecodedIs(x);
    DecodedClose(x);
    LimitIs();
    BytesAtMost(x, 32);
    MantissaRange(x);
  }

  /** The flag that decoding raises for a negative number: the sign is set and the number does not vanish. */
  ghost predicate NegativeFlag(c: nat) {
    SignBit(c) && (if Exponent(c) <= 3 then Target(c) else Word(c)) != 0
  }

  /** Fields of an encoding with sign. */
  lemma {:induction false} SignedFields(m: nat, s: nat)
    requires m < SIGN
    ensures var c := m + s * HIGH + SIGN; Exponent(c) == s && Word(c) == m && SignBit(c)
  {
    var c := m + s * HIGH + SIGN;
    DivMod(c, HIGH, s, m + SIGN);
    DivMod(c, SIGN, 2 * s + 1, m);
  }

  /** With a negative sign the same target comes back, and decoding raises the flag exactly if the number is not zero. */
  lemma {:induction false} NegativeRoundTrip(x: nat)
    ensures var c := Encoded(x, true);
      && Target(c) == Target(Encoded(x, false))
      && (NegativeFlag(c) <==> x != 0) && (x != 0 <==> Mantissa(x) != 0) && !NegativeFlag(Encoded(x, false))
  {
    MantissaRange(x);
    DecodedIs(x);
    if x != 0 {
      SignedFields(Mantissa(x), Scale(x));
    }
  }

  // ----- the code

  /** The flag for numbers that do not fit is exact. */
  predicate Overflows(word: nat, size: nat) {
    word != 0 && (size > 34 || (word > 0xff && size > 33) || (word > 0xffff && size > 32))
  }

  lemma {:induction false} OverflowExact(word: nat, size: nat)
    requires word < SIGN && 3 < size
    ensures Overflows(word, size) <==> Limit() <= word * Pow(256, size - 3)
  {
    LimitIs();
    SmallPowers();
    if word == 0 {
      PowPositive(256, 32);
    } else if size > 34 {
      PowMonotone(256, 32, size - 3);
      MulAtMost(1, word, Pow(256, size - 3));
    } else if size == 34 {
      WordAgainst(word, 1);
    } else if size == 33 {
      WordAgainst(word, 2);
    } else {
      ShortWord(word, size);
    }
  }

  lemma {:induction false} ShortWord(word: nat, size: nat)
    requires word < SIGN && 3 < size <= 32
    ensures word * Pow(256, size - 3) < Pow(256, 32)
  {
    SmallPowers();
    PowMonotone(256, size - 3, 29);
    PowAdd(256, 3, 29);
    PowPositive(256, 29);
    MulLess(word, HIGH, Pow(256, 29));
    MulAtMost(Pow(256, size - 3), Pow(256, 29), word);
  }

  lemma {:induction false} WordAgainst(word: nat, k: nat)
    requires k <= 32
    ensures Pow(256, 32) <= word * Pow(256, 32 - k) <==> Pow(256, k) <= word
  {
    PowAdd(256, k, 32 - k);
    PowPositive(256, 32 - k);
    if Pow(256, k) <= word {
      MulAtMost(Pow(256, k), word, Pow(256, 32 - k));
    } else {
      MulLess(word, Pow(256, k), Pow(256, 32 - k));
    }
  }

  lemma {:induction false} ByteShift(k: nat)
    ensures Pow(2, 8 * k) == Pow(256, k)
  {
    assert Pow(2, 8) == 256;
    PowPow(2, 8, k);
  }

  lemma {:induction false} LimitLarge()
    ensures HIGH < Limit()
  {
    LimitIs();
    SmallPowers();
    PowMonotone(256, 4, 32);
    assert Pow(256, 4) == 256 * Pow(256, 3);
  }

  /** Set a number from its compact form, with the flags for a negative and a too large number. */
  method SetCompact(x: BaseUint, c: uint32) returns (negative: bool, overflow: bool)
    requires x.Valid() && x.pn.Length == WIDTH
    modifies x.pn
    ensures x.Value() == Target(c) % Limit()
    ensures overflow <==> Limit() <= Target(c)
    ensures negative <==> NegativeFlag(c)
  {
    var size, word := c / HIGH, c % SIGN;
    LimitLarge();
    if size <= 3 {
      ByteShift(3 - size);
      PowPositive(256, 3 - size);
      WordShift(word, Pow(256, 3 - size));
      word := word / Pow(2, 8 * (3 - size));
      x.SetWord(word);
      DivMod(word, Limit(), 0, word);
    } else {
      x.SetWord(word);
      ByteShift(size - 3);
      x.ShiftLeft(8 * (size - 3));
      OverflowExact(word, size);
    }
    negative := word != 0 && (c / SIGN) % 2 == 1;
    overflow := Overflows(word, size);
  }

  lemma {:induction false} WordShift(word: nat, p: nat)
    requires 0 < p
    ensures word / p <= word
  {
    MulAtMost(1, p, word);
    DivLess(word, p, word + 1);
  }

  lemma {:induction false} BitsToBytes(v: nat, bits: nat)
    requires HasBits(v, bits)
    ensures (bits + 7) / 8 == Bytes(v)
  {
    if bits > 0 {
      var n := (bits + 7) / 8;
      ByteShift(n);
      ByteShift(n - 1);
      PowMonotone(2, bits, 8 * n);
      PowMonotone(2, 8 * (n - 1), bits - 1);
      BytesUnique(v, n);
    }
  }

  /** Word or of mantissa, exponent and sign. */
  lemma {:induction false} Assembled(m: nat, s: nat)
    requires m < SIGN && s < 256
    ensures Or(m, s * HIGH) == m + s * HIGH < BASE
    ensures (m + s * HIGH) % SIGN == m && Or(m + s * HIGH, SIGN) == m + s * HIGH + SIGN < BASE
  {
    TwoPowers();
    DivExact(s, HIGH);
    OrDisjoint(m, s * HIGH, 24);
    DivMod(m + s * HIGH, SIGN, 2 * s, m);
    DivExact(s, HIGH);
    OrDisjoint(m, SIGN, 23);
    SignOr(m, s);
  }

  lemma {:induction false} TwoPowers()
    ensures Pow(2, 23) == SIGN && Pow(2, 24) == HIGH
  {
    ByteShift(3);
    SmallPowers();
    assert Pow(2, 24) == 2 * Pow(2, 23);
  }

  /** The sign bit lies between mantissa and exponent. */
  lemma {:induction false} SignOr(m: nat, s: nat)
    requires m < SIGN
    ensures Or(m + s * HIGH, SIGN) == m + s * HIGH + SIGN
  {
    TwoPowers();
    OrSplit(m, s * HIGH, SIGN, 24);
    DivExact(s, HIGH);
    OrDisjoint(m, SIGN, 23);
  }

  /** Bits above `n` do not meddle with those below. */
  lemma {:induction false} OrSplit(x: nat, y: nat, z: nat, n: nat)
    requires x < Pow(2, n) && z < Pow(2, n) && 0 < Pow(2, n) && y % Pow(2, n) == 0
    ensures Or(x + y, z) == Or(x, z) + y
    decreases n
  {
    if n == 0 {
      OrZero(y);
      OrZero(0);
    } else {
      var p := Pow(2, n - 1);
      PowPositive(2, n - 1);
      var q := y / (2 * p);
      assert y == q * (2 * p);
      Rotate(q, 2, p);
      DivExact(q, p);
      OrSplit(x / 2, y / 2, z / 2, n - 1);
      assert (x + y) / 2 == x / 2 + y / 2;
    }
  }

  /** The three leading bytes of a number. */
  method LeadingBytes(x: BaseUint, size: nat) returns (compact: uint64)
    requires x.Valid() && x.pn.Length == WIDTH && size == Bytes(x.Value())
    ensures compact == Top(x.Value())
  {
    ghost var v := x.Value();
    TopSmall(v);
    if size <= 3 {
      var low := x.GetLow64();
      ByteShift(3 - size);
      DivMod(v, 0x1_0000_0000_0000_0000, 0, v);
      compact := low * Pow(2, 8 * (3 - size));
    } else {
      var bn := new BaseUint.Copy(x);
      ByteShift(size - 3);
      bn.ShiftRight(8 * (size - 3));
      compact := bn.GetLow64();
      DivMod(Top(v), 0x1_0000_0000_0000_0000, 0, Top(v));
    }
  }

  lemma {:induction false} TopSmall(v: nat)
    ensures Top(v) < HIGH && (Bytes(v) <= 3 ==> v < HIGH)
  {
    SmallPowers();
    BytesBound(v);
    if v > 0 {
      TopRange(v);
    }
    if Bytes(v) <= 3 {
      PowMonotone(256, Bytes(v), 3);
    }
  }

  /** Mantissa, exponent and sign from the leading bytes. */
  method Assemble(top: uint64, bytes: nat, negative: bool) returns (c: uint32)
    requires top < HIGH && bytes <= 32
    ensures var m := if top < SIGN then top else top / 256; var s := if top < SIGN then bytes else bytes + 1;
      c == m + s * HIGH + if negative && m != 0 then SIGN else 0
  {
    var compact, size := top, bytes;
    if (compact / SIGN) % 2 == 1 {
      compact := compact / 256;
      size := size + 1;
    }
    Assembled(compact, size);
    c := Or(compact, size * HIGH);
    if negative && c % SIGN != 0 {
      c := Or(c, SIGN);
    }
  }

  /** The compact form of a number. */
  method GetCompact(x: BaseUint, negative: bool) returns (c: uint32)
    requires x.Valid() && x.pn.Length == WIDTH
    ensures c == Encoded(x.Value(), negative)
  {
    var bits := x.Bits();
    BitsToBytes(x.Value(), bits);
    var size := (bits + 7) / 8;
    var top := LeadingBytes(x, size);
    TopSmall(x.Value());
    c := Assemble(top, size, negative);
  }

  // ----- the work of a block

  lemma {:induction false} ProofFormula(t: nat, m: nat)
    requires 0 < t && t + 1 < m
    ensures (m - 1 - t) / (t + 1) + 1 == m / (t + 1)
  {
    var d := t + 1;
    var q, r := m / d, m % d;
    assert m == q * d + r;
    Distribute(q - 1, 1, d);
    DivMod(m - d, d, q - 1, r);
  }

  /** A target that is not too large leaves room for one more. */
  lemma {:induction false} TargetRoom(c: nat)
    requires Target(c) < Limit()
    ensures Target(c) + 1 < Limit()
  {
    LimitIs();
    LimitLarge();
    if Exponent(c) <= 3 {
      PowPositive(256, 3 - Exponent(c));
      WordShift(Word(c), Pow(256, 3 - Exponent(c)));
    } else {
      var p := Pow(256, Exponent(c) - 4);
      assert Pow(256, Exponent(c) - 3) == 256 * p;
      Rotate(Word(c), 256, p);
      assert Pow(256, 32) == 256 * Pow(256, 31);
    }
  }

  /** 2^256 / (target + 1) without the number 2^256. */
  method Work(target: BaseUint) returns (r: BaseUint)
    requires target.Valid() && target.pn.Length == WIDTH && 0 < target.Value() && target.Value() + 1 < Limit()
    modifies target.pn
    ensures fresh(r) && fresh(r.pn) && r.Valid() && r.pn.Length == WIDTH
    ensures r.Value() == Limit() / (old(target.Value()) + 1)
  {
    ghost var t, m := target.Value(), Limit();
    var one := new BaseUint.Zero(WIDTH);
    one.SetWord(1);
    r := target.Complement();
    target.Add(one);
    DivMod(t + 1, m, 0, t + 1);
    var _ := r.Div(target);
    ProofFormula(t, m);
    QuotientRoom(m - 1 - t, t + 1, m);
    r.Add(one);
  }

  /** Neither flagged nor zero. */
  ghost predicate ValidTarget(c: nat) {
    && !(SignBit(c) && (if Exponent(c) <= 3 then Target(c) else Word(c)) != 0)
    && 0 < Target(c) < Limit()
  }

  /** The expected number of hashes for a block, 0 for an invalid target. */
  method GetBlockProof(nBits: uint32) returns (r: BaseUint)
    ensures r.Valid() && r.pn.Length == WIDTH
    ensures r.Value() == if ValidTarget(nBits) then Limit() / (Target(nBits) + 1) else 0
  {
    var target := new BaseUint.Zero(WIDTH);
    var negative, overflow := SetCompact(target, nBits);
    if negative || overflow {
      r := new BaseUint.Zero(WIDTH);
      return;
    }
    DivMod(Target(nBits), Limit(), 0, Target(nBits));
    var none := target.EqualTo(0);
    if none {
      r := new BaseUint.Zero(WIDTH);
      return;
    }
    TargetRoom(nBits);
    r := Work(target);
  }

  lemma {:induction false} QuotientRoom(n: nat, d: nat, m: nat)
    requires 1 < d && n + 1 < m
    ensures (n / d + 1) % m == n / d + 1
  {
    MulAtMost(1, d, n);
    DivLess(n, d, n + 1);
    DivMod(n / d + 1, m, 0, n / d + 1);
  }
}
