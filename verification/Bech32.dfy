/**
 Bech32 and Bech32m strings (`bech32.cpp`, BIP 173 and BIP 350): a human readable part, the
 separator '1', and letters for 5-bit values of which the last six are the checksum.
*/
module Bech32 {
  import opened Common
  import opened Bech32Code

  const CHECKSUM_SIZE: nat := 6
  const SEPARATOR: char := '1'
  const CHAR_LIMIT: nat := 90

  datatype Encoding = INVALID | BECH32 | BECH32M

  datatype DecodeResult = DecodeResult(encoding: Encoding, hrp: string, data: seq<bv5>)

  function EncodingConstant(encoding: Encoding): bv32
    requires encoding != INVALID
  {
    if encoding == BECH32 then 1 else 0x2bc830a3
  }

  // ----- characters

  const CHARSET_0: string := "qpzry9x8"
  const CHARSET_1: string := "gf2tvdw0"
  const CHARSET_2: string := "s3jn54kh"
  const CHARSET_3: string := "ce6mua7l"

  /** The character set for encoding. */
  function Letter(n: nat): char
    requires n < 32
  {
    if n < 8 then CHARSET_0[n] else if n < 16 then CHARSET_1[n - 8] else if n < 24 then CHARSET_2[n - 16] else CHARSET_3[n - 24]
  }

  const DIGITS: seq<int> := [15, -1, 10, 17, 21, 20, 26, 30, 7, 5]
  const A_TO_O: seq<int> := [29, -1, 24, 13, 25, 9, 8, 23, -1, 18, 22, 31, 27, 19, -1]
  const P_TO_Z: seq<int> := [1, 0, 3, 16, 11, 28, 12, 14, 6, 4, 2]

  /** The character set for decoding, in either case; -1 for any other character. */
  function Reverse(c: char): int {
    var n := c as int;
    if 48 <= n < 58 then DIGITS[n - 48]
    else if 65 <= n < 80 then A_TO_O[n - 65]
    else if 80 <= n < 91 then P_TO_Z[n - 80]
    else if 97 <= n < 112 then A_TO_O[n - 97]
    else if 112 <= n < 123 then P_TO_Z[n - 112]
    else -1
  }

  function LowerCase(c: char): char {
    if 'A' <= c <= 'Z' then (c as int - 'A' as int + 'a' as int) as char else c
  }

  lemma {:induction false} ReverseLetter(n: nat)
    requires n < 32
    ensures Reverse(Letter(n)) == n
  {
  }

  lemma {:induction false} LetterReverse(c: char)
    requires Reverse(c) != -1
    ensures 0 <= Reverse(c) < 32 && Letter(Reverse(c)) == LowerCase(c)
  {
  }

  lemma {:induction false} ReverseLower(c: char)
    ensures Reverse(LowerCase(c)) == Reverse(c)
  {
  }

  /** The letter for a value, and the values a character stands for. */
  ghost predicate Spells(c: char, v: bv5) {
    forall b {:trigger Unfold(b)} :: Unfold(b) ==> Reverse(c) == v as int
  }

  lemma {:induction false} LetterSpells(v: bv5)
    ensures Letter(v as int) != SEPARATOR && IsPlain(Letter(v as int)) && Spells(Letter(v as int), v)
  {
    ReverseLetter(v as int);
    assert Reverse(SEPARATOR) == -1;
    LetterPlain(v as int);
  }

  lemma {:induction false} SpellsLetter(c: char, v: bv5)
    requires Spells(c, v)
    ensures Letter(v as int) == LowerCase(c)
  {
    assert Unfold(true);
    LetterReverse(c);
  }

  /** A printable character that is not an upper-case letter. */
  predicate IsPlain(c: char) {
    33 <= c as int <= 126 && !IsUpper(c)
  }

  predicate IsUpper(c: char) {
    'A' <= c <= 'Z'
  }

  predicate IsLower(c: char) {
    'a' <= c <= 'z'
  }

  lemma {:induction false} LetterPlain(n: nat)
    requires n < 32
    ensures IsPlain(Letter(n))
  {
  }

  lemma {:induction false} SpellsOne(c: char, v: bv5, w: bv5)
    requires Spells(c, v) && Spells(c, w)
    ensures v == w
  {
    assert Unfold(true);
    assert (v as int) as bv5 == v && (w as int) as bv5 == w;
  }

  // ----- the checksum

  ghost predicate IsAscii(hrp: string) {
    forall i :: 0 <= i < |hrp| ==> (hrp[i] as int) < 128
  }

  function High(c: char): bv5
    requires (c as int) < 128
  {
    (c as int / 32) as bv5
  }

  function Low(c: char): bv5
    requires (c as int) < 128
  {
    (c as int % 32) as bv5
  }

  /** The human readable part as coefficients: all high bits, a zero, all low bits. */
  ghost function Expanded(hrp: string): seq<bv5>
    requires IsAscii(hrp)
  {
    seq(|hrp|, i requires 0 <= i < |hrp| => High(hrp[i])) + [0] + seq(|hrp|, i requires 0 <= i < |hrp| => Low(hrp[i]))
  }

  method PreparePolynomialCoefficients(hrp: string, values: seq<bv5>) returns (ret: seq<bv5>)
    requires IsAscii(hrp)
    ensures ret == Expanded(hrp) + values
  {
    ret := [];
    for i := 0 to |hrp|
      invariant ret == Expanded(hrp)[..i]
    {
      ret := ret + [High(hrp[i])];
    }
    ret := ret + [0];
    for i := 0 to |hrp|
      invariant ret == Expanded(hrp)[..|hrp| + 1 + i]
    {
      ret := ret + [Low(hrp[i])];
    }
    ret := ret + values;
  }

  /** The remainder that marks an encoding. */
  ghost predicate HasChecksum(encoding: Encoding, hrp: string, values: seq<bv5>) {
    encoding != INVALID && IsAscii(hrp) && Remainder(ONE, Expanded(hrp) + values) == Unpack(EncodingConstant(encoding))
  }

  lemma {:induction false} UnpackInjective(c: bv32, d: bv32)
    requires c < 0x4000_0000 && d < 0x4000_0000 && Unpack(c) == Unpack(d)
    ensures c == d
  {
  }

  method VerifyChecksum(hrp: string, values: seq<bv5>) returns (encoding: Encoding)
    requires IsAscii(hrp)
    ensures encoding != INVALID ==> HasChecksum(encoding, hrp, values)
    ensures forall e :: HasChecksum(e, hrp, values) ==> encoding == e
  {
    var enc := PreparePolynomialCoefficients(hrp, values);
    var check := PolyMod(enc);
    forall e | HasChecksum(e, hrp, values) ensures check == EncodingConstant(e) {
      UnpackInjective(check, EncodingConstant(e));
    }
    if check == EncodingConstant(BECH32) {
      return BECH32;
    }
    if check == EncodingConstant(BECH32M) {
      return BECH32M;
    }
    return INVALID;
  }

  const ZEROS: seq<bv5> := [0, 0, 0, 0, 0, 0]

  lemma {:induction false} SumWithZeros(d: seq<bv5>)
    requires |d| == 6
    ensures IsSumOf(d, ZEROS, d)
  {
    forall i | 0 <= i < 6 ensures IsSum(d[i], ZEROS[i], d[i]) {
      assert ZEROS[i] == 0;
    }
  }

  /** The last six values are added to the remainder. */
  lemma {:induction false} LastSix(p: Poly, d: seq<bv5>)
    requires |d| == 6
    ensures IsPlus(Remainder(p, d), Remainder(p, ZEROS), FromCoefficients(d))
  {
    SumWithZeros(d);
    assert IsPlus(p, p, ZERO) by {
      assert Plus(p, ZERO) == p;
    }
    RemainderLinear(p, p, ZERO, d, ZEROS, d);
    SixIn(d);
  }

  lemma {:induction false} TwiceField(x: bv5, y: bv5)
    ensures x ^ (x ^ y) == y
  {
  }

  lemma {:induction false} Twice(m: Poly, d: Poly)
    ensures IsPlus(d, m, Plus(m, d))
  {
    TwiceField(m.c0, d.c0);
    TwiceField(m.c1, d.c1);
    TwiceField(m.c2, d.c2);
    TwiceField(m.c3, d.c3);
    TwiceField(m.c4, d.c4);
    TwiceField(m.c5, d.c5);
  }

  lemma {:induction false} Solve(x: Poly, m: Poly, d: Poly)
    requires IsPlus(x, m, d)
    ensures IsPlus(d, m, x)
  {
    PlusIs(x, m, d);
    Twice(m, d);
  }

  lemma {:induction false} SameSum(x: Poly, y: Poly, m: Poly, d: Poly)
    requires IsPlus(x, m, d) && IsPlus(y, m, d)
    ensures x == y
  {
    PlusIs(x, m, d);
    PlusIs(y, m, d);
  }

  /** Which six values complete the list. */
  lemma {:induction false} SixNeeded(encoding: Encoding, hrp: string, values: seq<bv5>, d: seq<bv5>)
    requires encoding != INVALID && IsAscii(hrp) && |d| == 6
    ensures HasChecksum(encoding, hrp, values + d)
       <==> IsPlus(FromCoefficients(d), Remainder(ONE, Expanded(hrp) + values + ZEROS), Unpack(EncodingConstant(encoding)))
  {
    var enc := Expanded(hrp) + values;
    assert Expanded(hrp) + (values + d) == enc + d;
    RemainderConcat(ONE, enc, d);
    RemainderConcat(ONE, enc, ZEROS);
    var p := Remainder(ONE, enc);
    LastSix(p, d);
    var x, m, k := Remainder(p, d), Remainder(p, ZEROS), Unpack(EncodingConstant(encoding));
    Solve(x, m, FromCoefficients(d));
    if IsPlus(FromCoefficients(d), m, k) {
      Solve(FromCoefficients(d), m, k);
      SameSum(x, k, m, FromCoefficients(d));
    }
  }

  lemma {:induction false} SixUnique(encoding: Encoding, hrp: string, values: seq<bv5>, d: seq<bv5>, e: seq<bv5>)
    requires |d| == |e| == 6 && HasChecksum(encoding, hrp, values + d) && HasChecksum(encoding, hrp, values + e)
    ensures d == e
  {
    SixNeeded(encoding, hrp, values, d);
    SixNeeded(encoding, hrp, values, e);
    SameSum(FromCoefficients(d), FromCoefficients(e), Remainder(ONE, Expanded(hrp) + values + ZEROS),
            Unpack(EncodingConstant(encoding)));
    assert d == [d[0], d[1], d[2], d[3], d[4], d[5]] && e == [e[0], e[1], e[2], e[3], e[4], e[5]];
  }

  /** The position of group `i`: 5 * (5 - i). */
  function Shift(i: nat): bv5
    requires i < 6
  {
    if i == 0 then 25 else if i == 1 then 20 else if i == 2 then 15 else if i == 3 then 10 else if i == 4 then 5 else 0
  }

  function Group(mod: bv32, i: nat): bv5
    requires i < 6
  {
    ((mod >> Shift(i)) & 31) as bv5
  }

  lemma {:induction false} GroupIs(mod: bv32)
    ensures Group(mod, 0) == Unpack(mod).c0 && Group(mod, 1) == Unpack(mod).c1 && Group(mod, 2) == Unpack(mod).c2
    ensures Group(mod, 3) == Unpack(mod).c3 && Group(mod, 4) == Unpack(mod).c4 && Group(mod, 5) == Unpack(mod).c5
  {
  }

  lemma {:induction false} UnpackSum(c: bv32, d: bv32)
    ensures IsPlus(Unpack(c ^ d), Unpack(c), Unpack(d))
  {
    UnpackPlus(c, d);
  }

  /** The 5-bit groups of `mod`, highest first. */
  method Groups(mod: bv32) returns (ret: seq<bv5>)
    ensures |ret| == CHECKSUM_SIZE && FromCoefficients(ret) == Unpack(mod)
  {
    ret := [];
    for i := 0 to CHECKSUM_SIZE
      invariant |ret| == i && forall j :: 0 <= j < i ==> ret[j] == Group(mod, j)
    {
      ret := ret + [Group(mod, i)];
    }
    GroupIs(mod);
  }

  /** The six values that complete the list; there is only one way. */
  method CreateChecksum(encoding: Encoding, hrp: string, values: seq<bv5>) returns (ret: seq<bv5>)
    requires encoding != INVALID && IsAscii(hrp)
    ensures |ret| == CHECKSUM_SIZE && HasChecksum(encoding, hrp, values + ret)
    ensures forall d :: |d| == CHECKSUM_SIZE && HasChecksum(encoding, hrp, values + d) ==> d == ret
  {
    var enc := PreparePolynomialCoefficients(hrp, values);
    enc := enc + ZEROS;
    var check := PolyMod(enc);
    var mod := check ^ EncodingConstant(encoding);
    UnpackSum(check, EncodingConstant(encoding));
    ret := Groups(mod);
    SixNeeded(encoding, hrp, values, ret);
    forall d | |d| == CHECKSUM_SIZE && HasChecksum(encoding, hrp, values + d) ensures d == ret {
      SixUnique(encoding, hrp, values, d, ret);
    }
  }

  // ----- legal characters

  predicate IsLetter(c: char) {
    IsLower(c) || IsUpper(c)
  }

  predicate Printable(c: char) {
    33 <= c as int <= 126
  }

  ghost predicate AllPrintable(str: string) {
    forall i :: 0 <= i < |str| ==> Printable(str[i])
  }

  /** Printable, and not in mixed case. */
  ghost predicate Legal(str: string) {
    && AllPrintable(str)
    && ((forall i :: 0 <= i < |str| ==> !IsUpper(str[i])) || (forall i :: 0 <= i < |str| ==> !IsLower(str[i])))
  }

  ghost predicate FirstLetter(str: string, j: int) {
    0 <= j < |str| && IsLetter(str[j]) && forall k :: 0 <= k < j ==> !IsLetter(str[k])
  }

  /** Not printable, or a letter in another case than the first one. */
  ghost predicate Offends(str: string, i: int) {
    && 0 <= i < |str|
    && (|| !Printable(str[i])
        || exists j :: j < i && FirstLetter(str, j) && IsLetter(str[i]) && IsUpper(str[i]) != IsUpper(str[j]))
  }

  ghost predicate Increasing(errors: seq<int>) {
    forall a, b :: 0 <= a < b < |errors| ==> errors[a] < errors[b]
  }

  lemma {:induction false} OneFirst(str: string, j: int, first: int)
    requires FirstLetter(str, j) && FirstLetter(str, first)
    ensures j == first
  {
  }

  lemma {:induction false} OffendsAt(str: string, i: int, first: int)
    requires 0 <= i < |str| && FirstLetter(str, first) && first <= i
    ensures Offends(str, i) <==> !Printable(str[i]) || (IsLetter(str[i]) && IsUpper(str[i]) != IsUpper(str[first]))
  {
    if IsLetter(str[i]) && IsUpper(str[i]) != IsUpper(str[first]) {
      assert first < i;
    }
    forall j | FirstLetter(str, j) ensures j == first {
      OneFirst(str, j, first);
    }
  }

  lemma {:induction false} NoFirst(str: string, n: nat)
    requires n <= |str| && forall j :: !FirstLetter(str, j)
    ensures forall i :: 0 <= i < n ==> !IsLetter(str[i])
    decreases n
  {
    if n > 0 {
      NoFirst(str, n - 1);
      assert !FirstLetter(str, n - 1);
    }
  }

  lemma {:induction false} Unprintable(str: string, i: nat)
    requires i < |str| && !Printable(str[i])
    ensures Offends(str, i)
  {
  }

  lemma {:induction false} NoOffence(str: string)
    requires forall i :: 0 <= i < |str| ==> !Offends(str, i)
    ensures Legal(str)
  {
    forall i | 0 <= i < |str| ensures Printable(str[i]) {
      if !Printable(str[i]) {
        Unprintable(str, i);
      }
    }
    if exists j :: FirstLetter(str, j) {
      var j :| FirstLetter(str, j);
      forall i | 0 <= i < |str| && IsLetter(str[i]) ensures IsUpper(str[i]) == IsUpper(str[j]) {
        OffendsAt(str, i, j);
        assert !Offends(str, i);
      }
      if IsUpper(str[j]) {
        assert forall i :: 0 <= i < |str| ==> !IsLower(str[i]);
      } else {
        assert forall i :: 0 <= i < |str| ==> !IsUpper(str[i]);
      }
    } else {
      NoFirst(str, |str|);
      assert forall i :: 0 <= i < |str| ==> !IsUpper(str[i]);
    }
  }

  lemma {:induction false} LegalIff(str: string)
    ensures Legal(str) <==> forall i :: 0 <= i < |str| ==> !Offends(str, i)
  {
    if forall i :: 0 <= i < |str| ==> !Offends(str, i) {
      NoOffence(str);
    }
  }

  method CheckCharacters(str: string) returns (ok: bool, errors: seq<int>)
    ensures ok <==> Legal(str)
    ensures Increasing(errors) && forall x :: x in errors <==> Offends(str, x)
  {
    var lower, upper := false, false;
    ghost var first := -1;
    errors := [];
    for i := 0 to |str|
      invariant first == -1 ==> !lower && !upper && forall k :: 0 <= k < i ==> !IsLetter(str[k])
      invariant first != -1 ==> first < i && FirstLetter(str, first) && lower == IsLower(str[first]) && upper == IsUpper(str[first])
      invariant forall k :: 0 <= k < |errors| ==> errors[k] < i
      invariant Increasing(errors) && forall x :: x in errors <==> x < i && Offends(str, x)
    {
      var c := str[i];
      if first == -1 && IsLetter(c) {
        first := i;
      }
      if first != -1 {
        OffendsAt(str, i, first);
      }
      if 'a' <= c <= 'z' {
        if upper {
          errors := errors + [i];
        } else {
          lower := true;
        }
      } else if 'A' <= c <= 'Z' {
        if lower {
          errors := errors + [i];
        } else {
          upper := true;
        }
      } else if c as int < 33 || c as int > 126 {
        errors := errors + [i];
      }
    }
    LegalIff(str);
    ok := errors == [];
    assert !ok ==> errors[0] in errors;
  }

  // ----- encoding and decoding

  ghost function Letters(v: seq<bv5>): string {
    seq(|v|, i requires 0 <= i < |v| => Letter(v[i] as int))
  }

  ghost function Lowered(s: string): string {
    seq(|s|, i requires 0 <= i < |s| => LowerCase(s[i]))
  }

  ghost predicate Completes(d: seq<bv5>, encoding: Encoding, hrp: string, values: seq<bv5>) {
    |d| == CHECKSUM_SIZE && HasChecksum(encoding, hrp, values + d)
  }

  /** The format of the standard: human readable part, separator, values with their checksum. */
  ghost predicate IsEncoding(s: string, encoding: Encoding, hrp: string, values: seq<bv5>) {
    exists d {:trigger Completes(d, encoding, hrp, values)} ::
      Completes(d, encoding, hrp, values) && s == hrp + [SEPARATOR] + Letters(values + d)
  }

  /** A legal string of acceptable length that is an encoding up to its case. */
  ghost predicate IsDecoding(str: string, limit: nat, encoding: Encoding, hrp: string, values: seq<bv5>) {
    Legal(str) && |str| <= limit && hrp != "" && IsEncoding(Lowered(str), encoding, hrp, values)
  }

  method AppendLetters(s: string, v: seq<bv5>) returns (ret: string)
    ensures ret == s + Letters(v)
  {
    ret := s;
    for i := 0 to |v|
      invariant ret == s + Letters(v)[..i]
    {
      ret := ret + [Letter(v[i] as int)];
    }
  }

  lemma {:induction false} LettersConcat(v: seq<bv5>, w: seq<bv5>)
    ensures Letters(v + w) == Letters(v) + Letters(w)
  {
  }

  lemma {:induction false} EncodingMade(s: string, encoding: Encoding, hrp: string, values: seq<bv5>, d: seq<bv5>)
    requires Completes(d, encoding, hrp, values) && s == hrp + [SEPARATOR] + Letters(values) + Letters(d)
    ensures IsEncoding(s, encoding, hrp, values)
  {
    LettersConcat(values, d);
    Regrouped(hrp + [SEPARATOR], Letters(values), Letters(d));
  }

  lemma {:induction false} Regrouped(a: string, b: string, c: string)
    ensures a + b + c == a + (b + c)
  {
  }

  method Encode(encoding: Encoding, hrp: string, values: seq<bv5>) returns (ret: string)
    requires encoding != INVALID
    requires forall i :: 0 <= i < |hrp| ==> !IsUpper(hrp[i])
    requires IsAscii(hrp)
    ensures IsEncoding(ret, encoding, hrp, values)
  {
    ret := hrp + [SEPARATOR];
    ret := AppendLetters(ret, values);
    var d := CreateChecksum(encoding, hrp, values);
    ret := AppendLetters(ret, d);
    EncodingMade(ret, encoding, hrp, values, d);
  }

  ghost predicate IsLastSeparator(str: string, pos: int) {
    0 <= pos < |str| && str[pos] == SEPARATOR && forall i :: pos < i < |str| ==> str[i] != SEPARATOR
  }

  /** The last separator, or -1. */
  method FindSeparator(str: string) returns (pos: int)
    ensures pos == -1 ==> forall i :: 0 <= i < |str| ==> str[i] != SEPARATOR
    ensures pos != -1 ==> IsLastSeparator(str, pos)
  {
    pos := |str| - 1;
    while pos >= 0 && str[pos] != SEPARATOR
      invariant -1 <= pos < |str|
      invariant forall i :: pos < i < |str| ==> str[i] != SEPARATOR
      decreases pos
    {
      pos := pos - 1;
    }
  }

  ghost predicate SpellAll(str: string, pos: nat, v: seq<bv5>) {
    pos + 1 + |v| == |str| && forall i :: 0 <= i < |v| ==> Spells(str[pos + 1 + i], v[i])
  }

  lemma {:induction false} SpellsNothing(str: string, pos: nat, i: nat, v: seq<bv5>)
    requires pos + 1 + i < |str| && Reverse(str[pos + 1 + i]) == -1
    ensures !SpellAll(str, pos, v)
  {
    if SpellAll(str, pos, v) {
      assert Unfold(true) && Spells(str[pos + 1 + i], v[i]);
    }
  }

  lemma {:induction false} IntBits(n: nat)
    requires n < 32
    ensures (n as bv5) as int == n
  {
  }

  lemma {:induction false} SpelledBy(c: char, n: nat)
    requires n < 32 && Reverse(c) == n
    ensures Spells(c, n as bv5)
  {
    IntBits(n);
  }

  /** Read the values after the separator, unless some character stands for none. */
  method ReadValues(str: string, pos: nat) returns (ok: bool, values: seq<bv5>)
    requires pos < |str|
    ensures ok ==> SpellAll(str, pos, values)
    ensures !ok ==> forall v :: !SpellAll(str, pos, v)
  {
    values := [];
    for i := 0 to |str| - 1 - pos
      invariant |values| == i && forall j :: 0 <= j < i ==> Spells(str[pos + 1 + j], values[j])
    {
      var c := str[i + pos + 1];
      var rev := Reverse(c);
      if rev == -1 {
        forall v ensures !SpellAll(str, pos, v) {
          SpellsNothing(str, pos, i, v);
        }
        return false, [];
      }
      LetterReverse(c);
      SpelledBy(c, rev);
      values := values + [rev as bv5];
    }
    return true, values;
  }

  method LowerAll(s: string) returns (ret: string)
    ensures ret == Lowered(s)
  {
    ret := "";
    for i := 0 to |s|
      invariant ret == Lowered(s)[..i]
    {
      ret := ret + [LowerCase(s[i])];
    }
  }

  // ----- what an encoding looks like

  lemma {:induction false} LowerSeparator(c: char)
    ensures LowerCase(c) == SEPARATOR <==> c == SEPARATOR
  {
  }

  lemma {:induction false} LowerSpells(c: char, v: bv5)
    requires LowerCase(c) == Letter(v as int)
    ensures Spells(c, v) && c != SEPARATOR
  {
    LetterSpells(v);
    ReverseLower(c);
    LowerSeparator(c);
  }

  lemma {:induction false} Shape(str: string, hrp: string, v: seq<bv5>)
    requires Lowered(str) == hrp + [SEPARATOR] + Letters(v)
    ensures |str| == |hrp| + 1 + |v| && IsLastSeparator(str, |hrp|) && SpellAll(str, |hrp|, v)
    ensures hrp == Lowered(str[..|hrp|])
  {
    var n := |hrp|;
    assert |Lowered(str)| == n + 1 + |v|;
    assert LowerCase(str[n]) == Lowered(str)[n] == SEPARATOR;
    LowerSeparator(str[n]);
    forall i | 0 <= i < |v| ensures Spells(str[n + 1 + i], v[i]) && str[n + 1 + i] != SEPARATOR {
      assert LowerCase(str[n + 1 + i]) == Lowered(str)[n + 1 + i] == Letters(v)[i];
      LowerSpells(str[n + 1 + i], v[i]);
    }
    forall i | n < i < |str| ensures str[i] != SEPARATOR {
      assert LowerCase(str[i]) == Lowered(str)[i] == Letters(v)[i - n - 1];
      LowerSpells(str[i], v[i - n - 1]);
    }
    assert hrp == Lowered(str)[..n];
  }

  lemma {:induction false} Assemble(str: string, pos: nat, v: seq<bv5>)
    requires pos < |str| && str[pos] == SEPARATOR && SpellAll(str, pos, v)
    ensures Lowered(str) == Lowered(str[..pos]) + [SEPARATOR] + Letters(v)
  {
    LowerSeparator(str[pos]);
    forall i | 0 <= i < |v| ensures LowerCase(str[pos + 1 + i]) == Letters(v)[i] {
      SpellsLetter(str[pos + 1 + i], v[i]);
    }
    forall i | 0 <= i < |str| ensures Lowered(str)[i] == (Lowered(str[..pos]) + [SEPARATOR] + Letters(v))[i] {
      if pos < i {
        assert LowerCase(str[pos + 1 + (i - pos - 1)]) == Letters(v)[i - pos - 1];
      } else if i < pos {
        assert Lowered(str[..pos])[i] == LowerCase(str[i]);
      }
    }
  }

  lemma {:induction false} SpellingUnique(str: string, pos: nat, v: seq<bv5>, w: seq<bv5>)
    requires SpellAll(str, pos, v) && SpellAll(str, pos, w)
    ensures v == w
  {
    forall i | 0 <= i < |v| ensures v[i] == w[i] {
      SpellsOne(str[pos + 1 + i], v[i], w[i]);
    }
  }

  /** All parts of a string that is an encoding are determined by it. */
  lemma {:induction false} Parts(str: string, limit: nat, encoding: Encoding, hrp: string, values: seq<bv5>) returns (d: seq<bv5>)
    requires IsDecoding(str, limit, encoding, hrp, values)
    ensures Completes(d, encoding, hrp, values) && IsLastSeparator(str, |hrp|) && SpellAll(str, |hrp|, values + d)
    ensures hrp == Lowered(str[..|hrp|])
  {
    d :| Completes(d, encoding, hrp, values) && Lowered(str) == hrp + [SEPARATOR] + Letters(values + d);
    Shape(str, hrp, values + d);
  }

  lemma {:induction false} DecodingUnique(str: string, limit: nat, e: Encoding, h: string, v: seq<bv5>,
                                          e': Encoding, h': string, v': seq<bv5>)
    requires IsDecoding(str, limit, e, h, v) && IsDecoding(str, limit, e', h', v')
    ensures e == e' && h == h' && v == v'
  {
    var d := Parts(str, limit, e, h, v);
    var d' := Parts(str, limit, e', h', v');
    assert |h| == |h'|;
    SpellingUnique(str, |h|, v + d, v' + d');
    assert v == (v + d)[..|v + d| - 6] && v' == (v' + d')[..|v' + d'| - 6];
    OneEncoding(e, e', h, v + d);
  }

  lemma {:induction false} OneEncoding(e: Encoding, e': Encoding, h: string, v: seq<bv5>)
    requires HasChecksum(e, h, v) && HasChecksum(e', h, v)
    ensures e == e'
  {
    UnpackInjective(EncodingConstant(e), EncodingConstant(e'));
  }

  ghost predicate NoDecoding(str: string, limit: nat) {
    forall e, h, v :: !IsDecoding(str, limit, e, h, v)
  }

  /** Why a string without a proper separator is refused. */
  lemma {:induction false} NeedsSeparator(str: string, limit: nat, pos: int)
    requires pos == -1 ==> forall i :: 0 <= i < |str| ==> str[i] != SEPARATOR
    requires pos != -1 ==> IsLastSeparator(str, pos)
    requires pos == -1 || pos == 0 || pos + CHECKSUM_SIZE >= |str|
    ensures NoDecoding(str, limit)
  {
    forall e, h, v ensures !IsDecoding(str, limit, e, h, v) {
      if IsDecoding(str, limit, e, h, v) {
        var d := Parts(str, limit, e, h, v);
      }
    }
  }

  lemma {:induction false} NeedsValues(str: string, limit: nat, pos: nat)
    requires IsLastSeparator(str, pos) && forall v :: !SpellAll(str, pos, v)
    ensures NoDecoding(str, limit)
  {
    forall e, h, v ensures !IsDecoding(str, limit, e, h, v) {
      if IsDecoding(str, limit, e, h, v) {
        var d := Parts(str, limit, e, h, v);
      }
    }
  }

  lemma {:induction false} NeedsChecksum(str: string, limit: nat, pos: nat, hrp: string, values: seq<bv5>)
    requires IsLastSeparator(str, pos) && SpellAll(str, pos, values) && hrp == Lowered(str[..pos])
    requires forall e :: !HasChecksum(e, hrp, values)
    ensures NoDecoding(str, limit)
  {
    forall e, h, v ensures !IsDecoding(str, limit, e, h, v) {
      if IsDecoding(str, limit, e, h, v) {
        var d := Parts(str, limit, e, h, v);
        assert pos == |h|;
        SpellingUnique(str, pos, values, v + d);
      }
    }
  }

  lemma {:induction false} DecodingFound(str: string, limit: nat, pos: nat, encoding: Encoding, hrp: string, values: seq<bv5>)
    requires Legal(str) && |str| <= limit && 0 < pos && pos + CHECKSUM_SIZE < |str|
    requires IsLastSeparator(str, pos) && SpellAll(str, pos, values) && hrp == Lowered(str[..pos])
    requires HasChecksum(encoding, hrp, values)
    ensures IsDecoding(str, limit, encoding, hrp, values[..|values| - CHECKSUM_SIZE])
  {
    var n := |values| - CHECKSUM_SIZE;
    var d := values[n..];
    assert values[..n] + d == values;
    Assemble(str, pos, values);
    assert Completes(d, encoding, hrp, values[..n]);
  }

  lemma {:induction false} LowerAscii(s: string)
    requires forall i :: 0 <= i < |s| ==> Printable(s[i])
    ensures IsAscii(Lowered(s))
  {
  }

  method Decode(str: string, limit: nat := CHAR_LIMIT) returns (r: DecodeResult)
    ensures r.encoding != INVALID ==> IsDecoding(str, limit, r.encoding, r.hrp, r.data)
    ensures r.encoding == INVALID ==> r == DecodeResult(INVALID, "", []) && NoDecoding(str, limit)
  {
    var empty := DecodeResult(INVALID, "", []);
    var ok, errors := CheckCharacters(str);
    if !ok {
      return empty;
    }
    var pos := FindSeparator(str);
    if |str| > limit {
      return empty;
    }
    if pos == -1 || pos == 0 || pos + CHECKSUM_SIZE >= |str| {
      NeedsSeparator(str, limit, pos);
      return empty;
    }
    var good, values := ReadValues(str, pos);
    if !good {
      NeedsValues(str, limit, pos);
      return empty;
    }
    var hrp := LowerAll(str[..pos]);
    LowerAscii(str[..pos]);
    var result := VerifyChecksum(hrp, values);
    if result == INVALID {
      NeedsChecksum(str, limit, pos, hrp, values);
      return empty;
    }
    DecodingFound(str, limit, pos, result, hrp, values);
    return DecodeResult(result, hrp, values[..|values| - CHECKSUM_SIZE]);
  }

  // ----- round trips

  lemma {:induction false} LettersPlain(v: seq<bv5>)
    ensures forall i :: 0 <= i < |v| ==> IsPlain(Letters(v)[i])
  {
    forall i | 0 <= i < |v| ensures IsPlain(Letters(v)[i]) {
      LetterSpells(v[i]);
    }
  }

  lemma {:induction false} EncodingDecodes(s: string, limit: nat, encoding: Encoding, hrp: string, values: seq<bv5>)
    requires IsEncoding(s, encoding, hrp, values) && |s| <= limit && hrp != "" && AllPrintable(hrp)
    requires forall i :: 0 <= i < |hrp| ==> !IsUpper(hrp[i])
    ensures IsDecoding(s, limit, encoding, hrp, values)
  {
    var d :| Completes(d, encoding, hrp, values) && s == hrp + [SEPARATOR] + Letters(values + d);
    LettersPlain(values + d);
    forall i | 0 <= i < |s| ensures IsPlain(s[i]) {
      if |hrp| < i {
        assert s[i] == Letters(values + d)[i - |hrp| - 1];
      }
    }
    assert Lowered(s) == s;
  }

  lemma {:induction false} SeparatorAfterPrefix(s: string, hrp: string, v: seq<bv5>)
    requires s == hrp + [SEPARATOR] + Letters(v)
    ensures IsLastSeparator(s, |hrp|)
  {
    forall i | |hrp| < i < |s| ensures s[i] != SEPARATOR {
      LetterSpells(v[i - |hrp| - 1]);
    }
  }

  /** An encoding that can be decoded at all has a non-empty printable prefix and fits the limit. */
  lemma {:induction false} DecodableEncoding(
    s: string, limit: nat, encoding: Encoding, hrp: string, values: seq<bv5>, e: Encoding, h: string, v: seq<bv5>)
    requires IsEncoding(s, encoding, hrp, values) && IsDecoding(s, limit, e, h, v)
    ensures hrp != "" && AllPrintable(hrp) && |hrp| + 1 + |values| + CHECKSUM_SIZE <= limit
  {
    EncodingLength(s, encoding, hrp, values);
    var d :| Completes(d, encoding, hrp, values) && s == hrp + [SEPARATOR] + Letters(values + d);
    forall i | 0 <= i < |hrp| ensures Printable(hrp[i]) {
      assert hrp[i] == s[i];
    }
    SeparatorAfterPrefix(s, hrp, values + d);
    var _ := Parts(s, limit, e, h, v);
    assert |hrp| == |h|;
  }

  /** Decoding an encoding gives back what was encoded, exactly if the human readable part is printable
      and not empty and the string fits the limit. */
  method EncodeThenDecode(encoding: Encoding, hrp: string, values: seq<bv5>, limit: nat) returns (r: DecodeResult)
    requires encoding != INVALID && IsAscii(hrp) && forall i :: 0 <= i < |hrp| ==> !IsUpper(hrp[i])
    ensures r == if hrp != "" && AllPrintable(hrp) && |hrp| + 1 + |values| + CHECKSUM_SIZE <= limit
      then DecodeResult(encoding, hrp, values) else DecodeResult(INVALID, "", [])
  {
    var s := Encode(encoding, hrp, values);
    r := Decode(s, limit);
    if r.encoding != INVALID {
      DecodableEncoding(s, limit, encoding, hrp, values, r.encoding, r.hrp, r.data);
      EncodingDecodes(s, limit, encoding, hrp, values);
      DecodingUnique(s, limit, encoding, hrp, values, r.encoding, r.hrp, r.data);
    } else if hrp != "" && AllPrintable(hrp) && |hrp| + 1 + |values| + CHECKSUM_SIZE <= limit {
      EncodingLength(s, encoding, hrp, values);
      EncodingDecodes(s, limit, encoding, hrp, values);
      assert false;
    }
  }

  lemma {:induction false} EncodingLength(s: string, encoding: Encoding, hrp: string, values: seq<bv5>)
    requires IsEncoding(s, encoding, hrp, values)
    ensures |s| == |hrp| + 1 + |values| + CHECKSUM_SIZE
  {
  }

  lemma {:induction false} EncodingUnique(s: string, t: string, encoding: Encoding, hrp: string, values: seq<bv5>)
    requires IsEncoding(s, encoding, hrp, values) && IsEncoding(t, encoding, hrp, values)
    ensures s == t
  {
    var d :| Completes(d, encoding, hrp, values) && s == hrp + [SEPARATOR] + Letters(values + d);
    var e :| Completes(e, encoding, hrp, values) && t == hrp + [SEPARATOR] + Letters(values + e);
    SixUnique(encoding, hrp, values, d, e);
  }

  /** Encoding what an accepted string decodes to gives back the string in lower case. */
  method DecodeThenEncode(str: string, limit: nat) returns (r: DecodeResult, s: string)
    ensures r.encoding != INVALID ==> s == Lowered(str)
  {
    r := Decode(str, limit);
    s := "";
    if r.encoding != INVALID {
      ghost var d := Parts(str, limit, r.encoding, r.hrp, r.data);
      forall i | 0 <= i < |r.hrp| ensures !IsUpper(r.hrp[i]) {
        assert r.hrp[i] == LowerCase(str[i]);
      }
      s := Encode(r.encoding, r.hrp, r.data);
      EncodingUnique(s, Lowered(str), r.encoding, r.hrp, r.data);
    }
  }
}
