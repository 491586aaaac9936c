/**
 Base58 (`base58.cpp`): a byte string as a number in base 58, with a letter '1' for each
 leading zero byte.  Both directions multiply and add in place over a digit buffer; the
 reference is the list of digits of a number.
*/
module Base58 {
  import opened Common
  import opened Numbers
  import opened Base58Sizes

  // ----- digits of a number

  /** Digits, the least significant one first; the last one is not zero. */
  ghost function DigitsOf(n: nat, b: nat): seq<nat>
    requires 1 < b
  {
    if n == 0 then []
    else
      Quotient(n, b);
      [n % b] + DigitsOf(n / b, b)
  }

  lemma {:induction false} Quotient(n: nat, b: nat)
    requires 1 < b
    ensures 0 <= n / b && 0 <= n % b < b && n == (n / b) * b + n % b && (n != 0 ==> n / b < n)
  {
    if n != 0 {
      MulLess(1, b, n);
      DivLess(n, b, n);
    }
  }

  ghost function Number(ds: seq<nat>, b: nat): nat {
    if ds == [] then 0 else ds[0] + b * Number(ds[1..], b)
  }

  /** Proper digits without a superfluous zero at the end. */
  ghost predicate Minimal(ds: seq<nat>, b: nat) {
    (forall i :: 0 <= i < |ds| ==> ds[i] < b) && (ds != [] ==> ds[|ds| - 1] != 0)
  }

  lemma {:induction false} NumberOfDigits(n: nat, b: nat)
    requires 1 < b
    ensures Number(DigitsOf(n, b), b) == n && Minimal(DigitsOf(n, b), b)
  {
    if n != 0 {
      Quotient(n, b);
      NumberOfDigits(n / b, b);
      DigitBefore(n, n / b, n % b, DigitsOf(n / b, b), b);
    }
  }

  /** One more digit in front. */
  lemma {:induction false} DigitBefore(n: nat, q: nat, r: nat, rest: seq<nat>, b: nat)
    requires n == q * b + r && r < b && n != 0 && Number(rest, b) == q && Minimal(rest, b)
    ensures Number([r] + rest, b) == n && Minimal([r] + rest, b)
  {
    assert ([r] + rest)[1..] == rest;
    assert b * q == q * b;
    if rest == [] {
      assert q == 0;
    }
  }

  lemma {:induction false} NumberPositive(ds: seq<nat>, b: nat)
    requires 1 < b && Minimal(ds, b) && ds != []
    ensures 0 < Number(ds, b)
  {
    if |ds| > 1 {
      var rest := ds[1..];
      assert rest[|rest| - 1] == ds[|ds| - 1];
      NumberPositive(rest, b);
      MulPositive(b, Number(rest, b));
    }
  }

  lemma {:induction false} DigitsOfNumber(ds: seq<nat>, b: nat)
    requires 1 < b && Minimal(ds, b)
    ensures DigitsOf(Number(ds, b), b) == ds
    decreases |ds|
  {
    if ds != [] {
      var rest := ds[1..];
      assert rest != [] ==> rest[|rest| - 1] == ds[|ds| - 1];
      DigitsOfNumber(rest, b);
      NumberPositive(ds, b);
      assert b * Number(rest, b) == Number(rest, b) * b;
      DivMod(Number(ds, b), b, Number(rest, b), ds[0]);
      assert ds == [ds[0]] + rest;
    }
  }

  lemma {:induction false} DigitCount(n: nat, b: nat, k: nat)
    requires 1 < b && n < Pow(b, k)
    ensures |DigitsOf(n, b)| <= k
    decreases k
  {
    assert Pow(b, 0) == 1;
    if n != 0 {
      Quotient(n, b);
      assert Pow(b, k) == Pow(b, k - 1) * b;
      DivLess(n, b, Pow(b, k - 1));
      DigitCount(n / b, b, k - 1);
    }
  }

  /** A number written with its most significant digit first. */
  ghost function BigEndian(ds: seq<nat>, b: nat): nat {
    if ds == [] then 0 else BigEndian(ds[..|ds| - 1], b) * b + ds[|ds| - 1]
  }

  ghost function Reverse<T>(s: seq<T>): seq<T> {
    seq(|s|, i requires 0 <= i < |s| => s[|s| - 1 - i])
  }

  lemma {:induction false} BigEndianReverse(ds: seq<nat>, b: nat)
    ensures BigEndian(ds, b) == Number(Reverse(ds), b)
  {
    if ds != [] {
      var n := |ds| - 1;
      BigEndianReverse(ds[..n], b);
      assert Reverse(ds)[1..] == Reverse(ds[..n]);
    }
  }

  lemma {:induction false} Below(x: nat, p: nat, b: nat, d: nat)
    requires x < p && d < b
    ensures x * b + d < b * p
  {
    MulAtMost(x + 1, p, b);
    Distribute(x, 1, b);
  }

  lemma {:induction false} BigEndianBound(ds: seq<nat>, b: nat)
    requires 0 < b && forall i :: 0 <= i < |ds| ==> ds[i] < b
    ensures BigEndian(ds, b) < Pow(b, |ds|)
  {
    if ds != [] {
      var n := |ds| - 1;
      BigEndianBound(ds[..n], b);
      Below(BigEndian(ds[..n], b), Pow(b, n), b, ds[n]);
    }
  }

  // ----- the buffer

  /** The buffer holds the digits of `n`, most significant first, behind zeros. */
  ghost predicate Holds(buf: seq<nat>, n: nat, b: nat, length: nat)
    requires 1 < b
  {
    && length == |DigitsOf(n, b)| <= |buf|
    && forall p :: 0 <= p < |buf| ==>
         buf[p] == if |buf| - 1 - p < length then DigitsOf(n, b)[|buf| - 1 - p] else 0
  }

  /** Part way: `done` are the digits written, `rest` is what remains of the new number. */
  ghost predicate Working(buf: seq<nat>, was: seq<nat>, done: seq<nat>) {
    && |buf| == |was| && |done| <= |buf|
    && forall p :: 0 <= p < |buf| ==> buf[p] == if |buf| - 1 - p < |done| then done[|buf| - 1 - p] else was[p]
  }

  /** The digit written in one step, and what remains. */
  lemma {:induction false} DigitStep(done: seq<nat>, rest: nat, total: nat, b: nat)
    requires 1 < b && done + DigitsOf(rest, b) == DigitsOf(total, b) && rest != 0
    ensures (done + [rest % b]) + DigitsOf(rest / b, b) == DigitsOf(total, b)
  {
    assert (done + [rest % b]) + DigitsOf(rest / b, b) == done + ([rest % b] + DigitsOf(rest / b, b));
  }

  /** Carry and digits still to come, one digit on. */
  lemma {:induction false} CarryStep(carry: nat, mul: nat, d: nat, later: nat, b: nat)
    requires 1 < b
    ensures var t := carry + mul * d; var rest := carry + mul * (d + b * later);
      rest % b == t % b && rest / b == t / b + mul * later
  {
    var t := carry + mul * d;
    Distribute(d, b * later, mul);
    assert mul * (b * later) == (mul * later) * b by {
      Assoc(mul, later, b);
      assert b * later == later * b;
    }
    assert t == (t / b) * b + t % b;
    Distribute(t / b, mul * later, b);
    DivMod(carry + mul * (d + b * later), b, t / b + mul * later, t % b);
  }

  ghost function From(ds: seq<nat>, i: nat): seq<nat> {
    if i <= |ds| then ds[i..] else []
  }

  ghost function At(ds: seq<nat>, i: nat): nat {
    if i < |ds| then ds[i] else 0
  }

  lemma {:induction false} NumberFrom(ds: seq<nat>, i: nat, b: nat)
    ensures Number(From(ds, i), b) == At(ds, i) + b * Number(From(ds, i + 1), b)
  {
    if i < |ds| {
      assert ds[i..][1..] == ds[i + 1..];
    }
  }

  /** There is something left to write exactly while there is a carry or a digit. */
  lemma {:induction false} StillToDo(carry: nat, mul: nat, ds: seq<nat>, i: nat, b: nat)
    requires 1 < b && 0 < mul && Minimal(ds, b)
    ensures carry + mul * Number(From(ds, i), b) == 0 <==> carry == 0 && |ds| <= i
  {
    var later := From(ds, i);
    if i < |ds| {
      assert later[|later| - 1] == ds[|ds| - 1];
      NumberPositive(later, b);
      MulPositive(mul, Number(later, b));
    } else {
      assert Number(later, b) == 0;
    }
  }

  lemma {:induction false} WriteDigit(buf: seq<nat>, was: seq<nat>, done: seq<nat>, d: nat)
    requires Working(buf, was, done) && |done| < |buf|
    ensures Working(buf[|buf| - 1 - |done| := d], was, done + [d])
  {
  }

  lemma {:induction false} Finished(buf: seq<nat>, was: seq<nat>, done: seq<nat>, total: nat, b: nat, n: nat)
    requires 1 < b && Working(buf, was, done) && done == DigitsOf(total, b) && |DigitsOf(n, b)| <= |done|
    requires Holds(was, n, b, |DigitsOf(n, b)|)
    ensures Holds(buf, total, b, |done|)
  {
  }

  /** `done` has been written over the digits `ds` of the old number; carry and old digits make up
      the rest of the new number `total`. */
  ghost predicate Partway(buf: seq<nat>, was: seq<nat>, ds: seq<nat>, b: nat, mul: nat, total: nat, carry: nat, done: seq<nat>)
    requires 1 < b
  {
    forall x {:trigger Unfold(x)} :: Unfold(x) ==>
      && Working(buf, was, done)
      && done + DigitsOf(carry + mul * Number(From(ds, |done|), b), b) == DigitsOf(total, b)
  }

  lemma {:induction false} PartwayStart(was: seq<nat>, n: nat, b: nat, mul: nat, c: nat)
    requires 1 < b
    ensures Partway(was, was, DigitsOf(n, b), b, mul, n * mul + c, c, [])
  {
    NumberOfDigits(n, b);
    assert From(DigitsOf(n, b), 0) == DigitsOf(n, b) && mul * n == n * mul;
    assert [] + DigitsOf(n * mul + c, b) == DigitsOf(n * mul + c, b);
  }

  lemma {:induction false} PartwayOpen(
    buf: seq<nat>, was: seq<nat>, ds: seq<nat>, b: nat, mul: nat, total: nat, carry: nat, done: seq<nat>)
    requires 1 < b && Partway(buf, was, ds, b, mul, total, carry, done)
    ensures Working(buf, was, done)
    ensures done + DigitsOf(carry + mul * Number(From(ds, |done|), b), b) == DigitsOf(total, b)
  {
    assert Unfold(true);
  }

  lemma {:induction false} PartwayClose(
    buf: seq<nat>, was: seq<nat>, ds: seq<nat>, b: nat, mul: nat, total: nat, carry: nat, done: seq<nat>)
    requires 1 < b && Working(buf, was, done)
    requires done + DigitsOf(carry + mul * Number(From(ds, |done|), b), b) == DigitsOf(total, b)
    ensures Partway(buf, was, ds, b, mul, total, carry, done)
  {
  }

  lemma {:induction false} PartwayStep(
    buf: seq<nat>, was: seq<nat>, n: nat, b: nat, mul: nat, total: nat, carry: nat, done: seq<nat>)
    requires 1 < b && 0 < mul && |done| < |buf| == |was| && Holds(was, n, b, |DigitsOf(n, b)|)
    requires Partway(buf, was, DigitsOf(n, b), b, mul, total, carry, done) && (carry != 0 || |done| < |DigitsOf(n, b)|)
    ensures var p := |buf| - 1 - |done|; var t := carry + mul * buf[p];
      && 0 <= t % b && 0 <= t / b
      && Partway(buf[p := t % b], was, DigitsOf(n, b), b, mul, total, t / b, done + [t % b])
  {
    var ds, i, p := DigitsOf(n, b), |done|, |buf| - 1 - |done|;
    PartwayOpen(buf, was, ds, b, mul, total, carry, done);
    NumberOfDigits(n, b);
    assert buf[p] == was[p] == At(ds, i);
    var t := carry + mul * buf[p];
    NextDigit(ds, b, mul, total, carry, done, buf[p]);
    WriteDigit(buf, was, done, t % b);
    assert |done + [t % b]| == i + 1;
    PartwayClose(buf[p := t % b], was, ds, b, mul, total, t / b, done + [t % b]);
  }

  lemma {:induction false} NextDigit(ds: seq<nat>, b: nat, mul: nat, total: nat, carry: nat, done: seq<nat>, d: nat)
    requires 1 < b && 0 < mul && Minimal(ds, b) && (carry != 0 || |done| < |ds|) && d == At(ds, |done|)
    requires done + DigitsOf(carry + mul * Number(From(ds, |done|), b), b) == DigitsOf(total, b)
    ensures var t := carry + mul * d;
      && 0 <= t % b && 0 <= t / b
      && (done + [t % b]) + DigitsOf(t / b + mul * Number(From(ds, |done| + 1), b), b) == DigitsOf(total, b)
  {
    var i := |done|;
    StillToDo(carry, mul, ds, i, b);
    NumberFrom(ds, i, b);
    CarryStep(carry, mul, d, Number(From(ds, i + 1), b), b);
    DigitStep(done, carry + mul * Number(From(ds, i), b), total, b);
    Quotient(carry + mul * d, b);
  }

  lemma {:induction false} PartwayEnd(
    buf: seq<nat>, was: seq<nat>, n: nat, b: nat, mul: nat, total: nat, carry: nat, done: seq<nat>)
    requires 1 < b && 0 < mul && |done| <= |buf| == |was| && Holds(was, n, b, |DigitsOf(n, b)|)
    requires Partway(buf, was, DigitsOf(n, b), b, mul, total, carry, done) && |DigitsOf(total, b)| <= |buf|
    requires (carry == 0 && |DigitsOf(n, b)| <= |done|) || |done| == |buf|
    ensures carry == 0 && Holds(buf, total, b, |done|)
  {
    assert Unfold(true);
    var ds := DigitsOf(n, b);
    NumberOfDigits(n, b);
    StillToDo(carry, mul, ds, |done|, b);
    assert DigitsOf(carry + mul * Number(From(ds, |done|), b), b) == [];
    assert done + [] == done;
    Finished(buf, was, done, total, b, n);
  }

  /** Multiply the number in the buffer by `mul` and add `c`; the carry that is left is zero. */
  method MulAdd(buf: array<nat>, b: nat, mul: nat, c: nat, length: nat, ghost n: nat) returns (carry: nat, next: nat)
    requires 1 < b && 0 < mul && Holds(buf[..], n, b, length) && |DigitsOf(n * mul + c, b)| <= buf.Length
    modifies buf
    ensures carry == 0 && Holds(buf[..], n * mul + c, b, next)
  {
    ghost var was, total, done: seq<nat> := buf[..], n * mul + c, [];
    PartwayStart(was, n, b, mul, c);
    carry, next := c, 0;
    while (carry != 0 || next < length) && next < buf.Length
      invariant next == |done| <= buf.Length && Partway(buf[..], was, DigitsOf(n, b), b, mul, total, carry, done)
      decreases buf.Length - next
    {
      ghost var before := buf[..];
      var p := buf.Length - 1 - next;
      PartwayStep(before, was, n, b, mul, total, carry, done);
      carry := carry + mul * buf[p];
      done := done + [carry % b];
      buf[p] := carry % b;
      carry := carry / b;
      assert buf[..] == before[p := buf[p]];
      next := next + 1;
    }
    PartwayEnd(buf[..], was, n, b, mul, total, carry, done);
  }

  // ----- letters

  const NUMERALS: string := "123456789"
  const UPPER_A_H: string := "ABCDEFGH"
  const UPPER_J_N: string := "JKLMN"
  const UPPER_P_Z: string := "PQRSTUVWXYZ"
  const LOWER_A_K: string := "abcdefghijk"
  const LOWER_M_Z: string := "mnopqrstuvwxyz"
  const ALPHABET: string := NUMERALS + (UPPER_A_H + (UPPER_J_N + (UPPER_P_Z + (LOWER_A_K + LOWER_M_Z))))

  /** The digit of a letter, -1 for other characters. */
  function Digit(c: char): int {
    if '1' <= c <= '9' then c as int - '1' as int
    else if 'A' <= c <= 'H' then c as int - 'A' as int + 9
    else if 'J' <= c <= 'N' then c as int - 'J' as int + 17
    else if 'P' <= c <= 'Z' then c as int - 'P' as int + 22
    else if 'a' <= c <= 'k' then c as int - 'a' as int + 33
    else if 'm' <= c <= 'z' then c as int - 'm' as int + 44
    else -1
  }

  function Letter(d: nat): char
    requires d < 58
  {
    if d < 9 then ('1' as int + d) as char
    else if d < 17 then ('A' as int + d - 9) as char
    else if d < 22 then ('J' as int + d - 17) as char
    else if d < 33 then ('P' as int + d - 22) as char
    else if d < 44 then ('a' as int + d - 33) as char
    else ('m' as int + d - 44) as char
  }

  /** The alphabet lists the letters in the order of their digits. */
  lemma {:induction false} AlphabetIs(d: nat)
    requires d < 58
    ensures |ALPHABET| == 58 && ALPHABET[d] == Letter(d)
  {
    if d < 9 {
      assert NUMERALS[d] == Letter(d);
    } else if d < 17 {
      assert UPPER_A_H[d - 9] == Letter(d);
    } else if d < 22 {
      assert UPPER_J_N[d - 17] == Letter(d);
    } else if d < 33 {
      assert UPPER_P_Z[d - 22] == Letter(d);
    } else if d < 44 {
      assert LOWER_A_K[d - 33] == Letter(d);
    } else {
      assert LOWER_M_Z[d - 44] == Letter(d);
    }
  }

  /** Letters and digits correspond. */
  lemma {:induction false} LetterDigit(d: nat)
    requires d < 58
    ensures Digit(Letter(d)) == d
  {
  }

  lemma {:induction false} DigitLetter(c: char)
    requires Digit(c) != -1
    ensures 0 <= Digit(c) < 58 && Letter(Digit(c)) == c
  {
  }

  predicate IsSpace(c: char) {
    c as int == 32 || 9 <= c as int <= 13
  }

  predicate NotSpace(c: char) {
    !IsSpace(c)
  }

  predicate IsOne(c: char) {
    c == '1'
  }

  predicate IsZero(x: nat) {
    x == 0
  }

  // ----- what is encoded and decoded

  predicate IsBytes(s: seq<nat>) {
    forall i :: 0 <= i < |s| ==> s[i] < 256
  }

  /** How many elements at the front satisfy the test. */
  function Lead<T>(s: seq<T>, p: T -> bool): (n: nat)
    ensures n <= |s| && (forall i :: 0 <= i < n ==> p(s[i])) && (n < |s| ==> !p(s[n]))
  {
    if s == [] || !p(s[0]) then 0 else 1 + Lead(s[1..], p)
  }

  ghost function Letters(ds: seq<nat>): string
    requires forall i :: 0 <= i < |ds| ==> ds[i] < 58
  {
    seq(|ds|, i requires 0 <= i < |ds| => Letter(ds[i]))
  }

  ghost function Values(s: string): seq<nat>
    requires forall i :: 0 <= i < |s| ==> Digit(s[i]) != -1
  {
    seq(|s|, i requires 0 <= i < |s| => DigitOf(s[i]))
  }

  ghost function DigitOf(c: char): (d: nat)
    requires Digit(c) != -1
    ensures d < 58
  {
    Digit(c)
  }

  ghost function Repeat<T>(n: nat, x: T): seq<T> {
    seq(n, _ => x)
  }

  /** Digits of a number, most significant first. */
  ghost function BigDigits(n: nat, b: nat): (ds: seq<nat>)
    requires 1 < b
    ensures forall i :: 0 <= i < |ds| ==> ds[i] < b
  {
    NumberOfDigits(n, b);
    Reverse(DigitsOf(n, b))
  }

  /** A letter '1' for each leading zero byte, then the number in base 58. */
  ghost function Encoded(input: seq<nat>): string {
    var z := Lead(input, IsZero);
    Repeat(z, '1') + Letters(BigDigits(BigEndian(input[z..], 256), 58))
  }

  ghost predicate AllDigits(s: string) {
    forall i :: 0 <= i < |s| ==> Digit(s[i]) != -1
  }

  ghost predicate AllSpaces(s: string) {
    forall i :: 0 <= i < |s| ==> IsSpace(s[i])
  }

  /** Zero bytes for the letters '1', then the number of the other letters in base 256. */
  ghost function DecodedLetters(z: nat, body: string, max: int): Option<seq<nat>>
    requires AllDigits(body)
  {
    var ds := BigDigits(BigEndian(Values(body), 58), 256);
    if z + |body| > 0 && z + |ds| > max then None else Some(Repeat<nat>(z, 0) + ds)
  }

  /** Letters up to the first space; only spaces may follow. */
  ghost function DecodedRest(z: nat, u: string, k: nat, max: int): Option<seq<nat>>
    requires k <= |u|
  {
    if AllDigits(u[..k]) && AllSpaces(u[k..]) then DecodedLetters(z, u[..k], max) else None
  }

  /** Spaces around the letters are skipped; leading letters '1' become zero bytes. */
  ghost function Decoded(s: string, max: int): Option<seq<nat>> {
    var t := s[Lead(s, IsSpace)..];
    var z := Lead(t, IsOne);
    DecodedRest(z, t[z..], Lead(t[z..], NotSpace), max)
  }

  // ----- round trips

  lemma {:induction false} ReverseReverse<T>(s: seq<T>)
    ensures Reverse(Reverse(s)) == s && |Reverse(s)| == |s|
  {
  }

  /** Digits without a leading zero come back from their number. */
  lemma {:induction false} BigDigitsBack(ds: seq<nat>, b: nat)
    requires 1 < b && (forall i :: 0 <= i < |ds| ==> ds[i] < b) && (ds != [] ==> ds[0] != 0)
    ensures BigDigits(BigEndian(ds, b), b) == ds
  {
    BigEndianReverse(ds, b);
    DigitsOfNumber(Reverse(ds), b);
    ReverseReverse(ds);
  }

  lemma {:induction false} BigEndianBack(n: nat, b: nat)
    requires 1 < b
    ensures BigEndian(BigDigits(n, b), b) == n
    ensures n != 0 ==> BigDigits(n, b) != [] && BigDigits(n, b)[0] != 0
    ensures n == 0 ==> BigDigits(n, b) == []
  {
    NumberOfDigits(n, b);
    BigEndianReverse(BigDigits(n, b), b);
    ReverseReverse(DigitsOf(n, b));
  }

  lemma {:induction false} ValuesLetters(ds: seq<nat>)
    requires forall i :: 0 <= i < |ds| ==> ds[i] < 58
    ensures forall i :: 0 <= i < |ds| ==> Digit(Letters(ds)[i]) != -1 && !IsSpace(Letters(ds)[i])
    ensures Values(Letters(ds)) == ds
  {
    forall i | 0 <= i < |ds| ensures Digit(Letters(ds)[i]) == ds[i] && !IsSpace(Letters(ds)[i]) {
      LetterDigit(ds[i]);
    }
  }

  lemma {:induction false} LettersValues(s: string)
    requires forall i :: 0 <= i < |s| ==> Digit(s[i]) != -1
    ensures Letters(Values(s)) == s
  {
    forall i | 0 <= i < |s| ensures Letters(Values(s))[i] == s[i] {
      DigitLetter(s[i]);
    }
  }

  /** Leading elements in front of something that does not go on. */
  lemma {:induction false} LeadOf<T>(a: seq<T>, b: seq<T>, p: T -> bool)
    requires (forall i :: 0 <= i < |a| ==> p(a[i])) && (b != [] ==> !p(b[0]))
    ensures Lead(a + b, p) == |a|
  {
    assert forall i :: 0 <= i < |a| ==> (a + b)[i] == a[i];
    assert b != [] ==> (a + b)[|a|] == b[0];
  }

  /** How a string without spaces is taken apart. */
  lemma {:induction false} DecodedPlain(z: nat, u: string, max: int)
    requires (forall i :: 0 <= i < |u| ==> !IsSpace(u[i])) && (u != [] ==> u[0] != '1')
    ensures Decoded(Repeat(z, '1') + u, max) == if AllDigits(u) then DecodedLetters(z, u, max) else None
  {
    var s := Repeat(z, '1') + u;
    LeadOf([], s, IsSpace);
    assert [] + s == s && s[0..] == s;
    LeadOf(Repeat(z, '1'), u, IsOne);
    assert s[z..] == u;
    LeadOf(u, [], NotSpace);
    assert u + [] == u && u[..|u|] == u;
  }

  /** Leading zero bytes and the rest of the bytes, encoded. */
  lemma {:induction false} EncodedPlain(z: nat, rest: seq<nat>)
    requires rest != [] ==> rest[0] != 0
    ensures Encoded(Repeat<nat>(z, 0) + rest) == Repeat(z, '1') + Letters(BigDigits(BigEndian(rest, 256), 58))
  {
    LeadOf(Repeat<nat>(z, 0), rest, IsZero);
    assert (Repeat<nat>(z, 0) + rest)[z..] == rest;
  }

  lemma {:induction false} LettersPlain(n: nat)
    ensures var u := Letters(BigDigits(n, 58));
      && (forall i :: 0 <= i < |u| ==> !IsSpace(u[i])) && (u != [] ==> u[0] != '1')
      && AllDigits(u) && Values(u) == BigDigits(n, 58)
  {
    var ds := BigDigits(n, 58);
    BigEndianBack(n, 58);
    ValuesLetters(ds);
    if ds != [] {
      LetterDigit(ds[0]);
    }
  }

  /** Decoding an encoding gives the bytes back. */
  lemma {:induction false} DecodeEncoded(input: seq<nat>, max: int)
    requires IsBytes(input) && |input| <= max
    ensures Decoded(Encoded(input), max) == Some(input)
  {
    var z := Lead(input, IsZero);
    var rest := input[z..];
    var n := BigEndian(rest, 256);
    assert input == Repeat<nat>(z, 0) + rest;
    EncodedPlain(z, rest);
    LettersPlain(n);
    DecodedPlain(z, Letters(BigDigits(n, 58)), max);
    BigEndianBack(n, 58);
    BigDigitsBack(rest, 256);
  }

  lemma {:induction false} EncodeLetters(z: nat, u: string, max: int)
    requires AllDigits(u) && (u != [] ==> u[0] != '1') && DecodedLetters(z, u, max).Some?
    ensures var b := DecodedLetters(z, u, max).value;
      Encoded(b) == Repeat(z, '1') + u && IsBytes(b) && (z + |u| > 0 ==> |b| <= max)
  {
    var n := BigEndian(Values(u), 58);
    FirstDigit(u);
    BigDigitsBack(Values(u), 58);
    BigEndianBack(n, 256);
    LettersValues(u);
    EncodedPlain(z, BigDigits(n, 256));
  }

  /** Encoding what an accepted string without spaces decodes to gives the string back. */
  lemma {:induction false} EncodeDecoded(s: string, max: int)
    requires (forall i :: 0 <= i < |s| ==> !IsSpace(s[i])) && Decoded(s, max).Some?
    ensures Encoded(Decoded(s, max).value) == s && IsBytes(Decoded(s, max).value)
    ensures s != [] ==> |Decoded(s, max).value| <= max
  {
    var z := Lead(s, IsOne);
    var u := s[z..];
    OnesFirst(s, z);
    DecodedPlain(z, u, max);
    EncodeLetters(z, u, max);
  }

  lemma {:induction false} OnesFirst(s: string, z: nat)
    requires z == Lead(s, IsOne)
    ensures s == Repeat(z, '1') + s[z..]
  {
  }

  lemma {:induction false} FirstDigit(u: string)
    requires (forall i :: 0 <= i < |u| ==> Digit(u[i]) != -1) && (u != [] ==> u[0] != '1')
    ensures u != [] ==> Values(u)[0] != 0
  {
    if u != [] {
      DigitLetter(u[0]);
    }
  }

  // ----- the code

  /** An empty buffer holds zero. */
  lemma {:induction false} EmptyHolds(buf: seq<nat>, b: nat)
    requires 1 < b && forall p :: 0 <= p < |buf| ==> buf[p] == 0
    ensures Holds(buf, 0, b, 0)
  {
  }

  /** Enough room for the digits of a number of which the first `k` digits in another base are taken. */
  lemma {:induction false} Room(ds: seq<nat>, k: nat, b: nat, mul: nat, size: nat)
    requires 1 < b && 0 < mul && k <= |ds| && (forall i :: 0 <= i < |ds| ==> ds[i] < mul) && Pow(mul, |ds|) <= Pow(b, size)
    ensures |DigitsOf(BigEndian(ds[..k], mul), b)| <= size
  {
    BigEndianBound(ds[..k], mul);
    PowMonotone(mul, k, |ds|);
    DigitCount(BigEndian(ds[..k], mul), b, size);
  }

  /** Convert big-endian digits of base `mul` to base `b` in a buffer of `size` digits. */
  method Convert(ds: seq<nat>, mul: nat, b: nat, size: nat) returns (buf: array<nat>, length: nat)
    requires 1 < b && 0 < mul && (forall i :: 0 <= i < |ds| ==> ds[i] < mul) && Pow(mul, |ds|) <= Pow(b, size)
    ensures buf.Length == size && Holds(buf[..], BigEndian(ds, mul), b, length)
  {
    buf := new nat[size](_ => 0);
    length := 0;
    EmptyHolds(buf[..], b);
    for k := 0 to |ds|
      invariant Holds(buf[..], BigEndian(ds[..k], mul), b, length)
    {
      assert ds[..k + 1][..k] == ds[..k];
      Room(ds, k + 1, b, mul, size);
      var carry;
      carry, length := MulAdd(buf, b, mul, ds[k], length, BigEndian(ds[..k], mul));
      assert carry == 0;
    }
    assert ds[..|ds|] == ds;
  }

  lemma {:induction false} HeldDigits(buf: seq<nat>, n: nat, b: nat, length: nat)
    requires 1 < b && Holds(buf, n, b, length)
    ensures buf[|buf| - length..] == BigDigits(n, b)
  {
  }

  method CountZeroes(input: seq<nat>) returns (z: nat)
    ensures z == Lead(input, IsZero)
  {
    z := 0;
    while z < |input| && input[z] == 0
      invariant 0 <= z <= |input| && forall i :: 0 <= i < z ==> input[i] == 0
    {
      z := z + 1;
    }
    LeadOf(input[..z], input[z..], IsZero);
    assert input == input[..z] + input[z..];
  }

  method SkipZeroes(buf: array<nat>, start: nat) returns (p: nat)
    requires start <= buf.Length
    ensures start <= p <= buf.Length && (forall i :: start <= i < p ==> buf[i] == 0) && (p < buf.Length ==> buf[p] != 0)
  {
    p := start;
    while p < buf.Length && buf[p] == 0
      invariant start <= p <= buf.Length && forall i :: start <= i < p ==> buf[i] == 0
    {
      p := p + 1;
    }
  }

  /** Translate the digits from position `p` on. */
  method ToLetters(buf: array<nat>, p: nat, prefix: string) returns (str: string)
    requires p <= buf.Length && forall i :: p <= i < buf.Length ==> buf[i] < 58
    ensures str == prefix + Letters(buf[p..])
  {
    str := prefix;
    ghost var ds := buf[p..];
    var i := p;
    while i < buf.Length
      invariant p <= i <= buf.Length && str == prefix + Letters(ds[..i - p])
    {
      AlphabetIs(buf[i]);
      MoreLetters(ds, i - p);
      str := str + [ALPHABET[buf[i]]];
      i := i + 1;
    }
    assert ds[..|ds|] == ds;
  }

  method EncodeBase58(input: seq<nat>) returns (str: string)
    requires IsBytes(input)
    ensures str == Encoded(input)
  {
    var zeroes := CountZeroes(input);
    var rest := input[zeroes..];
    var size := |rest| * 138 / 100 + 1;
    EncodeRoom(|rest|);
    var buf, length := Convert(rest, 256, 58, size);
    ghost var ds := BigDigits(BigEndian(rest, 256), 58);
    HeldDigits(buf[..], BigEndian(rest, 256), 58, length);
    BigEndianBack(BigEndian(rest, 256), 58);
    var p := size - length;
    assert buf[..][p..] == buf[p..] == ds;
    assert p < size ==> buf[p] == buf[p..][0] == ds[0];
    p := SkipZeroes(buf, p);
    assert forall i :: p <= i < buf.Length ==> buf[i] == buf[p..][i - p];
    var ones := seq(zeroes, _ => '1');
    assert ones == Repeat(zeroes, '1');
    str := ToLetters(buf, p, ones);
  }

  lemma {:induction false} MoreLetters(ds: seq<nat>, i: nat)
    requires i < |ds| && forall j :: 0 <= j < |ds| ==> ds[j] < 58
    ensures Letters(ds[..i + 1]) == Letters(ds[..i]) + [Letter(ds[i])]
  {
  }

  // ----- decoding

  /** The first position from `start` on that fails the test. */
  method SkipWhile(s: string, start: nat, p: char -> bool) returns (i: nat)
    requires start <= |s|
    ensures i == start + Lead(s[start..], p)
  {
    i := start;
    while i < |s| && p(s[i])
      invariant start <= i <= |s| && forall j :: start <= j < i ==> p(s[j])
    {
      i := i + 1;
    }
    LeadOf(s[start..i], s[i..], p);
    assert s[start..] == s[start..i] + s[i..];
  }

  method CountOnes(t: string, max: int) returns (z: nat, tooMany: bool)
    ensures tooMany ==> Lead(t, IsOne) > max && 0 < Lead(t, IsOne)
    ensures !tooMany ==> z == Lead(t, IsOne) && (0 < z ==> z <= max)
  {
    z := 0;
    while z < |t| && t[z] == '1'
      invariant z <= |t| && (forall j :: 0 <= j < z ==> t[j] == '1') && (0 < z ==> z <= max)
    {
      z := z + 1;
      if z > max {
        LeadAtLeast(t, z, IsOne);
        return z, true;
      }
    }
    LeadOf(t[..z], t[z..], IsOne);
    assert t == t[..z] + t[z..];
    return z, false;
  }

  lemma {:induction false} LeadAtLeast(s: string, n: nat, p: char -> bool)
    requires n <= |s| && forall j :: 0 <= j < n ==> p(s[j])
    ensures n <= Lead(s, p)
  {
  }

  lemma {:induction false} MoreDigits(n: nat, m: nat, b: nat)
    requires 1 < b && n <= m
    ensures |DigitsOf(n, b)| <= |DigitsOf(m, b)|
    decreases m
  {
    if n != 0 {
      Quotient(n, b);
      Quotient(m, b);
      DivAtLeast(m, b, n / b);
      MoreDigits(n / b, m / b, b);
    }
  }

  lemma {:induction false} PrefixSmaller(ds: seq<nat>, k: nat, b: nat)
    requires 0 < b && k <= |ds|
    ensures BigEndian(ds[..k], b) <= BigEndian(ds, b)
    decreases |ds| - k
  {
    if k == |ds| {
      assert ds[..k] == ds;
    } else {
      PrefixSmaller(ds, k + 1, b);
      assert ds[..k + 1][..k] == ds[..k];
      MulAtMost(1, b, BigEndian(ds[..k], b));
    }
  }

  /** Too many digits in the first letters are too many in all. */
  lemma {:induction false} TooLong(z: nat, u: string, k: nat, j: nat, max: int)
    requires j <= k <= |u| && AllDigits(u[..j]) && 0 < j
    requires z + |DigitsOf(BigEndian(Values(u[..j]), 58), 256)| > max
    ensures DecodedRest(z, u, k, max) == None
  {
    if AllDigits(u[..k]) {
      var v := Values(u[..k]);
      assert v[..j] == Values(u[..j]);
      PrefixSmaller(v, j, 58);
      MoreDigits(BigEndian(v[..j], 58), BigEndian(v, 58), 256);
    }
  }

  lemma {:induction false} BadLetter(z: nat, u: string, k: nat, j: nat, max: int)
    requires j < k <= |u| && Digit(u[j]) == -1
    ensures DecodedRest(z, u, k, max) == None
  {
    assert u[..k][j] == u[j];
  }

  lemma {:induction false} OneLetter(u: string, j: nat)
    requires j < |u| && AllDigits(u[..j]) && Digit(u[j]) != -1
    ensures AllDigits(u[..j + 1])
    ensures BigEndian(Values(u[..j + 1]), 58) == BigEndian(Values(u[..j]), 58) * 58 + Digit(u[j])
  {
    assert forall i :: 0 <= i <= j ==> u[..j + 1][i] == if i < j then u[..j][i] else u[j];
    var v := Values(u[..j + 1]);
    assert v[..j] == Values(u[..j]);
  }

  /** The digits of the first letters fit into the buffer. */
  lemma {:induction false} LettersFit(u: string, j: nat)
    requires j <= |u| && AllDigits(u[..j])
    ensures |DigitsOf(BigEndian(Values(u[..j]), 58), 256)| <= |u| * 733 / 1000 + 1
  {
    BigEndianBound(Values(u[..j]), 58);
    PowMonotone(58, j, |u|);
    DecodeRoom(|u|);
    DigitCount(BigEndian(Values(u[..j]), 58), 256, |u| * 733 / 1000 + 1);
  }

  /** The buffer holds the number of the first `k` letters. */
  ghost predicate HasRead(buf: seq<nat>, u: string, k: nat, length: nat)
    requires k <= |u|
  {
    forall x {:trigger Unfold(x)} :: Unfold(x) ==>
      AllDigits(u[..k]) && Holds(buf, BigEndian(Values(u[..k]), 58), 256, length)
  }

  lemma {:induction false} NothingRead(buf: seq<nat>, u: string)
    requires forall p :: 0 <= p < |buf| ==> buf[p] == 0
    ensures HasRead(buf, u, 0, 0)
  {
    EmptyHolds(buf, 256);
  }

  method TakeLetter(buf: array<nat>, u: string, k: nat, length: nat) returns (next: nat)
    requires k < |u| && Digit(u[k]) != -1 && HasRead(buf[..], u, k, length) && buf.Length == |u| * 733 / 1000 + 1
    modifies buf
    ensures HasRead(buf[..], u, k + 1, next)
  {
    assert Unfold(true);
    DigitLetter(u[k]);
    OneLetter(u, k);
    LettersFit(u, k + 1);
    var carry;
    carry, next := MulAdd(buf, 256, 58, Digit(u[k]), length, BigEndian(Values(u[..k]), 58));
    assert carry == 0;
  }

  lemma {:induction false} ReadTooLong(buf: seq<nat>, z: nat, u: string, k: nat, length: nat, max: int)
    requires 0 < k <= Lead(u, NotSpace) && HasRead(buf, u, k, length) && z + length > max
    ensures DecodedRest(z, u, Lead(u, NotSpace), max) == None
  {
    assert Unfold(true);
    TooLong(z, u, Lead(u, NotSpace), k, max);
  }

  lemma {:induction false} LeadExact(u: string, k: nat)
    requires k <= |u| && (forall j :: 0 <= j < k ==> !IsSpace(u[j])) && (k < |u| ==> IsSpace(u[k]))
    ensures Lead(u, NotSpace) == k
  {
    LeadOf(u[..k], u[k..], NotSpace);
    assert u == u[..k] + u[k..];
  }

  /** Take letters up to the first space. */
  method DecodeLetters(u: string, z: nat, max: int) returns (ok: bool, k: nat, buf: array<nat>, length: nat)
    ensures !ok ==> DecodedRest(z, u, Lead(u, NotSpace), max) == None
    ensures ok ==> k == Lead(u, NotSpace) && HasRead(buf[..], u, k, length) && (0 < k ==> z + length <= max)
  {
    buf := new nat[|u| * 733 / 1000 + 1](_ => 0);
    length, k := 0, 0;
    NothingRead(buf[..], u);
    while k < |u| && !IsSpace(u[k])
      invariant k <= |u| && (forall j :: 0 <= j < k ==> !IsSpace(u[j])) && fresh(buf)
      invariant buf.Length == |u| * 733 / 1000 + 1 && (0 < k ==> z + length <= max) && HasRead(buf[..], u, k, length)
    {
      LeadAtLeast(u, k + 1, NotSpace);
      if Digit(u[k]) == -1 {
        BadLetter(z, u, Lead(u, NotSpace), k, max);
        return false, k, buf, length;
      }
      length := TakeLetter(buf, u, k, length);
      k := k + 1;
      if length + z > max {
        ReadTooLong(buf[..], z, u, k, length, max);
        return false, k, buf, length;
      }
    }
    LeadExact(u, k);
    ok := true;
  }

  lemma {:induction false} AllRead(buf: seq<nat>, z: nat, u: string, k: nat, length: nat, max: int)
    requires k <= |u| && HasRead(buf, u, k, length) && (0 < k ==> z + length <= max) && (0 < z ==> z <= max)
    ensures length <= |buf|
    ensures DecodedRest(z, u, k, max) == if AllSpaces(u[k..]) then Some(Repeat<nat>(z, 0) + buf[|buf| - length..]) else None
  {
    assert Unfold(true);
    HeldDigits(buf, BigEndian(Values(u[..k]), 58), 256, length);
    if k == 0 {
      assert BigEndian(Values(u[..0]), 58) == 0;
    }
  }

  lemma {:induction false} TooManyOnes(t: string, max: int)
    requires Lead(t, IsOne) > max && 0 < Lead(t, IsOne)
    ensures var z := Lead(t, IsOne); DecodedRest(z, t[z..], Lead(t[z..], NotSpace), max) == None
  {
  }

  lemma {:induction false} SpacesLeft(u: string, k: nat, rest: nat)
    requires k <= |u| && rest == k + Lead(u[k..], IsSpace)
    ensures rest == |u| <==> AllSpaces(u[k..])
  {
    if rest < |u| {
      assert !IsSpace(u[k..][rest - k]);
    }
  }

  /** Decode, with at most `max` bytes of output. */
  method DecodeBase58(str: string, max: int) returns (r: Option<seq<nat>>)
    ensures r == Decoded(str, max)
  {
    var start := SkipWhile(str, 0, IsSpace);
    assert str[0..] == str;
    var t := str[start..];
    var zeroes, tooMany := CountOnes(t, max);
    if tooMany {
      TooManyOnes(t, max);
      return None;
    }
    var u := t[zeroes..];
    var ok, k, buf, length := DecodeLetters(u, zeroes, max);
    if !ok {
      return None;
    }
    AllRead(buf[..], zeroes, u, k, length, max);
    var rest := SkipWhile(u, k, IsSpace);
    SpacesLeft(u, k, rest);
    if rest != |u| {
      return None;
    }
    assert buf[..][buf.Length - length..] == buf[buf.Length - length..];
    var pad: seq<nat> := seq(zeroes, _ => 0);
    assert pad == Repeat<nat>(zeroes, 0);
    r := Some(pad + buf[buf.Length - length..]);
  }
}
