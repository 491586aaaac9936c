/** Powers of 58 and 256 against each other: the buffers of Base58 are large enough. */
module Base58Sizes {
  import opened Numbers

  lemma {:induction false} PowersOf58()
    ensures Pow(58, 1) == 58
    ensures Pow(58, 2) == 3364
    ensures Pow(58, 3) == 195112
    ensures Pow(58, 4) == 11316496
    ensures Pow(58, 5) == 656356768
    ensures Pow(58, 6) == 38068692544
    ensures Pow(58, 7) == 2207984167552
    ensures Pow(58, 8) == 128063081718016
    ensures Pow(58, 9) == 7427658739644928
    ensures Pow(58, 10) == 430804206899405824
    ensures Pow(58, 11) == 24986644000165537792
    ensures Pow(58, 12) == 1449225352009601191936
    ensures Pow(58, 13) == 84055070416556869132288
    ensures Pow(58, 14) == 4875194084160298409672704
    ensures Pow(58, 15) == 282761256881297307761016832
  {
    assert Pow(58, 1) == 58 * Pow(58, 0);
    assert Pow(58, 2) == 58 * Pow(58, 1);
    assert Pow(58, 3) == 58 * Pow(58, 2);
    assert Pow(58, 4) == 58 * Pow(58, 3);
    assert Pow(58, 5) == 58 * Pow(58, 4);
    assert Pow(58, 6) == 58 * Pow(58, 5);
    assert Pow(58, 7) == 58 * Pow(58, 6);
    assert Pow(58, 8) == 58 * Pow(58, 7);
    assert Pow(58, 9) == 58 * Pow(58, 8);
    assert Pow(58, 10) == 58 * Pow(58, 9);
    assert Pow(58, 11) == 58 * Pow(58, 10);
    assert Pow(58, 12) == 58 * Pow(58, 11);
    assert Pow(58, 13) == 58 * Pow(58, 12);
    assert Pow(58, 14) == 58 * Pow(58, 13);
    assert Pow(58, 15) == 58 * Pow(58, 14);
  }

  lemma {:induction false} PowersOf256()
    ensures Pow(256, 1) == 256
    ensures Pow(256, 2) == 65536
    ensures Pow(256, 3) == 16777216
    ensures Pow(256, 4) == 4294967296
    ensures Pow(256, 5) == 1099511627776
    ensures Pow(256, 6) == 281474976710656
    ensures Pow(256, 7) == 72057594037927936
    ensures Pow(256, 8) == 18446744073709551616
    ensures Pow(256, 9) == 4722366482869645213696
    ensures Pow(256, 10) == 1208925819614629174706176
    ensures Pow(256, 11) == 309485009821345068724781056
  {
    assert Pow(256, 1) == 256 * Pow(256, 0);
    assert Pow(256, 2) == 256 * Pow(256, 1);
    assert Pow(256, 3) == 256 * Pow(256, 2);
    assert Pow(256, 4) == 256 * Pow(256, 3);
    assert Pow(256, 5) == 256 * Pow(256, 4);
    assert Pow(256, 6) == 256 * Pow(256, 5);
    assert Pow(256, 7) == 256 * Pow(256, 6);
    assert Pow(256, 8) == 256 * Pow(256, 7);
    assert Pow(256, 9) == 256 * Pow(256, 8);
    assert Pow(256, 10) == 256 * Pow(256, 9);
    assert Pow(256, 11) == 256 * Pow(256, 10);
  }

  /** 58^71 < 256^52. */
  lemma {:induction false} LongPower()
    ensures Pow(58, 71) <= Pow(256, 52)
  {
    PowersOf58();
    PowersOf256();
    PowAdd(58, 15, 15);
    assert Pow(58, 30) == 79953928393091004080532279173738402825689466587316224;
    PowAdd(58, 30, 30);
    assert Pow(58, 60) == 6392630665487523829925705590507004456832030712891733088851577912861189652777515686114891080333114973618176;
    PowAdd(58, 60, 11);
    assert Pow(58, 71) == 159730386663078066345306447337161584696769904898410078913243029577507397293846405390982563136983769384625594118558891106107392;
    PowAdd(256, 11, 11);
    assert Pow(256, 22) == 95780971304118053647396689196894323976171195136475136;
    PowAdd(256, 22, 22);
    assert Pow(256, 44) == 9173994463960286046443283581208347763186259956673124494950355357547691504353939232280074212440502746218496;
    PowAdd(256, 44, 8);
    assert Pow(256, 52) == 169230328010303641331690318856389386196071598838855992136870091590247882556495704531248437872567112920983350278405979725889536;
  }

  /** Powers of quotients: from a block of `u` digits for `v` to any number of blocks. */
  lemma {:induction false} Blocks(x: nat, u: nat, y: nat, v: nat, q: nat)
    requires 0 < x && 0 < y && Pow(x, u) <= Pow(y, v)
    ensures Pow(x, u * q) <= Pow(y, v * q)
  {
    if q == 0 {
      assert u * q == 0 && v * q == 0;
    } else {
      Blocks(x, u, y, v, q - 1);
      assert u * q == u + u * (q - 1) && v * q == v + v * (q - 1);
      PowAdd(x, u, u * (q - 1));
      PowAdd(y, v, v * (q - 1));
      PowPositive(x, u * (q - 1));
      PowPositive(y, v);
      MulAtMost(Pow(x, u), Pow(y, v), Pow(x, u * (q - 1)));
      MulAtMost(Pow(x, u * (q - 1)), Pow(y, v * (q - 1)), Pow(y, v));
    }
  }

  /** Two estimates multiply. */
  lemma {:induction false} Together(x: nat, i: nat, j: nat, y: nat, k: nat, l: nat)
    requires 0 < x && 0 < y && Pow(x, i) <= Pow(y, k) && Pow(x, j) <= Pow(y, l)
    ensures Pow(x, i + j) <= Pow(y, k + l)
  {
    PowAdd(x, i, j);
    PowAdd(y, k, l);
    PowPositive(x, j);
    PowPositive(y, k);
    MulAtMost(Pow(x, i), Pow(y, k), Pow(x, j));
    MulAtMost(Pow(x, j), Pow(y, l), Pow(y, k));
  }

  /** Base 58 digits for up to seven bytes. */
  function FewBytes(r: nat): nat
    requires r < 8
  {
    if r == 0 then 0 else if r == 1 then 2 else if r == 2 then 3 else if r == 3 then 5
    else if r == 4 then 6 else if r == 5 then 7 else if r == 6 then 9 else 10
  }

  /** The encoder's buffer has room for any number of so many bytes. */
  lemma {:induction false} EncodeRoom(n: nat)
    ensures Pow(256, n) <= Pow(58, n * 138 / 100 + 1)
  {
    var q, r := n / 8, n % 8;
    PowersOf58();
    PowersOf256();
    assert Pow(256, 0) == 1 && Pow(58, 0) == 1;
    Blocks(256, 8, 58, 11, q);
    assert Pow(256, r) <= Pow(58, FewBytes(r));
    Together(256, 8 * q, r, 58, 11 * q, FewBytes(r));
    PowMonotone(58, 11 * q + FewBytes(r), n * 138 / 100 + 1);
  }

  /** Bytes for up to fourteen base 58 digits. */
  lemma {:induction false} FewDigits(b: nat)
    requires b < 15
    ensures Pow(58, b) <= Pow(256, if b == 0 then 0 else b * 733 / 1000 + 1)
  {
    PowersOf58();
    PowersOf256();
    assert Pow(58, 0) == 1 && Pow(256, 0) == 1;
  }

  lemma {:induction false} SeventyExponent(r: nat)
    requires r < 71
    ensures 11 * (r / 15) + (if r % 15 == 0 then 0 else (r % 15) * 733 / 1000 + 1) <= r * 733 / 1000 + 1
  {
    var a, b := r / 15, r % 15;
    assert r == 15 * a + b && a <= 4;
  }

  lemma {:induction false} FifteenTimes(a: nat, b: nat, t: nat)
    requires Pow(58, b) <= Pow(256, t)
    ensures Pow(58, 15 * a + b) <= Pow(256, 11 * a + t)
  {
    FifteenDigits();
    Blocks(58, 15, 256, 11, a);
    Together(58, 15 * a, b, 256, 11 * a, t);
  }

  lemma {:induction false} SeventyDigits(r: nat)
    requires r < 71
    ensures Pow(58, r) <= Pow(256, r * 733 / 1000 + 1)
  {
    var a, b := r / 15, r % 15;
    var t := if b == 0 then 0 else b * 733 / 1000 + 1;
    FewDigits(b);
    FifteenTimes(a, b, t);
    assert 15 * a + b == r;
    SeventyExponent(r);
    PowMonotone(256, 11 * a + t, r * 733 / 1000 + 1);
  }

  lemma {:induction false} FifteenDigits()
    ensures Pow(58, 15) <= Pow(256, 11)
  {
    PowersOf58();
    PowersOf256();
  }

  lemma {:induction false} LongExponent(n: nat)
    ensures 52 * (n / 71) + ((n % 71) * 733 / 1000 + 1) <= n * 733 / 1000 + 1
  {
    var q, r := n / 71, n % 71;
    assert n == 71 * q + r;
    assert n * 733 == 52043 * q + r * 733;
  }

  lemma {:induction false} LongTimes(q: nat, r: nat, t: nat)
    requires Pow(58, r) <= Pow(256, t)
    ensures Pow(58, 71 * q + r) <= Pow(256, 52 * q + t)
  {
    LongPower();
    Blocks(58, 71, 256, 52, q);
    Together(58, 71 * q, r, 256, 52 * q, t);
  }

  /** The decoder's buffer has room for any number of so many digits. */
  lemma {:induction false} DecodeRoom(n: nat)
    ensures Pow(58, n) <= Pow(256, n * 733 / 1000 + 1)
  {
    var q, r := n / 71, n % 71;
    var t := r * 733 / 1000 + 1;
    SeventyDigits(r);
    LongTimes(q, r, t);
    assert 71 * q + r == n;
    LongExponent(n);
    PowMonotone(256, 52 * q + t, n * 733 / 1000 + 1);
  }
}
