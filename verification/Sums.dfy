/**
 Sums of per-position weights over sets and sequences of positions, and the aggregate
 feerate of a set of transactions (`DepGraph::FeeRate(const SetType&)`).

 A weight vector is a `seq<int>` indexed by position; positions past its end weigh 0.
*/
module Sums {
  import opened Common
  import opened FeeFracs
  import opened Orders

  type Rates = seq<FeeFrac>

  ghost function At(w: seq<int>, i: nat): int {
    if i < |w| then w[i] else 0
  }

  ghost function SumTo(w: seq<int>, s: set<nat>, n: nat): int
    requires n <= |w|
  {
    if n == 0 then 0 else SumTo(w, s, n - 1) + if n - 1 in s then w[n - 1] else 0
  }

  ghost function Sum(w: seq<int>, s: set<nat>): int {
    SumTo(w, s, |w|)
  }

  /** The weight of the first `n` entries of `l`. */
  ghost function PrefixSum(w: seq<int>, l: seq<nat>, n: nat): int
    requires n <= |l|
  {
    if n == 0 then 0 else PrefixSum(w, l, n - 1) + At(w, l[n - 1])
  }

  ghost function SumSeq(w: seq<int>, l: seq<nat>): int {
    PrefixSum(w, l, |l|)
  }

  ghost function Fees(fr: Rates): seq<int> {
    seq(|fr|, i requires 0 <= i < |fr| => fr[i].fee)
  }

  ghost function Sizes(fr: Rates): seq<int> {
    seq(|fr|, i requires 0 <= i < |fr| => fr[i].size)
  }

  /** The weights `q * fee - p * size`: how far each transaction lies above slope `p/q`. */
  ghost function Weights(fr: Rates, p: int, q: int): seq<int> {
    seq(|fr|, i requires 0 <= i < |fr| => fr[i].Above(p, q))
  }

  /** Combined fee and size of a set of transactions. */
  ghost function Agg(fr: Rates, s: set<nat>): FeeFrac {
    FeeFrac(Sum(Fees(fr), s), Sum(Sizes(fr), s))
  }

  /** Combined fee and size of a list of transactions. */
  ghost function AggSeq(fr: Rates, l: seq<nat>): FeeFrac {
    FeeFrac(SumSeq(Fees(fr), l), SumSeq(Sizes(fr), l))
  }

  /** Every listed position exists and has a positive size. */
  ghost predicate Sized(fr: Rates, s: set<nat>) {
    forall i :: i in s ==> i < |fr| && 0 < fr[i].size
  }

  // ----- sums over sets

  lemma {:induction false} SumToUnion(w: seq<int>, a: set<nat>, b: set<nat>, n: nat)
    requires n <= |w| && a !! b
    ensures SumTo(w, a + b, n) == SumTo(w, a, n) + SumTo(w, b, n)
  {
    if n > 0 {
      SumToUnion(w, a, b, n - 1);
    }
  }

  lemma {:induction false} SumUnion(w: seq<int>, a: set<nat>, b: set<nat>)
    requires a !! b
    ensures Sum(w, a + b) == Sum(w, a) + Sum(w, b)
  {
    SumToUnion(w, a, b, |w|);
  }

  /** A set splits into its parts inside and outside another one. */
  lemma {:induction false} SumSplit(w: seq<int>, a: set<nat>, b: set<nat>)
    ensures Sum(w, a) == Sum(w, a * b) + Sum(w, a - b)
  {
    assert a == a * b + (a - b);
    SumUnion(w, a * b, a - b);
  }

  lemma {:induction false} SumToEmpty(w: seq<int>, n: nat)
    requires n <= |w|
    ensures SumTo(w, {}, n) == 0
  {
    if n > 0 {
      SumToEmpty(w, n - 1);
    }
  }

  lemma {:induction false} SumEmpty(w: seq<int>)
    ensures Sum(w, {}) == 0
  {
    SumToEmpty(w, |w|);
  }

  lemma {:induction false} SumToSingle(w: seq<int>, x: nat, n: nat)
    requires n <= |w|
    ensures SumTo(w, {x}, n) == if x < n then w[x] else 0
  {
    if n > 0 {
      SumToSingle(w, x, n - 1);
    }
  }

  lemma {:induction false} SumSingle(w: seq<int>, x: nat)
    ensures Sum(w, {x}) == At(w, x)
  {
    SumToSingle(w, x, |w|);
  }

  lemma {:induction false} SumToSign(w: seq<int>, s: set<nat>, n: nat)
    requires n <= |w|
    requires forall i :: i in s ==> At(w, i) >= 0
    ensures SumTo(w, s, n) >= 0
  {
    if n > 0 {
      SumToSign(w, s, n - 1);
      if n - 1 in s {
        assert At(w, n - 1) >= 0;
      }
    }
  }

  lemma {:induction false} SumNonNegative(w: seq<int>, s: set<nat>)
    requires forall i :: i in s ==> At(w, i) >= 0
    ensures Sum(w, s) >= 0
  {
    SumToSign(w, s, |w|);
  }

  // ----- sums over sequences

  lemma {:induction false} PrefixSumConcat(w: seq<int>, a: seq<nat>, b: seq<nat>, n: nat)
    requires n <= |a| + |b|
    ensures PrefixSum(w, a + b, n)
         == if n <= |a| then PrefixSum(w, a, n) else SumSeq(w, a) + PrefixSum(w, b, n - |a|)
  {
    if n > 0 {
      PrefixSumConcat(w, a, b, n - 1);
    }
  }

  lemma {:induction false} SumSeqConcat(w: seq<int>, a: seq<nat>, b: seq<nat>)
    ensures SumSeq(w, a + b) == SumSeq(w, a) + SumSeq(w, b)
  {
    PrefixSumConcat(w, a, b, |a| + |b|);
  }

  /** The weight of the first entries is the weight of the slice. */
  lemma {:induction false} PrefixSumIsSlice(w: seq<int>, l: seq<nat>, n: nat)
    requires n <= |l|
    ensures PrefixSum(w, l, n) == SumSeq(w, l[..n])
  {
    assert l == l[..n] + l[n..];
    PrefixSumConcat(w, l[..n], l[n..], n);
  }

  lemma {:induction false} SumSeqSingle(w: seq<int>, x: nat)
    ensures SumSeq(w, [x]) == At(w, x)
  {
    assert PrefixSum(w, [x], 0) == 0;
  }

  /** Listing a set in any order sums the same weights. */
  lemma {:induction false} SumSeqIsSum(w: seq<int>, l: seq<nat>)
    requires NoDup(l)
    ensures SumSeq(w, l) == Sum(w, Elems(l))
  {
    if l == [] {
      assert Elems(l) == {};
      SumEmpty(w);
    } else {
      var a, x := l[..|l| - 1], l[|l| - 1];
      assert l == a + [x];
      NoDupConcat(a, [x]);
      ElemsConcat(a, [x]);
      SumSeqIsSum(w, a);
      assert Elems([x]) == {x};
      SumUnion(w, Elems(a), {x});
      SumSingle(w, x);
      SumSeqConcat(w, a, [x]);
      SumSeqSingle(w, x);
    }
  }

  // ----- aggregate feerates

  lemma {:induction false} AggUnion(fr: Rates, a: set<nat>, b: set<nat>)
    requires a !! b
    ensures Agg(fr, a + b) == Agg(fr, a).Plus(Agg(fr, b))
  {
    SumUnion(Fees(fr), a, b);
    SumUnion(Sizes(fr), a, b);
  }

  lemma {:induction false} AggSplit(fr: Rates, a: set<nat>, b: set<nat>)
    ensures Agg(fr, a) == Agg(fr, a * b).Plus(Agg(fr, a - b))
  {
    SumSplit(Fees(fr), a, b);
    SumSplit(Sizes(fr), a, b);
  }

  lemma {:induction false} AggEmpty(fr: Rates)
    ensures Agg(fr, {}) == EMPTY
  {
    SumEmpty(Fees(fr));
    SumEmpty(Sizes(fr));
  }

  lemma {:induction false} AggSingle(fr: Rates, x: nat)
    requires x < |fr|
    ensures Agg(fr, {x}) == fr[x]
  {
    SumSingle(Fees(fr), x);
    SumSingle(Sizes(fr), x);
  }

  lemma {:induction false} AggSeqIsAgg(fr: Rates, l: seq<nat>)
    requires NoDup(l)
    ensures AggSeq(fr, l) == Agg(fr, Elems(l))
  {
    SumSeqIsSum(Fees(fr), l);
    SumSeqIsSum(Sizes(fr), l);
  }

  lemma {:induction false} AggSeqConcat(fr: Rates, a: seq<nat>, b: seq<nat>)
    ensures AggSeq(fr, a + b) == AggSeq(fr, a).Plus(AggSeq(fr, b))
  {
    SumSeqConcat(Fees(fr), a, b);
    SumSeqConcat(Sizes(fr), a, b);
  }

  lemma {:induction false} AggSeqSingle(fr: Rates, x: nat)
    requires x < |fr|
    ensures AggSeq(fr, [x]) == fr[x]
  {
    SumSeqSingle(Fees(fr), x);
    SumSeqSingle(Sizes(fr), x);
  }

  lemma {:induction false} SumToPositive(fr: Rates, s: set<nat>, x: nat, n: nat)
    requires Sized(fr, s) && n <= |fr|
    ensures SumTo(Sizes(fr), s, n) >= 0
    ensures x in s && x < n ==> SumTo(Sizes(fr), s, n) > 0
  {
    if n > 0 {
      SumToPositive(fr, s, x, n - 1);
    }
  }

  /** A set of real transactions is empty exactly when its aggregate size is 0. */
  lemma {:induction false} AggSize(fr: Rates, s: set<nat>)
    requires Sized(fr, s)
    ensures Agg(fr, s).size >= 0
    ensures s != {} <==> Agg(fr, s).size > 0
    ensures s == {} ==> Agg(fr, s) == EMPTY
  {
    SumToPositive(fr, s, 0, |fr|);
    if s == {} {
      AggEmpty(fr);
    } else {
      var x :| x in s;
      SumToPositive(fr, s, x, |fr|);
    }
  }

  /** A proper superset is strictly larger. */
  lemma {:induction false} AggSizeMonotone(fr: Rates, a: set<nat>, b: set<nat>)
    requires Sized(fr, b) && a <= b
    ensures Agg(fr, a).size <= Agg(fr, b).size
    ensures Agg(fr, a).size == Agg(fr, b).size ==> a == b
  {
    AggSplit(fr, b, a);
    assert b * a == a;
    AggSize(fr, b - a);
    assert b == a + (b - a);
  }

  // ----- weights at a slope

  lemma {:induction false} SumToWeights(fr: Rates, p: int, q: int, s: set<nat>, n: nat)
    requires n <= |fr|
    ensures SumTo(Weights(fr, p, q), s, n)
         == FeeFrac(SumTo(Fees(fr), s, n), SumTo(Sizes(fr), s, n)).Above(p, q)
  {
    if n > 0 {
      SumToWeights(fr, p, q, s, n - 1);
      if n - 1 in s {
        AbovePlus(FeeFrac(SumTo(Fees(fr), s, n - 1), SumTo(Sizes(fr), s, n - 1)), fr[n - 1], p, q);
      }
    }
  }

  /** The weight of a set is its aggregate feerate's height above the slope. */
  lemma {:induction false} SumWeights(fr: Rates, p: int, q: int, s: set<nat>)
    ensures Sum(Weights(fr, p, q), s) == Agg(fr, s).Above(p, q)
  {
    SumToWeights(fr, p, q, s, |fr|);
  }

  lemma {:induction false} PrefixSumWeights(fr: Rates, p: int, q: int, l: seq<nat>, n: nat)
    requires n <= |l|
    ensures PrefixSum(Weights(fr, p, q), l, n)
         == FeeFrac(PrefixSum(Fees(fr), l, n), PrefixSum(Sizes(fr), l, n)).Above(p, q)
  {
    if n > 0 {
      PrefixSumWeights(fr, p, q, l, n - 1);
      var x := FeeFrac(At(Fees(fr), l[n - 1]), At(Sizes(fr), l[n - 1]));
      AbovePlus(FeeFrac(PrefixSum(Fees(fr), l, n - 1), PrefixSum(Sizes(fr), l, n - 1)), x, p, q);
    }
  }

  lemma {:induction false} SumSeqWeights(fr: Rates, p: int, q: int, l: seq<nat>)
    ensures SumSeq(Weights(fr, p, q), l) == AggSeq(fr, l).Above(p, q)
  {
    PrefixSumWeights(fr, p, q, l, |l|);
  }
}
