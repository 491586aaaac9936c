/**
 Feerate diagrams and how linearizations compare.

 For a slope `p/q` give every transaction the weight `q * fee - p * size`.  A
 linearization is judged at that slope by its best prefix.  One linearization dominates
 another when its best prefix is at least as heavy at every slope; this is "at least as
 good in the feerate diagram sense", since a concave diagram is determined by its
 supporting lines.
*/
module Diagram {
  import opened Common
  import opened FeeFracs
  import opened Orders
  import opened Sums

  ghost function BestTo(w: seq<int>, l: seq<nat>, n: nat): int
    requires n <= |l|
  {
    if n == 0 then 0 else Max(BestTo(w, l, n - 1), PrefixSum(w, l, n))
  }

  /** The weight of the heaviest prefix of `l` (the empty one included). */
  ghost function Best(w: seq<int>, l: seq<nat>): int {
    BestTo(w, l, |l|)
  }

  /** At every slope, the best prefix of `a` is at least as heavy as the best prefix of `b`. */
  ghost predicate Dominates(fr: Rates, a: seq<nat>, b: seq<nat>) {
    forall p: int, q: int :: 0 < q ==> Best(Weights(fr, p, q), a) >= Best(Weights(fr, p, q), b)
  }

  // ----- the best prefix

  lemma {:induction false} BestToBound(w: seq<int>, l: seq<nat>, n: nat, k: nat)
    requires k <= n <= |l|
    ensures PrefixSum(w, l, k) <= BestTo(w, l, n)
  {
    if k < n {
      BestToBound(w, l, n - 1, k);
    } else if 0 < n {
      assert PrefixSum(w, l, n) <= BestTo(w, l, n);
    }
  }

  lemma {:induction false} BestBound(w: seq<int>, l: seq<nat>, k: nat)
    requires k <= |l|
    ensures PrefixSum(w, l, k) <= Best(w, l)
    ensures 0 <= Best(w, l)
  {
    BestToBound(w, l, |l|, k);
    BestToBound(w, l, |l|, 0);
  }

  lemma {:induction false} BestToWitness(w: seq<int>, l: seq<nat>, n: nat) returns (k: nat)
    requires n <= |l|
    ensures k <= n && BestTo(w, l, n) == PrefixSum(w, l, k)
  {
    if n == 0 {
      k := 0;
    } else {
      k := BestToWitness(w, l, n - 1);
      if BestTo(w, l, n) == PrefixSum(w, l, n) {
        k := n;
      }
    }
  }

  lemma {:induction false} BestConcat(w: seq<int>, a: seq<nat>, b: seq<nat>)
    ensures Best(w, a + b) == Max(Best(w, a), SumSeq(w, a) + Best(w, b))
  {
    var k := BestToWitness(w, a + b, |a| + |b|);
    PrefixSumConcat(w, a, b, k);
    if k <= |a| {
      BestBound(w, a, k);
    } else {
      BestBound(w, b, k - |a|);
    }
    var i := BestToWitness(w, a, |a|);
    PrefixSumConcat(w, a, b, i);
    BestBound(w, a + b, i);
    var j := BestToWitness(w, b, |b|);
    PrefixSumConcat(w, a, b, |a| + j);
    BestBound(w, a + b, |a| + j);
    if j == 0 {
      assert PrefixSum(w, a, |a|) == SumSeq(w, a);
    }
  }

  /** A prefix followed by something better is better. */
  lemma {:induction false} BestConcatMonotone(w: seq<int>, a: seq<nat>, b: seq<nat>, c: seq<nat>)
    requires Best(w, b) <= Best(w, c)
    ensures Best(w, a + b) <= Best(w, a + c)
  {
    BestConcat(w, a, b);
    BestConcat(w, a, c);
  }

  lemma DominatesTransitive(fr: Rates, a: seq<nat>, b: seq<nat>, c: seq<nat>)
    requires Dominates(fr, a, b) && Dominates(fr, b, c)
    ensures Dominates(fr, a, c)
  {
    forall p: int, q: int | 0 < q
      ensures Best(Weights(fr, p, q), a) >= Best(Weights(fr, p, q), c)
    {
      assert Best(Weights(fr, p, q), a) >= Best(Weights(fr, p, q), b);
    }
  }

  // ----- chunks

  /** Fee and size of the first `n` entries. */
  ghost function AggPrefix(fr: Rates, l: seq<nat>, n: nat): FeeFrac
    requires n <= |l|
  {
    FeeFrac(PrefixSum(Fees(fr), l, n), PrefixSum(Sizes(fr), l, n))
  }

  /** A group every proper prefix of which has a strictly lower feerate than the whole. */
  ghost predicate IsChunk(fr: Rates, g: seq<nat>) {
    && g != []
    && Sized(fr, Elems(g))
    && forall k :: 0 < k < |g| ==> AggPrefix(fr, g, k).Cross(AggSeq(fr, g)) < 0
  }

  ghost predicate AreChunks(fr: Rates, groups: seq<seq<nat>>) {
    forall i :: 0 <= i < |groups| ==> IsChunk(fr, groups[i])
  }

  /** Feerates do not increase from one group to a later one. */
  ghost predicate NonIncreasing(fr: Rates, groups: seq<seq<nat>>) {
    forall i, j :: 0 <= i < j < |groups| ==> AggSeq(fr, groups[j]).Cross(AggSeq(fr, groups[i])) <= 0
  }

  lemma {:induction false} PrefixSizes(fr: Rates, l: seq<nat>, k: nat, n: nat)
    requires k <= n <= |l| && Sized(fr, Elems(l))
    ensures k < n ==> PrefixSum(Sizes(fr), l, k) < PrefixSum(Sizes(fr), l, n)
    ensures 0 <= PrefixSum(Sizes(fr), l, k)
    decreases n
  {
    if k < n {
      assert l[n - 1] in Elems(l);
      PrefixSizes(fr, l, k, n - 1);
    } else if 0 < k {
      assert l[k - 1] in Elems(l);
      PrefixSizes(fr, l, k - 1, k - 1);
    }
  }

  lemma {:induction false} AggSeqSize(fr: Rates, l: seq<nat>)
    requires l != [] && Sized(fr, Elems(l))
    ensures AggSeq(fr, l).size > 0
  {
    PrefixSizes(fr, l, 0, |l|);
  }

  /** Appending a higher-feerate chunk to a chunk gives a chunk. */
  lemma {:induction false} ChunkMerge(fr: Rates, b: seq<nat>, a: seq<nat>)
    requires IsChunk(fr, b) && IsChunk(fr, a)
    requires AggSeq(fr, a).Cross(AggSeq(fr, b)) > 0
    ensures IsChunk(fr, b + a)
    ensures AggSeq(fr, b + a) == AggSeq(fr, b).Plus(AggSeq(fr, a))
    ensures AggSeq(fr, b).Cross(AggSeq(fr, b + a)) < 0
    ensures AggSeq(fr, a).Cross(AggSeq(fr, b + a)) > 0
  {
    var whole, B, A := AggSeq(fr, b + a), AggSeq(fr, b), AggSeq(fr, a);
    AggSeqConcat(fr, b, a);
    AggSeqSize(fr, a);
    AggSeqSize(fr, b);
    CrossPlus(B, A, B);
    CrossPlus(B, A, A);
    ElemsConcat(b, a);
    forall k | 0 < k < |b + a|
      ensures AggPrefix(fr, b + a, k).Cross(whole) < 0
    {
      ChunkMergeAt(fr, b, a, k);
    }
  }

  lemma {:induction false} ChunkMergeAt(fr: Rates, b: seq<nat>, a: seq<nat>, k: nat)
    requires IsChunk(fr, b) && IsChunk(fr, a)
    requires AggSeq(fr, a).Cross(AggSeq(fr, b)) > 0
    requires 0 < k < |b + a|
    ensures AggPrefix(fr, b + a, k).Cross(AggSeq(fr, b).Plus(AggSeq(fr, a))) < 0
  {
    var B, A := AggSeq(fr, b), AggSeq(fr, a);
    var whole, x := B.Plus(A), AggPrefix(fr, b + a, k);
    AggSeqSize(fr, a);
    AggSeqSize(fr, b);
    CrossPlus(B, A, B);
    CrossPlus(B, A, A);
    CrossPlus(B, A, whole);
    CrossPlus(A, B, B);
    PrefixSumConcat(Fees(fr), b, a, k);
    PrefixSumConcat(Sizes(fr), b, a, k);
    if k < |b| {
      assert x == AggPrefix(fr, b, k);
      PrefixSizes(fr, b, 0, k);
      CrossPlus(x, x, B);
      CrossPlus(x, x, whole);
      CrossTransitive(whole, B, x);
    } else if k == |b| {
      assert x == B;
    } else {
      var y := AggPrefix(fr, a, k - |b|);
      var z := A.Minus(y);
      assert x == B.Plus(y) && A == y.Plus(z) && whole == x.Plus(z);
      PrefixSizes(fr, a, k - |b|, |a|);
      CrossPlus(y, z, A);
      assert z.Cross(A) > 0;
      CrossTransitive(z, A, whole);
      CrossPlus(x, z, whole);
    }
  }

  lemma SingletonChunk(fr: Rates, x: nat)
    requires x < |fr| && 0 < fr[x].size
    ensures IsChunk(fr, [x]) && AggSeq(fr, [x]) == fr[x]
  {
    AggSeqSingle(fr, x);
  }

  /** Inside a chunk nothing beats stopping before it or after it. */
  lemma {:induction false} ChunkBest(fr: Rates, p: int, q: int, g: seq<nat>)
    requires IsChunk(fr, g) && 0 < q
    ensures Best(Weights(fr, p, q), g) == Max(0, SumSeq(Weights(fr, p, q), g))
  {
    var w := Weights(fr, p, q);
    BestBound(w, g, |g|);
    var k := BestToWitness(w, g, |g|);
    if 0 < k < |g| {
      ChunkPrefixBound(fr, p, q, g, k);
    }
  }

  lemma {:induction false} ChunkPrefixBound(fr: Rates, p: int, q: int, g: seq<nat>, k: nat)
    requires IsChunk(fr, g) && 0 < q && 0 < k < |g|
    ensures PrefixSum(Weights(fr, p, q), g, k) <= Max(0, SumSeq(Weights(fr, p, q), g))
  {
    var x, whole := AggPrefix(fr, g, k), AggSeq(fr, g);
    var y := whole.Minus(x);
    assert whole == x.Plus(y);
    PrefixSumWeights(fr, p, q, g, k);
    SumSeqWeights(fr, p, q, g);
    PrefixSizes(fr, g, k, |g|);
    PrefixSizes(fr, g, 0, k);
    CrossPlus(x, y, whole);
    CrossPlus(x, x, whole);
    AbovePlus(x, y, p, q);
    if x.Above(p, q) > 0 {
      SlopeTransfer(whole, x, p, q);
      SlopeTransfer(y, whole, p, q);
    }
  }

  /** The best prefix of a list of chunks ends at a chunk boundary. */
  lemma {:induction false} BestAtBoundary(fr: Rates, p: int, q: int, groups: seq<seq<nat>>) returns (m: nat)
    requires AreChunks(fr, groups) && 0 < q
    ensures m <= |groups|
    ensures Best(Weights(fr, p, q), Flatten(groups)) == SumSeq(Weights(fr, p, q), Flatten(groups[..m]))
  {
    var w := Weights(fr, p, q);
    if groups == [] {
      m := 0;
      assert groups[..0] == [];
    } else {
      var rest := groups[1..];
      assert forall i :: 0 <= i < |rest| ==> rest[i] == groups[i + 1];
      var k := BestAtBoundary(fr, p, q, rest);
      ChunkBest(fr, p, q, groups[0]);
      BestConcat(w, groups[0], Flatten(rest));
      BestBound(w, Flatten(rest), 0);
      if Best(w, Flatten(groups)) == 0 {
        m := 0;
        assert groups[..0] == [];
      } else {
        m := k + 1;
        assert groups[..m] == [groups[0]] + rest[..k];
        FlattenConcat([groups[0]], rest[..k]);
        FlattenSingle(groups[0]);
        SumSeqConcat(w, groups[0], Flatten(rest[..k]));
      }
    }
  }

  /** A slope that no chunk exceeds makes every list of chunks weigh at most 0. */
  lemma {:induction false} ChunksBelow(fr: Rates, p: int, q: int, groups: seq<seq<nat>>)
    requires forall i :: 0 <= i < |groups| ==> AggSeq(fr, groups[i]).Above(p, q) <= 0
    ensures SumSeq(Weights(fr, p, q), Flatten(groups)) <= 0
  {
    if groups != [] {
      var rest := groups[1..];
      assert forall i :: 0 <= i < |rest| ==> rest[i] == groups[i + 1];
      ChunksBelow(fr, p, q, rest);
      SumSeqConcat(Weights(fr, p, q), groups[0], Flatten(rest));
      SumSeqWeights(fr, p, q, groups[0]);
    }
  }
}
