/**
 The guarantees that the comment on `PostLinearize` (`cluster_linearize.h`) gives: the
 result is at least as good as the input, its chunks are connected, tree-shaped clusters
 are linearized optimally, and moving a leaf to the end first does no harm.
*/
module PostGuarantees {
  import opened Common
  import opened FeeFracs
  import opened Orders
  import opened Sums
  import opened Diagram
  import opened DepGraphs
  import opened Chunking
  import opened Merging
  import opened PostSpec

  // ----- backward passes

  ghost function Rev(l: seq<nat>): seq<nat> {
    seq(|l|, i requires 0 <= i < |l| => l[|l| - 1 - i])
  }

  ghost function FlipEntry(e: Entry): Entry {
    Entry(FeeFrac(-e.feerate.fee, e.feerate.size), e.descendants, e.ancestors)
  }

  /** Parents and children trade places, and fees are negated. */
  ghost function Flip(g: Graph): Graph {
    Graph(seq(|g.entries|, i requires 0 <= i < |g.entries| => FlipEntry(g.entries[i])), g.used)
  }

  lemma {:induction false} RevRev(l: seq<nat>)
    ensures Rev(Rev(l)) == l && |Rev(l)| == |l|
  {
  }

  lemma {:induction false} RevElems(l: seq<nat>)
    ensures Elems(Rev(l)) == Elems(l)
    ensures NoDup(l) ==> NoDup(Rev(l))
  {
    forall x | x in l ensures x in Rev(l) {
      var i :| 0 <= i < |l| && l[i] == x;
      assert Rev(l)[|l| - 1 - i] == x;
    }
  }

  lemma {:induction false} RevConcat(a: seq<nat>, b: seq<nat>)
    ensures Rev(a + b) == Rev(b) + Rev(a)
  {
  }

  lemma {:induction false} FlipValid(g: Graph)
    requires g.Valid()
    ensures Flip(g).Valid()
    ensures g.AllSized() ==> Flip(g).AllSized()
  {
    var h := Flip(g);
    forall i, j | i in h.used && j in h.Anc(i) ensures h.Anc(j) <= h.Anc(i) {
      forall k | k in h.Anc(j) ensures k in h.Anc(i) {
        AncTransitive(g, i, j, k);
      }
    }
    forall i | i in h.used ensures i in h.Anc(i) {
      assert i in g.Anc(i);
    }
  }

  lemma {:induction false} FlipTopological(g: Graph, l: seq<nat>)
    requires g.Valid() && Elems(l) <= g.used
    ensures Flip(g).Topological(Rev(l)) <==> g.Topological(l)
  {
    var h, r, n := Flip(g), Rev(l), |l|;
    assert forall i :: 0 <= i < n ==> l[i] in Elems(l);
    if g.Topological(l) {
      forall i, j | 0 <= i < j < n ensures r[j] !in h.Anc(r[i]) {
        assert l[n - 1 - i] !in g.Anc(l[n - 1 - j]);
      }
    }
    if h.Topological(r) {
      forall i, j | 0 <= i < j < n ensures l[j] !in g.Anc(l[i]) {
        assert r[n - 1 - i] !in h.Anc(r[n - 1 - j]);
      }
    }
  }

  lemma {:induction false} RevPrefixSum(w: seq<int>, w': seq<int>, l: seq<nat>, k: nat)
    requires |w| == |w'| && k <= |l| && forall i :: 0 <= i < |w| ==> w'[i] == -w[i]
    ensures PrefixSum(w', Rev(l), k) == PrefixSum(w, l, |l| - k) - SumSeq(w, l)
  {
    if 0 < k {
      RevPrefixSum(w, w', l, k - 1);
      assert Rev(l)[k - 1] == l[|l| - k];
    }
  }

  /** Reading an order backwards with negated weights shifts its best prefix by its total. */
  lemma {:induction false} BestReverse(w: seq<int>, w': seq<int>, l: seq<nat>)
    requires |w| == |w'| && forall i :: 0 <= i < |w| ==> w'[i] == -w[i]
    ensures Best(w', Rev(l)) == Best(w, l) - SumSeq(w, l)
  {
    var k := BestToWitness(w', Rev(l), |l|);
    RevPrefixSum(w, w', l, k);
    BestBound(w, l, |l| - k);
    var j := BestToWitness(w, l, |l|);
    RevPrefixSum(w, w', l, |l| - j);
    BestBound(w', Rev(l), |l| - j);
  }

  lemma {:induction false} FlipWeights(g: Graph, p: int, q: int)
    ensures var w, w' := Weights(g.Rates(), p, q), Weights(Flip(g).Rates(), -p, q);
      |w| == |w'| && forall i :: 0 <= i < |w| ==> w'[i] == -w[i]
  {
    var fr, fr' := g.Rates(), Flip(g).Rates();
    forall i | 0 <= i < |fr| ensures fr'[i].Above(-p, q) == -fr[i].Above(p, q) {
      assert fr'[i] == FeeFrac(-fr[i].fee, fr[i].size);
      assert q * (-fr[i].fee) == -(q * fr[i].fee);
      assert (-p) * fr[i].size == -(p * fr[i].size);
    }
  }

  /** Domination in the flipped graph is domination in the graph. */
  lemma {:induction false} FlipDominates(g: Graph, a: seq<nat>, b: seq<nat>)
    requires NoDup(a) && NoDup(b) && Elems(a) == Elems(b)
    requires Dominates(Flip(g).Rates(), Rev(a), Rev(b))
    ensures Dominates(g.Rates(), a, b)
  {
    forall p: int, q: int | 0 < q ensures Best(Weights(g.Rates(), p, q), a) >= Best(Weights(g.Rates(), p, q), b) {
      var w, w' := Weights(g.Rates(), p, q), Weights(Flip(g).Rates(), -p, q);
      FlipWeights(g, p, q);
      BestReverse(w, w', a);
      BestReverse(w, w', b);
      SumSeqIsSum(w, a);
      SumSeqIsSum(w, b);
      assert Best(w', Rev(a)) >= Best(w', Rev(b));
    }
  }

  // ----- the two passes

  ghost function Backward(g: Graph, l: seq<nat>): seq<nat> {
    Rev(Flatten(PassGroups(Flip(g), Rev(l))))
  }

  ghost function Forward(g: Graph, l: seq<nat>): seq<nat> {
    Flatten(PassGroups(g, l))
  }

  ghost function PostLin(g: Graph, l: seq<nat>): seq<nat> {
    Forward(g, Backward(g, l))
  }

  lemma {:induction false} ForwardImproves(g: Graph, l: seq<nat>)
    requires g.AllSized() && IsLinearization(g, l)
    ensures IsLinearization(g, Forward(g, l)) && Dominates(g.Rates(), Forward(g, l), l)
    ensures IsChunking(g.Rates(), PassGroups(g, l), Forward(g, l))
  {
    assert l + [] == l;
    PassCorrect(g, l, []);
    assert Forward(g, l) + [] == Forward(g, l);
  }

  lemma {:induction false} BackwardImproves(g: Graph, l: seq<nat>)
    requires g.Valid() && g.AllSized() && IsLinearization(g, l)
    ensures IsLinearization(g, Backward(g, l)) && Dominates(g.Rates(), Backward(g, l), l)
  {
    var h := Flip(g);
    FlipValid(g);
    RevElems(l);
    FlipTopological(g, l);
    ForwardImproves(h, Rev(l));
    var r := Forward(h, Rev(l));
    RevRev(r);
    RevElems(r);
    FlipTopological(g, Rev(r));
    FlipDominates(g, Rev(r), l);
  }

  /** The result is a linearization at least as good as the input. */
  lemma {:induction false} PostLinImproves(g: Graph, l: seq<nat>)
    requires g.Valid() && g.AllSized() && IsLinearization(g, l)
    ensures IsLinearization(g, PostLin(g, l)) && Dominates(g.Rates(), PostLin(g, l), l)
  {
    BackwardImproves(g, l);
    ForwardImproves(g, Backward(g, l));
    DominatesTransitive(g.Rates(), PostLin(g, l), Backward(g, l), l);
  }

  // ----- the resulting chunks are connected

  /** No proper non-empty part is cut off from the rest by lack of dependencies. */
  ghost predicate Connected(g: Graph, s: set<nat>) {
    forall m {:trigger g.Saturated(m, s)} :: g.Saturated(m, s) && m != {} ==> m == s
  }

  ghost predicate AllConnected(g: Graph, groups: seq<seq<nat>>) {
    forall k :: 0 <= k < |groups| ==> Connected(g, Elems(groups[k]))
  }

  lemma {:induction false} SaturatedPart(g: Graph, m: set<nat>, s: set<nat>, part: set<nat>)
    requires g.Saturated(m, s) && part <= s
    ensures g.Saturated(m * part, part)
  {
  }

  /** Two connected groups with a dependency between them form a connected group. */
  lemma {:induction false} ConnectedMerge(g: Graph, a: seq<nat>, b: seq<nat>)
    requires g.Valid() && Elems(a) <= g.used && Elems(b) <= g.used
    requires Connected(g, Elems(a)) && Connected(g, Elems(b)) && Depends(g, b, a)
    ensures Connected(g, Elems(a + b))
  {
    ElemsConcat(a, b);
    var A, B := Elems(a), Elems(b);
    var x, y :| x in b && y in a && y in g.Anc(x);
    assert x in B && y in A && x in g.Des(y);
    forall m | g.Saturated(m, A + B) && m != {} ensures m == A + B {
      SaturatedPart(g, m, A + B, A);
      SaturatedPart(g, m, A + B, B);
      assert m == m * A + m * B;
    }
  }

  lemma {:induction false} BubbleConnected(g: Graph, left: seq<seq<nat>>, cur: seq<nat>, right: seq<seq<nat>>)
    requires g.Valid() && AllConnected(g, left) && AllConnected(g, right) && Connected(g, Elems(cur))
    requires (forall k :: 0 <= k < |left| ==> Elems(left[k]) <= g.used) && Elems(cur) <= g.used
    ensures AllConnected(g, Bubble(g, left, cur, right))
    decreases |left|
  {
    if left != [] {
      var n := |left| - 1;
      if !AggSeq(g.Rates(), cur).Higher(AggSeq(g.Rates(), left[n])) {
      } else if Depends(g, cur, left[n]) {
        ConnectedMerge(g, left[n], cur);
        ElemsConcat(left[n], cur);
        BubbleConnected(g, left[..n], left[n] + cur, right);
      } else {
        BubbleConnected(g, left[..n], cur, [left[n]] + right);
      }
    }
  }

  lemma {:induction false} GroupsWithin(groups: seq<seq<nat>>, s: set<nat>)
    requires Elems(Flatten(groups)) <= s
    ensures forall k :: 0 <= k < |groups| ==> Elems(groups[k]) <= s
  {
    forall k | 0 <= k < |groups| ensures Elems(groups[k]) <= s {
      FlattenSplit(groups, k);
      ElemsConcat(Flatten(groups[..k]) + groups[k], Flatten(groups[k + 1..]));
      ElemsConcat(Flatten(groups[..k]), groups[k]);
    }
  }

  lemma {:induction false} PassConnected(g: Graph, l: seq<nat>)
    requires g.Valid() && g.AllSized() && Elems(l) <= g.used && NoDup(l) && g.Topological(l)
    ensures AllConnected(g, PassGroups(g, l))
    decreases |l|
  {
    if l != [] {
      var n := |l| - 1;
      var a, x := l[..n], l[n];
      assert l == a + [x];
      ElemsConcat(a, [x]);
      NoDupConcat(a, [x]);
      TopologicalConcat(g, a, [x]);
      assert x in Elems(l);
      PassConnected(g, a);
      assert a + [] == a;
      PassCorrect(g, a, []);
      assert Flatten(PassGroups(g, a)) + [] == Flatten(PassGroups(g, a));
      GroupsWithin(PassGroups(g, a), g.used);
      assert Elems([x]) == {x};
      BubbleConnected(g, PassGroups(g, a), [x], []);
    }
  }

  /** The chunks of the result are connected. */
  lemma {:induction false} PostLinChunksConnected(g: Graph, l: seq<nat>, chunks: seq<seq<nat>>)
    requires g.Valid() && g.AllSized() && IsLinearization(g, l)
    requires IsChunking(g.Rates(), chunks, PostLin(g, l))
    ensures AllConnected(g, chunks)
  {
    BackwardImproves(g, l);
    ForwardImproves(g, Backward(g, l));
    ChunkingUnique(g.Rates(), chunks, PassGroups(g, Backward(g, l)), PostLin(g, l));
    PassConnected(g, Backward(g, l));
  }
}
