/**
 `PostLinearize` linearizes tree-shaped clusters optimally.

 When every transaction has at most one child, each group of a forward pass consists of
 ancestors of its last transaction, and no ancestor-closed part of a group has a higher
 feerate than the group: no linearization can do better.
*/
module PostTrees {
  import opened Common
  import opened FeeFracs
  import opened Orders
  import opened Sums
  import opened Diagram
  import opened DepGraphs
  import opened Chunking
  import opened Merging
  import opened PostSpec
  import opened PostGuarantees

  // ----- tree shapes

  /** Some set of at most one parent accounts for all ancestors of `i`. */
  ghost predicate OneParent(g: Graph, i: nat) {
    exists s: set<nat> :: |s| <= 1 && s <= g.Anc(i) - {i} && g.Generates(s, i)
  }

  /** Every transaction has at most one parent. */
  ghost predicate AtMostOneParent(g: Graph) {
    forall i {:trigger OneParent(g, i)} :: i in g.used ==> OneParent(g, i)
  }

  /** Every transaction has at most one child. */
  ghost predicate AtMostOneChild(g: Graph) {
    AtMostOneParent(Flip(g))
  }

  /** Of two ancestors of a transaction, one is an ancestor of the other. */
  ghost predicate ChainAt(g: Graph, i: nat) {
    forall a, b :: a in g.Anc(i) && b in g.Anc(i) ==> a in g.Anc(b) || b in g.Anc(a)
  }

  ghost predicate Chain(g: Graph) {
    forall i {:trigger ChainAt(g, i)} :: i in g.used ==> ChainAt(g, i)
  }

  lemma {:induction false} OneParentChainAt(g: Graph, i: nat, a: nat, b: nat)
    requires g.Valid() && g.Acyclic() && AtMostOneParent(g)
    requires i in g.used && a in g.Anc(i) && b in g.Anc(i)
    ensures a in g.Anc(b) || b in g.Anc(a)
    decreases |g.Anc(i)|
  {
    if a != i && b != i {
      assert OneParent(g, i);
      var s: set<nat> :| |s| <= 1 && s <= g.Anc(i) - {i} && g.Generates(s, i);
      assert g.Under(a, s) && g.Under(b, s);
      var p :| p in s && a in g.Anc(p);
      var q :| q in s && b in g.Anc(q);
      AtMostOne(s, p, q);
      g.AncestorHasFewer(p, i);
      OneParentChainAt(g, p, a, b);
    }
  }

  lemma {:induction false} AtMostOne(s: set<nat>, p: nat, q: nat)
    requires |s| <= 1 && p in s && q in s
    ensures p == q
  {
    if p != q {
      CardLe({p, q}, s);
    }
  }

  lemma {:induction false} OneParentChain(g: Graph)
    requires g.Valid() && g.Acyclic() && AtMostOneParent(g)
    ensures Chain(g)
  {
    forall i | i in g.used ensures ChainAt(g, i) {
      forall a, b | a in g.Anc(i) && b in g.Anc(i) ensures a in g.Anc(b) || b in g.Anc(a) {
        OneParentChainAt(g, i, a, b);
      }
    }
  }

  // ----- groups of a tree

  /** Every member is an ancestor of the last one. */
  ghost predicate Rooted(h: Graph, g: seq<nat>) {
    g != [] && forall x :: x in g ==> x in h.Anc(g[|g| - 1])
  }

  /** No ancestor-closed part of the group has a higher feerate than the group. */
  ghost predicate Tight(h: Graph, g: seq<nat>) {
    forall y {:trigger h.Closed(y, Elems(g))} ::
      h.Closed(y, Elems(g)) && y != {} ==> Agg(h.Rates(), y).Cross(AggSeq(h.Rates(), g)) <= 0
  }

  ghost predicate TreeGroup(h: Graph, g: seq<nat>) {
    Rooted(h, g) && Tight(h, g)
  }

  ghost predicate TreeGroups(h: Graph, groups: seq<seq<nat>>) {
    forall k :: 0 <= k < |groups| ==> TreeGroup(h, groups[k])
  }

  /** A group that absorbs one it depends on depends on all of it. */
  lemma {:induction false} RootedMerge(h: Graph, a: seq<nat>, b: seq<nat>)
    requires h.Valid() && Chain(Flip(h)) && Elems(a + b) <= h.used
    requires Rooted(h, a) && Rooted(h, b) && Depends(h, b, a) && h.Topological(a + b)
    ensures Rooted(h, a + b)
  {
    var r, i, l := a[|a| - 1], b[|b| - 1], a + b;
    assert l[|a| - 1] == r && l[|l| - 1] == i;
    assert i !in h.Anc(r);
    var x, p :| x in b && p in a && p in h.Anc(x);
    RootsUsed(h, a, b, r, i);
    AncTransitive(h, p, x, i);
    // Both r and i descend from p, so one descends from the other; r comes first.
    ChainDescendants(h, p, r, i);
    forall y | y in a ensures y in h.Anc(i) {
      AncTransitive(h, y, r, i);
    }
  }

  lemma {:induction false} RootsUsed(h: Graph, a: seq<nat>, b: seq<nat>, r: nat, i: nat)
    requires Elems(a + b) <= h.used && r in a && i in b
    ensures r in h.used && i in h.used
  {
    ElemsConcat(a, b);
    assert r in Elems(a) && i in Elems(b);
  }

  lemma {:induction false} ChainDescendants(h: Graph, p: nat, r: nat, i: nat)
    requires h.Valid() && Chain(Flip(h)) && r in h.used && i in h.used && p in h.Anc(r) && p in h.Anc(i)
    ensures r in h.Anc(i) || i in h.Anc(r)
  {
    assert p in h.used && r in Flip(h).Anc(p) && i in Flip(h).Anc(p);
    assert ChainAt(Flip(h), p);
    assert r in Flip(h).Anc(i) || i in Flip(h).Anc(r);
  }

  /** The moving group is made of absorbed groups of at most its feerate, and the new transaction. */
  ghost predicate Absorbed(h: Graph, left: seq<seq<nat>>, cur: seq<nat>, parts: seq<seq<nat>>, i: nat) {
    && cur == Flatten(parts) + [i] && Rooted(h, cur)
    && forall j :: 0 <= j < |parts| ==>
         && parts[j] != [] && Tight(h, parts[j])
         && AggSeq(h.Rates(), parts[j]).Cross(AggSeq(h.Rates(), cur)) <= 0
         && (left != [] ==> AggSeq(h.Rates(), parts[j]).Cross(AggSeq(h.Rates(), left[|left| - 1])) <= 0)
  }

  lemma {:induction false} AtMostThrough(fr: Rates, a: seq<nat>, b: seq<nat>, c: seq<nat>)
    requires a != [] && b != [] && c != []
    requires Sized(fr, Elems(a)) && Sized(fr, Elems(b)) && Sized(fr, Elems(c))
    requires AggSeq(fr, a).Cross(AggSeq(fr, b)) <= 0 && AggSeq(fr, b).Cross(AggSeq(fr, c)) <= 0
    ensures AggSeq(fr, a).Cross(AggSeq(fr, c)) <= 0
  {
    var x, y, z := AggSeq(fr, a), AggSeq(fr, b), AggSeq(fr, c);
    AggSeqSize(fr, a);
    AggSeqSize(fr, b);
    AggSeqSize(fr, c);
    CrossPlus(x, y, z);
    CrossPlus(y, z, x);
    CrossPlus(z, x, y);
    CrossTransitive(z, y, x);
  }

  /** After a swap the absorbed groups are still at most the group before. */
  lemma {:induction false} AbsorbedSwap(
    h: Graph, left: seq<seq<nat>>, cur: seq<nat>, right: seq<seq<nat>>, parts: seq<seq<nat>>, i: nat)
    requires left != [] && Moving(h.Rates(), left, cur, right) && Absorbed(h, left, cur, parts, i)
    ensures Absorbed(h, left[..|left| - 1], cur, parts, i)
  {
    var n, fr := |left| - 1, h.Rates();
    if 0 < n {
      forall j | 0 <= j < |parts| ensures AggSeq(fr, parts[j]).Cross(AggSeq(fr, left[n - 1])) <= 0 {
        assert (left + right)[n - 1] == left[n - 1] && (left + right)[n] == left[n];
        PartSized(fr, parts, i, j);
        AtMostThrough(fr, parts[j], left[n], left[n - 1]);
      }
    }
  }

  lemma {:induction false} PartSized(fr: Rates, parts: seq<seq<nat>>, i: nat, j: nat)
    requires j < |parts| && Sized(fr, Elems(Flatten(parts) + [i]))
    ensures Sized(fr, Elems(parts[j]))
  {
    FlattenSplit(parts, j);
    ElemsConcat(Flatten(parts), [i]);
    ElemsConcat(Flatten(parts[..j]) + parts[j], Flatten(parts[j + 1..]));
    ElemsConcat(Flatten(parts[..j]), parts[j]);
  }

  /** After a merge the group absorbed is one more part. */
  lemma {:induction false} AbsorbedMerge(
    h: Graph, left: seq<seq<nat>>, cur: seq<nat>, right: seq<seq<nat>>, parts: seq<seq<nat>>, i: nat)
    requires left != [] && Moving(h.Rates(), left, cur, right) && Absorbed(h, left, cur, parts, i)
    requires AggSeq(h.Rates(), cur).Higher(AggSeq(h.Rates(), left[|left| - 1]))
    requires Tight(h, left[|left| - 1]) && Rooted(h, left[|left| - 1] + cur)
    ensures var n := |left| - 1; Absorbed(h, left[..n], left[n] + cur, [left[n]] + parts, i)
  {
    var n, fr := |left| - 1, h.Rates();
    var p, merged, parts' := left[n], left[n] + cur, [left[n]] + parts;
    FlattenConcat([p], parts);
    FlattenSingle(p);
    Assoc(p, Flatten(parts), [i]);
    ChunkMerge(fr, p, cur);
    CrossPlus(AggSeq(fr, p), AggSeq(fr, p), AggSeq(fr, p));
    forall j | 0 <= j < |parts'|
      ensures parts'[j] != [] && Tight(h, parts'[j])
      ensures AggSeq(fr, parts'[j]).Cross(AggSeq(fr, p)) <= 0
    {
      if 0 < j {
        assert parts'[j] == parts[j - 1];
      }
    }
    forall j | 0 <= j < |parts'|
      ensures AggSeq(fr, parts'[j]).Cross(AggSeq(fr, merged)) <= 0
      ensures 0 < n ==> AggSeq(fr, parts'[j]).Cross(AggSeq(fr, left[n - 1])) <= 0
    {
      PartSized(fr, parts', i, j);
      AtMostThrough(fr, parts'[j], p, merged);
      if 0 < n {
        assert (left + right)[n - 1] == left[n - 1] && (left + right)[n] == left[n];
        AtMostThrough(fr, parts'[j], p, left[n - 1]);
      }
    }
  }

  // ----- a finished group is tight

  /** A set whose share of every part is at most `r` is at most `r`. */
  lemma {:induction false} PartsAtMost(fr: Rates, parts: seq<seq<nat>>, y: set<nat>, r: FeeFrac)
    requires NoDup(Flatten(parts)) && y <= Elems(Flatten(parts))
    requires forall j :: 0 <= j < |parts| ==> Agg(fr, y * Elems(parts[j])).Cross(r) <= 0
    ensures Agg(fr, y).Cross(r) <= 0
  {
    if parts == [] {
      assert y == {};
      AggEmpty(fr);
    } else {
      var first, rest := parts[0], parts[1..];
      ElemsConcat(first, Flatten(rest));
      NoDupConcat(first, Flatten(rest));
      var y' := y - Elems(first);
      forall j | 0 <= j < |rest| ensures Agg(fr, y' * Elems(rest[j])).Cross(r) <= 0 {
        assert rest[j] == parts[j + 1];
        GroupsWithin(rest, Elems(Flatten(rest)));
        assert y' * Elems(rest[j]) == y * Elems(rest[j]);
      }
      PartsAtMost(fr, rest, y', r);
      AggSplit(fr, y, Elems(first));
      CrossPlus(Agg(fr, y * Elems(first)), Agg(fr, y'), r);
      assert y * Elems(parts[0]) == y * Elems(first);
    }
  }

  lemma {:induction false} TightShare(h: Graph, cur: seq<nat>, part: seq<nat>, y: set<nat>)
    requires part != [] && cur != [] && Sized(h.Rates(), Elems(cur)) && Elems(part) <= Elems(cur) && Tight(h, part)
    requires AggSeq(h.Rates(), part).Cross(AggSeq(h.Rates(), cur)) <= 0 && h.Closed(y, Elems(cur))
    ensures Agg(h.Rates(), y * Elems(part)).Cross(AggSeq(h.Rates(), cur)) <= 0
  {
    var fr, share := h.Rates(), y * Elems(part);
    if share == {} {
      AggEmpty(fr);
    } else {
      assert h.Closed(share, Elems(part));
      AggSize(fr, share);
      var a, b, c := Agg(fr, share), AggSeq(fr, part), AggSeq(fr, cur);
      AggSeqSize(fr, part);
      AggSeqSize(fr, cur);
      CrossPlus(a, b, c);
      CrossPlus(b, c, a);
      CrossPlus(c, a, b);
      CrossTransitive(c, b, a);
    }
  }

  lemma {:induction false} TightMoved(h: Graph, left: seq<seq<nat>>, cur: seq<nat>, parts: seq<seq<nat>>, i: nat)
    requires Absorbed(h, left, cur, parts, i) && NoDup(cur) && Sized(h.Rates(), Elems(cur))
    ensures TreeGroup(h, cur)
  {
    var fr, r := h.Rates(), AggSeq(h.Rates(), cur);
    NoDupConcat(Flatten(parts), [i]);
    ElemsConcat(Flatten(parts), [i]);
    assert cur[|cur| - 1] == i && i in Elems(cur);
    GroupsWithin(parts, Elems(cur));
    AggSeqIsAgg(fr, cur);
    CrossPlus(r, r, r);
    forall y | h.Closed(y, Elems(cur)) && y != {} ensures Agg(fr, y).Cross(r) <= 0 {
      if i in y {
        assert Elems(cur) <= h.Anc(i);
        assert y == Elems(cur);
      } else {
        assert y <= Elems(Flatten(parts));
        forall j | 0 <= j < |parts| ensures Agg(fr, y * Elems(parts[j])).Cross(r) <= 0 {
          TightShare(h, cur, parts[j], y);
        }
        PartsAtMost(fr, parts, y, r);
      }
    }
  }

  /** Moving one group in a tree leaves tight groups only. */
  lemma {:induction false} BubbleTree(
    h: Graph, left: seq<seq<nat>>, cur: seq<nat>, right: seq<seq<nat>>, parts: seq<seq<nat>>, i: nat)
    requires h.Valid() && Chain(Flip(h)) && Elems(Whole(left, cur, right, [])) <= h.used
    requires Moving(h.Rates(), left, cur, right) && Absorbed(h, left, cur, parts, i)
    requires NoDup(Whole(left, cur, right, [])) && h.Topological(Whole(left, cur, right, []))
    requires TreeGroups(h, left) && TreeGroups(h, right)
    ensures TreeGroups(h, Bubble(h, left, cur, right))
    decreases |left|
  {
    var n := |left| - 1;
    WholeCur(left, cur, right);
    if left == [] || !AggSeq(h.Rates(), cur).Higher(AggSeq(h.Rates(), left[n])) {
      TightMoved(h, left, cur, parts, i);
    } else if Depends(h, cur, left[n]) {
      MoveMerge(h.Rates(), left, cur, right, []);
      assert TreeGroup(h, left[n]);
      AdjacentTopological(h, left, cur, right);
      RootedMerge(h, left[n], cur);
      AbsorbedMerge(h, left, cur, right, parts, i);
      BubbleTree(h, left[..n], left[n] + cur, right, [left[n]] + parts, i);
    } else {
      MoveSwap(h, left, cur, right, []);
      AbsorbedSwap(h, left, cur, right, parts, i);
      assert TreeGroup(h, left[n]);
      BubbleTree(h, left[..n], cur, [left[n]] + right, parts, i);
    }
  }

  lemma {:induction false} WholeCur(left: seq<seq<nat>>, cur: seq<nat>, right: seq<seq<nat>>)
    requires NoDup(Whole(left, cur, right, []))
    ensures NoDup(cur) && Elems(cur) <= Elems(Whole(left, cur, right, []))
  {
    var tail := Flatten(right) + [];
    NoDupConcat(Flatten(left), cur + tail);
    NoDupConcat(cur, tail);
    ElemsConcat(Flatten(left), cur + tail);
    ElemsConcat(cur, tail);
  }

  lemma {:induction false} AdjacentTopological(h: Graph, left: seq<seq<nat>>, cur: seq<nat>, right: seq<seq<nat>>)
    requires left != [] && h.Topological(Whole(left, cur, right, []))
    ensures h.Topological(left[|left| - 1] + cur)
    ensures Elems(left[|left| - 1] + cur) <= Elems(Whole(left, cur, right, []))
  {
    var n, tail := |left| - 1, Flatten(right) + [];
    var x, p := Flatten(left[..n]), left[n];
    LastOut(left);
    Assoc(x, p, cur + tail);
    Assoc(p, cur, tail);
    TopologicalConcat(h, x, (p + cur) + tail);
    TopologicalConcat(h, p + cur, tail);
    ElemsConcat(x, (p + cur) + tail);
    ElemsConcat(p + cur, tail);
  }

  lemma {:induction false} PassTree(h: Graph, l: seq<nat>)
    requires h.Valid() && h.AllSized() && Chain(Flip(h)) && Elems(l) <= h.used && NoDup(l) && h.Topological(l)
    ensures TreeGroups(h, PassGroups(h, l))
    decreases |l|
  {
    if l != [] {
      var n := |l| - 1;
      var a, x := l[..n], l[n];
      var groups := PassGroups(h, a);
      assert l == a + [x];
      ElemsConcat(a, [x]);
      NoDupConcat(a, [x]);
      TopologicalConcat(h, a, [x]);
      assert x in Elems(l);
      PassTree(h, a);
      PassCorrect(h, a, [x]);
      TreeStart(h, groups, x);
      BubbleTree(h, groups, [x], [], [], x);
    }
  }

  lemma {:induction false} TreeStart(h: Graph, groups: seq<seq<nat>>, x: nat)
    requires AreChunks(h.Rates(), groups) && NonIncreasing(h.Rates(), groups)
    requires x < |h.entries| && 0 < h.Rates()[x].size && x in h.Anc(x)
    ensures Moving(h.Rates(), groups, [x], []) && Absorbed(h, groups, [x], [], x)
    ensures Whole(groups, [x], [], []) == Flatten(groups) + [x]
  {
    SingletonChunk(h.Rates(), x);
    assert groups + [] == groups;
    assert [x] + (Flatten([]) + []) == [x];
    assert Flatten([]) + [x] == [x];
  }

  // ----- tight groups cannot be beaten

  /** The groups above a slope, added up. */
  ghost function Score(w: seq<int>, groups: seq<seq<nat>>): int {
    if groups == [] then 0 else Max(0, SumSeq(w, groups[0])) + Score(w, groups[1..])
  }

  lemma {:induction false} ScoreNone(fr: Rates, p: int, q: int, groups: seq<seq<nat>>)
    requires forall i :: 0 <= i < |groups| ==> AggSeq(fr, groups[i]).Above(p, q) <= 0
    ensures Score(Weights(fr, p, q), groups) == 0
  {
    if groups != [] {
      SumSeqWeights(fr, p, q, groups[0]);
      assert forall i :: 0 <= i < |groups[1..]| ==> groups[1..][i] == groups[i + 1];
      ScoreNone(fr, p, q, groups[1..]);
    }
  }

  /** In order of feerate, the groups above the slope come first: they are the best prefix. */
  lemma {:induction false} ScoreIsBest(fr: Rates, p: int, q: int, groups: seq<seq<nat>>)
    requires 0 < q && AreChunks(fr, groups) && NonIncreasing(fr, groups)
    ensures Best(Weights(fr, p, q), Flatten(groups)) == Score(Weights(fr, p, q), groups)
  {
    var w := Weights(fr, p, q);
    if groups != [] {
      var first, rest := groups[0], groups[1..];
      assert forall i :: 0 <= i < |rest| ==> rest[i] == groups[i + 1];
      ScoreIsBest(fr, p, q, rest);
      ChunkBest(fr, p, q, first);
      BestConcat(w, first, Flatten(rest));
      BestBound(w, Flatten(rest), 0);
      SumSeqWeights(fr, p, q, first);
      if AggSeq(fr, first).Above(p, q) <= 0 {
        forall i | 0 <= i < |rest| ensures AggSeq(fr, rest[i]).Above(p, q) <= 0 {
          AggSeqSize(fr, first);
          AggSeqSize(fr, rest[i]);
          CrossPlus(AggSeq(fr, first), AggSeq(fr, rest[i]), AggSeq(fr, first));
          SlopeTransfer(AggSeq(fr, first), AggSeq(fr, rest[i]), p, q);
        }
        ScoreNone(fr, p, q, rest);
      }
    }
  }

  /** A closed share of a tight group weighs at most the group, if that is above the slope at all. */
  lemma {:induction false} TightWeight(h: Graph, p: int, q: int, g: seq<nat>, y: set<nat>)
    requires 0 < q && g != [] && NoDup(g) && Sized(h.Rates(), Elems(g)) && Tight(h, g) && h.Closed(y, Elems(g))
    ensures Sum(Weights(h.Rates(), p, q), y) <= Max(0, SumSeq(Weights(h.Rates(), p, q), g))
  {
    var fr, w := h.Rates(), Weights(h.Rates(), p, q);
    var all, z := Elems(g), Elems(g) - y;
    SumSeqIsSum(w, g);
    AggSeqIsAgg(fr, g);
    SumWeights(fr, p, q, y);
    SumWeights(fr, p, q, all);
    SumWeights(fr, p, q, z);
    SumSplit(w, all, y);
    AggSplit(fr, all, y);
    assert all * y == y;
    AggSize(fr, y);
    AggSize(fr, z);
    AggSize(fr, all);
    AggSeqSize(fr, g);
    if y != {} && Sum(w, y) > 0 {
      var a, b, r := Agg(fr, y), Agg(fr, z), Agg(fr, all);
      CrossPlus(a, b, r);
      CrossPlus(r, a, r);
      SlopeTransfer(r, a, p, q);
      if z != {} {
        SlopeTransfer(b, r, p, q);
      }
    }
  }

  /** A closed set weighs at most the score of tight groups. */
  lemma {:induction false} ClosedScore(h: Graph, p: int, q: int, groups: seq<seq<nat>>, c: set<nat>)
    requires 0 < q && NoDup(Flatten(groups)) && Sized(h.Rates(), Elems(Flatten(groups)))
    requires TreeGroups(h, groups)
    requires forall k :: 0 <= k < |groups| ==> h.Closed(c * Elems(groups[k]), Elems(groups[k]))
    requires c <= Elems(Flatten(groups))
    ensures Sum(Weights(h.Rates(), p, q), c) <= Score(Weights(h.Rates(), p, q), groups)
  {
    var w := Weights(h.Rates(), p, q);
    if groups == [] {
      assert c == {};
      SumEmpty(w);
    } else {
      var first, rest := groups[0], groups[1..];
      assert TreeGroup(h, first);
      ElemsConcat(first, Flatten(rest));
      NoDupConcat(first, Flatten(rest));
      var c' := c - Elems(first);
      forall k | 0 <= k < |rest|
        ensures h.Closed(c' * Elems(rest[k]), Elems(rest[k])) && TreeGroup(h, rest[k])
      {
        assert rest[k] == groups[k + 1];
        GroupsWithin(rest, Elems(Flatten(rest)));
        assert c' * Elems(rest[k]) == c * Elems(rest[k]);
      }
      ClosedScore(h, p, q, rest, c');
      SumSplit(w, c, Elems(first));
      assert h.Closed(c * Elems(groups[0]), Elems(groups[0]));
      TightWeight(h, p, q, first, c * Elems(first));
    }
  }

  /** Tight groups of non-increasing feerate dominate every topological order. */
  lemma {:induction false} TreeDominates(h: Graph, groups: seq<seq<nat>>, x: seq<nat>)
    requires h.AllSized() && IsChunking(h.Rates(), groups, Flatten(groups)) && TreeGroups(h, groups)
    requires NoDup(Flatten(groups)) && Elems(Flatten(groups)) <= h.used
    requires NoDup(x) && Elems(x) == Elems(Flatten(groups)) && h.Topological(x)
    ensures Dominates(h.Rates(), Flatten(groups), x)
  {
    var fr, all := h.Rates(), Elems(x);
    GroupsWithin(groups, all);
    forall p: int, q: int | 0 < q ensures Best(Weights(fr, p, q), Flatten(groups)) >= Best(Weights(fr, p, q), x) {
      var w := Weights(fr, p, q);
      ScoreIsBest(fr, p, q, groups);
      var k := BestToWitness(w, x, |x|);
      var a, b := x[..k], x[k..];
      assert x == a + b;
      PrefixSumIsSlice(w, x, k);
      NoDupConcat(a, b);
      SumSeqIsSum(w, a);
      PrefixShare(h, a, b, groups);
      ClosedScore(h, p, q, groups, Elems(a));
    }
  }

  lemma {:induction false} PrefixShare(h: Graph, a: seq<nat>, b: seq<nat>, groups: seq<seq<nat>>)
    requires h.Topological(a + b)
    requires forall k :: 0 <= k < |groups| ==> Elems(groups[k]) <= Elems(a + b)
    ensures Elems(a) <= Elems(a + b)
    ensures forall k :: 0 <= k < |groups| ==> h.Closed(Elems(a) * Elems(groups[k]), Elems(groups[k]))
  {
    TopologicalConcat(h, a, b);
    ElemsConcat(a, b);
    forall k | 0 <= k < |groups| ensures h.Closed(Elems(a) * Elems(groups[k]), Elems(groups[k])) {
      forall u, v | u in Elems(a) && v in h.Anc(u) * Elems(groups[k]) ensures v in Elems(a) {
        assert v in Elems(a + b);
      }
    }
  }

  /** Forward passes are optimal when every transaction has at most one child. */
  lemma {:induction false} ForwardOptimal(h: Graph, l: seq<nat>, x: seq<nat>)
    requires h.Valid() && h.AllSized() && AtMostOneChild(h) && IsLinearization(h, l) && IsLinearization(h, x)
    ensures Dominates(h.Rates(), Forward(h, l), x)
  {
    LinearizableIsAcyclic(h, l);
    FlipValid(h);
    FlipAcyclic(h);
    OneParentChain(Flip(h));
    PassTree(h, l);
    ForwardImproves(h, l);
    TreeDominates(h, PassGroups(h, l), x);
  }

  lemma {:induction false} FlipAcyclic(g: Graph)
    requires g.Valid() && g.Acyclic()
    ensures Flip(g).Acyclic()
  {
    var h := Flip(g);
    forall i, j | i in h.used && j in h.used && j in h.Anc(i) && i in h.Anc(j) ensures i == j {
      assert i in g.Anc(j) && j in g.Anc(i);
    }
  }

  lemma {:induction false} FlipFlip(g: Graph)
    ensures Flip(Flip(g)) == g
  {
    var h := Flip(Flip(g));
    forall i | 0 <= i < |g.entries| ensures h.entries[i] == g.entries[i] {
    }
  }

  /** Backward passes are optimal when every transaction has at most one parent. */
  lemma {:induction false} BackwardOptimal(g: Graph, l: seq<nat>, x: seq<nat>)
    requires g.Valid() && g.AllSized() && AtMostOneParent(g) && IsLinearization(g, l) && IsLinearization(g, x)
    ensures Dominates(g.Rates(), Backward(g, l), x)
  {
    var h := Flip(g);
    FlipValid(g);
    FlipFlip(g);
    RevElems(l);
    RevElems(x);
    FlipTopological(g, l);
    FlipTopological(g, x);
    ForwardOptimal(h, Rev(l), Rev(x));
    BackwardImproves(g, l);
    RevRev(Forward(h, Rev(l)));
    FlipDominates(g, Backward(g, l), x);
  }

  /** Tree-shaped clusters are linearized optimally. */
  lemma {:induction false} PostLinTreeOptimal(g: Graph, l: seq<nat>, x: seq<nat>)
    requires g.Valid() && g.AllSized() && IsLinearization(g, l) && IsLinearization(g, x)
    requires AtMostOneChild(g) || AtMostOneParent(g)
    ensures Dominates(g.Rates(), PostLin(g, l), x)
  {
    BackwardImproves(g, l);
    if AtMostOneChild(g) {
      ForwardOptimal(g, Backward(g, l), x);
    } else {
      BackwardOptimal(g, l, x);
      ForwardImproves(g, Backward(g, l));
      DominatesTransitive(g.Rates(), PostLin(g, l), Backward(g, l), x);
    }
  }
}
