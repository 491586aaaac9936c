/**
 `PostLinearize` and replaced leaves: dropping a leaf transaction from a linearization,
 appending it (perhaps with a higher fee) at the end and postlinearizing gives something
 at least as good as the linearization one started from.
*/
module PostLeaf {
  import opened Common
  import opened FeeFracs
  import opened Orders
  import opened Sums
  import opened Diagram
  import opened DepGraphs
  import opened Chunking
  import opened Merging
  import opened PostSpec
  import opened PostGuarantees
  import opened PostTrees

  ghost function Del(groups: seq<seq<nat>>, k: nat): seq<seq<nat>>
    requires k < |groups|
  {
    groups[..k] + groups[k + 1..]
  }

  /** `a` is `b` with the group `[t]` added somewhere. */
  ghost predicate WithAside(a: seq<seq<nat>>, t: nat, b: seq<seq<nat>>) {
    exists k: nat :: k < |a| && a[k] == [t] && Del(a, k) == b
  }

  lemma {:induction false} AsideIntro(a: seq<seq<nat>>, t: nat, k: nat, b: seq<seq<nat>>)
    requires k < |a| && a[k] == [t] && Del(a, k) == b
    ensures WithAside(a, t, b)
  {
  }

  /** No other transaction in the groups depends on `t`. */
  ghost predicate Independent(h: Graph, t: nat, l: seq<nat>) {
    forall x :: x in l && x != t ==> t !in h.Anc(x)
  }

  /** A group set aside on the right does not take part in the move. */
  lemma {:induction false} BubbleAsideRight(
    h: Graph, left: seq<seq<nat>>, cur: seq<nat>, right: seq<seq<nat>>, t: nat, k: nat)
    requires k < |right| && right[k] == [t]
    ensures WithAside(Bubble(h, left, cur, right), t, Bubble(h, left, cur, Del(right, k)))
    decreases |left|
  {
    var n := |left| - 1;
    if left == [] {
      assert Del([cur] + right, k + 1) == [cur] + Del(right, k);
      AsideIntro([cur] + right, t, k + 1, [cur] + Del(right, k));
    } else if !AggSeq(h.Rates(), cur).Higher(AggSeq(h.Rates(), left[n])) {
      DelRight(left + [cur], right, k);
      AsideIntro(left + [cur] + right, t, |left| + 1 + k, left + [cur] + Del(right, k));
    } else if Depends(h, cur, left[n]) {
      BubbleAsideRight(h, left[..n], left[n] + cur, right, t, k);
    } else {
      DelRight([left[n]], right, k);
      BubbleAsideRight(h, left[..n], cur, [left[n]] + right, t, k + 1);
    }
  }

  lemma {:induction false} DelRight(a: seq<seq<nat>>, b: seq<seq<nat>>, k: nat)
    requires k < |b|
    ensures Del(a + b, |a| + k) == a + Del(b, k) && (a + b)[|a| + k] == b[k]
  {
    var r := a + b;
    assert r[..|a| + k] == a + b[..k];
    assert r[|a| + k + 1..] == b[k + 1..];
  }

  lemma {:induction false} DelLeft(a: seq<seq<nat>>, b: seq<seq<nat>>, k: nat)
    requires k < |a|
    ensures Del(a + b, k) == Del(a, k) + b && (a + b)[k] == a[k]
  {
    var r := a + b;
    assert r[..k] == a[..k];
    assert r[k + 1..] == a[k + 1..] + b;
  }

  /** A single independent transaction among the groups only ever gets swapped with. */
  lemma {:induction false} BubbleAside(
    h: Graph, left: seq<seq<nat>>, cur: seq<nat>, right: seq<seq<nat>>, t: nat, k: nat)
    requires k < |left| && left[k] == [t] && AreChunks(h.Rates(), left) && IsChunk(h.Rates(), cur)
    requires NonIncreasing(h.Rates(), left) && t !in cur && NoDup(Flatten(left))
    requires Independent(h, t, Flatten(left)) && Independent(h, t, cur)
    ensures WithAside(Bubble(h, left, cur, right), t, Bubble(h, Del(left, k), cur, right))
    decreases |left|
  {
    var n, fr := |left| - 1, h.Rates();
    if k == n {
      assert Del(left, n) == left[..n];
      AsideLast(h, left, cur, right, t);
    } else {
      var short := Del(left, k);
      DelLast(left, k);
      AsideSmaller(h, left, t, k);
      AsideChunks(fr, left, t, k);
      if !AggSeq(fr, cur).Higher(AggSeq(fr, left[n])) {
        AsideStop(left, cur, right, t, k);
      } else if Depends(h, cur, left[n]) {
        ChunkMerge(fr, left[n], cur);
        IndependentConcat(h, t, left[n], cur);
        BubbleAside(h, left[..n], left[n] + cur, right, t, k);
        BubbleMerges(h, left, cur, right);
        BubbleMerges(h, short, cur, right);
      } else {
        BubbleAside(h, left[..n], cur, [left[n]] + right, t, k);
        BubblePasses(h, left, cur, right);
        BubblePasses(h, short, cur, right);
      }
    }
  }

  lemma {:induction false} AsideChunks(fr: Rates, left: seq<seq<nat>>, t: nat, k: nat)
    requires k < |left| - 1 && left[k] == [t] && AreChunks(fr, left) && NonIncreasing(fr, left)
    ensures var n := |left| - 1; left[..n][k] == [t] && AreChunks(fr, left[..n]) && NonIncreasing(fr, left[..n]) && IsChunk(fr, left[n])
  {
    var n := |left| - 1;
    assert forall i :: 0 <= i < n ==> left[..n][i] == left[i];
  }

  lemma {:induction false} BubbleMerges(h: Graph, left: seq<seq<nat>>, cur: seq<nat>, right: seq<seq<nat>>)
    requires left != [] && AggSeq(h.Rates(), cur).Higher(AggSeq(h.Rates(), left[|left| - 1])) && Depends(h, cur, left[|left| - 1])
    ensures var n := |left| - 1; Bubble(h, left, cur, right) == Bubble(h, left[..n], left[n] + cur, right)
  {
  }

  lemma {:induction false} BubblePasses(h: Graph, left: seq<seq<nat>>, cur: seq<nat>, right: seq<seq<nat>>)
    requires left != [] && AggSeq(h.Rates(), cur).Higher(AggSeq(h.Rates(), left[|left| - 1])) && !Depends(h, cur, left[|left| - 1])
    ensures var n := |left| - 1; Bubble(h, left, cur, right) == Bubble(h, left[..n], cur, [left[n]] + right)
  {
  }

  lemma {:induction false} IndependentConcat(h: Graph, t: nat, a: seq<nat>, b: seq<nat>)
    requires Independent(h, t, a) && Independent(h, t, b) && t !in a && t !in b
    ensures Independent(h, t, a + b) && t !in a + b
  {
  }

  lemma {:induction false} DelLast(left: seq<seq<nat>>, k: nat)
    requires k < |left| - 1
    ensures var n := |left| - 1;
      |Del(left, k)| == n && Del(left, k)[n - 1] == left[n] && Del(left, k)[..n - 1] == Del(left[..n], k)
  {
    var n := |left| - 1;
    assert Del(left, k)[..n - 1] == Del(left[..n], k);
  }

  lemma {:induction false} AsideStop(left: seq<seq<nat>>, cur: seq<nat>, right: seq<seq<nat>>, t: nat, k: nat)
    requires k < |left| && left[k] == [t]
    ensures WithAside(left + [cur] + right, t, Del(left, k) + [cur] + right)
  {
    DelLeft(left, [cur] + right, k);
    Assoc(left, [cur], right);
    Assoc(Del(left, k), [cur], right);
    AsideIntro(left + [cur] + right, t, k, Del(left, k) + [cur] + right);
  }

  /** The groups before the last one, and the last one, have nothing to do with `t` either. */
  lemma {:induction false} AsideSmaller(h: Graph, left: seq<seq<nat>>, t: nat, k: nat)
    requires k < |left| - 1 && left[k] == [t] && NoDup(Flatten(left)) && Independent(h, t, Flatten(left))
    ensures var n := |left| - 1;
      && t !in left[n] && NoDup(Flatten(left[..n]))
      && Independent(h, t, Flatten(left[..n])) && Independent(h, t, left[n])
  {
    var n := |left| - 1;
    LastOut(left);
    NoDupConcat(Flatten(left[..n]), left[n]);
    GroupsWithin(left[..n], Elems(Flatten(left[..n])));
    assert left[..n][k] == [t] && t in Elems([t]);
    assert t in Elems(Flatten(left[..n]));
  }

  /** The group reaches the one set aside: it stops, or passes by. */
  lemma {:induction false} AsideLast(h: Graph, left: seq<seq<nat>>, cur: seq<nat>, right: seq<seq<nat>>, t: nat)
    requires left != [] && left[|left| - 1] == [t] && AreChunks(h.Rates(), left) && IsChunk(h.Rates(), cur)
    requires NonIncreasing(h.Rates(), left) && t !in cur && Independent(h, t, cur)
    ensures WithAside(Bubble(h, left, cur, right), t, Bubble(h, left[..|left| - 1], cur, right))
  {
    var n, fr := |left| - 1, h.Rates();
    if !AggSeq(fr, cur).Higher(AggSeq(fr, left[n])) {
      if 0 < n {
        AtMostThrough(fr, cur, left[n], left[n - 1]);
      }
      assert Bubble(h, left[..n], cur, right) == left[..n] + [cur] + right;
      assert Del(left + [cur] + right, n) == left[..n] + [cur] + right;
      AsideIntro(left + [cur] + right, t, n, left[..n] + [cur] + right);
    } else {
      assert !Depends(h, cur, left[n]);
      assert Del([left[n]] + right, 0) == right;
      BubbleAsideRight(h, left[..n], cur, [left[n]] + right, t, 0);
    }
  }

  /** A pass that starts with an independent transaction keeps it as a group of its own. */
  lemma {:induction false} PassAside(h: Graph, t: nat, w: seq<nat>)
    requires Sized(h.Rates(), Elems([t] + w)) && NoDup([t] + w) && h.Topological([t] + w) && Independent(h, t, w)
    ensures WithAside(PassGroups(h, [t] + w), t, PassGroups(h, w))
    decreases |w|
  {
    if w == [] {
      assert [t] + w == [t] && [t][..0] == [];
      assert PassGroups(h, [t]) == Bubble(h, [], [t], []) == [[t]] + [];
      assert [[t]] + [] == [[t]];
      assert Del([[t]], 0) == [];
      AsideIntro([[t]], t, 0, []);
    } else {
      var n := |w| - 1;
      var a, x, l := w[..n], w[n], [t] + w;
      assert w == a + [x] && l[..|l| - 1] == [t] + a && l == ([t] + a) + [x];
      AsidePrefix(h, t, a, x);
      PassAside(h, t, a);
      var groups := PassGroups(h, [t] + a);
      var k: nat :| k < |groups| && groups[k] == [t] && Del(groups, k) == PassGroups(h, a);
      assert ([t] + a) + [] == [t] + a;
      PassCorrect(h, [t] + a, []);
      assert Flatten(groups) + [] == Flatten(groups);
      IndependentGroups(h, t, a, Flatten(groups));
      SingletonChunk(h.Rates(), x);
      BubbleAside(h, groups, [x], [], t, k);
    }
  }

  lemma {:induction false} AsidePrefix(h: Graph, t: nat, a: seq<nat>, x: nat)
    requires var l := ([t] + a) + [x];
      Sized(h.Rates(), Elems(l)) && NoDup(l) && h.Topological(l) && Independent(h, t, a + [x])
    ensures Sized(h.Rates(), Elems([t] + a)) && NoDup([t] + a) && h.Topological([t] + a)
    ensures Independent(h, t, a) && Independent(h, t, [x]) && x != t
    ensures x < |h.entries| && 0 < h.Rates()[x].size
  {
    ElemsConcat([t] + a, [x]);
    NoDupConcat([t] + a, [x]);
    TopologicalConcat(h, [t] + a, [x]);
    assert x in Elems([x]) && t in Elems([t] + a);
  }

  lemma {:induction false} IndependentGroups(h: Graph, t: nat, a: seq<nat>, flat: seq<nat>)
    requires Independent(h, t, a) && Elems(flat) == Elems([t] + a)
    ensures Independent(h, t, flat)
  {
    ElemsConcat([t], a);
    forall x | x in flat && x != t ensures t !in h.Anc(x) {
      assert x in Elems(flat);
      assert x in Elems([t]) || x in Elems(a);
    }
  }

  // ----- the group set aside adds its own weight

  lemma {:induction false} ScoreConcat(w: seq<int>, a: seq<seq<nat>>, b: seq<seq<nat>>)
    ensures Score(w, a + b) == Score(w, a) + Score(w, b)
  {
    if a == [] {
      assert a + b == b;
    } else {
      ScoreConcat(w, a[1..], b);
      assert (a + b)[1..] == a[1..] + b;
    }
  }

  lemma {:induction false} ScoreAside(w: seq<int>, a: seq<seq<nat>>, t: nat, b: seq<seq<nat>>)
    requires WithAside(a, t, b)
    ensures Score(w, a) == Score(w, b) + Max(0, At(w, t))
  {
    var k: nat :| k < |a| && a[k] == [t] && Del(a, k) == b;
    assert a == (a[..k] + [[t]]) + a[k + 1..];
    ScoreConcat(w, a[..k] + [[t]], a[k + 1..]);
    ScoreConcat(w, a[..k], [[t]]);
    ScoreConcat(w, a[..k], a[k + 1..]);
    assert Score(w, [[t]]) == Max(0, SumSeq(w, [t])) + Score(w, [[t]][1..]);
    SumSeqSingle(w, t);
  }

  /** Continuing a pass improves on what the first part of it left. */
  lemma {:induction false} PassContinues(h: Graph, a: seq<nat>, b: seq<nat>, rest: seq<nat>)
    requires Sized(h.Rates(), Elems(a + b)) && NoDup((a + b) + rest) && h.Topological((a + b) + rest)
    ensures Improves(h, Flatten(PassGroups(h, a + b)) + rest, Flatten(PassGroups(h, a)) + (b + rest))
    decreases |b|
  {
    if b == [] {
      assert a + b == a && b + rest == rest;
      PassCorrect(h, a, rest);
      DominatesReflexive(h.Rates(), Flatten(PassGroups(h, a)) + rest);
    } else {
      var n := |b| - 1;
      var b0, x := b[..n], b[n];
      var l := a + b0;
      assert b == b0 + [x] && a + b == l + [x] && (a + b)[..|a + b| - 1] == l;
      Assoc(l, [x], rest);
      Assoc(b0, [x], rest);
      ElemsConcat(l, [x]);
      assert x in Elems(a + b);
      PassContinues(h, a, b0, [x] + rest);
      PassCorrect(h, l, [x] + rest);
      var groups := PassGroups(h, l);
      SingletonChunk(h.Rates(), x);
      assert groups + [] == groups;
      assert Whole(groups, [x], [], rest) == Flatten(groups) + ([x] + rest) by {
        assert Flatten([]) + rest == rest;
      }
      BubbleCorrect(h, groups, [x], [], rest);
      ImprovesTransitive(h, Flatten(PassGroups(h, a + b)) + rest, Flatten(groups) + ([x] + rest),
                         Flatten(PassGroups(h, a)) + (b + rest));
    }
  }

  /** A pass that takes the independent `t` first does at least as well as `t` in its old place. */
  lemma {:induction false} LeafFirst(h: Graph, t: nat, w: seq<nat>, u: seq<nat>)
    requires Sized(h.Rates(), Elems([t] + w)) && Sized(h.Rates(), Elems(([t] + w) + u))
    requires NoDup(([t] + w) + u) && h.Topological(([t] + w) + u) && Independent(h, t, w)
    ensures Dominates(h.Rates(), Flatten(PassGroups(h, ([t] + w) + u)), w + ([t] + u))
  {
    var fr, groups, l := h.Rates(), PassGroups(h, [t] + w), ([t] + w) + u;
    LeafSplit(h, t, w, u);
    PassAside(h, t, w);
    PassCorrect(h, [t] + w, u);
    NoDupConcat(Flatten(groups), u);
    LeafFirstSets(h, t, w);
    forall p: int, q: int | 0 < q
      ensures Best(Weights(fr, p, q), Flatten(groups) + u) >= Best(Weights(fr, p, q), w + ([t] + u))
    {
      LeafFirstAt(h, t, w, u, p, q);
    }
    PassContinuesAll(h, [t] + w, u);
    DominatesTransitive(fr, Flatten(PassGroups(h, l)), Flatten(groups) + u, w + ([t] + u));
  }

  lemma {:induction false} PassContinuesAll(h: Graph, a: seq<nat>, b: seq<nat>)
    requires Sized(h.Rates(), Elems(a + b)) && NoDup(a + b) && h.Topological(a + b)
    ensures Dominates(h.Rates(), Flatten(PassGroups(h, a + b)), Flatten(PassGroups(h, a)) + b)
  {
    var done := Flatten(PassGroups(h, a + b));
    assert (a + b) + [] == a + b && b + [] == b && done + [] == done;
    PassContinues(h, a, b, []);
  }

  lemma {:induction false} LeafFirstSets(h: Graph, t: nat, w: seq<nat>)
    requires Sized(h.Rates(), Elems([t] + w)) && NoDup([t] + w) && h.Topological([t] + w)
    requires NoDup(w) && h.Topological(w) && Sized(h.Rates(), Elems(w))
    ensures Elems(Flatten(PassGroups(h, [t] + w))) == Elems([t] + w)
    ensures AreChunks(h.Rates(), PassGroups(h, w)) && NonIncreasing(h.Rates(), PassGroups(h, w))
    ensures Dominates(h.Rates(), Flatten(PassGroups(h, w)), w)
  {
    var l := [t] + w;
    assert l + [] == l && w + [] == w;
    PassCorrect(h, l, []);
    PassCorrect(h, w, []);
    assert Flatten(PassGroups(h, l)) + [] == Flatten(PassGroups(h, l));
    assert Flatten(PassGroups(h, w)) + [] == Flatten(PassGroups(h, w));
  }

  lemma {:induction false} LeafSplit(h: Graph, t: nat, w: seq<nat>, u: seq<nat>)
    requires Sized(h.Rates(), Elems([t] + w)) && NoDup(([t] + w) + u) && h.Topological(([t] + w) + u)
    ensures NoDup([t] + w) && h.Topological([t] + w)
    ensures NoDup(w) && h.Topological(w) && Sized(h.Rates(), Elems(w))
  {
    NoDupConcat([t] + w, u);
    TopologicalConcat(h, [t] + w, u);
    NoDupConcat([t], w);
    TopologicalConcat(h, [t], w);
    ElemsConcat([t], w);
  }

  lemma {:induction false} LeafFirstAt(h: Graph, t: nat, w: seq<nat>, u: seq<nat>, p: int, q: int)
    requires 0 < q && NoDup([t] + w) && NoDup(Flatten(PassGroups(h, [t] + w)))
    requires WithAside(PassGroups(h, [t] + w), t, PassGroups(h, w))
    requires AreChunks(h.Rates(), PassGroups(h, [t] + w)) && NonIncreasing(h.Rates(), PassGroups(h, [t] + w))
    requires AreChunks(h.Rates(), PassGroups(h, w)) && NonIncreasing(h.Rates(), PassGroups(h, w))
    requires Dominates(h.Rates(), Flatten(PassGroups(h, w)), w)
    requires Elems(Flatten(PassGroups(h, [t] + w))) == Elems([t] + w)
    ensures Best(Weights(h.Rates(), p, q), Flatten(PassGroups(h, [t] + w)) + u)
         >= Best(Weights(h.Rates(), p, q), w + ([t] + u))
  {
    var fr, v := h.Rates(), Weights(h.Rates(), p, q);
    var groups, others := PassGroups(h, [t] + w), PassGroups(h, w);
    ScoreIsBest(fr, p, q, groups);
    ScoreIsBest(fr, p, q, others);
    ScoreAside(v, groups, t, others);
    assert Best(v, Flatten(others)) >= Best(v, w);
    LeafSum(v, t, w, Flatten(groups));
    LeafLater(v, t, w, u, Flatten(groups));
  }

  lemma {:induction false} LeafSum(v: seq<int>, t: nat, w: seq<nat>, a: seq<nat>)
    requires NoDup([t] + w) && NoDup(a) && Elems(a) == Elems([t] + w)
    ensures SumSeq(v, a) == At(v, t) + SumSeq(v, w)
  {
    SumSeqIsSum(v, a);
    SumSeqIsSum(v, [t] + w);
    SumSeqConcat(v, [t], w);
    SumSeqSingle(v, t);
  }

  /** An order that gains from the leaf on its own is not worse than one with the leaf at the end. */
  lemma {:induction false} LeafLater(v: seq<int>, t: nat, w: seq<nat>, u: seq<nat>, a: seq<nat>)
    requires Best(v, a) >= Best(v, w) + Max(0, At(v, t)) && SumSeq(v, a) == At(v, t) + SumSeq(v, w)
    ensures Best(v, a + u) >= Best(v, w + ([t] + u))
  {
    BestConcat(v, a, u);
    BestConcat(v, w, [t] + u);
    BestConcat(v, [t], u);
    BestBound(v, w, |w|);
    BestBound(v, u, 0);
    LoneBest(v, t);
    SumSeqSingle(v, t);
  }

  lemma {:induction false} LoneBest(v: seq<int>, t: nat)
    ensures Best(v, [t]) == Max(0, At(v, t))
  {
    assert BestTo(v, [t], 0) == 0;
    assert PrefixSum(v, [t], 0) == 0;
  }

  // ----- the documented guarantee

  /** A leaf moved to the end still follows its ancestors. */
  lemma {:induction false} LeafToEnd(g: Graph, u: seq<nat>, t: nat, v: seq<nat>)
    requires g.Valid() && IsLinearization(g, (u + [t]) + v) && g.Des(t) == {t}
    ensures IsLinearization(g, (u + v) + [t])
    ensures forall x :: x in v ==> x != t && x !in g.Anc(t)
  {
    NoDupConcat(u + [t], v);
    NoDupConcat(u, [t]);
    ElemsConcat(u + [t], v);
    ElemsConcat(u, [t]);
    NoDupConcat(u, v);
    ElemsConcat(u, v);
    NoDupConcat(u + v, [t]);
    ElemsConcat(u + v, [t]);
    TopologicalConcat(g, u + [t], v);
    TopologicalConcat(g, u, [t]);
    assert t in Elems([t]) && t in u + [t];
    forall x | x in v ensures x != t && x !in g.Anc(t) {
      assert x in Elems(v);
    }
    assert forall x :: x in u ==> x in u + [t];
    TopologicalConcat(g, u, v);
    forall x, y | x in u + v && y in [t] ensures y !in g.Anc(x) {
      assert x in Elems(u + v) && x != t;
      assert x !in g.Des(t);
    }
    TopologicalConcat(g, u + v, [t]);
  }

  /** Postlinearizing after moving a leaf to the end is at least as good as before the move. */
  lemma {:induction false} PostLinMovedLeaf(g: Graph, u: seq<nat>, t: nat, v: seq<nat>)
    requires g.Valid() && g.AllSized() && IsLinearization(g, (u + [t]) + v) && g.Des(t) == {t}
    ensures IsLinearization(g, (u + v) + [t])
    ensures Dominates(g.Rates(), PostLin(g, (u + v) + [t]), (u + [t]) + v)
  {
    var before, moved := (u + [t]) + v, (u + v) + [t];
    var h := Flip(g);
    LeafToEnd(g, u, t, v);
    LeafReversed(g, u, t, v);
    BackwardImproves(g, moved);
    RevRev(Forward(h, Rev(moved)));
    FlipDominates(g, Backward(g, moved), before);
    ForwardImproves(g, Backward(g, moved));
    DominatesTransitive(g.Rates(), PostLin(g, moved), Backward(g, moved), before);
  }

  lemma {:induction false} LeafReversed(g: Graph, u: seq<nat>, t: nat, v: seq<nat>)
    requires g.Valid() && g.AllSized() && IsLinearization(g, (u + v) + [t])
    requires forall x :: x in v ==> x != t && x !in g.Anc(t)
    ensures Dominates(Flip(g).Rates(), Forward(Flip(g), Rev((u + v) + [t])), Rev((u + [t]) + v))
  {
    var h, moved := Flip(g), (u + v) + [t];
    var w, r := Rev(v), Rev(u);
    RevConcat(u + v, [t]);
    RevConcat(u, v);
    RevConcat(u + [t], v);
    RevConcat(u, [t]);
    assert Rev([t]) == [t];
    Assoc([t], w, r);
    FlipValid(g);
    RevElems(moved);
    RevElems(v);
    FlipTopological(g, moved);
    ElemsConcat([t] + w, r);
    assert t in Elems([t]);
    ElemsConcat([t], w);
    forall x | x in w && x != t ensures t !in h.Anc(x) {
      assert x in Elems(v) && x in Elems([t] + w);
    }
    LeafFirst(h, t, w, r);
  }

  lemma {:induction false} BestMonotone(w: seq<int>, w': seq<int>, l: seq<nat>, n: nat)
    requires n <= |l| && forall i :: At(w, i) <= At(w', i)
    ensures PrefixSum(w, l, n) <= PrefixSum(w', l, n) && BestTo(w, l, n) <= BestTo(w', l, n)
  {
    if 0 < n {
      BestMonotone(w, w', l, n - 1);
    }
  }

  /** `g'` is `g` with a higher fee on `t`. */
  ghost predicate FeeRaised(g: Graph, g': Graph, t: nat) {
    && g'.used == g.used && |g'.entries| == |g.entries| && t < |g.entries|
    && g.entries[t].feerate.fee <= g'.entries[t].feerate.fee
    && g'.entries == g.entries[t := g.entries[t].(feerate := FeeFrac(g'.entries[t].feerate.fee, g.entries[t].feerate.size))]
  }

  lemma {:induction false} FeeRaisedGraph(g: Graph, g': Graph, t: nat)
    requires FeeRaised(g, g', t)
    ensures forall i :: g'.Anc(i) == g.Anc(i) && g'.Des(i) == g.Des(i)
    ensures g.AllSized() ==> g'.AllSized()
    ensures g.Valid() ==> g'.Valid()
  {
  }

  lemma {:induction false} FeeRaisedWeights(g: Graph, g': Graph, t: nat, p: int, q: int)
    requires FeeRaised(g, g', t) && 0 < q
    ensures forall i :: At(Weights(g.Rates(), p, q), i) <= At(Weights(g'.Rates(), p, q), i)
  {
    MulLe(g.Rates()[t].fee, g'.Rates()[t].fee, q);
  }

  /** Replacing a leaf by one with a higher fee at the end, then postlinearizing, does not worsen. */
  lemma {:induction false} PostLinReplacedLeaf(g: Graph, g': Graph, u: seq<nat>, t: nat, v: seq<nat>, p: int, q: int)
    requires g.Valid() && g.AllSized() && IsLinearization(g, (u + [t]) + v) && g.Des(t) == {t}
    requires FeeRaised(g, g', t) && 0 < q
    ensures Best(Weights(g'.Rates(), p, q), PostLin(g', (u + v) + [t])) >= Best(Weights(g.Rates(), p, q), (u + [t]) + v)
  {
    var l := (u + [t]) + v;
    FeeRaisedGraph(g, g', t);
    assert IsLinearization(g', l);
    PostLinMovedLeaf(g', u, t, v);
    FeeRaisedWeights(g, g', t, p, q);
    BestMonotone(Weights(g.Rates(), p, q), Weights(g'.Rates(), p, q), l, |l|);
  }
}
