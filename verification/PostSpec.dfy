/**
 What `PostLinearize` (`cluster_linearize.h`) computes, and what it guarantees.

 One pass takes the transactions in order and keeps a list of groups.  Each transaction
 starts as a group of its own at the end and moves to the front: as long as the group
 before it has a lower feerate, it absorbs that group if it depends on it, and swaps with
 it otherwise.  A backward pass is a forward pass over the reversed order of the flipped
 graph, in which parents and children trade places and fees are negated.
*/
module PostSpec {
  import opened Common
  import opened FeeFracs
  import opened Orders
  import opened Sums
  import opened Diagram
  import opened DepGraphs
  import opened Merging

  /** Some member of `a` has an ancestor in `b`. */
  ghost predicate Depends(h: Graph, a: seq<nat>, b: seq<nat>) {
    exists x, y :: x in a && y in b && y in h.Anc(x)
  }

  /** Move the group `cur` to the front, between `left` and `right`. */
  ghost function Bubble(h: Graph, left: seq<seq<nat>>, cur: seq<nat>, right: seq<seq<nat>>): seq<seq<nat>>
    decreases |left|
  {
    if left == [] then [cur] + right
    else
      var n := |left| - 1;
      if !AggSeq(h.Rates(), cur).Higher(AggSeq(h.Rates(), left[n])) then left + [cur] + right
      else if Depends(h, cur, left[n]) then Bubble(h, left[..n], left[n] + cur, right)
      else Bubble(h, left[..n], cur, [left[n]] + right)
  }

  /** The groups after a pass over `l`. */
  ghost function PassGroups(h: Graph, l: seq<nat>): seq<seq<nat>> {
    if l == [] then []
    else Bubble(h, PassGroups(h, l[..|l| - 1]), [l[|l| - 1]], [])
  }

  // ----- one move keeps the order valid and does not make it worse

  /** `a` is a valid order of the same transactions as `b`, and at least as good. */
  ghost predicate Improves(h: Graph, a: seq<nat>, b: seq<nat>) {
    && NoDup(a) && Elems(a) == Elems(b) && |a| == |b|
    && h.Topological(a) && Dominates(h.Rates(), a, b)
  }

  lemma {:induction false} ImprovesTransitive(h: Graph, a: seq<nat>, b: seq<nat>, c: seq<nat>)
    requires Improves(h, a, b) && Improves(h, b, c)
    ensures Improves(h, a, c)
  {
    DominatesTransitive(h.Rates(), a, b, c);
  }

  /** Two adjacent chunks, the second one higher: swapping them helps at every slope. */
  lemma {:induction false} SwapBest(fr: Rates, p: int, q: int, x: seq<nat>, a: seq<nat>, b: seq<nat>, y: seq<nat>)
    requires 0 < q && IsChunk(fr, a) && IsChunk(fr, b) && AggSeq(fr, b).Cross(AggSeq(fr, a)) > 0
    ensures Best(Weights(fr, p, q), x + (b + (a + y))) >= Best(Weights(fr, p, q), x + (a + (b + y)))
  {
    var w := Weights(fr, p, q);
    AggSeqSize(fr, a);
    AggSeqSize(fr, b);
    SlopeTransfer(AggSeq(fr, b), AggSeq(fr, a), p, q);
    SumSeqWeights(fr, p, q, a);
    SumSeqWeights(fr, p, q, b);
    ChunkBest(fr, p, q, a);
    ChunkBest(fr, p, q, b);
    BestConcat(w, a, b + y);
    BestConcat(w, b, y);
    BestConcat(w, b, a + y);
    BestConcat(w, a, y);
    BestBound(w, y, 0);
    BestConcatMonotone(w, x, a + (b + y), b + (a + y));
  }

  /** Swapping two adjacent chunks without dependency, the second one higher. */
  lemma {:induction false} SwapImproves(h: Graph, x: seq<nat>, a: seq<nat>, b: seq<nat>, y: seq<nat>)
    requires IsChunk(h.Rates(), a) && IsChunk(h.Rates(), b)
    requires AggSeq(h.Rates(), b).Cross(AggSeq(h.Rates(), a)) > 0 && !Depends(h, b, a)
    requires NoDup(x + (a + (b + y))) && h.Topological(x + (a + (b + y)))
    ensures Improves(h, x + (b + (a + y)), x + (a + (b + y)))
  {
    SwapNoDup(x, a, b, y);
    SwapTopological(h, x, a, b, y);
    forall p: int, q: int | 0 < q
      ensures Best(Weights(h.Rates(), p, q), x + (b + (a + y))) >= Best(Weights(h.Rates(), p, q), x + (a + (b + y)))
    {
      SwapBest(h.Rates(), p, q, x, a, b, y);
    }
  }

  lemma {:induction false} SwapNoDup(x: seq<nat>, a: seq<nat>, b: seq<nat>, y: seq<nat>)
    requires NoDup(x + (a + (b + y)))
    ensures NoDup(x + (b + (a + y)))
    ensures Elems(x + (b + (a + y))) == Elems(x + (a + (b + y)))
  {
    NoDupConcat(x, a + (b + y));
    NoDupConcat(a, b + y);
    NoDupConcat(b, y);
    ElemsConcat(x, a + (b + y));
    ElemsConcat(a, b + y);
    ElemsConcat(b, y);
    ElemsConcat(x, b + (a + y));
    ElemsConcat(b, a + y);
    ElemsConcat(a, y);
    NoDupConcat(a, y);
    NoDupConcat(b, a + y);
    NoDupConcat(x, b + (a + y));
  }

  lemma {:induction false} SwapTopological(h: Graph, x: seq<nat>, a: seq<nat>, b: seq<nat>, y: seq<nat>)
    requires h.Topological(x + (a + (b + y))) && !Depends(h, b, a)
    ensures h.Topological(x + (b + (a + y)))
  {
    TopologicalConcat(h, x, a + (b + y));
    TopologicalConcat(h, a, b + y);
    TopologicalConcat(h, b, y);
    assert forall v :: v in y ==> v in b + y;
    TopologicalConcat(h, a, y);
    forall u, v | u in b && v in a + y ensures v !in h.Anc(u) {
      if v in a {
        assert !Depends(h, b, a);
      }
    }
    TopologicalConcat(h, b, a + y);
    forall u, v | u in x && v in b + (a + y) ensures v !in h.Anc(u) {
      assert v in b || v in a || v in y;
      assert v in a + (b + y);
    }
    TopologicalConcat(h, x, b + (a + y));
  }

  // ----- the state of a move

  /** Before, at and after the moving group: chunks, in order of feerate but for the moving one. */
  ghost predicate Moving(fr: Rates, left: seq<seq<nat>>, cur: seq<nat>, right: seq<seq<nat>>) {
    && AreChunks(fr, left) && AreChunks(fr, right) && IsChunk(fr, cur)
    && NonIncreasing(fr, left + right)
    && (right != [] ==> AggSeq(fr, right[0]).Cross(AggSeq(fr, cur)) <= 0)
  }

  /** The whole order while a group moves, with what is still to come. */
  ghost function Whole(left: seq<seq<nat>>, cur: seq<nat>, right: seq<seq<nat>>, rest: seq<nat>): seq<nat> {
    Flatten(left) + (cur + (Flatten(right) + rest))
  }

  lemma {:induction false} MoveMerge(fr: Rates, left: seq<seq<nat>>, cur: seq<nat>, right: seq<seq<nat>>, rest: seq<nat>)
    requires left != [] && Moving(fr, left, cur, right)
    requires AggSeq(fr, cur).Higher(AggSeq(fr, left[|left| - 1]))
    ensures var n := |left| - 1;
      && Moving(fr, left[..n], left[n] + cur, right)
      && Whole(left[..n], left[n] + cur, right, rest) == Whole(left, cur, right, rest)
  {
    var n := |left| - 1;
    ChunkMerge(fr, left[n], cur);
    DropOne(fr, left, right);
    if right != [] {
      var p, c, r := AggSeq(fr, left[n]), AggSeq(fr, left[n] + cur), AggSeq(fr, right[0]);
      assert (left + right)[n] == left[n] && (left + right)[n + 1] == right[0];
      AggSeqSize(fr, left[n]);
      AggSeqSize(fr, left[n] + cur);
      AggSeqSize(fr, right[0]);
      CrossPlus(p, c, r);
      CrossPlus(r, p, c);
      CrossPlus(c, r, p);
      CrossTransitive(c, p, r);
    }
    LastOut(left);
    Assoc(Flatten(left[..n]), left[n], cur + (Flatten(right) + rest));
    Assoc(left[n], cur, Flatten(right) + rest);
  }

  lemma {:induction false} LastOut(left: seq<seq<nat>>)
    requires left != []
    ensures Flatten(left) == Flatten(left[..|left| - 1]) + left[|left| - 1]
  {
    var n := |left| - 1;
    assert left == left[..n] + [left[n]];
    FlattenSnoc(left[..n], left[n]);
  }

  /** Taking the last group of `left` away keeps the others in order. */
  lemma {:induction false} DropOne(fr: Rates, left: seq<seq<nat>>, right: seq<seq<nat>>)
    requires left != [] && NonIncreasing(fr, left + right)
    ensures NonIncreasing(fr, left[..|left| - 1] + right)
  {
    var n := |left| - 1;
    var all, some := left + right, left[..n] + right;
    forall i, j | 0 <= i < j < |some| ensures AggSeq(fr, some[j]).Cross(AggSeq(fr, some[i])) <= 0 {
      var i', j' := if i < n then i else i + 1, if j < n then j else j + 1;
      assert some[i] == all[i'] && some[j] == all[j'];
    }
  }

  lemma {:induction false} MovePast(fr: Rates, left: seq<seq<nat>>, cur: seq<nat>, right: seq<seq<nat>>)
    requires left != [] && Moving(fr, left, cur, right)
    requires AggSeq(fr, cur).Higher(AggSeq(fr, left[|left| - 1]))
    ensures Moving(fr, left[..|left| - 1], cur, [left[|left| - 1]] + right)
  {
    var n := |left| - 1;
    var p := left[n];
    assert left[..n] + ([p] + right) == left + right;
    CrossPlus(AggSeq(fr, p), AggSeq(fr, cur), AggSeq(fr, p));
  }

  lemma {:induction false} MoveSwap(h: Graph, left: seq<seq<nat>>, cur: seq<nat>, right: seq<seq<nat>>, rest: seq<nat>)
    requires left != [] && Moving(h.Rates(), left, cur, right)
    requires AggSeq(h.Rates(), cur).Higher(AggSeq(h.Rates(), left[|left| - 1]))
    requires !Depends(h, cur, left[|left| - 1])
    requires NoDup(Whole(left, cur, right, rest)) && h.Topological(Whole(left, cur, right, rest))
    ensures var n := |left| - 1;
      && Moving(h.Rates(), left[..n], cur, [left[n]] + right)
      && Improves(h, Whole(left[..n], cur, [left[n]] + right, rest), Whole(left, cur, right, rest))
  {
    var n := |left| - 1;
    var x, p, y := Flatten(left[..n]), left[n], Flatten(right) + rest;
    MovePast(h.Rates(), left, cur, right);
    LastOut(left);
    Assoc(x, p, cur + y);
    FlattenConcat([p], right);
    FlattenSingle(p);
    Assoc(p, Flatten(right), rest);
    SwapImproves(h, x, p, cur, y);
  }

  /** A finished move leaves chunks of non-increasing feerate. */
  lemma {:induction false} MoveDone(fr: Rates, left: seq<seq<nat>>, cur: seq<nat>, right: seq<seq<nat>>)
    requires Moving(fr, left, cur, right)
    requires left != [] ==> !AggSeq(fr, cur).Higher(AggSeq(fr, left[|left| - 1]))
    ensures AreChunks(fr, left + [cur] + right) && NonIncreasing(fr, left + [cur] + right)
  {
    var n, c, others := |left|, AggSeq(fr, cur), left + right;
    var all := left + [cur] + right;
    forall i | 0 <= i < |others|
      ensures if i < n then c.Cross(AggSeq(fr, others[i])) <= 0 else AggSeq(fr, others[i]).Cross(c) <= 0
    {
      BesideMoved(fr, left, cur, right, i);
    }
    forall i, j | 0 <= i < j < |all| ensures AggSeq(fr, all[j]).Cross(AggSeq(fr, all[i])) <= 0 {
      var i', j' := if i < n then i else i - 1, if j < n then j else j - 1;
      if i != n {
        assert all[i] == others[i'];
      }
      if j != n {
        assert all[j] == others[j'];
      }
    }
  }

  lemma {:induction false} BesideMoved(fr: Rates, left: seq<seq<nat>>, cur: seq<nat>, right: seq<seq<nat>>, i: nat)
    requires Moving(fr, left, cur, right) && i < |left + right|
    requires left != [] ==> !AggSeq(fr, cur).Higher(AggSeq(fr, left[|left| - 1]))
    ensures var x := AggSeq(fr, (left + right)[i]); if i < |left| then AggSeq(fr, cur).Cross(x) <= 0 else x.Cross(AggSeq(fr, cur)) <= 0
  {
    var n, c, others := |left|, AggSeq(fr, cur), left + right;
    var k := if i < n then n - 1 else n;
    var x, m := AggSeq(fr, others[i]), AggSeq(fr, others[k]);
    assert others[k] == if i < n then left[n - 1] else right[0];
    assert others[i] == if i < n then left[i] else right[i - n];
    AggSeqSize(fr, cur);
    AggSeqSize(fr, others[i]);
    AggSeqSize(fr, others[k]);
    CrossPlus(x, m, c);
    CrossPlus(m, c, x);
    CrossPlus(c, x, m);
    if i < k {
      CrossTransitive(x, m, c);
    } else if k < i {
      CrossTransitive(c, m, x);
    }
  }

  /** Moving one group: the result is in order, and its concatenation improves on the start. */
  lemma {:induction false} BubbleCorrect(h: Graph, left: seq<seq<nat>>, cur: seq<nat>, right: seq<seq<nat>>, rest: seq<nat>)
    requires Moving(h.Rates(), left, cur, right)
    requires NoDup(Whole(left, cur, right, rest)) && h.Topological(Whole(left, cur, right, rest))
    ensures AreChunks(h.Rates(), Bubble(h, left, cur, right)) && NonIncreasing(h.Rates(), Bubble(h, left, cur, right))
    ensures Improves(h, Flatten(Bubble(h, left, cur, right)) + rest, Whole(left, cur, right, rest))
    decreases |left|
  {
    var n := |left| - 1;
    if left == [] || !AggSeq(h.Rates(), cur).Higher(AggSeq(h.Rates(), left[n])) {
      MoveDone(h.Rates(), left, cur, right);
      assert Bubble(h, left, cur, right) == left + [cur] + right;
      BubbleFlat(left, cur, right, rest);
      DominatesReflexive(h.Rates(), Whole(left, cur, right, rest));
    } else if Depends(h, cur, left[n]) {
      MoveMerge(h.Rates(), left, cur, right, rest);
      BubbleCorrect(h, left[..n], left[n] + cur, right, rest);
    } else {
      MoveSwap(h, left, cur, right, rest);
      BubbleCorrect(h, left[..n], cur, [left[n]] + right, rest);
      ImprovesTransitive(h, Flatten(Bubble(h, left, cur, right)) + rest,
                         Whole(left[..n], cur, [left[n]] + right, rest), Whole(left, cur, right, rest));
    }
  }

  lemma {:induction false} DominatesReflexive(fr: Rates, a: seq<nat>)
    ensures Dominates(fr, a, a)
  {
  }

  lemma {:induction false} BubbleFlat(left: seq<seq<nat>>, cur: seq<nat>, right: seq<seq<nat>>, rest: seq<nat>)
    ensures Flatten(left + [cur] + right) + rest == Whole(left, cur, right, rest)
  {
    FlattenConcat(left + [cur], right);
    FlattenSnoc(left, cur);
    Assoc(Flatten(left) + cur, Flatten(right), rest);
    Assoc(Flatten(left), cur, Flatten(right) + rest);
  }

  /** A pass over the first part of an order, with the rest kept as it is. */
  lemma {:induction false} PassCorrect(h: Graph, l: seq<nat>, rest: seq<nat>)
    requires Sized(h.Rates(), Elems(l)) && NoDup(l + rest) && h.Topological(l + rest)
    ensures AreChunks(h.Rates(), PassGroups(h, l)) && NonIncreasing(h.Rates(), PassGroups(h, l))
    ensures Improves(h, Flatten(PassGroups(h, l)) + rest, l + rest)
    decreases |l|
  {
    if l == [] {
      assert [] + rest == rest;
      DominatesReflexive(h.Rates(), rest);
    } else {
      var n := |l| - 1;
      var a, x := l[..n], l[n];
      assert l == a + [x];
      Assoc(a, [x], rest);
      ElemsConcat(a, [x]);
      assert x in Elems(l);
      PassCorrect(h, a, [x] + rest);
      var groups := PassGroups(h, a);
      SingletonChunk(h.Rates(), x);
      assert groups + [] == groups;
      assert Whole(groups, [x], [], rest) == Flatten(groups) + ([x] + rest) by {
        assert [] + rest == rest;
      }
      BubbleCorrect(h, groups, [x], [], rest);
      ImprovesTransitive(h, Flatten(PassGroups(h, l)) + rest, Flatten(groups) + ([x] + rest), l + rest);
    }
  }
}
