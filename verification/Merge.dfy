/**
 Building an output linearization front set by front set, and `MergeLinearizations`
 (`cluster_linearize.h`).
*/
module Merging {
  import opened Common
  import opened FeeFracs
  import opened Orders
  import opened Sums
  import opened Diagram
  import opened Improve
  import opened DepGraphs
  import opened Chunking

  /** A topologically valid order of all transactions of the graph. */
  ghost predicate IsLinearization(g: Graph, l: seq<nat>) {
    IsOrderOf(l, g.used) && g.Topological(l)
  }

  /** A graph with a linearization has no cycles. */
  lemma {:induction false} LinearizableIsAcyclic(g: Graph, l: seq<nat>)
    requires g.Valid() && IsLinearization(g, l)
    ensures g.Acyclic()
  {
    forall i, j | i in g.used && j in g.used && i != j && j in g.Anc(i) ensures i !in g.Anc(j) {
      var a :| 0 <= a < |l| && l[a] == i;
      var b :| 0 <= b < |l| && l[b] == j;
      assert b < a;
    }
  }

  lemma {:induction false} TopologicalConcat(g: Graph, a: seq<nat>, b: seq<nat>)
    ensures g.Topological(a + b)
       <==> g.Topological(a) && g.Topological(b) && forall x, y :: x in a && y in b ==> y !in g.Anc(x)
  {
    var l := a + b;
    if g.Topological(l) {
      forall i, j | 0 <= i < j < |a| ensures a[j] !in g.Anc(a[i]) { assert l[j] !in g.Anc(l[i]); }
      forall i, j | 0 <= i < j < |b| ensures b[j] !in g.Anc(b[i]) { assert l[|a| + j] !in g.Anc(l[|a| + i]); }
      forall x, y | x in a && y in b ensures y !in g.Anc(x) {
        var i :| 0 <= i < |a| && a[i] == x;
        var j :| 0 <= j < |b| && b[j] == y;
        assert l[|a| + j] !in g.Anc(l[i]);
      }
    }
    if g.Topological(a) && g.Topological(b) && forall x, y :: x in a && y in b ==> y !in g.Anc(x) {
      forall i, j | 0 <= i < j < |l| ensures l[j] !in g.Anc(l[i]) {
        if i < |a| <= j {
          assert l[i] in a && l[j] in b;
        }
      }
    }
  }

  lemma {:induction false} TopologicalDrop(g: Graph, l: seq<nat>, s: set<nat>)
    requires g.Topological(l)
    ensures g.Topological(Drop(l, s))
  {
    if l != [] {
      assert l == [l[0]] + l[1..];
      TopologicalConcat(g, [l[0]], l[1..]);
      TopologicalDrop(g, l[1..], s);
      DropElems(l[1..], s);
      assert forall y :: y in Drop(l[1..], s) ==> y in Elems(Drop(l[1..], s));
      TopologicalConcat(g, [l[0]], Drop(l[1..], s));
    }
  }

  /** The first groups of a topological order contain the ancestors of their members. */
  lemma {:induction false} HeadClosed(g: Graph, groups: seq<seq<nat>>, todo: set<nat>, m: nat)
    requires m <= |groups| && g.Topological(Flatten(groups)) && Elems(Flatten(groups)) == todo
    ensures g.Closed(Head(groups, m), todo)
  {
    var a, b := Flatten(groups[..m]), Flatten(groups[m..]);
    assert groups == groups[..m] + groups[m..];
    FlattenConcat(groups[..m], groups[m..]);
    TopologicalConcat(g, a, b);
    ElemsConcat(a, b);
  }

  lemma {:induction false} ClosedIntersect(g: Graph, a: set<nat>, b: set<nat>, todo: set<nat>)
    requires g.Closed(a, todo) && g.Closed(b, todo)
    ensures g.Closed(a * b, todo)
  {
  }

  // ----- output built from the front

  /** `out` is a valid order of what is done, and depends on nothing that is still to do. */
  ghost predicate Emitted(g: Graph, out: seq<nat>, todo: set<nat>) {
    && todo <= g.used && IsOrderOf(out, g.used - todo) && g.Topological(out)
    && forall x :: x in out ==> g.Anc(x) !! todo
  }

  lemma {:induction false} EmitMore(g: Graph, out: seq<nat>, todo: set<nat>, t: seq<nat>)
    requires Emitted(g, out, todo) && NoDup(t) && g.Topological(t) && g.Closed(Elems(t), todo)
    ensures Emitted(g, out + t, todo - Elems(t))
  {
    ElemsConcat(out, t);
    NoDupConcat(out, t);
    assert forall x :: x in out ==> x in Elems(out);
    assert forall x :: x in t ==> x in Elems(t);
    TopologicalConcat(g, out, t);
    forall x | x in out + t ensures g.Anc(x) !! todo - Elems(t) {
      if x in t {
        assert g.Anc(x) * todo <= Elems(t);
      }
    }
  }

  lemma {:induction false} PrependDominates(fr: Rates, a: seq<nat>, b: seq<nat>, c: seq<nat>)
    requires Dominates(fr, b, c)
    ensures Dominates(fr, a + b, a + c)
  {
    forall p: int, q: int | 0 < q
      ensures Best(Weights(fr, p, q), a + b) >= Best(Weights(fr, p, q), a + c)
    {
      BestConcatMonotone(Weights(fr, p, q), a, c, b);
    }
  }

  /** Emitting `t` next and keeping the rest in order still dominates the old linearization. */
  lemma {:induction false} EmitDominates(
    fr: Rates, out: seq<nat>, groups: seq<seq<nat>>, t: seq<nat>, bound: FeeFrac, lin: seq<nat>)
    requires Dominates(fr, out + Flatten(groups), lin)
    requires 0 < bound.size
    requires AreChunks(fr, groups) && NoDup(Flatten(groups)) && NoDup(t)
    requires Sized(fr, Elems(t))
    requires ChunksAtMost(fr, groups, bound)
    requires TailsAtLeast(fr, groups, Elems(t), bound)
    ensures Dominates(fr, (out + t) + Drop(Flatten(groups), Elems(t)), lin)
  {
    var rest := Drop(Flatten(groups), Elems(t));
    MoveFront(fr, groups, t, bound);
    PrependDominates(fr, out, t + rest, Flatten(groups));
    Assoc(out, t, rest);
    DominatesTransitive(fr, (out + t) + rest, out + Flatten(groups), lin);
  }

  /** Every chunk is at most the first one, and so at most anything the first is at most. */
  lemma {:induction false} AtMostFirst(fr: Rates, groups: seq<seq<nat>>, bound: FeeFrac)
    requires AreChunks(fr, groups) && NonIncreasing(fr, groups) && 0 < bound.size
    requires groups != [] ==> AggSeq(fr, groups[0]).Cross(bound) <= 0
    ensures ChunksAtMost(fr, groups, bound)
  {
    forall i | 0 <= i < |groups| ensures AggSeq(fr, groups[i]).Cross(bound) <= 0 {
      var first, c := AggSeq(fr, groups[0]), AggSeq(fr, groups[i]);
      AggSeqSize(fr, groups[0]);
      AggSeqSize(fr, groups[i]);
      CrossPlus(c, first, bound);
      CrossPlus(first, bound, c);
      CrossPlus(bound, c, first);
      if 0 < i {
        CrossTransitive(bound, first, c);
      }
    }
  }

  /** A part of the first chunk that is not lower than it can go first. */
  lemma {:induction false} TailsOfFirst(fr: Rates, groups: seq<seq<nat>>, t: set<nat>)
    requires groups != [] && t <= Elems(groups[0]) && !Agg(fr, t).Lower(AggSeq(fr, groups[0]))
    ensures TailsAtLeast(fr, groups, t, AggSeq(fr, groups[0]))
  {
    forall m | 0 <= m <= |groups|
      ensures var missed := t - Elems(Flatten(groups[..m]));
        missed == {} || Agg(fr, missed).Cross(AggSeq(fr, groups[0])) >= 0
    {
      if m == 0 {
        HeadZero(groups);
        assert t - Head(groups, 0) == t;
      } else {
        HeadStep(groups, 0);
        HeadMonotone(groups, 1, m);
        assert t - Head(groups, m) == {};
      }
    }
  }

  // ----- MergeLinearizations

  /** Both chunkings cover the same remaining transactions, in topological order. */
  ghost predicate InStep(g: Graph, c: LinearizationChunking, todo: set<nat>)
    reads c
  {
    c.Valid() && c.depgraph == g && c.todo == todo && g.Topological(c.Remaining())
  }

  /** A group of the remaining order, as a set with its feerate. */
  lemma {:induction false} GroupInfo(g: Graph, groups: seq<seq<nat>>, todo: set<nat>, k: nat)
    requires k < |groups| && groups[k] != [] && NoDup(Flatten(groups))
    requires Elems(Flatten(groups)) == todo && todo <= g.used
    ensures Elems(groups[k]) != {} && Elems(groups[k]) <= todo
    ensures Accurate(g, SetInfo(Elems(groups[k]), AggSeq(g.Rates(), groups[k])))
  {
    FlattenSplit(groups, k);
    var a := Flatten(groups[..k]) + groups[k];
    NoDupConcat(a, Flatten(groups[k + 1..]));
    NoDupConcat(Flatten(groups[..k]), groups[k]);
    ElemsConcat(a, Flatten(groups[k + 1..]));
    ElemsConcat(Flatten(groups[..k]), groups[k]);
    AggSeqIsAgg(g.Rates(), groups[k]);
    assert groups[k][0] in Elems(groups[k]);
  }

  /** The next front: the better first chunk, cut down by the other linearization. */
  method NextFront(g: Graph, c1: LinearizationChunking, c2: LinearizationChunking, ghost todo: set<nat>)
    returns (best: SetInfo, ghost bound: FeeFrac)
    requires InStep(g, c1, todo) && InStep(g, c2, todo) && todo != {}
    ensures best.transactions != {} && g.Closed(best.transactions, todo) && 0 < bound.size
    ensures ChunksAtMost(g.Rates(), c1.groups, bound) && ChunksAtMost(g.Rates(), c2.groups, bound)
    ensures TailsAtLeast(g.Rates(), c1.groups, best.transactions, bound)
    ensures TailsAtLeast(g.Rates(), c2.groups, best.transactions, bound)
  {
    c1.SomeChunk();
    c2.SomeChunk();
    GroupInfo(g, c1.groups, todo, 0);
    GroupInfo(g, c2.groups, todo, 0);
    var first1 := c1.chunks[c1.chunksSkip];
    var first2 := c2.chunks[c2.chunksSkip];
    if first2.feerate.Higher(first1.feerate) {
      best := c1.IntersectPrefixes(first2);
      bound := first2.feerate;
      FrontFacts(g, c2.groups, c1.groups, todo, best.transactions);
    } else {
      best := c2.IntersectPrefixes(first1);
      bound := first1.feerate;
      FrontFacts(g, c1.groups, c2.groups, todo, best.transactions);
    }
  }

  /** A shortest part of one first chunk can go first in both linearizations. */
  lemma {:induction false} FrontFacts(
    g: Graph, own: seq<seq<nat>>, other: seq<seq<nat>>, todo: set<nat>, t: set<nat>)
    requires g.AllSized() && todo <= g.used && own != [] && other != []
    requires IsChunking(g.Rates(), own, Flatten(own)) && IsChunking(g.Rates(), other, Flatten(other))
    requires Elems(Flatten(own)) == todo == Elems(Flatten(other))
    requires g.Topological(Flatten(own)) && g.Topological(Flatten(other))
    requires !AggSeq(g.Rates(), other[0]).Higher(AggSeq(g.Rates(), own[0]))
    requires IsShortestPart(g.Rates(), other, SetInfo(Elems(own[0]), AggSeq(g.Rates(), own[0])), t)
    ensures g.Closed(t, todo) && 0 < AggSeq(g.Rates(), own[0]).size
    ensures ChunksAtMost(g.Rates(), own, AggSeq(g.Rates(), own[0]))
    ensures ChunksAtMost(g.Rates(), other, AggSeq(g.Rates(), own[0]))
    ensures TailsAtLeast(g.Rates(), own, t, AggSeq(g.Rates(), own[0]))
    ensures TailsAtLeast(g.Rates(), other, t, AggSeq(g.Rates(), own[0]))
  {
    var fr, s := g.Rates(), SetInfo(Elems(own[0]), AggSeq(g.Rates(), own[0]));
    AggSeqSize(fr, own[0]);
    CrossPlus(s.feerate, s.feerate, s.feerate);
    AtMostFirst(fr, own, s.feerate);
    AtMostFirst(fr, other, s.feerate);
    TailsOfShortest(fr, other, s, t);
    TailsOfFirst(fr, own, t);
    FrontClosed(g, own, other, todo, t);
  }

  lemma {:induction false} FrontClosed(g: Graph, own: seq<seq<nat>>, other: seq<seq<nat>>, todo: set<nat>, t: set<nat>)
    requires own != [] && Elems(Flatten(own)) == todo == Elems(Flatten(other))
    requires g.Topological(Flatten(own)) && g.Topological(Flatten(other))
    requires IsShortestPart(g.Rates(), other, SetInfo(Elems(own[0]), AggSeq(g.Rates(), own[0])), t)
    ensures g.Closed(t, todo)
  {
    var fr, s := g.Rates(), SetInfo(Elems(own[0]), AggSeq(g.Rates(), own[0]));
    HeadStep(own, 0);
    HeadZero(own);
    HeadClosed(g, own, todo, 1);
    var j: nat :| j <= |other| && t == s.transactions * Head(other, j) && HeadsLower(fr, other, s, j);
    HeadClosed(g, other, todo, j);
    ClosedIntersect(g, s.transactions, Head(other, j), todo);
  }

  /** What one round does to the output and to one of the chunkings. */
  lemma {:induction false} EmitFront(
    g: Graph, out: seq<nat>, t: seq<nat>, c: LinearizationChunking,
    todo: set<nat>, front: set<nat>, bound: FeeFrac, lin: seq<nat>)
    requires InStep(g, c, todo) && Emitted(g, out, todo)
    requires IsOrderOf(t, front) && g.Topological(t)
    requires front != {} && g.Closed(front, todo) && 0 < bound.size
    requires ChunksAtMost(g.Rates(), c.groups, bound) && TailsAtLeast(g.Rates(), c.groups, front, bound)
    requires Dominates(g.Rates(), out + c.Remaining(), lin)
    ensures Emitted(g, out + t, todo - front) && |todo - front| < |todo|
    ensures g.Topological(Drop(c.Remaining(), front)) && Elems(Drop(c.Remaining(), front)) == todo - front
    ensures Dominates(g.Rates(), (out + t) + Drop(c.Remaining(), front), lin)
  {
    c.SomeChunk();
    EmitMore(g, out, todo, t);
    EmitDominates(g.Rates(), out, c.groups, t, bound, lin);
    TopologicalDrop(g, c.Remaining(), front);
    DropElems(c.Remaining(), front);
    CardLess(todo - front, todo);
  }

  lemma {:induction false} EmitLast(g: Graph, out: seq<nat>, rest: seq<nat>, lin: seq<nat>)
    requires Emitted(g, out, {}) && Elems(rest) == {} && Dominates(g.Rates(), out + rest, lin)
    ensures IsLinearization(g, out) && Dominates(g.Rates(), out, lin)
  {
    ElemsEmpty(rest);
    assert out + rest == out;
  }

  /** One linearization's side of the merge: what was emitted and what remains of it. */
  ghost predicate Merging(g: Graph, c: LinearizationChunking, out: seq<nat>, todo: set<nat>, lin: seq<nat>)
    reads c
  {
    InStep(g, c, todo) && Dominates(g.Rates(), out + c.Remaining(), lin)
  }

  /** One round of the merge loop; `done` when nothing is left. */
  method MergeRound(
    g: Graph, c1: LinearizationChunking, c2: LinearizationChunking, out: seq<nat>,
    ghost todo: set<nat>, ghost lin1: seq<nat>, ghost lin2: seq<nat>)
    returns (ret: seq<nat>, done: bool, ghost left: set<nat>)
    requires g.Valid() && g.Acyclic() && c1 != c2 && todo != {} && Emitted(g, out, todo)
    requires Merging(g, c1, out, todo, lin1) && Merging(g, c2, out, todo, lin2)
    modifies c1, c2
    ensures left < todo && Emitted(g, ret, left) && done == (left == {})
    ensures done ==> Dominates(g.Rates(), ret, lin1) && Dominates(g.Rates(), ret, lin2)
    ensures !done ==> Merging(g, c1, ret, left, lin1) && Merging(g, c2, ret, left, lin2)
  {
    var best;
    ghost var bound, t;
    best, bound := NextFront(g, c1, c2, todo);
    ret := g.AppendTopo(out, best.transactions);
    t := ret[|out|..];
    assert ret == out + t;
    EmitFront(g, out, t, c1, todo, best.transactions, bound, lin1);
    EmitFront(g, out, t, c2, todo, best.transactions, bound, lin2);
    left := todo - best.transactions;
    ghost var rest2 := Drop(c2.Remaining(), best.transactions);
    c1.MarkDone(best.transactions);
    if c1.NumChunksLeft() == 0 {
      EmitLast(g, ret, c1.Remaining(), lin1);
      EmitLast(g, ret, rest2, lin2);
      return ret, true, left;
    }
    c2.MarkDone(best.transactions);
    done := false;
  }

  lemma {:induction false} EmittedAll(g: Graph, out: seq<nat>)
    requires Emitted(g, out, {})
    ensures IsLinearization(g, out)
  {
    assert g.used - {} == g.used;
  }

  /** Nothing emitted yet: the whole linearization remains. */
  lemma {:induction false} MergeStart(g: Graph, c: LinearizationChunking, lin: seq<nat>)
    requires c.Valid() && c.depgraph == g && c.todo == Elems(lin) && c.Remaining() == lin
    requires IsLinearization(g, lin)
    ensures Merging(g, c, [], g.used, lin) && Emitted(g, [], g.used)
  {
    assert [] + lin == lin;
  }

  /** Merge two linearizations of the same cluster into one that is as good as both. */
  method MergeLinearizations(g: Graph, lin1: seq<nat>, lin2: seq<nat>) returns (ret: seq<nat>)
    requires g.Valid() && g.AllSized()
    requires IsLinearization(g, lin1) && IsLinearization(g, lin2)
    ensures IsLinearization(g, ret)
    ensures Dominates(g.Rates(), ret, lin1)
    ensures Dominates(g.Rates(), ret, lin2)
  {
    LinearizableIsAcyclic(g, lin1);
    ghost var todo := g.used;
    var chunking1 := new LinearizationChunking(g, lin1);
    MergeStart(g, chunking1, lin1);
    var chunking2 := new LinearizationChunking(g, lin2);
    MergeStart(g, chunking2, lin2);
    ret := [];
    if g.used == {} {
      EmitLast(g, ret, chunking1.Remaining(), lin1);
      EmitLast(g, ret, chunking2.Remaining(), lin2);
      return;
    }
    while true
      invariant todo != {} && Emitted(g, ret, todo)
      invariant Merging(g, chunking1, ret, todo, lin1) && Merging(g, chunking2, ret, todo, lin2)
      decreases todo
    {
      var done;
      ret, done, todo := MergeRound(g, chunking1, chunking2, ret, todo, lin1, lin2);
      if done {
        break;
      }
    }
    EmittedAll(g, ret);
  }
}
