/**
 Moving a set of transactions to the front of a linearization: the argument behind
 `LinearizationChunking::IntersectPrefixes`.
*/
module Improve {
  import opened Common
  import opened FeeFracs
  import opened Orders
  import opened Sums
  import opened Diagram

  /** No chunk has a feerate above `bound`. */
  ghost predicate ChunksAtMost(fr: Rates, groups: seq<seq<nat>>, bound: FeeFrac) {
    forall i :: 0 <= i < |groups| ==> AggSeq(fr, groups[i]).Cross(bound) <= 0
  }

  /** Whatever part of `t` a chunk prefix misses has a feerate of at least `bound`. */
  ghost predicate TailsAtLeast(fr: Rates, groups: seq<seq<nat>>, t: set<nat>, bound: FeeFrac) {
    forall m {:trigger groups[..m]} :: 0 <= m <= |groups| ==>
      var missed := t - Elems(Flatten(groups[..m]));
      missed == {} || Agg(fr, missed).Cross(bound) >= 0
  }

  /** The prefix of the rearranged order that holds `t` and the first `m` groups. */
  lemma {:induction false} FrontPrefix(w: seq<int>, groups: seq<seq<nat>>, t: seq<nat>, m: nat)
    requires NoDup(Flatten(groups)) && NoDup(t) && m <= |groups|
    ensures Best(w, t + Drop(Flatten(groups), Elems(t)))
         >= SumSeq(w, Flatten(groups[..m])) + Sum(w, Elems(t) - Elems(Flatten(groups[..m])))
  {
    var T, front, back := Elems(t), Flatten(groups[..m]), Flatten(groups[m..]);
    assert groups == groups[..m] + groups[m..];
    FlattenConcat(groups[..m], groups[m..]);
    NoDupConcat(front, back);
    DropConcat(front, back, T);
    var a, b := t + Drop(front, T), Drop(back, T);
    Assoc(t, Drop(front, T), b);
    BestConcat(w, a, b);
    BestBound(w, b, 0);
    SumSeqConcat(w, t, Drop(front, T));
    DropElems(front, T);
    SumSeqIsSum(w, t);
    SumSeqIsSum(w, front);
    SumSeqIsSum(w, Drop(front, T));
    SumSplit(w, T, Elems(front));
    SumSplit(w, Elems(front), T);
    assert T * Elems(front) == Elems(front) * T;
  }

  /** At any one slope, moving `t` to the front does not hurt. */
  lemma {:induction false} MoveFrontAt(
    fr: Rates, p: int, q: int, groups: seq<seq<nat>>, t: seq<nat>, bound: FeeFrac)
    requires 0 < q && 0 < bound.size
    requires AreChunks(fr, groups) && NoDup(Flatten(groups)) && NoDup(t)
    requires Sized(fr, Elems(t))
    requires ChunksAtMost(fr, groups, bound)
    requires TailsAtLeast(fr, groups, Elems(t), bound)
    ensures Best(Weights(fr, p, q), t + Drop(Flatten(groups), Elems(t)))
         >= Best(Weights(fr, p, q), Flatten(groups))
  {
    var w := Weights(fr, p, q);
    var m := BestAtBoundary(fr, p, q, groups);
    var missed := Elems(t) - Elems(Flatten(groups[..m]));
    SumWeights(fr, p, q, missed);
    AggSize(fr, missed);
    if Sum(w, missed) >= 0 {
      FrontPrefix(w, groups, t, m);
    } else {
      // The slope lies above `missed`, hence above every chunk: the empty prefix is best.
      AggEmpty(fr);
      SlopeTransfer(Agg(fr, missed), bound, p, q);
      assert bound.Above(p, q) < 0;
      forall i | 0 <= i < m ensures AggSeq(fr, groups[..m][i]).Above(p, q) <= 0 {
        var c := AggSeq(fr, groups[i]);
        AggSeqSize(fr, groups[i]);
        CrossPlus(c, c, bound);
        if c.Above(p, q) > 0 {
          SlopeTransfer(bound, c, p, q);
        }
      }
      ChunksBelow(fr, p, q, groups[..m]);
      BestBound(w, t + Drop(Flatten(groups), Elems(t)), 0);
    }
  }

  /** Moving `t` to the front gives a linearization that dominates the old one. */
  lemma MoveFront(fr: Rates, groups: seq<seq<nat>>, t: seq<nat>, bound: FeeFrac)
    requires 0 < bound.size
    requires AreChunks(fr, groups) && NoDup(Flatten(groups)) && NoDup(t)
    requires Sized(fr, Elems(t))
    requires ChunksAtMost(fr, groups, bound)
    requires TailsAtLeast(fr, groups, Elems(t), bound)
    ensures Dominates(fr, t + Drop(Flatten(groups), Elems(t)), Flatten(groups))
  {
    forall p: int, q: int | 0 < q
      ensures Best(Weights(fr, p, q), t + Drop(Flatten(groups), Elems(t)))
           >= Best(Weights(fr, p, q), Flatten(groups))
    {
      MoveFrontAt(fr, p, q, groups, t, bound);
    }
  }
}
