/**
 The branch-and-bound search of `SearchCandidateFinder::FindCandidateSet`
 (`cluster_linearize.h`), on a graph whose positions are in decreasing feerate order.

 A candidate is a non-empty set of remaining transactions that contains the remaining
 ancestors of its members.  A work item stands for the candidates between `inc` and
 `inc + und`.  The search may forget a candidate only when another one at least as good
 is still represented, or when it cannot beat the best one found: that is `CoversAll`.
*/
module Search {
  import opened FeeFracs
  import opened BitSets
  import opened Sums
  import opened DepGraphs
  import opened Chunking
  import Numbers

  datatype WorkItem = WorkItem(inc: SetInfo, und: set<nat>, potFeerate: FeeFrac)

  ghost function Rate(g: Graph, c: set<nat>): FeeFrac {
    Agg(g.Rates(), c)
  }

  /** Transactions are in decreasing feerate order. */
  ghost predicate Sorted(g: Graph) {
    g.AllSized()
    && forall i, j :: i in g.used && j in g.used && i < j ==> g.Rates()[j].Cross(g.Rates()[i]) <= 0
  }

  ghost predicate Candidate(g: Graph, todo: set<nat>, c: set<nat>) {
    c != {} && g.Closed(c, todo)
  }

  ghost predicate Fits(inc: set<nat>, und: set<nat>, c: set<nat>) {
    inc <= c <= inc + und
  }

  /** The item still represents a candidate at least as good as `c`. */
  ghost predicate CoveredBy(g: Graph, todo: set<nat>, item: WorkItem, c: set<nat>) {
    exists d :: Fits(item.inc.transactions, item.und, d) && Candidate(g, todo, d) && !Rate(g, d).Lower(Rate(g, c))
  }

  ghost predicate Covered(g: Graph, todo: set<nat>, queue: seq<WorkItem>, c: set<nat>) {
    exists k :: 0 <= k < |queue| && CoveredBy(g, todo, queue[k], c)
  }

  /** Every candidate better than `best` is covered. */
  ghost predicate CoversAll(g: Graph, todo: set<nat>, queue: seq<WorkItem>, best: FeeFrac) {
    forall c {:trigger Covered(g, todo, queue, c)} ::
      Candidate(g, todo, c) && Rate(g, c).Higher(best) ==> Covered(g, todo, queue, c)
  }

  /** A topologically valid choice: `inc` is in, `und` is undecided. */
  ghost predicate ChoiceOk(g: Graph, todo: set<nat>, inc: SetInfo, und: set<nat>) {
    && Accurate(g, inc) && inc.transactions !! und
    && g.Closed(inc.transactions, todo) && g.Closed(inc.transactions + und, todo)
  }

  /** No set between `inc` and `inc + und` beats both `pot` and `best`. */
  ghost predicate PotBound(g: Graph, inc: set<nat>, und: set<nat>, pot: FeeFrac, best: FeeFrac) {
    forall c {:trigger Fits(inc, und, c)} ::
      Fits(inc, und, c) ==> !Rate(g, c).Higher(pot) || !Rate(g, c).Higher(best)
  }

  ghost predicate ItemOk(g: Graph, todo: set<nat>, item: WorkItem, best: FeeFrac) {
    && ChoiceOk(g, todo, item.inc, item.und) && item.und != {}
    && (item.inc.transactions != {} ==>
          && !item.inc.feerate.Higher(best)
          && 0 < item.potFeerate.size
          && PotBound(g, item.inc.transactions, item.und, item.potFeerate, best))
  }

  ghost predicate ItemsOk(g: Graph, todo: set<nat>, queue: seq<WorkItem>, best: FeeFrac) {
    forall k :: 0 <= k < |queue| ==> ItemOk(g, todo, queue[k], best)
  }

  /** The remaining transactions with a higher feerate than `best`. */
  ghost function Improving(g: Graph, todo: set<nat>, best: FeeFrac): set<nat> {
    set i | i in todo && i < |g.entries| && g.entries[i].feerate.Higher(best)
  }

  ghost predicate BestOk(g: Graph, todo: set<nat>, best: SetInfo) {
    Accurate(g, best) && Candidate(g, todo, best.transactions)
  }

  /** What holds between steps of the search. */
  ghost predicate Searching(g: Graph, todo: set<nat>, queue: seq<WorkItem>, best: SetInfo, imp: set<nat>) {
    && g.Valid() && Sorted(g) && todo <= g.used
    && ItemsOk(g, todo, queue, best.feerate) && BestOk(g, todo, best)
    && imp == Improving(g, todo, best.feerate)
  }

  // ----- comparing sets through the weights at a feerate

  /** Each member's feerate is at least that of `r`, or at most: then so is the whole's. */
  lemma {:induction false} AllAtMost(g: Graph, c: set<nat>, r: FeeFrac)
    requires Sized(g.Rates(), c)
    requires forall i :: i in c ==> g.Rates()[i].Cross(r) <= 0
    ensures Rate(g, c).Cross(r) <= 0
  {
    var fr := g.Rates();
    var w := Weights(fr, -r.fee, -r.size);
    forall i | i in c ensures At(w, i) >= 0 {
      assert w[i] == fr[i].Above(-r.fee, -r.size) == -fr[i].Cross(r) by { NegAbove(fr[i], r); }
    }
    SumNonNegative(w, c);
    SumWeights(fr, -r.fee, -r.size, c);
    NegAbove(Rate(g, c), r);
  }

  lemma {:induction false} NegAbove(a: FeeFrac, r: FeeFrac)
    ensures a.Above(-r.fee, -r.size) == -a.Cross(r)
    ensures a.Above(r.fee, r.size) == a.Cross(r)
  {
    assert (-r.size) * a.fee == -(a.fee * r.size);
    assert (-r.fee) * a.size == -(r.fee * a.size);
  }

  lemma {:induction false} AllAtLeast(g: Graph, c: set<nat>, r: FeeFrac)
    requires Sized(g.Rates(), c)
    requires forall i :: i in c ==> g.Rates()[i].Cross(r) >= 0
    ensures Rate(g, c).Cross(r) >= 0
  {
    var fr := g.Rates();
    var w := Weights(fr, r.fee, r.size);
    forall i | i in c ensures At(w, i) >= 0 {
      assert w[i] == fr[i].Above(r.fee, r.size) == fr[i].Cross(r) by { NegAbove(fr[i], r); }
    }
    SumNonNegative(w, c);
    SumWeights(fr, r.fee, r.size, c);
    NegAbove(Rate(g, c), r);
  }

  /** The comparison with `r` splits over disjoint parts. */
  lemma {:induction false} CrossUnion(g: Graph, a: set<nat>, b: set<nat>, r: FeeFrac)
    requires a !! b
    ensures Rate(g, a + b).Cross(r) == Rate(g, a).Cross(r) + Rate(g, b).Cross(r)
  {
    AggUnion(g.Rates(), a, b);
    CrossPlus(Rate(g, a), Rate(g, b), r);
  }

  /** `a <= b <= c` in feerate. */
  lemma {:induction false} AtMostTransitive(a: FeeFrac, b: FeeFrac, c: FeeFrac)
    requires 0 < a.size && 0 < b.size && 0 < c.size
    requires a.Cross(b) <= 0 && b.Cross(c) <= 0
    ensures a.Cross(c) <= 0
    ensures a.Cross(b) < 0 || b.Cross(c) < 0 ==> a.Cross(c) < 0
  {
    CrossPlus(a, b, c);
    CrossPlus(b, c, a);
    CrossPlus(c, a, b);
    CrossTransitive(c, b, a);
  }

  // ----- the potential

  /** The greedy choice: the added transactions are above the result, the others that improve are not. */
  ghost predicate Greedy(g: Graph, pool: set<nat>, inc: set<nat>, pot: SetInfo) {
    && Accurate(g, pot) && inc <= pot.transactions <= inc + pool
    && (forall a :: a in pot.transactions - inc ==> a < |g.entries| && g.Rates()[a].Cross(pot.feerate) > 0)
    && (forall b :: b in pool - pot.transactions ==> b < |g.entries| && g.Rates()[b].Cross(pot.feerate) <= 0)
  }

  /** Adding a transaction above the potential keeps it, and everything above it, above. */
  lemma {:induction false} GreedyAdd(g: Graph, pot: SetInfo, pos: nat)
    requires g.AllSized() && Accurate(g, pot) && pot.transactions != {}
    requires pos in g.used && pos !in pot.transactions && g.Rates()[pos].Higher(pot.feerate)
    ensures Rate(g, pot.transactions + {pos}) == pot.feerate.Plus(g.Rates()[pos])
    ensures g.Rates()[pos].Cross(pot.feerate.Plus(g.Rates()[pos])) > 0
    ensures 0 < pot.feerate.size && 0 < g.Rates()[pos].size
  {
    var fr := g.Rates();
    AggUnion(fr, pot.transactions, {pos});
    AggSingle(fr, pos);
    AggSize(fr, pot.transactions);
    CrossPlus(pot.feerate, fr[pos], fr[pos]);
  }

  /** `pot` is `inc` with the part of the pool before `rest`, all of it above the result. */
  ghost predicate PotSoFar(g: Graph, pool: set<nat>, inc: set<nat>, rest: set<nat>, pot: SetInfo) {
    && rest <= pool <= g.used && Accurate(g, pot) && pot.transactions == inc + (pool - rest)
    && (forall a, r :: a in pool - rest && r in rest ==> a < r)
    && (forall a :: a in pool - rest ==> a < |g.entries| && g.Rates()[a].Cross(pot.feerate) > 0)
  }

  lemma {:induction false} PotStep(g: Graph, pool: set<nat>, inc: set<nat>, rest: set<nat>, pot: SetInfo, pos: nat)
    requires Sorted(g) && inc != {} && pool !! inc && PotSoFar(g, pool, inc, rest, pot)
    requires pos in rest && (forall r :: r in rest ==> pos <= r) && g.Rates()[pos].Higher(pot.feerate)
    ensures PotSoFar(g, pool, inc, rest - {pos},
                     SetInfo(pot.transactions + {pos}, pot.feerate.Plus(g.Rates()[pos])))
  {
    var fr, after := g.Rates(), pot.feerate.Plus(g.Rates()[pos]);
    GreedyAdd(g, pot, pos);
    forall a | a in pool - (rest - {pos}) ensures fr[a].Cross(after) > 0 {
      if a != pos {
        assert a in pool - rest && a < pos;
        CrossPlus(fr[pos], fr[a], fr[a]);
        CrossTransitive(fr[a], fr[pos], after);
      }
    }
  }

  lemma {:induction false} PotDone(g: Graph, pool: set<nat>, inc: set<nat>, rest: set<nat>, pot: SetInfo)
    requires pool !! inc && PotSoFar(g, pool, inc, rest, pot)
    requires forall r :: r in rest ==> r < |g.entries| && g.Rates()[r].Cross(pot.feerate) <= 0
    ensures Greedy(g, pool, inc, pot)
  {
    assert pool - pot.transactions == rest;
    assert pot.transactions - inc == pool - rest;
  }

  /** Loop of `add_fn` that grows the potential from the improving undecided transactions. */
  method ComputePot(g: Graph, pool: set<nat>, inc: SetInfo) returns (pot: SetInfo)
    requires Sorted(g) && Accurate(g, inc) && inc.transactions != {}
    requires pool <= g.used && pool !! inc.transactions
    ensures Greedy(g, pool, inc.transactions, pot)
  {
    pot := inc;
    var rest := pool;
    assert pool - rest == {};
    while rest != {}
      invariant PotSoFar(g, pool, inc.transactions, rest, pot)
      decreases |rest|
    {
      var pos := First(rest);
      if !g.entries[pos].feerate.Higher(pot.feerate) {
        BreakPot(g, rest, pos, pot);
        break;
      }
      PotStep(g, pool, inc.transactions, rest, pot, pos);
      pot := SetInfo(pot.transactions + {pos}, pot.feerate.Plus(g.entries[pos].feerate));
      rest := rest - {pos};
    }
    PotDone(g, pool, inc.transactions, rest, pot);
  }

  /** Past the first transaction that does not improve, none does. */
  lemma {:induction false} BreakPot(g: Graph, rest: set<nat>, pos: nat, pot: SetInfo)
    requires Sorted(g) && rest <= g.used && pos in rest && forall r :: r in rest ==> pos <= r
    requires Accurate(g, pot) && pot.transactions != {}
    requires g.Rates()[pos].Cross(pot.feerate) <= 0
    ensures forall r :: r in rest ==> g.Rates()[r].Cross(pot.feerate) <= 0
  {
    var fr := g.Rates();
    AggSize(fr, pot.transactions);
    forall r | r in rest ensures fr[r].Cross(pot.feerate) <= 0 {
      if r != pos {
        AtMostTransitive(fr[r], fr[pos], pot.feerate);
      }
    }
  }

  /** A set whose additions all come from the pool is at most the potential. */
  lemma {:induction false} GreedyBoundPool(g: Graph, pool: set<nat>, inc: set<nat>, pot: SetInfo, u: set<nat>)
    requires g.AllSized() && inc + pool <= g.used && inc !! pool && Greedy(g, pool, inc, pot) && u <= pool
    ensures Rate(g, inc + u).Cross(pot.feerate) <= 0
  {
    var r, a := pot.feerate, pot.transactions - inc;
    CrossPlus(r, r, r);
    assert pot.transactions == inc + a;
    CrossUnion(g, inc, a, r);
    assert a == (a - u) + (a * u) && u == (a * u) + (u - a);
    CrossUnion(g, a - u, a * u, r);
    CrossUnion(g, a * u, u - a, r);
    CrossUnion(g, inc, u, r);
    AllAtLeast(g, a - u, r);
    AllAtMost(g, u - a, r);
  }

  /** The potential bounds everything between `inc` and `inc + und`, unless it is below `best` anyway. */
  lemma {:induction false} GreedyBound(
    g: Graph, todo: set<nat>, inc: set<nat>, und: set<nat>, pot: SetInfo, best: FeeFrac, c: set<nat>)
    requires g.AllSized() && todo <= g.used && inc + und <= todo && inc !! und && inc != {} && 0 < best.size
    requires Greedy(g, Improving(g, todo, best) * und, inc, pot)
    requires Fits(inc, und, c)
    ensures !Rate(g, c).Higher(pot.feerate) || !Rate(g, c).Higher(best)
  {
    var fr, pool := g.Rates(), Improving(g, todo, best) * und;
    var low := c - inc - pool;
    var high := (c - inc) * pool;
    var c1 := inc + high;
    assert c == c1 + low;
    GreedyBoundPool(g, pool, inc, pot, high);
    forall i | i in low ensures fr[i].Cross(best) <= 0 {
      assert i !in Improving(g, todo, best);
    }
    AggSize(fr, pot.transactions);
    AggSize(fr, c1);
    if best.Cross(pot.feerate) <= 0 {
      forall i | i in low ensures fr[i].Cross(pot.feerate) <= 0 {
        AtMostTransitive(fr[i], best, pot.feerate);
      }
      AllAtMost(g, low, pot.feerate);
      CrossUnion(g, c1, low, pot.feerate);
    } else {
      CrossPlus(best, pot.feerate, best);
      AtMostTransitive(Rate(g, c1), pot.feerate, best);
      AllAtMost(g, low, best);
      CrossUnion(g, c1, low, best);
    }
  }

  // ----- jump ahead

  lemma {:induction false} ClosedUnion(g: Graph, a: set<nat>, b: set<nat>, todo: set<nat>)
    requires g.Closed(a, todo) && g.Closed(b, todo)
    ensures g.Closed(a + b, todo)
  {
    forall x | x in a + b ensures g.Anc(x) * todo <= a + b {
      if x in a {
        assert g.Anc(x) * todo <= a;
      } else {
        assert g.Anc(x) * todo <= b;
      }
    }
  }

  lemma {:induction false} AncestorsClosed(g: Graph, x: nat, todo: set<nat>)
    requires g.Valid() && todo <= g.used && x in todo
    ensures g.Closed(g.Anc(x) * todo, todo) && x in g.Anc(x) * todo
  {
    forall y | y in g.Anc(x) * todo ensures g.Anc(y) * todo <= g.Anc(x) * todo {
      assert g.Anc(y) <= g.Anc(x);
    }
  }

  /** Include every potential transaction whose remaining ancestors are all potential. */
  method JumpAhead(g: Graph, todo: set<nat>, inc: set<nat>, pot: set<nat>) returns (ret: set<nat>)
    requires g.Valid() && todo <= g.used && inc <= pot <= todo && g.Closed(inc, todo)
    ensures inc <= ret <= pot && g.Closed(ret, todo)
    ensures forall x :: x in pot && g.Anc(x) * todo <= pot ==> x in ret
  {
    ret := inc;
    var rest := pot - inc;
    while rest != {}
      invariant rest <= pot - inc && inc <= ret <= pot && g.Closed(ret, todo)
      invariant forall x :: x in pot - inc - rest && g.Anc(x) * todo <= pot ==> x in ret
      decreases |rest|
    {
      var pos := First(rest);
      var ancTodo := g.Anc(pos) * todo;
      AncestorsClosed(g, pos, todo);
      if ancTodo <= pot {
        ClosedUnion(g, ret, ancTodo, todo);
        ret := ret + ancTodo;
      }
      rest := rest - {pos};
    }
  }

  /** A better-than-best candidate only gains from the transactions jumped to. */
  lemma {:induction false} JumpCovers(
    g: Graph, todo: set<nat>, inc: set<nat>, und: set<nat>, pot: SetInfo, best: FeeFrac, newInc: set<nat>, d: set<nat>)
    requires g.AllSized() && todo <= g.used && inc + und <= todo && inc !! und && inc != {} && 0 < best.size
    requires Greedy(g, Improving(g, todo, best) * und, inc, pot)
    requires inc <= newInc <= pot.transactions && g.Closed(newInc, todo)
    requires Fits(inc, und, d) && Candidate(g, todo, d) && Rate(g, d).Higher(best)
    ensures Fits(newInc, und - newInc, d + newInc) && Candidate(g, todo, d + newInc)
    ensures !Rate(g, d + newInc).Lower(Rate(g, d))
    ensures Rate(g, d).Cross(pot.feerate) <= 0
  {
    var fr, r, extra := g.Rates(), Rate(g, d), newInc - d;
    GreedyBound(g, todo, inc, und, pot, best, d);
    ClosedUnion(g, d, newInc, todo);
    AggSize(fr, d);
    AggSize(fr, pot.transactions);
    forall a | a in extra ensures fr[a].Cross(r) >= 0 {
      assert a in pot.transactions - inc;
      CrossPlus(r, pot.feerate, pot.feerate);
      CrossTransitive(fr[a], pot.feerate, r);
    }
    AllAtLeast(g, extra, r);
    assert d + newInc == d + extra;
    CrossUnion(g, d, extra, r);
    CrossPlus(r, r, r);
  }

  // ----- the best candidate improves

  lemma {:induction false} BelowBetter(r: FeeFrac, best: FeeFrac, better: FeeFrac)
    requires 0 < r.size && 0 < best.size && 0 < better.size && better.AtLeast(best)
    ensures r.Higher(better) ==> r.Higher(best)
  {
    CrossPlus(better, best, best);
    if r.Higher(better) {
      CrossTransitive(r, better, best);
    }
  }

  lemma {:induction false} ItemOkBetter(g: Graph, todo: set<nat>, item: WorkItem, best: FeeFrac, better: FeeFrac)
    requires g.AllSized() && todo <= g.used && 0 < best.size && 0 < better.size && better.AtLeast(best)
    requires ItemOk(g, todo, item, best)
    ensures ItemOk(g, todo, item, better)
  {
    if item.inc.transactions != {} {
      var inc, und := item.inc.transactions, item.und;
      AggSize(g.Rates(), inc);
      BelowBetter(item.inc.feerate, best, better);
      PotBoundBetter(g, inc, und, item.potFeerate, best, better);
    }
  }

  lemma {:induction false} PotBoundBetter(
    g: Graph, inc: set<nat>, und: set<nat>, pot: FeeFrac, best: FeeFrac, better: FeeFrac)
    requires g.AllSized() && inc + und <= g.used && inc != {}
    requires 0 < best.size && 0 < better.size && better.AtLeast(best)
    requires PotBound(g, inc, und, pot, best)
    ensures PotBound(g, inc, und, pot, better)
  {
    forall c | Fits(inc, und, c) ensures !Rate(g, c).Higher(pot) || !Rate(g, c).Higher(better) {
      AggSize(g.Rates(), c);
      BelowBetter(Rate(g, c), best, better);
    }
  }

  lemma {:induction false} ItemsOkBetter(g: Graph, todo: set<nat>, queue: seq<WorkItem>, best: FeeFrac, better: FeeFrac)
    requires g.AllSized() && todo <= g.used && 0 < best.size && 0 < better.size && better.AtLeast(best)
    requires ItemsOk(g, todo, queue, best)
    ensures ItemsOk(g, todo, queue, better)
  {
    forall k | 0 <= k < |queue| ensures ItemOk(g, todo, queue[k], better) {
      ItemOkBetter(g, todo, queue[k], best, better);
    }
  }

  /** Drop from the back the transactions that no longer improve on `best`. */
  method ShrinkImp(g: Graph, todo: set<nat>, imp: set<nat>, best: FeeFrac) returns (ret: set<nat>)
    requires Sorted(g) && todo <= g.used && 0 < best.size
    requires Improving(g, todo, best) <= imp <= todo
    ensures ret == Improving(g, todo, best)
  {
    ret := imp;
    while ret != {}
      invariant Improving(g, todo, best) <= ret <= todo
      decreases |ret|
    {
      var check := Last(ret);
      if g.entries[check].feerate.Higher(best) {
        AllImprove(g, ret, check, best);
        break;
      }
      ret := ret - {check};
    }
  }

  lemma {:induction false} AllImprove(g: Graph, s: set<nat>, check: nat, best: FeeFrac)
    requires Sorted(g) && s <= g.used && 0 < best.size
    requires check in s && (forall y :: y in s ==> y <= check) && g.Rates()[check].Higher(best)
    ensures forall i :: i in s ==> g.entries[i].feerate.Higher(best)
  {
    var fr := g.Rates();
    forall i | i in s ensures fr[i].Higher(best) {
      if i != check {
        CrossPlus(fr[check], fr[i], fr[i]);
        CrossTransitive(fr[i], fr[check], best);
      }
    }
  }

  lemma {:induction false} ImprovingShrinks(g: Graph, todo: set<nat>, best: FeeFrac, better: FeeFrac)
    requires g.AllSized() && todo <= g.used && 0 < best.size && 0 < better.size && better.AtLeast(best)
    ensures Improving(g, todo, better) <= Improving(g, todo, best)
  {
    forall i | i in Improving(g, todo, better) ensures i in Improving(g, todo, best) {
      BelowBetter(g.Rates()[i], best, better);
    }
  }

  // ----- add_fn

  /** Every candidate of the choice that beats `best` is covered. */
  ghost predicate ChoiceCovered(
    g: Graph, todo: set<nat>, inc: set<nat>, und: set<nat>, queue: seq<WorkItem>, best: FeeFrac)
  {
    forall d {:trigger Covered(g, todo, queue, d)} ::
      Fits(inc, und, d) && Candidate(g, todo, d) && Rate(g, d).Higher(best) ==> Covered(g, todo, queue, d)
  }

  /** Pushing the choice after the jump covers every candidate of the choice before it. */
  lemma {:induction false} PushCovers(
    g: Graph, todo: set<nat>, inc: set<nat>, und: set<nat>, pot: SetInfo, best: FeeFrac,
    queue: seq<WorkItem>, item: WorkItem, better: FeeFrac)
    requires g.AllSized() && todo <= g.used && inc + und <= todo && inc !! und && inc != {}
    requires 0 < best.size && 0 < better.size && better.AtLeast(best)
    requires Greedy(g, Improving(g, todo, best) * und, inc, pot)
    requires inc <= item.inc.transactions <= pot.transactions && g.Closed(item.inc.transactions, todo)
    requires item.und == und - item.inc.transactions
    ensures ChoiceCovered(g, todo, inc, und, queue + [item], better)
  {
    var q := queue + [item];
    forall d | Fits(inc, und, d) && Candidate(g, todo, d) && Rate(g, d).Higher(better)
      ensures Covered(g, todo, q, d)
    {
      AggSize(g.Rates(), d);
      BelowBetter(Rate(g, d), best, better);
      JumpCovers(g, todo, inc, und, pot, best, item.inc.transactions, d);
      assert CoveredBy(g, todo, q[|queue|], d);
    }
  }

  /** When the potential is all included, nothing in the choice beats the new best. */
  lemma {:induction false} ExhaustedCovers(
    g: Graph, todo: set<nat>, inc: set<nat>, und: set<nat>, pot: SetInfo, best: FeeFrac,
    queue: seq<WorkItem>, better: FeeFrac)
    requires g.AllSized() && todo <= g.used && inc + und <= todo && inc !! und && inc != {}
    requires 0 < best.size && 0 < better.size && better.AtLeast(best)
    requires Greedy(g, Improving(g, todo, best) * und, inc, pot)
    requires !pot.feerate.Higher(better)
    ensures ChoiceCovered(g, todo, inc, und, queue, better)
  {
    AggSize(g.Rates(), pot.transactions);
    forall d | Fits(inc, und, d) && Candidate(g, todo, d) ensures !Rate(g, d).Higher(better) {
      AggSize(g.Rates(), d);
      BelowBetter(Rate(g, d), best, better);
      GreedyBound(g, todo, inc, und, pot, best, d);
      if !Rate(g, d).Higher(pot.feerate) {
        AtMostTransitive(Rate(g, d), pot.feerate, better);
      }
    }
  }

  /** The item pushed after a jump is in order. */
  lemma {:induction false} PushedItemOk(
    g: Graph, todo: set<nat>, inc: SetInfo, und: set<nat>, pot: SetInfo, best: FeeFrac,
    newInc: SetInfo, better: FeeFrac)
    requires g.AllSized() && todo <= g.used && ChoiceOk(g, todo, inc, und) && inc.transactions != {}
    requires 0 < best.size && 0 < better.size && better.AtLeast(best)
    requires Greedy(g, Improving(g, todo, best) * und, inc.transactions, pot)
    requires inc.transactions <= newInc.transactions <= pot.transactions && g.Closed(newInc.transactions, todo)
    requires Accurate(g, newInc) && !newInc.feerate.Higher(better) && newInc.transactions != pot.transactions
    ensures ItemOk(g, todo, WorkItem(newInc, und - newInc.transactions, pot.feerate), better)
  {
    var left := und - newInc.transactions;
    assert newInc.transactions + left == inc.transactions + und;
    assert left != {} by {
      var x :| x in pot.transactions && x !in newInc.transactions;
      assert x in left;
    }
    AggSize(g.Rates(), pot.transactions);
    forall c | Fits(newInc.transactions, left, c)
      ensures !Rate(g, c).Higher(pot.feerate) || !Rate(g, c).Higher(better)
    {
      AggSize(g.Rates(), c);
      GreedyBound(g, todo, inc.transactions, und, pot, best, c);
      BelowBetter(Rate(g, c), best, better);
    }
  }

  /** The queue only grows at the back, by at most `n` items with less undecided than `und`. */
  ghost predicate Extends(queue: seq<WorkItem>, longer: seq<WorkItem>, n: nat, und: set<nat>) {
    && queue <= longer && |longer| <= |queue| + n
    && forall k :: |queue| <= k < |longer| ==> longer[k].und <= und
  }

  /** `add_fn`: queue a choice, after improving it, and update `best` and `imp`. */
  method AddItem(g: Graph, todo: set<nat>, queue: seq<WorkItem>, best: SetInfo, imp: set<nat>, inc: SetInfo, und: set<nat>)
    returns (queue': seq<WorkItem>, best': SetInfo, imp': set<nat>)
    requires Searching(g, todo, queue, best, imp) && ChoiceOk(g, todo, inc, und)
    ensures Searching(g, todo, queue', best', imp')
    ensures Extends(queue, queue', 1, und) && best'.feerate.AtLeast(best.feerate)
    ensures ChoiceCovered(g, todo, inc.transactions, und, queue', best'.feerate)
  {
    AggSize(g.Rates(), inc.transactions);
    if !inc.feerate.IsEmpty() {
      queue', best', imp' := AddChosen(g, todo, queue, best, imp, inc, und);
    } else {
      queue', best', imp' := queue, best, imp;
      CrossPlus(best.feerate, best.feerate, best.feerate);
      if und == {} {
        return;
      }
      var item := WorkItem(inc, und, EMPTY);
      queue' := queue + [item];
      PlainCovers(g, todo, queue, item, best.feerate);
    }
  }

  /** `add_fn` when something is already included. */
  method AddChosen(g: Graph, todo: set<nat>, queue: seq<WorkItem>, best: SetInfo, imp: set<nat>, inc: SetInfo, und: set<nat>)
    returns (queue': seq<WorkItem>, best': SetInfo, imp': set<nat>)
    requires Searching(g, todo, queue, best, imp) && ChoiceOk(g, todo, inc, und) && inc.transactions != {}
    ensures Searching(g, todo, queue', best', imp')
    ensures Extends(queue, queue', 1, und) && best'.feerate.AtLeast(best.feerate)
    ensures ChoiceCovered(g, todo, inc.transactions, und, queue', best'.feerate)
  {
    AggSize(g.Rates(), best.transactions);
    var pot := ComputePot(g, imp * und, inc);
    var newTxs := JumpAhead(g, todo, inc.transactions, pot.transactions);
    var left := und - newTxs;
    var more := g.FeeRate(newTxs - inc.transactions);
    JumpedInc(g, inc, newTxs);
    var newInc := SetInfo(newTxs, inc.feerate.Plus(more));
    best', imp' := NewBest(g, todo, queue, best, imp, newInc);
    AggSize(g.Rates(), best'.transactions);
    AggSizeMonotone(g.Rates(), newTxs, pot.transactions);
    if pot.feerate.size == newInc.feerate.size {
      ExhaustedCovers(g, todo, inc.transactions, und, pot, best.feerate, queue, best'.feerate);
      return queue, best', imp';
    }
    PushedItemOk(g, todo, inc, und, pot, best.feerate, newInc, best'.feerate);
    var item := WorkItem(newInc, left, pot.feerate);
    PushCovers(g, todo, inc.transactions, und, pot, best.feerate, queue, item, best'.feerate);
    queue' := queue + [item];
  }

  lemma {:induction false} JumpedInc(g: Graph, inc: SetInfo, newTxs: set<nat>)
    requires Accurate(g, inc) && inc.transactions <= newTxs <= g.used
    ensures Accurate(g, SetInfo(newTxs, inc.feerate.Plus(Rate(g, newTxs - inc.transactions))))
  {
    AggUnion(g.Rates(), inc.transactions, newTxs - inc.transactions);
    assert newTxs == inc.transactions + (newTxs - inc.transactions);
  }

  /** Part of `add_fn`: remember a better candidate. */
  method NewBest(g: Graph, todo: set<nat>, ghost queue: seq<WorkItem>, best: SetInfo, imp: set<nat>, inc: SetInfo)
    returns (best': SetInfo, imp': set<nat>)
    requires Searching(g, todo, queue, best, imp) && BestOk(g, todo, inc)
    ensures Searching(g, todo, queue, best', imp')
    ensures best'.feerate.AtLeast(best.feerate) && !inc.feerate.Higher(best'.feerate)
  {
    AggSize(g.Rates(), inc.transactions);
    AggSize(g.Rates(), best.transactions);
    CrossPlus(best.feerate, best.feerate, best.feerate);
    CrossPlus(inc.feerate, inc.feerate, inc.feerate);
    if inc.feerate.Better(best.feerate) {
      best' := inc;
      ImprovingShrinks(g, todo, best.feerate, inc.feerate);
      ItemsOkBetter(g, todo, queue, best.feerate, inc.feerate);
      imp' := ShrinkImp(g, todo, imp, best'.feerate);
    } else {
      best', imp' := best, imp;
    }
  }

  lemma {:induction false} PlainCovers(g: Graph, todo: set<nat>, queue: seq<WorkItem>, item: WorkItem, best: FeeFrac)
    ensures ChoiceCovered(g, todo, item.inc.transactions, item.und, queue + [item], best)
  {
    var q := queue + [item];
    forall d | Fits(item.inc.transactions, item.und, d) && Candidate(g, todo, d) ensures Covered(g, todo, q, d) {
      CrossPlus(Rate(g, d), Rate(g, d), Rate(g, d));
      assert CoveredBy(g, todo, q[|queue|], d);
    }
  }

  // ----- split_fn

  lemma {:induction false} CoveredGrows(g: Graph, todo: set<nat>, queue: seq<WorkItem>, longer: seq<WorkItem>, c: set<nat>)
    requires queue <= longer && Covered(g, todo, queue, c)
    ensures Covered(g, todo, longer, c)
  {
    var k :| 0 <= k < |queue| && CoveredBy(g, todo, queue[k], c);
    assert longer[k] == queue[k];
  }

  lemma {:induction false} ChoiceCoveredGrows(
    g: Graph, todo: set<nat>, inc: set<nat>, und: set<nat>,
    queue: seq<WorkItem>, best: FeeFrac, longer: seq<WorkItem>, better: FeeFrac)
    requires g.AllSized() && todo <= g.used && 0 < best.size && 0 < better.size && better.AtLeast(best)
    requires queue <= longer && ChoiceCovered(g, todo, inc, und, queue, best)
    ensures ChoiceCovered(g, todo, inc, und, longer, better)
  {
    forall d | Fits(inc, und, d) && Candidate(g, todo, d) && Rate(g, d).Higher(better)
      ensures Covered(g, todo, longer, d)
    {
      AggSize(g.Rates(), d);
      BelowBetter(Rate(g, d), best, better);
      CoveredGrows(g, todo, queue, longer, d);
    }
  }

  /** Nothing an item stands for beats `best`. */
  ghost predicate Hopeless(g: Graph, todo: set<nat>, inc: set<nat>, und: set<nat>, best: FeeFrac) {
    forall d {:trigger Fits(inc, und, d)} ::
      Fits(inc, und, d) && Candidate(g, todo, d) ==> !Rate(g, d).Higher(best)
  }

  /** No undecided transaction improves. */
  lemma {:induction false} NoImproving(g: Graph, todo: set<nat>, item: WorkItem, best: FeeFrac)
    requires g.AllSized() && todo <= g.used && ItemOk(g, todo, item, best) && item.inc.transactions != {}
    requires item.und !! Improving(g, todo, best)
    ensures Hopeless(g, todo, item.inc.transactions, item.und, best)
  {
    var inc, fr := item.inc.transactions, g.Rates();
    forall d | Fits(inc, item.und, d) ensures !Rate(g, d).Higher(best) {
      forall i | i in d - inc ensures fr[i].Cross(best) <= 0 {
        assert i !in Improving(g, todo, best);
      }
      AllAtMost(g, d - inc, best);
      CrossUnion(g, inc, d - inc, best);
      assert d == inc + (d - inc);
    }
  }

  /** The potential does not beat `best`. */
  lemma {:induction false} NoPotential(g: Graph, todo: set<nat>, item: WorkItem, best: FeeFrac)
    requires g.AllSized() && todo <= g.used && ItemOk(g, todo, item, best) && item.inc.transactions != {}
    requires 0 < best.size && !item.potFeerate.Better(best)
    ensures Hopeless(g, todo, item.inc.transactions, item.und, best)
  {
    var inc := item.inc.transactions;
    forall d | Fits(inc, item.und, d) ensures !Rate(g, d).Higher(best) {
      AggSize(g.Rates(), d);
      if !Rate(g, d).Higher(item.potFeerate) {
        AtMostTransitive(Rate(g, d), item.potFeerate, best);
      }
    }
  }

  /** Not even the first undecided transaction alone beats `best`. */
  lemma {:induction false} NoFirst(g: Graph, todo: set<nat>, und: set<nat>, best: FeeFrac)
    requires Sorted(g) && todo <= g.used && und <= todo && und != {} && 0 < best.size
    requires !g.Rates()[First(und)].Better(best)
    ensures Hopeless(g, todo, {}, und, best)
  {
    var fr, first := g.Rates(), First(und);
    forall d | Fits({}, und, d) ensures !Rate(g, d).Higher(best) {
      forall i | i in d ensures fr[i].Cross(best) <= 0 {
        if i != first {
          AtMostTransitive(fr[i], fr[first], best);
        }
      }
      AllAtMost(g, d, best);
    }
  }

  lemma {:induction false} HopelessCovered(
    g: Graph, todo: set<nat>, inc: set<nat>, und: set<nat>, queue: seq<WorkItem>, best: FeeFrac)
    requires Hopeless(g, todo, inc, und, best)
    ensures ChoiceCovered(g, todo, inc, und, queue, best)
  {
  }

  /** Excluding a transaction excludes its descendants; the rest is still a valid choice. */
  lemma {:induction false} ExcludeOk(g: Graph, todo: set<nat>, inc: SetInfo, und: set<nat>, split: nat)
    requires g.Valid() && todo <= g.used && ChoiceOk(g, todo, inc, und) && split in und
    ensures ChoiceOk(g, todo, inc, und - g.Des(split)) && und - g.Des(split) < und
  {
    var all, left := inc.transactions + und, inc.transactions + (und - g.Des(split));
    assert split in g.Des(split);
    forall x | x in inc.transactions ensures x !in g.Des(split) {
      assert split !in g.Anc(x) * todo;
    }
    assert left == all - g.Des(split);
    forall x, y | x in left && y in g.Anc(x) * todo ensures y in left {
      assert y in all && split !in g.Anc(x);
      assert g.Anc(y) <= g.Anc(x);
    }
  }

  /** Including a transaction includes its remaining ancestors. */
  lemma {:induction false} IncludeOk(g: Graph, todo: set<nat>, inc: SetInfo, und: set<nat>, split: nat)
    requires g.Valid() && todo <= g.used && ChoiceOk(g, todo, inc, und) && split in und
    ensures var anc := g.Anc(split) * todo;
      && und - anc < und
      && ChoiceOk(g, todo, SetInfo(inc.transactions + anc,
                                   inc.feerate.Plus(Rate(g, anc - inc.transactions))), und - anc)
  {
    var anc := g.Anc(split) * todo;
    AncestorsClosed(g, split, todo);
    ClosedUnion(g, inc.transactions, anc, todo);
    assert anc <= inc.transactions + und;
    assert inc.transactions + anc + (und - anc) == inc.transactions + und;
    JumpedInc(g, inc, inc.transactions + anc);
    assert inc.transactions + anc - inc.transactions == anc - inc.transactions;
  }

  /** A candidate either avoids the split transaction's descendants or has all its ancestors. */
  lemma {:induction false} SplitCovers(
    g: Graph, todo: set<nat>, inc: set<nat>, und: set<nat>, split: nat, queue: seq<WorkItem>, best: FeeFrac)
    requires g.Valid() && todo <= g.used && inc + und <= todo && inc !! und && split in und
    requires ChoiceCovered(g, todo, inc, und - g.Des(split), queue, best)
    requires ChoiceCovered(g, todo, inc + g.Anc(split) * todo, und - g.Anc(split) * todo, queue, best)
    ensures ChoiceCovered(g, todo, inc, und, queue, best)
  {
    forall d | Fits(inc, und, d) && Candidate(g, todo, d) && Rate(g, d).Higher(best)
      ensures Covered(g, todo, queue, d)
    {
      if split in d {
        assert g.Anc(split) * todo <= d;
        assert Fits(inc + g.Anc(split) * todo, und - g.Anc(split) * todo, d);
      } else {
        forall x | x in d ensures x !in g.Des(split) {
          assert split !in g.Anc(x) * todo;
        }
        assert Fits(inc, und - g.Des(split), d);
      }
    }
  }

  /** How many transactions stay undecided when `t` is included, and when it is excluded; larger first. */
  function SplitCounts(g: Graph, und: set<nat>, t: nat): (nat, nat) {
    var a, b := |und - g.Anc(t)|, |und - g.Des(t)|;
    if a < b then (b, a) else (a, b)
  }

  predicate CountsLess(x: (nat, nat), y: (nat, nat)) {
    x.0 < y.0 || (x.0 == y.0 && x.1 < y.1)
  }

  /** Pick the transaction whose decision leaves the least undecided. */
  method ChooseSplit(g: Graph, und: set<nat>, select: set<nat>) returns (split: nat)
    requires select != {}
    ensures split in select
    ensures forall t :: t in select ==> !CountsLess(SplitCounts(g, und, t), SplitCounts(g, und, split))
  {
    split := First(select);
    var splitCounts := SplitCounts(g, und, split);
    var rest := select - {split};
    while rest != {}
      invariant rest <= select && split in select && splitCounts == SplitCounts(g, und, split)
      invariant forall t :: t in select - rest ==> !CountsLess(SplitCounts(g, und, t), splitCounts)
      decreases |rest|
    {
      var t := First(rest);
      var counts := SplitCounts(g, und, t);
      if CountsLess(counts, splitCounts) {
        split, splitCounts := t, counts;
      }
      rest := rest - {t};
    }
  }

  /** The queue grows at the back by at most two items, each with less undecided than `und`. */
  ghost predicate SplitInto(queue: seq<WorkItem>, longer: seq<WorkItem>, und: set<nat>) {
    && queue <= longer && |longer| <= |queue| + 2
    && forall k :: |queue| <= k < |longer| ==> longer[k].und < und
  }

  /** `split_fn`: drop a hopeless item, or replace it by two smaller ones. */
  method SplitItem(
    g: Graph, todo: set<nat>, queue: seq<WorkItem>, best: SetInfo, imp: set<nat>, elem: WorkItem, iterationsLeft: nat)
    returns (queue': seq<WorkItem>, best': SetInfo, imp': set<nat>, left: nat)
    requires Searching(g, todo, queue, best, imp) && ItemOk(g, todo, elem, best.feerate) && 0 < iterationsLeft
    ensures Searching(g, todo, queue', best', imp')
    ensures SplitInto(queue, queue', elem.und) && best'.feerate.AtLeast(best.feerate)
    ensures ChoiceCovered(g, todo, elem.inc.transactions, elem.und, queue', best'.feerate)
    ensures left == iterationsLeft - 1 || (left == iterationsLeft && queue' == queue)
  {
    var pruned := Prune(g, todo, best, imp, elem);
    CrossPlus(best.feerate, best.feerate, best.feerate);
    if pruned {
      HopelessCovered(g, todo, elem.inc.transactions, elem.und, queue, best.feerate);
      return queue, best, imp, iterationsLeft;
    }
    var select := elem.und * g.Anc(First(elem.und));
    assert First(elem.und) in select;
    var split := ChooseSplit(g, elem.und, select);
    queue', best', imp' := SplitOn(g, todo, queue, best, imp, elem, split);
    left := iterationsLeft - 1;
  }

  /** The checks at the start of `split_fn`. */
  method Prune(g: Graph, todo: set<nat>, best: SetInfo, imp: set<nat>, elem: WorkItem) returns (pruned: bool)
    requires g.Valid() && Sorted(g) && todo <= g.used && BestOk(g, todo, best)
    requires imp == Improving(g, todo, best.feerate) && ItemOk(g, todo, elem, best.feerate)
    ensures pruned ==> Hopeless(g, todo, elem.inc.transactions, elem.und, best.feerate)
  {
    AggSize(g.Rates(), best.transactions);
    AggSize(g.Rates(), elem.inc.transactions);
    var first := First(elem.und);
    if !elem.inc.feerate.IsEmpty() {
      if elem.und !! imp {
        NoImproving(g, todo, elem, best.feerate);
        return true;
      }
      if !elem.potFeerate.Better(best.feerate) {
        NoPotential(g, todo, elem, best.feerate);
        return true;
      }
    } else {
      if !g.entries[first].feerate.Better(best.feerate) {
        NoFirst(g, todo, elem.und, best.feerate);
        return true;
      }
    }
    pruned := false;
  }

  /** The two work items of a split. */
  method SplitOn(
    g: Graph, todo: set<nat>, queue: seq<WorkItem>, best: SetInfo, imp: set<nat>, elem: WorkItem, split: nat)
    returns (queue': seq<WorkItem>, best': SetInfo, imp': set<nat>)
    requires Searching(g, todo, queue, best, imp) && ChoiceOk(g, todo, elem.inc, elem.und) && split in elem.und
    ensures Searching(g, todo, queue', best', imp')
    ensures SplitInto(queue, queue', elem.und) && best'.feerate.AtLeast(best.feerate)
    ensures ChoiceCovered(g, todo, elem.inc.transactions, elem.und, queue', best'.feerate)
  {
    var desc := g.Des(split);
    ExcludeOk(g, todo, elem.inc, elem.und, split);
    var q1, b1, i1 := AddItem(g, todo, queue, best, imp, elem.inc, elem.und - desc);
    var anc := g.Anc(split) * todo;
    IncludeOk(g, todo, elem.inc, elem.und, split);
    var more := g.FeeRate(anc - elem.inc.transactions);
    var with := SetInfo(elem.inc.transactions + anc, elem.inc.feerate.Plus(more));
    queue', best', imp' := AddItem(g, todo, q1, b1, i1, with, elem.und - anc);
    BestSizes(g, todo, best, b1, best');
    ChoiceCoveredGrows(g, todo, elem.inc.transactions, elem.und - desc, q1, b1.feerate, queue', best'.feerate);
    SplitCovers(g, todo, elem.inc.transactions, elem.und, split, queue', best'.feerate);
  }

  /** "At least as good" composes over the candidates found. */
  lemma {:induction false} BestSizes(g: Graph, todo: set<nat>, a: SetInfo, b: SetInfo, c: SetInfo)
    requires g.AllSized() && todo <= g.used && BestOk(g, todo, a) && BestOk(g, todo, b) && BestOk(g, todo, c)
    requires b.feerate.AtLeast(a.feerate) && c.feerate.AtLeast(b.feerate)
    ensures 0 < a.feerate.size && 0 < b.feerate.size && 0 < c.feerate.size
    ensures c.feerate.AtLeast(a.feerate)
  {
    AggSize(g.Rates(), a.transactions);
    AggSize(g.Rates(), b.transactions);
    AggSize(g.Rates(), c.transactions);
    AtLeastTransitive(a.feerate, b.feerate, c.feerate);
  }

  lemma {:induction false} AtLeastTransitive(a: FeeFrac, b: FeeFrac, c: FeeFrac)
    requires 0 < a.size && 0 < b.size && 0 < c.size
    requires b.AtLeast(a) && c.AtLeast(b)
    ensures c.AtLeast(a)
  {
    CrossTransitive(c, b, a);
  }

  // ----- how much is undecided

  /** The ways to add some of the undecided transactions. */
  function Choices(und: set<nat>): nat {
    Numbers.PowPositive(2, |und|);
    Numbers.Pow(2, |und|) - 1
  }

  /** What the work items leave undecided: every split uses up some of it. */
  ghost function Undecided(queue: seq<WorkItem>): nat {
    if queue == [] then 0 else Undecided(queue[..|queue| - 1]) + Choices(queue[|queue| - 1].und)
  }

  lemma {:induction false} UndecidedConcat(a: seq<WorkItem>, b: seq<WorkItem>)
    ensures Undecided(a + b) == Undecided(a) + Undecided(b)
  {
    if b == [] {
      assert a + b == a;
    } else {
      var n := |b| - 1;
      UndecidedConcat(a, b[..n]);
      assert (a + b)[..|a + b| - 1] == a + b[..n];
    }
  }

  lemma {:induction false} UndecidedOne(item: WorkItem)
    ensures Undecided([item]) == Choices(item.und)
  {
    assert [item][..0] == [];
  }

  /** Excluding or including one transaction leaves at most half the choices. */
  lemma {:induction false} HalfChoices(less: set<nat>, und: set<nat>)
    requires less < und
    ensures 2 * Choices(less) + 1 <= Choices(und)
  {
    CardLess(less, und);
    Numbers.PowMonotone(2, |less|, |und| - 1);
  }

  lemma {:induction false} SomeChoice(und: set<nat>)
    requires und != {}
    ensures 1 <= Choices(und)
  {
    HalfChoices({}, und);
  }

  /** A split leaves less undecided. */
  lemma {:induction false} SplitDecides(queue: seq<WorkItem>, longer: seq<WorkItem>, und: set<nat>)
    requires SplitInto(queue, longer, und) && und != {}
    ensures Undecided(longer) + 1 <= Undecided(queue) + Choices(und)
  {
    var more := longer[|queue|..];
    assert longer == queue + more;
    UndecidedConcat(queue, more);
    SomeChoice(und);
    if more != [] {
      var rest := more[1..];
      assert more == [more[0]] + rest && more[0] == longer[|queue|];
      UndecidedConcat([more[0]], rest);
      UndecidedOne(more[0]);
      HalfChoices(more[0].und, und);
      if rest != [] {
        assert rest == [longer[|queue| + 1]];
        UndecidedOne(rest[0]);
        HalfChoices(rest[0].und, und);
      }
    }
  }

  lemma {:induction false} TakenUndecided(queue: seq<WorkItem>, elem: WorkItem, rest: seq<WorkItem>)
    requires TakenOff(queue, elem, rest)
    ensures Undecided(queue) == Undecided(rest) + Choices(elem.und)
  {
    UndecidedOne(elem);
    if queue == rest + [elem] {
      UndecidedConcat(rest, [elem]);
    } else {
      UndecidedConcat([elem], rest);
    }
  }

  lemma {:induction false} SwapUndecided(queue: seq<WorkItem>)
    requires 2 <= |queue|
    ensures Undecided(Swapped(queue)) == Undecided(queue)
  {
    var a, b, rest := queue[0], queue[1], queue[2..];
    assert queue == [a] + ([b] + rest) && Swapped(queue) == [b] + ([a] + rest);
    UndecidedConcat([a], [b] + rest);
    UndecidedConcat([b], [a] + rest);
    UndecidedConcat([b], rest);
    UndecidedConcat([a], rest);
  }

  // ----- the queue

  /** Item `i` fits in the reserved space even if it is split depth-first from there. */
  ghost predicate QueueFits(queue: seq<WorkItem>, capacity: nat) {
    forall i :: 0 <= i < |queue| ==> i + |queue[i].und| <= capacity
  }

  lemma {:induction false} SplitIntoFits(queue: seq<WorkItem>, longer: seq<WorkItem>, und: set<nat>, capacity: nat)
    requires QueueFits(queue, capacity) && SplitInto(queue, longer, und) && |queue| + |und| <= capacity
    ensures QueueFits(longer, capacity)
  {
    forall i | 0 <= i < |longer| ensures i + |longer[i].und| <= capacity {
      if |queue| <= i {
        CardLess(longer[i].und, und);
      } else {
        assert longer[i] == queue[i];
      }
    }
  }

  /** `elem` is taken off the front or the back of the queue, leaving `rest`. */
  ghost predicate TakenOff(queue: seq<WorkItem>, elem: WorkItem, rest: seq<WorkItem>) {
    queue == rest + [elem] || queue == [elem] + rest
  }

  lemma {:induction false} BackOff(queue: seq<WorkItem>)
    requires queue != []
    ensures TakenOff(queue, queue[|queue| - 1], queue[..|queue| - 1])
  {
    assert queue == queue[..|queue| - 1] + [queue[|queue| - 1]];
  }

  lemma {:induction false} FrontOff(queue: seq<WorkItem>)
    requires queue != []
    ensures TakenOff(queue, queue[0], queue[1..])
  {
    assert queue == [queue[0]] + queue[1..];
  }

  /** After an item is taken off and split, everything better is still covered. */
  lemma {:induction false} PopCovers(
    g: Graph, todo: set<nat>, queue: seq<WorkItem>, best: FeeFrac, elem: WorkItem, rest: seq<WorkItem>,
    longer: seq<WorkItem>, better: FeeFrac)
    requires g.AllSized() && todo <= g.used && 0 < best.size && 0 < better.size && better.AtLeast(best)
    requires CoversAll(g, todo, queue, best) && TakenOff(queue, elem, rest) && rest <= longer
    requires ChoiceCovered(g, todo, elem.inc.transactions, elem.und, longer, better)
    ensures CoversAll(g, todo, longer, better)
  {
    forall c | Candidate(g, todo, c) && Rate(g, c).Higher(better) ensures Covered(g, todo, longer, c) {
      AggSize(g.Rates(), c);
      BelowBetter(Rate(g, c), best, better);
      assert Covered(g, todo, queue, c);
      var k :| 0 <= k < |queue| && CoveredBy(g, todo, queue[k], c);
      var j := if queue == rest + [elem] then k else k - 1;
      if 0 <= j < |rest| {
        assert rest[j] == queue[k] && longer[j] == rest[j];
      } else {
        assert queue[k] == elem;
        ElemCovers(g, todo, elem, longer, better, c);
      }
    }
  }

  lemma {:induction false} ElemCovers(
    g: Graph, todo: set<nat>, elem: WorkItem, queue: seq<WorkItem>, best: FeeFrac, c: set<nat>)
    requires g.AllSized() && todo <= g.used && 0 < best.size
    requires Candidate(g, todo, c) && Rate(g, c).Higher(best) && CoveredBy(g, todo, elem, c)
    requires ChoiceCovered(g, todo, elem.inc.transactions, elem.und, queue, best)
    ensures Covered(g, todo, queue, c)
  {
    var d :| Fits(elem.inc.transactions, elem.und, d) && Candidate(g, todo, d) && !Rate(g, d).Lower(Rate(g, c));
    AggSize(g.Rates(), c);
    AggSize(g.Rates(), d);
    CrossTransitive(Rate(g, d), Rate(g, c), best);
    assert Covered(g, todo, queue, d);
    var k :| 0 <= k < |queue| && CoveredBy(g, todo, queue[k], d);
    var e :| Fits(queue[k].inc.transactions, queue[k].und, e) && Candidate(g, todo, e) && !Rate(g, e).Lower(Rate(g, d));
    AggSize(g.Rates(), e);
    CrossTransitive(Rate(g, e), Rate(g, d), Rate(g, c));
    assert CoveredBy(g, todo, queue[k], c);
  }

  // ----- the work processing loop

  /** No candidate has a higher feerate. */
  ghost predicate Optimal(g: Graph, todo: set<nat>, best: FeeFrac) {
    forall c {:trigger Candidate(g, todo, c)} :: Candidate(g, todo, c) ==> !Rate(g, c).Higher(best)
  }

  function Capacity(todo: set<nat>): nat {
    if 256 < 2 * |todo| then 2 * |todo| else 256
  }

  ghost predicate Running(
    g: Graph, todo: set<nat>, queue: seq<WorkItem>, best: SetInfo, imp: set<nat>, start: SetInfo)
  {
    && Searching(g, todo, queue, best, imp) && BestOk(g, todo, start)
    && CoversAll(g, todo, queue, best.feerate) && QueueFits(queue, Capacity(todo))
    && best.feerate.AtLeast(start.feerate)
  }

  lemma {:induction false} RestIndex(queue: seq<WorkItem>, elem: WorkItem, rest: seq<WorkItem>) returns (off: nat)
    requires TakenOff(queue, elem, rest)
    ensures |queue| == |rest| + 1 && off <= 1
    ensures forall k :: 0 <= k < |rest| ==> rest[k] == queue[k + off]
    ensures elem == queue[if off == 0 then |rest| else 0]
  {
    off := if queue == rest + [elem] then 0 else 1;
  }

  lemma {:induction false} RestOk(
    g: Graph, todo: set<nat>, queue: seq<WorkItem>, best: FeeFrac, elem: WorkItem, rest: seq<WorkItem>)
    requires TakenOff(queue, elem, rest) && ItemsOk(g, todo, queue, best) && QueueFits(queue, Capacity(todo))
    ensures ItemsOk(g, todo, rest, best) && QueueFits(rest, Capacity(todo)) && ItemOk(g, todo, elem, best)
  {
    var off := RestIndex(queue, elem, rest);
  }

  /** Take `elem` off the queue, leaving `rest`, and split it. */
  method Process(
    g: Graph, todo: set<nat>, ghost queue: seq<WorkItem>, best: SetInfo, imp: set<nat>, ghost start: SetInfo,
    elem: WorkItem, rest: seq<WorkItem>, iterationsLeft: nat)
    returns (queue': seq<WorkItem>, best': SetInfo, imp': set<nat>, left: nat)
    requires Running(g, todo, queue, best, imp, start) && 0 < iterationsLeft
    requires TakenOff(queue, elem, rest) && |rest| + |elem.und| <= Capacity(todo)
    ensures Running(g, todo, queue', best', imp', start)
    ensures left < iterationsLeft || (left == iterationsLeft && queue' == rest)
    ensures rest <= queue' && Undecided(queue') + (iterationsLeft - left) <= Undecided(queue)
  {
    RestOk(g, todo, queue, best.feerate, elem, rest);
    queue', best', imp', left := SplitItem(g, todo, rest, best, imp, elem, iterationsLeft);
    BestSizes(g, todo, start, best, best');
    PopCovers(g, todo, queue, best.feerate, elem, rest, queue', best'.feerate);
    SplitIntoFits(rest, queue', elem.und, Capacity(todo));
    TakenUndecided(queue, elem, rest);
    SplitDecides(rest, queue', elem.und);
  }

  lemma {:induction false} UndFits(g: Graph, todo: set<nat>, queue: seq<WorkItem>, best: FeeFrac, k: nat)
    requires ItemsOk(g, todo, queue, best) && k < |queue|
    ensures |queue[k].und| <= |todo| && 1 + |queue[k].und| <= Capacity(todo)
  {
    CardLe(queue[k].und, todo);
  }

  function Swapped(queue: seq<WorkItem>): seq<WorkItem>
    requires 2 <= |queue|
  {
    queue[0 := queue[1]][1 := queue[0]]
  }

  /** Swapping the first two items changes nothing that matters. */
  lemma {:induction false} SwapFront(
    g: Graph, todo: set<nat>, queue: seq<WorkItem>, best: SetInfo, imp: set<nat>, start: SetInfo)
    requires Running(g, todo, queue, best, imp, start) && 2 <= |queue|
    ensures Running(g, todo, Swapped(queue), best, imp, start)
  {
    UndFits(g, todo, queue, best.feerate, 0);
    SwapCovers(g, todo, queue, best.feerate);
    SwapItemsOk(g, todo, queue, best.feerate);
    SwapFits(queue, Capacity(todo));
  }

  lemma {:induction false} SwapFits(queue: seq<WorkItem>, capacity: nat)
    requires 2 <= |queue| && QueueFits(queue, capacity) && 1 + |queue[0].und| <= capacity
    ensures QueueFits(Swapped(queue), capacity)
  {
  }

  lemma {:induction false} SwapItemsOk(g: Graph, todo: set<nat>, queue: seq<WorkItem>, best: FeeFrac)
    requires 2 <= |queue| && ItemsOk(g, todo, queue, best)
    ensures ItemsOk(g, todo, Swapped(queue), best)
  {
    var q := Swapped(queue);
    forall k | 0 <= k < |q| ensures ItemOk(g, todo, q[k], best) {
      assert q[k] == queue[if k == 0 then 1 else if k == 1 then 0 else k];
    }
  }

  lemma {:induction false} SwapCovers(g: Graph, todo: set<nat>, queue: seq<WorkItem>, best: FeeFrac)
    requires 2 <= |queue| && CoversAll(g, todo, queue, best)
    ensures CoversAll(g, todo, Swapped(queue), best)
  {
    forall c | Candidate(g, todo, c) && Rate(g, c).Higher(best) ensures Covered(g, todo, Swapped(queue), c) {
      assert Covered(g, todo, queue, c);
      var k :| 0 <= k < |queue| && CoveredBy(g, todo, queue[k], c);
      assert Swapped(queue)[if k == 0 then 1 else if k == 1 then 0 else k] == queue[k];
    }
  }

  /** Depth-first exploration from the back while the queue could outgrow its space. */
  method DepthFirst(
    g: Graph, todo: set<nat>, queue: seq<WorkItem>, best: SetInfo, imp: set<nat>, ghost start: SetInfo, iterationsLeft: nat)
    returns (queue': seq<WorkItem>, best': SetInfo, imp': set<nat>, left: nat)
    requires Running(g, todo, queue, best, imp, start) && queue != []
    ensures Running(g, todo, queue', best', imp', start) && queue' != []
    ensures left < iterationsLeft || (left == iterationsLeft && |queue'| <= |queue|)
    ensures Undecided(queue') + (iterationsLeft - left) <= Undecided(queue)
    ensures left == 0 || |queue'| - 1 + |queue'[0].und| <= Capacity(todo)
  {
    queue', best', imp', left := queue, best, imp, iterationsLeft;
    while |queue'| - 1 + |queue'[0].und| > Capacity(todo)
      invariant Running(g, todo, queue', best', imp', start) && queue' != []
      invariant left < iterationsLeft || (left == iterationsLeft && |queue'| <= |queue|)
      invariant Undecided(queue') + (iterationsLeft - left) <= Undecided(queue)
      decreases left, |queue'|
    {
      if left == 0 {
        break;
      }
      UndFits(g, todo, queue', best'.feerate, 0);
      var n := |queue'| - 1;
      var elem, rest := queue'[n], queue'[..n];
      BackOff(queue');
      queue', best', imp', left := Process(g, todo, queue', best', imp', start, elem, rest, left);
    }
  }

  /** One turn of the work processing loop; `stop` when the iterations have run out. */
  method Turn(
    g: Graph, todo: set<nat>, queue: seq<WorkItem>, best: SetInfo, imp: set<nat>, ghost start: SetInfo, iterationsLeft: nat)
    returns (queue': seq<WorkItem>, best': SetInfo, imp': set<nat>, left: nat, stop: bool)
    requires Running(g, todo, queue, best, imp, start) && queue != []
    ensures Running(g, todo, queue', best', imp', start)
    ensures left <= iterationsLeft && Undecided(queue') + (iterationsLeft - left) <= Undecided(queue)
    ensures if stop then left == 0 else left < iterationsLeft || |queue'| < |queue|
  {
    queue' := queue;
    var coin: bool := *;
    if 1 < |queue'| && coin {
      SwapFront(g, todo, queue', best, imp, start);
      SwapUndecided(queue');
      queue' := Swapped(queue');
    }
    queue', best', imp', left := DepthFirst(g, todo, queue', best, imp, start, iterationsLeft);
    if left == 0 {
      return queue', best', imp', left, true;
    }
    var elem, rest := queue'[0], queue'[1..];
    FrontOff(queue');
    queue', best', imp', left := Process(g, todo, queue', best', imp', start, elem, rest, left);
    stop := false;
  }

  /** The work processing loop of `FindCandidateSet`. */
  method SearchLoop(
    g: Graph, todo: set<nat>, queue0: seq<WorkItem>, best0: SetInfo, imp0: set<nat>, maxIterations: nat)
    returns (best: SetInfo, iterations: nat, ghost open: seq<WorkItem>)
    requires Running(g, todo, queue0, best0, imp0, best0)
    ensures BestOk(g, todo, best) && best.feerate.AtLeast(best0.feerate)
    ensures iterations <= maxIterations && Undecided(open) + iterations <= Undecided(queue0)
    ensures ItemsOk(g, todo, open, best.feerate) && CoversAll(g, todo, open, best.feerate)
    ensures iterations < maxIterations ==> open == [] && Optimal(g, todo, best.feerate)
  {
    var queue, imp := queue0, imp0;
    var iterationsLeft: nat := maxIterations;
    best := best0;
    while queue != []
      invariant Running(g, todo, queue, best, imp, best0)
      invariant iterationsLeft <= maxIterations
      invariant Undecided(queue) + (maxIterations - iterationsLeft) <= Undecided(queue0)
      decreases iterationsLeft, |queue|
    {
      var stop;
      queue, best, imp, iterationsLeft, stop := Turn(g, todo, queue, best, imp, best0, iterationsLeft);
      if stop {
        break;
      }
    }
    iterations, open := maxIterations - iterationsLeft, queue;
    if 0 < iterationsLeft {
      NothingLeft(g, todo, queue, best.feerate);
    }
  }

  lemma {:induction false} NothingLeft(g: Graph, todo: set<nat>, queue: seq<WorkItem>, best: FeeFrac)
    requires queue == [] && CoversAll(g, todo, queue, best)
    ensures Optimal(g, todo, best)
  {
    forall c | Candidate(g, todo, c) ensures !Rate(g, c).Higher(best) {
      assert !Covered(g, todo, queue, c);
    }
  }

  // ----- initial items, one per connected component

  ghost function UndTo(queue: seq<WorkItem>, n: nat): set<nat>
    requires n <= |queue|
  {
    if n == 0 then {} else UndTo(queue, n - 1) + queue[n - 1].und
  }

  /** One item per component found so far, each a union of whole connected components. */
  ghost predicate Components(g: Graph, todo: set<nat>, queue: seq<WorkItem>) {
    forall k {:trigger ComponentAt(g, todo, queue, k)} :: 0 <= k < |queue| ==> ComponentAt(g, todo, queue, k)
  }

  ghost predicate ComponentAt(g: Graph, todo: set<nat>, queue: seq<WorkItem>, k: nat)
    requires k < |queue|
  {
    && queue[k].inc == SetInfo({}, EMPTY) && queue[k].und != {} && g.Saturated(queue[k].und, todo)
    && queue[k].und !! UndTo(queue, k)
  }

  lemma {:induction false} UndToPrefix(queue: seq<WorkItem>, longer: seq<WorkItem>, n: nat)
    requires n <= |queue| && queue <= longer
    ensures UndTo(queue, n) == UndTo(longer, n)
  {
    if 0 < n {
      UndToPrefix(queue, longer, n - 1);
    }
  }

  /** A component of what is left to cover is saturated in all of `todo`. */
  lemma {:induction false} ComponentSaturated(g: Graph, todo: set<nat>, toCover: set<nat>, k: set<nat>)
    requires g.Valid() && toCover <= todo <= g.used
    requires g.Saturated(todo - toCover, todo) && g.Saturated(k, toCover)
    ensures g.Saturated(k, todo) && g.Saturated(todo - (toCover - k), todo)
  {
    forall x, y | x in k && y in todo && (y in g.Anc(x) || y in g.Des(x)) ensures y in k {
      assert x in g.Anc(y) || x in g.Des(y);
      assert y !in todo - toCover;
    }
    assert todo - (toCover - k) == (todo - toCover) + k;
  }

  lemma {:induction false} SaturatedClosed(g: Graph, todo: set<nat>, k: set<nat>, c: set<nat>)
    requires g.Saturated(k, todo) && g.Closed(c, todo)
    ensures g.Closed(c * k, todo)
  {
  }

  lemma {:induction false} PushComponent(g: Graph, todo: set<nat>, queue: seq<WorkItem>, k: set<nat>)
    requires Components(g, todo, queue) && g.Saturated(k, todo) && k != {} && k !! UndTo(queue, |queue|)
    ensures var longer := queue + [WorkItem(SetInfo({}, EMPTY), k, EMPTY)];
      Components(g, todo, longer) && UndTo(longer, |longer|) == UndTo(queue, |queue|) + k
  {
    var longer := queue + [WorkItem(SetInfo({}, EMPTY), k, EMPTY)];
    forall i | 0 <= i < |longer| ensures ComponentAt(g, todo, longer, i) {
      UndToPrefix(queue, longer, i);
      if i < |queue| {
        assert ComponentAt(g, todo, queue, i);
      }
    }
    UndToPrefix(queue, longer, |queue|);
  }

  /** If the parts of `c` in the first components have no negative sum, one of them is not negative. */
  lemma {:induction false} BestPart(w: seq<int>, g: Graph, todo: set<nat>, queue: seq<WorkItem>, c: set<nat>, n: nat)
    returns (k: nat)
    requires n <= |queue| && Components(g, todo, queue)
    requires c * UndTo(queue, n) != {} && Sum(w, c * UndTo(queue, n)) >= 0
    ensures k < n && c * queue[k].und != {} && Sum(w, c * queue[k].und) >= 0
  {
    var part, before := c * queue[n - 1].und, c * UndTo(queue, n - 1);
    assert ComponentAt(g, todo, queue, n - 1);
    assert c * UndTo(queue, n) == before + part;
    SumUnion(w, before, part);
    SumEmpty(w);
    if part != {} && Sum(w, part) >= 0 {
      k := n - 1;
    } else {
      k := BestPart(w, g, todo, queue, c, n - 1);
    }
  }

  /** Splitting a candidate over components leaves a part at least as good. */
  lemma {:induction false} ComponentsCover(g: Graph, todo: set<nat>, queue: seq<WorkItem>, c: set<nat>)
    requires g.AllSized() && todo <= g.used && Components(g, todo, queue)
    requires UndTo(queue, |queue|) == todo && Candidate(g, todo, c)
    ensures Covered(g, todo, queue, c)
  {
    var r := Rate(g, c);
    var w := Weights(g.Rates(), r.fee, r.size);
    assert c * todo == c;
    SumWeights(g.Rates(), r.fee, r.size, c);
    NegAbove(r, r);
    CrossPlus(r, r, r);
    var k := BestPart(w, g, todo, queue, c, |queue|);
    var d := c * queue[k].und;
    assert ComponentAt(g, todo, queue, k);
    SumWeights(g.Rates(), r.fee, r.size, d);
    NegAbove(Rate(g, d), r);
    SaturatedClosed(g, todo, queue[k].und, c);
    assert Fits(queue[k].inc.transactions, queue[k].und, d);
    assert CoveredBy(g, todo, queue[k], c);
  }

  lemma {:induction false} CardUnion(a: set<nat>, b: set<nat>)
    requires a !! b
    ensures |a + b| == |a| + |b|
    ensures b != {} ==> 1 <= |b|
  {
  }

  lemma {:induction false} ComponentsCard(g: Graph, todo: set<nat>, queue: seq<WorkItem>, n: nat)
    requires Components(g, todo, queue) && n <= |queue|
    ensures n <= |UndTo(queue, n)| && UndTo(queue, n) <= todo
  {
    if 0 < n {
      ComponentsCard(g, todo, queue, n - 1);
      assert ComponentAt(g, todo, queue, n - 1);
      CardUnion(UndTo(queue, n - 1), queue[n - 1].und);
    }
  }

  lemma {:induction false} ComponentsFit(g: Graph, todo: set<nat>, queue: seq<WorkItem>)
    requires Components(g, todo, queue)
    ensures QueueFits(queue, Capacity(todo))
  {
    forall i | 0 <= i < |queue| ensures i + |queue[i].und| <= Capacity(todo) {
      ComponentsCard(g, todo, queue, i);
      ComponentsCard(g, todo, queue, i + 1);
      assert ComponentAt(g, todo, queue, i);
      CardUnion(UndTo(queue, i), queue[i].und);
      CardLe(UndTo(queue, i + 1), todo);
    }
  }

  lemma {:induction false} JointChoices(a: set<nat>, b: set<nat>)
    requires a !! b
    ensures Choices(a) + Choices(b) <= Choices(a + b)
  {
    CardUnion(a, b);
    Numbers.PowAdd(2, |a|, |b|);
    ProductAtLeast(Choices(a), Choices(b));
  }

  lemma {:induction false} ProductAtLeast(x: nat, y: nat)
    ensures x + y <= (x + 1) * (y + 1) - 1
  {
  }

  /** The initial items leave no more undecided than one item with everything would. */
  lemma {:induction false} ComponentsUndecided(g: Graph, todo: set<nat>, queue: seq<WorkItem>, n: nat)
    requires Components(g, todo, queue) && n <= |queue|
    ensures Undecided(queue[..n]) <= Choices(UndTo(queue, n))
  {
    if 0 < n {
      ComponentsUndecided(g, todo, queue, n - 1);
      assert ComponentAt(g, todo, queue, n - 1);
      assert queue[..n][..n - 1] == queue[..n - 1];
      JointChoices(UndTo(queue, n - 1), queue[n - 1].und);
    }
  }

  lemma {:induction false} ComponentsOk(g: Graph, todo: set<nat>, queue: seq<WorkItem>, best: FeeFrac)
    requires todo <= g.used && Components(g, todo, queue)
    ensures ItemsOk(g, todo, queue, best)
  {
    AggEmpty(g.Rates());
    forall k | 0 <= k < |queue| ensures ItemOk(g, todo, queue[k], best) {
      assert ComponentAt(g, todo, queue, k);
      assert {} + queue[k].und == queue[k].und;
    }
  }

  lemma {:induction false} FirstComponent(g: Graph, todo: set<nat>, best: SetInfo)
    requires g.AllSized() && todo <= g.used && Accurate(g, best)
    requires g.Saturated(best.transactions, todo) && best.transactions != {}
    ensures BestOk(g, todo, best) && !best.feerate.IsEmpty()
  {
    AggSize(g.Rates(), best.transactions);
  }

  /** The start of `FindCandidateSet`: one work item per connected component. */
  method InitialItems(g: Graph, todo: set<nat>, best0: SetInfo) returns (queue: seq<WorkItem>, best: SetInfo)
    requires g.Valid() && Sorted(g) && todo <= g.used && todo != {}
    requires best0 == SetInfo({}, EMPTY) || BestOk(g, todo, best0)
    ensures Components(g, todo, queue) && UndTo(queue, |queue|) == todo
    ensures BestOk(g, todo, best) && (best0.transactions != {} ==> best == best0)
  {
    queue, best := [], best0;
    AggSize(g.Rates(), best0.transactions);
    var toCover := todo;
    assert todo - toCover == {};
    while toCover != {}
      invariant toCover <= todo && Components(g, todo, queue)
      invariant UndTo(queue, |queue|) == todo - toCover && g.Saturated(todo - toCover, todo)
      invariant if best.feerate.IsEmpty() then best0.transactions == {} && toCover == todo else BestOk(g, todo, best)
      invariant best0.transactions != {} ==> best == best0
      decreases toCover
    {
      var component := g.FindConnectedComponent(toCover);
      ComponentSaturated(g, todo, toCover, component);
      if best.feerate.IsEmpty() {
        var rate := g.FeeRate(component);
        best := SetInfo(component, rate);
        FirstComponent(g, todo, best);
      }
      PushComponent(g, todo, queue, component);
      toCover := toCover - component;
      queue := queue + [WorkItem(SetInfo({}, EMPTY), component, EMPTY)];
    }
    assert todo - toCover == todo;
  }

  /** What a search of `iterations` splits has left open: everything better than `best` is still in the
      items of `open`, and of the choices among `todo` each split has decided at least one. */
  ghost predicate Explored(g: Graph, todo: set<nat>, best: FeeFrac, iterations: nat, open: seq<WorkItem>) {
    && ItemsOk(g, todo, open, best) && CoversAll(g, todo, open, best)
    && Undecided(open) + iterations < Numbers.Pow(2, |todo|)
  }

  /** `FindCandidateSet` on the sorted graph: fewer than 2^|todo| splits, and optimal unless the budget ran out. */
  method FindCandidate(g: Graph, todo: set<nat>, maxIterations: nat, best0: SetInfo)
    returns (best: SetInfo, iterations: nat, ghost open: seq<WorkItem>)
    requires g.Valid() && Sorted(g) && todo <= g.used && todo != {}
    requires best0 == SetInfo({}, EMPTY) || BestOk(g, todo, best0)
    ensures BestOk(g, todo, best)
    ensures best0.transactions != {} ==> best.feerate.AtLeast(best0.feerate)
    ensures iterations <= maxIterations
    ensures Explored(g, todo, best.feerate, iterations, open)
    ensures iterations < maxIterations ==> open == [] && Optimal(g, todo, best.feerate)
    ensures maxIterations >= Numbers.Pow(2, |todo|) ==> iterations < maxIterations
  {
    var queue, first := InitialItems(g, todo, best0);
    AggSize(g.Rates(), first.transactions);
    var imp := ShrinkImp(g, todo, todo, first.feerate);
    StartRunning(g, todo, queue, first, imp);
    ComponentsUndecided(g, todo, queue, |queue|);
    assert queue[..|queue|] == queue;
    best, iterations, open := SearchLoop(g, todo, queue, first, imp, maxIterations);
  }

  lemma {:induction false} StartRunning(g: Graph, todo: set<nat>, queue: seq<WorkItem>, best: SetInfo, imp: set<nat>)
    requires g.Valid() && Sorted(g) && todo <= g.used && Components(g, todo, queue) && UndTo(queue, |queue|) == todo
    requires BestOk(g, todo, best) && imp == Improving(g, todo, best.feerate)
    ensures Running(g, todo, queue, best, imp, best)
  {
    ComponentsOk(g, todo, queue, best.feerate);
    ComponentsFit(g, todo, queue);
    CrossPlus(best.feerate, best.feerate, best.feerate);
    forall c | Candidate(g, todo, c) && Rate(g, c).Higher(best.feerate) ensures Covered(g, todo, queue, c) {
      ComponentsCover(g, todo, queue, c);
    }
  }
}
