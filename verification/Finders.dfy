/**
 `AncestorCandidateFinder` and `SearchCandidateFinder` (`cluster_linearize.h`): the
 objects that hold what remains of a cluster and hand out candidate sets.
*/
module Finders {
  import opened FeeFracs
  import opened Orders
  import opened BitSets
  import opened Sums
  import opened DepGraphs
  import opened Chunking
  import opened Search
  import Numbers

  // ----- the best remaining ancestor set

  /** `rates[i]` is the feerate of what `left` holds of the ancestors of `i`. */
  ghost predicate AncestorRates(g: Graph, rates: seq<FeeFrac>, of: set<nat>, left: set<nat>) {
    |rates| == |g.entries| && forall i :: i in of ==> i < |rates| && rates[i] == Rate(g, g.Anc(i) * left)
  }

  /** Every member of `a` precedes every member of `b`. */
  ghost predicate Before(a: set<nat>, b: set<nat>) {
    forall i, j :: i in a && j in b ==> i < j
  }

  lemma {:induction false} LeastMoves(all: set<nat>, rest: set<nat>, i: nat)
    requires rest <= all && i in rest && (forall j :: j in rest ==> i <= j) && Before(all - rest, rest)
    ensures Before(all - (rest - {i}), rest - {i}) && all - (rest - {i}) == all - rest + {i}
  {
    forall a, b | a in all - (rest - {i}) && b in rest - {i} ensures a < b {
      if a != i {
        assert a in all - rest;
      }
    }
  }

  class AncestorCandidateFinder {
    const depgraph: Graph
    var todo: set<nat>
    var ancestorSetFeerates: seq<FeeFrac>

    ghost predicate Valid()
      reads this
    {
      && depgraph.Valid() && depgraph.AllSized() && todo <= depgraph.used
      && AncestorRates(depgraph, ancestorSetFeerates, todo, todo)
    }

    constructor (g: Graph)
      requires g.Valid() && g.Acyclic() && g.AllSized()
      ensures Valid() && depgraph == g && todo == g.used
    {
      depgraph := g;
      todo := g.used;
      ancestorSetFeerates := seq(|g.entries|, _ => EMPTY);
      new;
      var rest := g.used;
      assert g.used - rest == {};
      while rest != {}
        invariant rest <= g.used && todo == g.used
        invariant Before(g.used - rest, rest)
        invariant AncestorRates(g, ancestorSetFeerates, g.used - rest, g.used)
        decreases |rest|
      {
        var i := First(rest);
        var rate := AncestorSetRate(i, rest);
        ancestorSetFeerates := ancestorSetFeerates[i := rate];
        LeastMoves(g.used, rest, i);
        rest := rest - {i};
      }
    }

    /** Loop body of the constructor: reuse the feerate of the first ancestor if it is known. */
    method AncestorSetRate(i: nat, ghost rest: set<nat>) returns (rate: FeeFrac)
      requires depgraph.Valid() && depgraph.Acyclic() && rest <= depgraph.used && i in rest
      requires forall j :: j in rest ==> i <= j
      requires AncestorRates(depgraph, ancestorSetFeerates, depgraph.used - rest, depgraph.used)
      ensures rate == Rate(depgraph, depgraph.Anc(i) * depgraph.used)
    {
      var ancToAdd := depgraph.Anc(i);
      assert ancToAdd * depgraph.used == ancToAdd;
      rate := EMPTY;
      AggEmpty(depgraph.Rates());
      var first := First(ancToAdd);
      if first < i {
        rate := ancestorSetFeerates[first];
        var firstAnc := depgraph.Anc(first);
        assert first in depgraph.used - rest && firstAnc * depgraph.used == firstAnc;
        AggSplit(depgraph.Rates(), ancToAdd, firstAnc);
        assert ancToAdd * firstAnc == firstAnc;
        ancToAdd := ancToAdd - firstAnc;
      }
      var more := depgraph.FeeRate(ancToAdd);
      rate := rate.Plus(more);
    }

    /** Some transactions have been placed; the stored feerates follow. */
    method MarkDone(select: set<nat>)
      requires Valid() && select != {} && select <= todo
      modifies this
      ensures Valid() && todo == old(todo) - select
    {
      todo := todo - select;
      var rest := select;
      assert todo + rest == old(todo);
      while rest != {}
        invariant rest <= select && todo == old(todo) - select
        invariant AncestorRates(depgraph, ancestorSetFeerates, todo, todo + rest)
        decreases |rest|
      {
        var i := First(rest);
        Subtract(i, rest);
        rest := rest - {i};
      }
      assert todo + rest == todo;
    }

    /** Loop body of `MarkDone`: take `i` off the ancestor feerates of its descendants. */
    method Subtract(i: nat, ghost rest: set<nat>)
      requires depgraph.Valid() && todo + rest <= depgraph.used && i in rest && i !in todo
      requires AncestorRates(depgraph, ancestorSetFeerates, todo, todo + rest)
      modifies this`ancestorSetFeerates
      ensures AncestorRates(depgraph, ancestorSetFeerates, todo, todo + (rest - {i}))
    {
      var feerate := depgraph.entries[i].feerate;
      var change := depgraph.Des(i) * todo;
      var left := change;
      ghost var before := ancestorSetFeerates;
      while left != {}
        invariant left <= change && |ancestorSetFeerates| == |before|
        invariant forall j :: 0 <= j < |before| ==>
          ancestorSetFeerates[j] == if j in change - left then before[j].Minus(feerate) else before[j]
        decreases |left|
      {
        var j := First(left);
        ancestorSetFeerates := ancestorSetFeerates[j := ancestorSetFeerates[j].Minus(feerate)];
        left := left - {j};
      }
      SubtractedRates(depgraph, before, ancestorSetFeerates, todo, rest, i);
    }

    /** The best ancestor set among the remaining transactions. */
    method FindCandidateSet() returns (ret: SetInfo)
      requires Valid() && todo != {}
      ensures BestOk(depgraph, todo, ret)
      ensures exists i :: i in todo && ret.transactions == depgraph.Anc(i) * todo
      ensures forall i :: i in todo ==> !Rate(depgraph, depgraph.Anc(i) * todo).Better(ret.feerate)
    {
      var best := First(todo);
      var rest := todo - {best};
      BetterIrreflexive(ancestorSetFeerates[best]);
      while rest != {}
        invariant rest <= todo && best in todo
        invariant forall i :: i in todo - rest ==> !ancestorSetFeerates[i].Better(ancestorSetFeerates[best])
        decreases |rest|
      {
        var i := First(rest);
        if ancestorSetFeerates[i].Better(ancestorSetFeerates[best]) {
          NewMaximum(depgraph, ancestorSetFeerates, todo, rest, best, i);
          best := i;
        }
        rest := rest - {i};
      }
      AncestorsClosed(depgraph, best, todo);
      ret := SetInfo(depgraph.Anc(best) * todo, ancestorSetFeerates[best]);
    }
  }

  lemma {:induction false} BetterIrreflexive(a: FeeFrac)
    ensures !a.Better(a)
  {
    CrossPlus(a, a, a);
  }

  lemma {:induction false} BetterTransitive(a: FeeFrac, b: FeeFrac, c: FeeFrac)
    requires 0 < a.size && 0 < b.size && 0 < c.size && b.Better(a)
    ensures c.Better(b) ==> c.Better(a)
  {
    if c.Better(b) {
      CrossTransitive(c, b, a);
    }
  }

  lemma {:induction false} NewMaximum(
    g: Graph, rates: seq<FeeFrac>, todo: set<nat>, rest: set<nat>, best: nat, i: nat)
    requires g.Valid() && g.AllSized() && todo <= g.used && rest <= todo && AncestorRates(g, rates, todo, todo)
    requires best in todo && i in rest && rates[i].Better(rates[best])
    requires forall k :: k in todo - rest ==> !rates[k].Better(rates[best])
    ensures forall k :: k in todo - (rest - {i}) ==> !rates[k].Better(rates[i])
  {
    BetterIrreflexive(rates[i]);
    forall k | k in todo - rest ensures !rates[k].Better(rates[i]) {
      AncestorRateSized(g, rates, todo, best);
      AncestorRateSized(g, rates, todo, i);
      AncestorRateSized(g, rates, todo, k);
      BetterTransitive(rates[best], rates[i], rates[k]);
    }
  }

  lemma {:induction false} AncestorRateSized(g: Graph, rates: seq<FeeFrac>, todo: set<nat>, i: nat)
    requires g.Valid() && g.AllSized() && todo <= g.used && AncestorRates(g, rates, todo, todo) && i in todo
    ensures 0 < rates[i].size
  {
    assert i in g.Anc(i) * todo;
    AggSize(g.Rates(), g.Anc(i) * todo);
  }

  lemma {:induction false} SubtractedRates(
    g: Graph, before: seq<FeeFrac>, after: seq<FeeFrac>, todo: set<nat>, rest: set<nat>, i: nat)
    requires g.Valid() && todo + rest <= g.used && i in rest && i !in todo
    requires AncestorRates(g, before, todo, todo + rest) && |after| == |before|
    requires forall j :: 0 <= j < |before| ==>
      after[j] == if j in g.Des(i) * todo then before[j].Minus(g.entries[i].feerate) else before[j]
    ensures AncestorRates(g, after, todo, todo + (rest - {i}))
  {
    var fr := g.Rates();
    forall j | j in todo ensures after[j] == Rate(g, g.Anc(j) * (todo + (rest - {i}))) {
      var a, b := g.Anc(j) * (todo + rest), g.Anc(j) * (todo + (rest - {i}));
      if j in g.Des(i) {
        assert i in a && a == b + {i};
        AggUnion(fr, b, {i});
        AggSingle(fr, i);
      } else {
        assert a == b;
      }
    }
  }

  // ----- what carries over to the sorted copy

  lemma {:induction false} ImageRate(g: Graph, h: Graph, m: seq<nat>, s: set<nat>)
    requires SameTransactions(g, h, m) && s <= g.used
    ensures Rate(h, Image(m, s)) == Rate(g, s)
    decreases |s|
  {
    if s == {} {
      assert Image(m, s) == {};
      AggEmpty(g.Rates());
      AggEmpty(h.Rates());
    } else {
      var x :| x in s;
      var rest := s - {x};
      ImageRate(g, h, m, rest);
      assert Image(m, s) == Image(m, rest) + {m[x]};
      assert m[x] !in Image(m, rest);
      assert s == rest + {x};
      AggUnion(g.Rates(), rest, {x});
      AggUnion(h.Rates(), Image(m, rest), {m[x]});
      AggSingle(g.Rates(), x);
      AggSingle(h.Rates(), m[x]);
    }
  }

  lemma {:induction false} ImageClosed(g: Graph, h: Graph, m: seq<nat>, c: set<nat>, todo: set<nat>)
    requires Isomorphic(g, h, m) && c <= g.used && todo <= g.used
    ensures h.Closed(Image(m, c), Image(m, todo)) <==> g.Closed(c, todo)
  {
    if g.Closed(c, todo) {
      forall x | x in Image(m, c) ensures h.Anc(x) * Image(m, todo) <= Image(m, c) {
        var i :| i in c && i < |m| && m[i] == x;
        forall y | y in h.Anc(x) * Image(m, todo) ensures y in Image(m, c) {
          var j :| j in todo && j < |m| && m[j] == y;
          assert j in g.Anc(i) * todo;
        }
      }
    }
    if h.Closed(Image(m, c), Image(m, todo)) {
      ImageSubset(g, m, c, todo);
      forall i | i in c ensures g.Anc(i) * todo <= c {
        forall j | j in g.Anc(i) * todo ensures j in c {
          assert m[i] in Image(m, c) && m[j] in h.Anc(m[i]) * Image(m, todo);
          var k :| k in c && k < |m| && m[k] == m[j];
          assert k == j;
        }
      }
    }
  }

  lemma {:induction false} ImageSubset(g: Graph, m: seq<nat>, a: set<nat>, b: set<nat>)
    requires Injective(m, g.used) && a <= g.used && b <= g.used
    ensures Image(m, a) <= Image(m, b) <==> a <= b
  {
    if Image(m, a) <= Image(m, b) {
      forall i | i in a ensures i in b {
        assert m[i] in Image(m, a);
        var j :| j in b && j < |m| && m[j] == m[i];
      }
    }
  }

  /** `back` undoes `m` on the transactions of the graph. */
  ghost predicate Inverse(g: Graph, m: seq<nat>, back: seq<nat>) {
    && (forall i :: i in g.used ==> i < |m| && m[i] < |back| && back[m[i]] == i)
    && (forall k :: 0 <= k < |back| ==> back[k] in g.used && back[k] < |m| && m[back[k]] == k)
  }

  lemma {:induction false} InverseImage(g: Graph, m: seq<nat>, back: seq<nat>, s: set<nat>)
    requires Inverse(g, m, back) && s <= g.used
    ensures Image(back, Image(m, s)) == s
  {
    forall x | x in s ensures x in Image(back, Image(m, s)) {
      assert m[x] in Image(m, s);
    }
  }

  lemma {:induction false} InverseImageBack(g: Graph, m: seq<nat>, back: seq<nat>, s: set<nat>)
    requires Inverse(g, m, back) && s <= Image(m, g.used)
    ensures Image(back, s) <= g.used && Image(m, Image(back, s)) == s
  {
    forall k | k in s ensures k < |back| && k in Image(m, Image(back, s)) {
      var i :| i in g.used && i < |m| && m[i] == k;
      assert back[k] == i && i in Image(back, s);
    }
    forall k | k in Image(m, Image(back, s)) ensures k in s {
      var i :| i in Image(back, s) && i < |m| && m[i] == k;
      var j :| j in s && j < |back| && back[j] == i;
    }
  }

  // ----- the sorted order

  predicate RateLess(g: Graph, a: nat, b: nat)
    requires a < |g.entries| && b < |g.entries|
  {
    var x, y := g.entries[a].feerate, g.entries[b].feerate;
    if x.Cross(y) == 0 && x.size == y.size then a < b else x.Better(y)
  }

  lemma {:induction false} RateLessTotal(g: Graph, less: Less)
    requires g.AllSized()
    requires forall a, b :: a in g.used && b in g.used ==> less(a, b) == RateLess(g, a, b)
    ensures StrictTotal(less, g.used)
  {
    forall a, b | a in g.used && b in g.used && a != b ensures less(a, b) || less(b, a) {
      CrossPlus(g.Rates()[a], g.Rates()[b], g.Rates()[a]);
    }
    forall a, b, c | a in g.used && b in g.used && c in g.used && less(a, b) && less(b, c) ensures less(a, c) {
      RateLessTransitive(g, a, b, c);
    }
  }

  lemma {:induction false} RateLessTransitive(g: Graph, a: nat, b: nat, c: nat)
    requires g.AllSized() && a in g.used && b in g.used && c in g.used
    requires RateLess(g, a, b) && RateLess(g, b, c)
    ensures RateLess(g, a, c)
  {
    var x, y, z := g.Rates()[a], g.Rates()[b], g.Rates()[c];
    CrossPlus(x, y, z);
    CrossPlus(y, z, x);
    CrossPlus(z, x, y);
    CrossTransitive(x, y, z);
    if x.Cross(y) == 0 && y.Cross(z) == 0 {
      CrossTransitive(z, y, x);
    }
  }

  class SearchCandidateFinder {
    ghost const depgraph: Graph
    var sortedToOriginal: seq<nat>
    var originalToSorted: seq<nat>
    var sortedDepgraph: Graph
    /** Remaining transactions, in sorted positions. */
    var todo: set<nat>

    ghost predicate Valid()
      reads this
    {
      && depgraph.Valid() && depgraph.AllSized()
      && sortedDepgraph.Valid() && Sorted(sortedDepgraph)
      && Isomorphic(depgraph, sortedDepgraph, originalToSorted)
      && Inverse(depgraph, originalToSorted, sortedToOriginal)
      && todo <= sortedDepgraph.used
    }

    /** Remaining transactions, in original positions. */
    ghost function Left(): set<nat>
      reads this
    {
      Image(sortedToOriginal, todo)
    }

    constructor (g: Graph)
      requires g.Valid() && g.Acyclic() && g.AllSized()
      ensures Valid() && depgraph == g && Left() == g.used
    {
      var s2o := SortPositions(g);
      var o2s := ReverseMapping(g, s2o);
      GoodOrder(g, o2s, s2o);
      var copy := new DepGraph.FromMapping(g, o2s, |s2o|);
      depgraph := g;
      sortedToOriginal, originalToSorted := s2o, o2s;
      sortedDepgraph := copy.View();
      todo := copy.View().used;
      SortedCopy(g, copy.View(), o2s, s2o);
      InverseImage(g, o2s, s2o, g.used);
    }

    /** A high-feerate topologically valid subset of what remains. */
    method FindCandidateSet(maxIterations: nat, best: SetInfo)
      returns (ret: SetInfo, iterations: nat, ghost open: seq<WorkItem>)
      requires Valid() && todo != {}
      requires best == SetInfo({}, EMPTY) || BestOk(depgraph, Left(), best)
      ensures BestOk(depgraph, Left(), ret)
      ensures best.transactions != {} ==> ret.feerate.AtLeast(best.feerate)
      ensures iterations <= maxIterations
      ensures Explored(sortedDepgraph, todo, ret.feerate, iterations, open)
      ensures iterations < maxIterations ==> open == [] && Optimal(depgraph, Left(), ret.feerate)
      ensures maxIterations >= Numbers.Pow(2, |Left()|) ==> iterations < maxIterations
    {
      LeftImage();
      var inside := MapPositions(originalToSorted, best.transactions);
      ToSorted(depgraph, sortedDepgraph, originalToSorted, Left(), best);
      assert inside == {} <==> best.transactions == {};
      var found;
      ImageCard(depgraph, originalToSorted, Left());
      found, iterations, open := FindCandidate(sortedDepgraph, todo, maxIterations, SetInfo(inside, best.feerate));
      var outside := MapPositions(sortedToOriginal, found.transactions);
      ret := SetInfo(outside, found.feerate);
      InverseImageBack(depgraph, originalToSorted, sortedToOriginal, found.transactions);
      ToSorted(depgraph, sortedDepgraph, originalToSorted, Left(), ret);
      if iterations < maxIterations {
        OptimalBack(depgraph, sortedDepgraph, originalToSorted, Left(), ret.feerate);
      }
    }

    /** Some transactions have been placed, given by their original positions. */
    method MarkDone(done: set<nat>)
      requires Valid() && done <= Left()
      modifies this`todo
      ensures Valid() && Left() == old(Left()) - done
    {
      LeftImage();
      var doneSorted := MapPositions(originalToSorted, done);
      ghost var left := Left() - done;
      ImageMinus(depgraph, originalToSorted, Left(), done);
      todo := todo - doneSorted;
      InverseImage(depgraph, originalToSorted, sortedToOriginal, left);
    }

    lemma LeftImage()
      requires Valid()
      ensures Left() <= depgraph.used && Image(originalToSorted, Left()) == todo
      ensures Left() == {} <==> todo == {}
    {
      InverseImageBack(depgraph, originalToSorted, sortedToOriginal, todo);
    }
  }

  lemma {:induction false} ImageCard(g: Graph, m: seq<nat>, s: set<nat>)
    requires Injective(m, g.used) && s <= g.used
    ensures |Image(m, s)| == |s|
  {
    if s != {} {
      var x :| x in s;
      ImageMinus(g, m, s, {x});
      assert Image(m, {x}) == {m[x]};
      assert m[x] in Image(m, s);
      ImageCard(g, m, s - {x});
      assert |s| == |s - {x}| + 1 && |Image(m, s)| == |Image(m, s) - {m[x]}| + 1;
    }
  }

  lemma {:induction false} ImageMinus(g: Graph, m: seq<nat>, a: set<nat>, b: set<nat>)
    requires Injective(m, g.used) && a <= g.used && b <= a
    ensures Image(m, a - b) == Image(m, a) - Image(m, b)
  {
  }

  lemma {:induction false} ToSorted(g: Graph, h: Graph, m: seq<nat>, left: set<nat>, s: SetInfo)
    requires Isomorphic(g, h, m) && left <= g.used && s.transactions <= g.used
    ensures BestOk(g, left, s) <==> BestOk(h, Image(m, left), SetInfo(Image(m, s.transactions), s.feerate))
  {
    ImageRate(g, h, m, s.transactions);
    ImageClosed(g, h, m, s.transactions, left);
    ImageSubset(g, m, s.transactions, g.used);
    if s.transactions != {} {
      var x :| x in s.transactions;
      assert m[x] in Image(m, s.transactions);
    } else {
      assert Image(m, s.transactions) == {};
    }
  }

  lemma {:induction false} OptimalBack(g: Graph, h: Graph, m: seq<nat>, left: set<nat>, best: FeeFrac)
    requires Isomorphic(g, h, m) && left <= g.used && Optimal(h, Image(m, left), best)
    ensures Optimal(g, left, best)
  {
    forall c | Candidate(g, left, c) ensures !Rate(g, c).Higher(best) {
      ImageRate(g, h, m, c);
      ImageClosed(g, h, m, c, left);
      var x :| x in c;
      assert m[x] in Image(m, c);
      assert Candidate(h, Image(m, left), Image(m, c));
    }
  }

  /** Positions in decreasing feerate order. */
  method SortPositions(g: Graph) returns (order: seq<nat>)
    requires g.Valid() && g.AllSized()
    ensures IsOrderOf(order, g.used)
    ensures forall i, j :: 0 <= i < j < |order| ==>
      order[i] < |g.entries| && order[j] < |g.entries| && RateLess(g, order[i], order[j])
  {
    var less := (a: nat, b: nat) => a < |g.entries| && b < |g.entries| && RateLess(g, a, b);
    RateLessTotal(g, less);
    AscendingOrder(g.used);
    SortCorrect(less, Ascending(g.used), g.used);
    order := SortBy(less, Ascending(g.used));
    forall i, j | 0 <= i < j < |order|
      ensures order[i] < |g.entries| && order[j] < |g.entries| && RateLess(g, order[i], order[j])
    {
      assert less(order[i], order[j]);
    }
  }

  method ReverseMapping(g: Graph, order: seq<nat>) returns (m: seq<nat>)
    requires g.Valid() && IsOrderOf(order, g.used)
    ensures |m| == |g.entries| && Inverse(g, m, order)
  {
    m := seq(|g.entries|, _ => 0);
    assert forall k :: 0 <= k < |order| ==> order[k] in Elems(order);
    for i := 0 to |order|
      invariant |m| == |g.entries|
      invariant forall k :: 0 <= k < i ==> m[order[k]] == k
    {
      m := m[order[i] := i];
    }
    forall x | x in g.used ensures m[x] < |order| && order[m[x]] == x {
      assert x in Elems(order);
      var k :| 0 <= k < |order| && order[k] == x;
    }
  }

  lemma {:induction false} GoodOrder(g: Graph, m: seq<nat>, order: seq<nat>)
    requires g.Valid() && |m| == |g.entries| && Inverse(g, m, order)
    ensures GoodMapping(g, m, |order|)
  {
    if 0 < |order| {
      var x := order[|order| - 1];
      assert x in g.used && m[x] == |order| - 1;
    }
  }

  lemma {:induction false} SortedCopy(g: Graph, h: Graph, m: seq<nat>, order: seq<nat>)
    requires g.Valid() && g.AllSized() && Isomorphic(g, h, m) && Inverse(g, m, order)
    requires forall i, j :: 0 <= i < j < |order| ==>
      order[i] < |g.entries| && order[j] < |g.entries| && RateLess(g, order[i], order[j])
    ensures Sorted(h)
  {
    forall x | x in h.used ensures x < |order| && order[x] in g.used && x < |h.entries|
      && h.Rates()[x] == g.Rates()[order[x]]
    {
      var i :| i in g.used && i < |m| && m[i] == x;
    }
    forall x, y | x in h.used && y in h.used && x < y ensures h.Rates()[y].Cross(h.Rates()[x]) <= 0 {
      assert RateLess(g, order[x], order[y]);
      CrossPlus(h.Rates()[x], h.Rates()[y], h.Rates()[x]);
    }
  }
}
