/**
 `DepGraph`: a transaction graph stored as ancestor and descendant sets
 (`cluster_linearize.h`).

 `Graph` is the value of such a graph at one moment; the const operations are its
 members, and everything downstream takes graphs by value, as the source takes them by
 const reference.  The class `DepGraph` at the end holds a graph and updates it in place.
*/
module DepGraphs {
  import opened FeeFracs
  import opened Orders
  import opened BitSets
  import opened Sums

  datatype Entry = Entry(feerate: FeeFrac, ancestors: set<nat>, descendants: set<nat>)

  datatype Graph = Graph(entries: seq<Entry>, used: set<nat>) {

    function Anc(i: nat): set<nat> {
      if i < |entries| then entries[i].ancestors else {}
    }

    function Des(i: nat): set<nat> {
      if i < |entries| then entries[i].descendants else {}
    }

    ghost function Rates(): Rates {
      seq(|entries|, i requires 0 <= i < |entries| => entries[i].feerate)
    }

    /** Both closures are stored, converse to each other, reflexive and transitive. */
    ghost predicate Valid() {
      && (entries != [] ==> |entries| - 1 in used)
      && (forall i {:trigger i in used} :: i in used ==>
            i < |entries| && i in Anc(i) && Anc(i) <= used && Des(i) <= used)
      && (forall i, j {:trigger j in Anc(i)} {:trigger i in Des(j)} :: i in used && j in used ==>
            (j in Anc(i) <==> i in Des(j)))
      && (forall i, j {:trigger j in Anc(i)} :: i in used && j in Anc(i) ==> Anc(j) <= Anc(i))
    }

    /** No two distinct transactions are each other's ancestors. */
    ghost predicate Acyclic() {
      forall i, j {:trigger j in Anc(i), i in Anc(j)} ::
        i in used && j in used && j in Anc(i) && i in Anc(j) ==> i == j
    }

    /** Every transaction has a positive size. */
    ghost predicate AllSized() {
      Sized(Rates(), used)
    }

    /** Within `todo`, the set contains the ancestors of its members. */
    ghost predicate Closed(c: set<nat>, todo: set<nat>) {
      c <= todo && forall x :: x in c ==> Anc(x) * todo <= c
    }

    /** No transaction comes before one of its ancestors. */
    ghost predicate Topological(l: seq<nat>) {
      forall i, j :: 0 <= i < j < |l| ==> l[j] !in Anc(l[i])
    }

    // ----- what AddDependencies computes

    /** The ancestors of the parents that the child does not have yet. */
    ghost function NewAncestors(parents: set<nat>, child: nat): set<nat> {
      set a | a in used && a !in Anc(child) && exists p :: p in parents && a in Anc(p)
    }

    ghost function AddDeps(parents: set<nat>, child: nat): Graph {
      var add := NewAncestors(parents, child);
      Graph(seq(|entries|, i requires 0 <= i < |entries| =>
                Entry(entries[i].feerate,
                      if i in Des(child) then entries[i].ancestors + add else entries[i].ancestors,
                      if i in add then entries[i].descendants + Des(child) else entries[i].descendants)),
            used)
    }

    // ----- const operations

    /** Combined fee and size of a set of transactions. */
    method FeeRate(elems: set<nat>) returns (ret: FeeFrac)
      requires forall i :: i in elems ==> i < |entries|
      ensures ret == Agg(Rates(), elems)
    {
      ret := EMPTY;
      var rest := elems;
      AggEmpty(Rates());
      assert elems - rest == {};
      while rest != {}
        invariant rest <= elems
        invariant ret == Agg(Rates(), elems - rest)
        decreases |rest|
      {
        var pos := First(rest);
        assert elems - (rest - {pos}) == (elems - rest) + {pos};
        AggUnion(Rates(), elems - rest, {pos});
        AggSingle(Rates(), pos);
        ret := ret.Plus(entries[pos].feerate);
        rest := rest - {pos};
      }
      assert elems - rest == elems;
    }

    // ----- reduced parents

    /** The direct parents, inferred from the ancestor sets. */
    method GetReducedParents(i: nat) returns (parents: set<nat>)
      requires Valid() && i in used
      ensures parents <= Anc(i) - {i}
      ensures Acyclic() ==> Generates(parents, i) && Antichain(parents)
    {
      parents := Anc(i) - {i};
      var rest := parents;
      ghost var all := parents;
      AllGenerate(i);
      while rest != {}
        invariant rest <= all && parents <= all
        invariant Acyclic() ==> Generates(parents, i)
        invariant Acyclic() ==> Unrelated(parents - rest, parents)
        decreases |rest|
      {
        var parent := First(rest);
        if parent in parents {
          ghost var before := parents;
          parents := parents - Anc(parent);
          parents := parents + {parent};
          if Acyclic() {
            KeepGenerating(before, parents, parent, i);
            KeepUnrelated(before, rest, parents, parent);
          }
        }
        rest := rest - {parent};
      }
      assert parents - rest == parents;
    }

    /** No member of `t` other than itself is an ancestor of a member of `s`. */
    ghost predicate Unrelated(s: set<nat>, t: set<nat>) {
      forall v, x :: v in s && x in t && x != v ==> x !in Anc(v)
    }

    lemma {:induction false} AllGenerate(i: nat)
      requires Valid() && i in used
      ensures Generates(Anc(i) - {i}, i)
    {
      forall x | x in Anc(i) && x != i ensures Under(x, Anc(i) - {i}) {
        assert x in Anc(x);
      }
    }

    lemma {:induction false} KeepUnrelated(before: set<nat>, rest: set<nat>, after: set<nat>, parent: nat)
      requires parent in before && parent in rest
      requires after == (before - Anc(parent)) + {parent}
      requires Unrelated(before - rest, before)
      ensures Unrelated(after - (rest - {parent}), after)
    {
      forall v, x | v in after - (rest - {parent}) && x in after && x != v ensures x !in Anc(v) {
        if v != parent {
          assert v in before - rest;
        }
      }
    }

    /** Each proper ancestor of `i` is an ancestor of a member. */
    ghost predicate Generates(parents: set<nat>, i: nat) {
      forall x {:trigger Under(x, parents)} :: x in Anc(i) && x != i ==> Under(x, parents)
    }

    /** `x` is a member or an ancestor of one. */
    ghost predicate Under(x: nat, s: set<nat>) {
      exists q :: q in s && x in Anc(q)
    }

    ghost predicate Antichain(s: set<nat>) {
      Unrelated(s, s)
    }

    lemma {:induction false} KeepGenerating(before: set<nat>, after: set<nat>, parent: nat, i: nat)
      requires Valid() && Acyclic() && i in used
      requires parent in before && before <= Anc(i)
      requires after == (before - Anc(parent)) + {parent}
      requires Generates(before, i)
      ensures Generates(after, i)
    {
      forall x | x in Anc(i) && x != i ensures Under(x, after) {
        assert Under(x, before);
        var q :| q in before && x in Anc(q);
        if q !in after {
          assert q in Anc(parent);
          assert parent in after && x in Anc(parent);
        }
      }
    }

    /** `Generates` and `Antichain` pin the reduced parents down: the least generating set. */
    lemma {:induction false} ReducedParentsLeast(parents: set<nat>, other: set<nat>, i: nat)
      requires Valid() && Acyclic() && i in used
      requires parents <= Anc(i) - {i} && other <= Anc(i) - {i}
      requires Generates(parents, i) && Antichain(parents)
      requires Generates(other, i)
      ensures parents <= other
    {
      forall r | r in parents ensures r in other {
        assert Under(r, other);
        var y :| y in other && r in Anc(y);
        assert Under(y, parents);
        var q :| q in parents && y in Anc(q);
        assert r in Anc(q) && r == q;
        assert y == r;
      }
    }

    /** Within `todo`, whatever is related to a member is a member. */
    ghost predicate Saturated(c: set<nat>, todo: set<nat>) {
      c <= todo && forall x, y :: x in c && y in todo && (y in Anc(x) || y in Des(x)) ==> y in c
    }

    /** The ancestors and descendants of members. */
    ghost function Around(s: set<nat>): set<nat> {
      set y | y in used && exists x :: x in s && (y in Anc(x) || y in Des(x))
    }

    /** `c` holds the start, its members outside `recent` are saturated, and `c` is within every such set. */
    ghost predicate Growing(c: set<nat>, recent: set<nat>, start: nat, todo: set<nat>) {
      && c <= todo && recent <= c + {start}
      && (start in c || recent == {start})
      && Around(c - recent) * todo <= c
      && forall m :: Saturated(m, todo) && start in m ==> c <= m
    }

    lemma {:induction false} ComponentStep(c: set<nat>, recent: set<nat>, start: nat, todo: set<nat>)
      requires Valid() && todo <= used && start in todo && Growing(c, recent, start, todo)
      ensures var next := (c + Around(recent)) * todo; Growing(next, next - c, start, todo)
    {
      var next := (c + Around(recent)) * todo;
      assert start in next by {
        assert start in Anc(start);
      }
      forall y | y in Around(next - (next - c)) * todo ensures y in next {
        var x :| x in c && (y in Anc(x) || y in Des(x));
        if x in recent {
          assert y in Around(recent);
        } else {
          assert y in Around(c - recent);
        }
      }
      forall m | Saturated(m, todo) && start in m ensures next <= m {
        forall y | y in next && y !in c ensures y in m {
          var x :| x in recent && (y in Anc(x) || y in Des(x));
          assert x in m;
        }
      }
    }

    lemma {:induction false} ComponentStart(start: nat, todo: set<nat>)
      ensures Growing({}, {start}, start, todo)
    {
    }

    lemma {:induction false} ComponentDone(c: set<nat>, start: nat, todo: set<nat>)
      requires Valid() && todo <= used && Growing(c, {}, start, todo)
      ensures Saturated(c, todo) && start in c
    {
      forall x, y | x in c && y in todo && (y in Anc(x) || y in Des(x)) ensures y in c {
        assert x in c - {};
        assert y in Around(c - {});
      }
    }

    /** The connected component of the first transaction of `todo`. */
    method FindConnectedComponent(todo: set<nat>) returns (ret: set<nat>)
      requires Valid() && todo <= used
      ensures Saturated(ret, todo)
      ensures todo != {} ==> First(todo) in ret
      ensures todo != {} ==> forall m :: Saturated(m, todo) && First(todo) in m ==> ret <= m
      ensures todo == {} ==> ret == {}
    {
      ret := {};
      if todo == {} {
        return;
      }
      ghost var start := First(todo);
      var toAdd := {First(todo)};
      ComponentStart(start, todo);
      while toAdd != {}
        invariant Growing(ret, toAdd, start, todo)
        decreases |todo - ret|, |toAdd|
      {
        var before := ret;
        ret := AddAround(ret, toAdd);
        ComponentStep(before, toAdd, start, todo);
        StepShrinks(before, ret, todo);
        ret := ret * todo;
        toAdd := ret - before;
      }
      ComponentDone(ret, start, todo);
    }

    /** Inner loop of `FindConnectedComponent`: add all relatives of the new members. */
    method AddAround(c: set<nat>, toAdd: set<nat>) returns (ret: set<nat>)
      requires Valid() && toAdd <= used
      ensures ret == c + Around(toAdd)
    {
      ret := c;
      var rest := toAdd;
      while rest != {}
        invariant rest <= toAdd
        invariant ret == c + Around(toAdd - rest)
        decreases |rest|
      {
        var add := First(rest);
        AroundOne(toAdd - rest, add);
        assert toAdd - (rest - {add}) == (toAdd - rest) + {add};
        ret := ret + Des(add);
        ret := ret + Anc(add);
        rest := rest - {add};
      }
      assert toAdd - rest == toAdd;
    }

    lemma {:induction false} AroundOne(s: set<nat>, x: nat)
      requires Valid() && x in used
      ensures Around(s + {x}) == Around(s) + Des(x) + Anc(x)
    {
    }

    predicate TopoLess(a: nat, b: nat) {
      |Anc(a)| < |Anc(b)| || (|Anc(a)| == |Anc(b)| && a < b)
    }

    /** Append `select` to the list, sorted by number of ancestors. */
    method AppendTopo(list: seq<nat>, select: set<nat>) returns (out: seq<nat>)
      requires Valid() && select <= used
      ensures list <= out && IsOrderOf(out[|list|..], select)
      ensures Acyclic() ==> Topological(out[|list|..])
    {
      AscendingOrder(select);
      var less := (a: nat, b: nat) => TopoLess(a, b);
      SortCorrect(less, Ascending(select), select);
      var sorted := SortBy(less, Ascending(select));
      out := list + sorted;
      assert out[|list|..] == sorted;
      if Acyclic() {
        forall i, j | 0 <= i < j < |sorted| ensures sorted[j] !in Anc(sorted[i]) {
          assert sorted[i] in Elems(sorted) && sorted[j] in Elems(sorted);
          assert less(sorted[i], sorted[j]);
          if sorted[j] in Anc(sorted[i]) {
            AncestorHasFewer(sorted[j], sorted[i]);
          }
        }
      }
    }

    lemma {:induction false} AncestorHasFewer(a: nat, b: nat)
      requires Valid() && Acyclic() && b in used && a in Anc(b) && a != b
      ensures |Anc(a)| < |Anc(b)|
    {
      assert b !in Anc(a);
      CardLess(Anc(a), Anc(b));
    }
  }

  lemma {:induction false} CardLess(a: set<nat>, b: set<nat>)
    requires a < b
    ensures |a| < |b|
  {
    assert |b| == |a| + |b - a| by {
      assert b == a + (b - a);
    }
    assert b - a != {};
  }

  lemma {:induction false} StepShrinks(c: set<nat>, grown: set<nat>, todo: set<nat>)
    requires c <= todo && c <= grown
    ensures grown * todo == c || |todo - grown * todo| < |todo - c|
  {
    if grown * todo != c {
      CardLess(todo - grown * todo, todo - c);
    }
  }

  lemma {:induction false} CardLe(a: set<nat>, b: set<nat>)
    requires a <= b
    ensures |a| <= |b|
  {
    assert b == a + (b - a);
  }

  // ----- AddDependencies adds exactly the new closure pairs

  /** The new pairs: from an ancestor of some parent to a descendant of the child. */
  lemma {:induction false} AddDepsPairs(g: Graph, parents: set<nat>, child: nat, a: nat, d: nat)
    requires g.Valid() && child in g.used && parents <= g.used && a in g.used && d in g.used
    ensures a in g.AddDeps(parents, child).Anc(d)
        <==> a in g.Anc(d) || (child in g.Anc(d) && exists p :: p in parents && a in g.Anc(p))
  {
    if child in g.Anc(d) {
      assert d in g.Des(child);
      assert g.Anc(child) <= g.Anc(d);
    }
  }

  lemma {:induction false} AddDepsTransitive(g: Graph, parents: set<nat>, child: nat, i: nat, j: nat, k: nat)
    requires g.Valid() && child in g.used && parents <= g.used && i in g.used
    requires j in g.AddDeps(parents, child).Anc(i) && k in g.AddDeps(parents, child).Anc(j)
    ensures k in g.AddDeps(parents, child).Anc(i)
  {
    AddDepsPairs(g, parents, child, j, i);
    AddDepsPairs(g, parents, child, k, j);
    AddDepsPairs(g, parents, child, k, i);
    if j in g.Anc(i) {
      assert g.Anc(j) <= g.Anc(i);
    } else if k in g.Anc(j) {
      var p :| p in parents && j in g.Anc(p);
      assert g.Anc(j) <= g.Anc(p);
    }
  }

  lemma {:induction false} AddDepsValid(g: Graph, parents: set<nat>, child: nat)
    requires g.Valid() && child in g.used && parents <= g.used
    ensures g.AddDeps(parents, child).Valid()
    ensures g.AddDeps(parents, child).Rates() == g.Rates()
  {
    var h := g.AddDeps(parents, child);
    forall i, j | i in h.used && j in h.Anc(i) ensures h.Anc(j) <= h.Anc(i) {
      forall k | k in h.Anc(j) ensures k in h.Anc(i) {
        AddDepsTransitive(g, parents, child, i, j, k);
      }
    }
  }

  /** The result contains the old pairs and the requested ones ... */
  lemma {:induction false} AddDepsContains(g: Graph, parents: set<nat>, child: nat)
    requires g.Valid() && child in g.used && parents <= g.used
    ensures forall i :: i in g.used ==> g.Anc(i) <= g.AddDeps(parents, child).Anc(i)
    ensures parents <= g.AddDeps(parents, child).Anc(child)
  {
    forall p | p in parents ensures p in g.AddDeps(parents, child).Anc(child) {
      AddDepsPairs(g, parents, child, p, child);
    }
  }

  /** ... and nothing else: any transitive graph with those pairs contains it. */
  lemma {:induction false} AddDepsLeast(g: Graph, parents: set<nat>, child: nat, h: Graph)
    requires g.Valid() && child in g.used && parents <= g.used
    requires h.Valid() && h.used == g.used
    requires forall i :: i in g.used ==> g.Anc(i) <= h.Anc(i)
    requires parents <= h.Anc(child)
    ensures forall i :: i in g.used ==> g.AddDeps(parents, child).Anc(i) <= h.Anc(i)
  {
    forall d, a | d in g.used && a in g.AddDeps(parents, child).Anc(d) ensures a in h.Anc(d) {
      AddDepsPairs(g, parents, child, a, d);
      if a !in g.Anc(d) {
        var p :| p in parents && a in g.Anc(p);
        assert h.Anc(p) <= h.Anc(child) <= h.Anc(d);
      }
    }
  }

  function MoreDes(e: Entry, more: set<nat>): Entry {
    Entry(e.feerate, e.ancestors, e.descendants + more)
  }

  function MoreAnc(e: Entry, more: set<nat>): Entry {
    Entry(e.feerate, e.ancestors + more, e.descendants)
  }

  /** `b` is `a` with `more` added to the descendants of the members of `s`. */
  ghost predicate DesAdded(a: seq<Entry>, b: seq<Entry>, s: set<nat>, more: set<nat>) {
    |a| == |b| && forall i :: 0 <= i < |a| ==> b[i] == if i in s then MoreDes(a[i], more) else a[i]
  }

  /** `b` is `a` with `more` added to the ancestors of the members of `s`. */
  ghost predicate AncAdded(a: seq<Entry>, b: seq<Entry>, s: set<nat>, more: set<nat>) {
    |a| == |b| && forall i :: 0 <= i < |a| ==> b[i] == if i in s then MoreAnc(a[i], more) else a[i]
  }

  /** The two update loops of `AddDependencies` together. */
  lemma {:induction false} AddDepsEntries(g: Graph, parents: set<nat>, child: nat, mid: seq<Entry>, fin: seq<Entry>)
    requires DesAdded(g.entries, mid, g.NewAncestors(parents, child), g.Des(child))
    requires AncAdded(mid, fin, g.Des(child), g.NewAncestors(parents, child))
    ensures fin == g.AddDeps(parents, child).entries
  {
    var h := g.AddDeps(parents, child);
    forall i | 0 <= i < |fin| ensures fin[i] == h.entries[i] {
    }
  }

  lemma {:induction false} AddDepsNone(g: Graph, parents: set<nat>, child: nat)
    requires g.NewAncestors(parents, child) == {}
    ensures g.entries == g.AddDeps(parents, child).entries
  {
    var h := g.AddDeps(parents, child);
    forall i | 0 <= i < |g.entries| ensures g.entries[i] == h.entries[i] {
      assert g.entries[i].ancestors + {} == g.entries[i].ancestors;
    }
  }

  // ----- what RemoveTransactions computes

  /** The first entry past the last used position. */
  function Extent(used: set<nat>): nat {
    if used == {} then 0 else Last(used) + 1
  }

  ghost function RemoveTxs(g: Graph, del: set<nat>): Graph
    requires g.Valid()
  {
    var used := g.used - del;
    Graph(seq(Extent(used), i requires 0 <= i < Extent(used) =>
              Cut(g.entries[i], used)),
          used)
  }

  function Cut(e: Entry, used: set<nat>): Entry {
    Entry(e.feerate, e.ancestors * used, e.descendants * used)
  }

  /** The remaining transactions keep exactly their remaining ancestors, also indirect ones. */
  lemma {:induction false} RemoveTxsKeeps(g: Graph, del: set<nat>)
    requires g.Valid()
    ensures RemoveTxs(g, del).Valid()
    ensures forall i :: i in g.used - del ==>
              RemoveTxs(g, del).Anc(i) == g.Anc(i) - del && RemoveTxs(g, del).Rates()[i] == g.Rates()[i]
  {
    var h := RemoveTxs(g, del);
    forall i | i in h.used ensures i < |h.entries| && h.Anc(i) == g.Anc(i) - del && h.Des(i) == g.Des(i) - del {
    }
    forall i, j | i in h.used && j in h.used ensures j in h.Anc(i) <==> i in h.Des(j) {
    }
    forall i, j | i in h.used && j in h.Anc(i) ensures h.Anc(j) <= h.Anc(i) {
    }
  }

  // ----- moving a graph to other positions

  ghost function Image(m: seq<nat>, s: set<nat>): set<nat> {
    set i | i in s && i < |m| :: m[i]
  }

  method MapPositions(m: seq<nat>, s: set<nat>) returns (r: set<nat>)
    requires forall i :: i in s ==> i < |m|
    ensures r == Image(m, s)
  {
    r := {};
    var rest := s;
    while rest != {}
      invariant rest <= s && r == Image(m, s - rest)
      decreases |rest|
    {
      var pos := First(rest);
      r := r + {m[pos]};
      rest := rest - {pos};
    }
    assert s - rest == s;
  }

  ghost predicate Injective(m: seq<nat>, s: set<nat>) {
    && (forall i :: i in s ==> i < |m|)
    && (forall i, j :: i in s && j in s && m[i] == m[j] ==> i == j)
  }

  ghost predicate GoodMapping(g: Graph, m: seq<nat>, posRange: nat) {
    && |m| == |g.entries|
    && (forall i :: i in g.used ==> i < |m| && m[i] < posRange)
    && Injective(m, g.used)
    && (0 < posRange ==> posRange - 1 in Image(m, g.used))
  }

  /** `h` has the transactions of `g` at their new positions. */
  ghost predicate SameTransactions(g: Graph, h: Graph, m: seq<nat>) {
    && Injective(m, g.used)
    && h.used == Image(m, g.used)
    && (forall i :: i in g.used ==> i < |g.entries| && i < |m| && m[i] < |h.entries|)
    && (forall i :: i in g.used ==> h.entries[m[i]].feerate == g.entries[i].feerate)
  }

  /** ... and only dependencies of `g`. */
  ghost predicate Subgraph(g: Graph, h: Graph, m: seq<nat>) {
    && SameTransactions(g, h, m)
    && forall i, j :: i in g.used && j in g.used && m[j] in h.Anc(m[i]) ==> j in g.Anc(i)
  }

  /** ... and all of them. */
  ghost predicate Isomorphic(g: Graph, h: Graph, m: seq<nat>) {
    && SameTransactions(g, h, m)
    && forall i, j :: i in g.used && j in g.used ==> (m[j] in h.Anc(m[i]) <==> j in g.Anc(i))
  }

  ghost predicate Placed(g: Graph, h: Graph, m: seq<nat>, done: set<nat>) {
    && h.used == Image(m, done)
    && forall i :: i in done ==>
         i < |g.entries| && i < |m| && m[i] < |h.entries|
         && h.entries[m[i]] == Entry(g.entries[i].feerate, {m[i]}, {m[i]})
  }

  lemma {:induction false} PlaceOne(g: Graph, h: Graph, h': Graph, m: seq<nat>, done: set<nat>, i: nat)
    requires Injective(m, g.used) && done <= g.used && i in g.used && i < |g.entries|
    requires Placed(g, h, m, done) && m[i] < |h.entries|
    requires h'.used == h.used + {m[i]}
    requires h'.entries == h.entries[m[i] := Entry(g.entries[i].feerate, {m[i]}, {m[i]})]
    ensures Placed(g, h', m, done + {i})
  {
  }

  lemma {:induction false} PlacedAll(g: Graph, h: Graph, m: seq<nat>, posRange: nat)
    requires g.Valid() && GoodMapping(g, m, posRange) && |h.entries| == posRange && Placed(g, h, m, g.used)
    ensures h.Valid() && Subgraph(g, h, m)
  {
    forall x | x in h.used ensures x < |h.entries| && h.Anc(x) == {x} == h.Des(x) {
      var i :| i in g.used && i < |m| && m[i] == x;
    }
    forall i, j | i in g.used && j in g.used && m[j] in h.Anc(m[i]) ensures j in g.Anc(i) {
      assert m[i] in h.used;
    }
  }

  /** Every ancestor of `i` is reached through a proper ancestor already linked to `i`. */
  ghost predicate Linked(g: Graph, h: Graph, m: seq<nat>, i: nat)
    requires Injective(m, g.used) && g.Valid() && i in g.used
  {
    forall x {:trigger HasLink(g, h, m, i, x)} :: x in g.Anc(i) && x != i ==> HasLink(g, h, m, i, x)
  }

  ghost predicate HasLink(g: Graph, h: Graph, m: seq<nat>, i: nat, x: nat)
    requires Injective(m, g.used) && g.Valid() && i in g.used
  {
    exists q :: q in g.Anc(i) && q != i && x in g.Anc(q) && m[q] in h.Anc(m[i])
  }

  ghost predicate LinkedAll(g: Graph, h: Graph, m: seq<nat>, done: set<nat>)
    requires Injective(m, g.used) && g.Valid() && done <= g.used
  {
    forall i :: i in done ==> Linked(g, h, m, i)
  }

  lemma {:induction false} RemapStep(
    g: Graph, h: Graph, m: seq<nat>, done: set<nat>, i: nat, reduced: set<nat>)
    requires g.Valid() && i in g.used && done <= g.used
    requires reduced <= g.Anc(i) - {i} && g.Generates(reduced, i)
    requires h.Valid() && Subgraph(g, h, m) && LinkedAll(g, h, m, done)
    ensures var h' := h.AddDeps(Image(m, reduced), m[i]);
      Subgraph(g, h', m) && LinkedAll(g, h', m, done + {i})
  {
    var parents := Image(m, reduced);
    var h' := h.AddDeps(parents, m[i]);
    assert m[i] in h.used && parents <= h.used;
    AddDepsContains(h, parents, m[i]);
    forall d, a | d in g.used && a in g.used && m[a] in h'.Anc(m[d]) ensures a in g.Anc(d) {
      RemapUpper(g, h, m, i, reduced, d, a);
    }
    forall k | k in done + {i} ensures Linked(g, h', m, k) {
      if k in done {
        assert m[k] in h.used;
        LinkedGrows(g, h, h', m, k);
      } else {
        LinkedNow(g, h', m, i, reduced);
      }
    }
  }

  lemma {:induction false} LinkWitness(g: Graph, h: Graph, m: seq<nat>, i: nat, x: nat) returns (q: nat)
    requires Injective(m, g.used) && g.Valid() && i in g.used && Linked(g, h, m, i)
    requires x in g.Anc(i) && x != i
    ensures q in g.Anc(i) && q != i && x in g.Anc(q) && m[q] in h.Anc(m[i])
  {
    assert HasLink(g, h, m, i, x);
    q :| q in g.Anc(i) && q != i && x in g.Anc(q) && m[q] in h.Anc(m[i]);
  }

  lemma {:induction false} LinkedGrows(g: Graph, h: Graph, h': Graph, m: seq<nat>, k: nat)
    requires Injective(m, g.used) && g.Valid() && k in g.used && Linked(g, h, m, k)
    requires h.Anc(m[k]) <= h'.Anc(m[k])
    ensures Linked(g, h', m, k)
  {
    forall x | x in g.Anc(k) && x != k ensures HasLink(g, h', m, k, x) {
      var q := LinkWitness(g, h, m, k, x);
    }
  }

  lemma {:induction false} LinkedNow(g: Graph, h': Graph, m: seq<nat>, i: nat, reduced: set<nat>)
    requires Injective(m, g.used) && g.Valid() && i in g.used
    requires reduced <= g.Anc(i) - {i} && g.Generates(reduced, i)
    requires Image(m, reduced) <= h'.Anc(m[i])
    ensures Linked(g, h', m, i)
  {
    forall x | x in g.Anc(i) && x != i ensures HasLink(g, h', m, i, x) {
      assert g.Under(x, reduced);
      var q :| q in reduced && x in g.Anc(q);
      assert m[q] in Image(m, reduced);
    }
  }

  lemma {:induction false} RemapUpper(
    g: Graph, h: Graph, m: seq<nat>, i: nat, reduced: set<nat>, d: nat, a: nat)
    requires g.Valid() && h.Valid() && Subgraph(g, h, m)
    requires i in g.used && reduced <= g.Anc(i) && d in g.used && a in g.used
    requires m[a] in h.AddDeps(Image(m, reduced), m[i]).Anc(m[d])
    ensures a in g.Anc(d)
  {
    var parents := Image(m, reduced);
    assert m[i] in h.used && m[a] in h.used && m[d] in h.used && parents <= h.used;
    AddDepsPairs(h, parents, m[i], m[a], m[d]);
    if m[a] !in h.Anc(m[d]) {
      var p :| p in parents && m[a] in h.Anc(p);
      var r :| r in reduced && r < |m| && m[r] == p;
      assert i in g.Anc(d) && a in g.Anc(r) && r in g.Anc(i);
    }
  }

  lemma {:induction false} RemapLower(g: Graph, h: Graph, m: seq<nat>, i: nat, x: nat)
    requires g.Valid() && g.Acyclic() && h.Valid() && Subgraph(g, h, m)
    requires LinkedAll(g, h, m, g.used)
    requires i in g.used && x in g.Anc(i)
    ensures m[x] in h.Anc(m[i])
    decreases |g.Anc(i)|
  {
    assert m[i] in h.used;
    if x != i {
      var q := LinkWitness(g, h, m, i, x);
      g.AncestorHasFewer(q, i);
      RemapLower(g, h, m, q, x);
      AncTransitive(h, m[x], m[q], m[i]);
    }
  }

  lemma {:induction false} ImageWithin(g: Graph, h: Graph, m: seq<nat>, s: set<nat>, i: nat)
    requires SameTransactions(g, h, m) && s <= g.used && i in g.used
    ensures Image(m, s) <= h.used && m[i] in h.used
  {
  }

  lemma {:induction false} MinusMinus(all: set<nat>, rest: set<nat>, i: nat)
    requires rest <= all && i in rest
    ensures all - (rest - {i}) == all - rest + {i}
  {
  }

  lemma {:induction false} MinusEmpty(all: set<nat>, rest: set<nat>)
    requires rest == {}
    ensures all - rest == all
  {
  }

  lemma {:induction false} AncTransitive(g: Graph, a: nat, b: nat, c: nat)
    requires g.Valid() && c in g.used && b in g.Anc(c) && a in g.Anc(b)
    ensures a in g.Anc(c)
  {
  }

  /** Rebuilding from reduced parents restores every dependency. */
  lemma {:induction false} RemapDone(g: Graph, h: Graph, m: seq<nat>)
    requires g.Valid() && g.Acyclic() && h.Valid() && Subgraph(g, h, m)
    requires LinkedAll(g, h, m, g.used)
    ensures Isomorphic(g, h, m)
  {
    forall i, j | i in g.used && j in g.used && j in g.Anc(i) ensures m[j] in h.Anc(m[i]) {
      RemapLower(g, h, m, i, j);
    }
  }

  // ----- the mutable graph

  class DepGraph {
    var entries: seq<Entry>
    var used: set<nat>

    function View(): Graph
      reads this
    {
      Graph(entries, used)
    }

    constructor ()
      ensures View() == Graph([], {}) && View().Valid()
    {
      entries := [];
      used := {};
    }

    /** A copy of `g` with position `i` moved to `mapping[i]`, built from the reduced parents. */
    constructor FromMapping(g: Graph, mapping: seq<nat>, posRange: nat)
      requires g.Valid() && g.Acyclic() && GoodMapping(g, mapping, posRange)
      ensures View().Valid() && Isomorphic(g, View(), mapping)
    {
      entries := seq(posRange, _ => Entry(EMPTY, {}, {}));
      used := {};
      new;
      PlaceTransactions(g, mapping, posRange);
      LinkTransactions(g, mapping);
    }

    /** First loop of `FromMapping`: put every transaction in place, unconnected. */
    method PlaceTransactions(g: Graph, mapping: seq<nat>, posRange: nat)
      requires g.Valid() && GoodMapping(g, mapping, posRange)
      requires used == {} && |entries| == posRange
      modifies this
      ensures View().Valid() && Subgraph(g, View(), mapping)
    {
      var rest := g.used;
      assert g.used - rest == {};
      while rest != {}
        invariant rest <= g.used && |entries| == posRange && Placed(g, View(), mapping, g.used - rest)
        decreases |rest|
      {
        var i := First(rest);
        var newIdx := mapping[i];
        ghost var before := View();
        entries := entries[newIdx := Entry(g.entries[i].feerate, {newIdx}, {newIdx})];
        used := used + {newIdx};
        PlaceOne(g, before, View(), mapping, g.used - rest, i);
        MinusMinus(g.used, rest, i);
        rest := rest - {i};
      }
      MinusEmpty(g.used, rest);
      PlacedAll(g, View(), mapping, posRange);
    }

    /** Second loop of `FromMapping`: fill in dependencies by mapping direct parents. */
    method LinkTransactions(g: Graph, mapping: seq<nat>)
      requires g.Valid() && g.Acyclic()
      requires View().Valid() && Subgraph(g, View(), mapping)
      modifies this
      ensures View().Valid() && Isomorphic(g, View(), mapping)
    {
      var rest := g.used;
      assert g.used - rest == {};
      while rest != {}
        invariant rest <= g.used && View().Valid() && Subgraph(g, View(), mapping)
        invariant LinkedAll(g, View(), mapping, g.used - rest)
        decreases |rest|
      {
        var i := First(rest);
        var reduced := g.GetReducedParents(i);
        var parents := MapPositions(mapping, reduced);
        ghost var before := View();
        ImageWithin(g, before, mapping, reduced, i);
        AddDependencies(parents, mapping[i]);
        RemapStep(g, before, mapping, g.used - rest, i, reduced);
        MinusMinus(g.used, rest, i);
        rest := rest - {i};
      }
      MinusEmpty(g.used, rest);
      RemapDone(g, View(), mapping);
    }

    /** Add an unconnected transaction in the first available position. */
    method AddTransaction(feefrac: FeeFrac, capacity: nat) returns (newIdx: nat)
      requires View().Valid()
      requires Fill(capacity) - used != {}
      modifies this
      ensures View().Valid()
      ensures newIdx < capacity && newIdx !in old(used) && used == old(used) + {newIdx}
      ensures forall i: nat :: i < newIdx ==> i in old(used)
      ensures View().Anc(newIdx) == {newIdx} == View().Des(newIdx)
      ensures newIdx < |entries| && entries[newIdx].feerate == feefrac
      ensures |old(entries)| <= |entries|
      ensures forall i :: i in old(used) ==> entries[i] == old(entries[i])
    {
      var available := Fill(capacity) - used;
      newIdx := First(available);
      forall i: nat | i < newIdx ensures i in used {
        assert i !in available;
      }
      if 0 < newIdx {
        assert newIdx - 1 in View().used;
      }
      var entry := Entry(feefrac, {newIdx}, {newIdx});
      if newIdx == |entries| {
        entries := entries + [entry];
      } else {
        entries := entries[newIdx := entry];
      }
      used := used + {newIdx};
    }

    method RemoveTransactions(del: set<nat>)
      requires View().Valid()
      modifies this
      ensures View() == RemoveTxs(old(View()), del) && View().Valid()
    {
      ghost var g := View();
      RemoveTxsKeeps(g, del);
      used := used - del;
      while entries != [] && |entries| - 1 !in used
        invariant used == g.used - del
        invariant Extent(used) <= |entries| && entries == g.entries[..|entries|]
        decreases |entries|
      {
        entries := entries[..|entries| - 1];
      }
      ghost var kept := entries;
      var k := 0;
      while k < |entries|
        invariant k <= |entries| == |kept| && used == g.used - del
        invariant forall i :: 0 <= i < |kept| ==> entries[i] == if i < k then Cut(kept[i], used) else kept[i]
      {
        entries := entries[k := Cut(entries[k], used)];
        k := k + 1;
      }
      assert entries == RemoveTxs(g, del).entries;
    }

    method AddDependencies(parents: set<nat>, child: nat)
      requires View().Valid() && child in used && parents <= used
      modifies this
      ensures View() == old(View()).AddDeps(parents, child) && View().Valid()
    {
      ghost var g := View();
      AddDepsValid(g, parents, child);
      var parAnc := UnionOfAncestors(parents - View().Anc(child));
      parAnc := parAnc - View().Anc(child);
      NewAncestorsUnion(g, parents, child, parAnc);
      if parAnc == {} {
        AddDepsNone(g, parents, child);
        return;
      }
      var chlDes := entries[child].descendants;
      LinkDescendants(parAnc, chlDes);
      ghost var mid := entries;
      assert chlDes == View().Des(child);
      LinkAncestors(View().Des(child), parAnc);
      AddDepsEntries(g, parents, child, mid, entries);
    }

    /** To each new ancestor, add the child's descendants as descendants. */
    method LinkDescendants(parAnc: set<nat>, chlDes: set<nat>)
      requires forall i :: i in parAnc ==> i < |entries|
      modifies this`entries
      ensures DesAdded(old(entries), entries, parAnc, chlDes)
    {
      var rest := parAnc;
      while rest != {}
        invariant rest <= parAnc && DesAdded(old(entries), entries, parAnc - rest, chlDes)
        decreases |rest|
      {
        var a := First(rest);
        entries := entries[a := MoreDes(entries[a], chlDes)];
        rest := rest - {a};
      }
      assert parAnc - rest == parAnc;
    }

    /** To each descendant of the child, add the new ancestors. */
    method LinkAncestors(chlDes: set<nat>, parAnc: set<nat>)
      requires forall i :: i in chlDes ==> i < |entries|
      modifies this`entries
      ensures AncAdded(old(entries), entries, chlDes, parAnc)
    {
      var rest := chlDes;
      while rest != {}
        invariant rest <= chlDes && AncAdded(old(entries), entries, chlDes - rest, parAnc)
        decreases |rest|
      {
        var d := First(rest);
        entries := entries[d := MoreAnc(entries[d], parAnc)];
        rest := rest - {d};
      }
      assert chlDes - rest == chlDes;
    }

    method UnionOfAncestors(s: set<nat>) returns (r: set<nat>)
      requires View().Valid() && s <= used
      ensures r <= used && forall a :: a in r <==> exists p :: p in s && a in View().Anc(p)
    {
      r := {};
      var rest := s;
      while rest != {}
        invariant rest <= s && r <= used
        invariant forall a :: a in r <==> exists p :: p in s - rest && a in View().Anc(p)
        decreases |rest|
      {
        var par := First(rest);
        r := r + View().Anc(par);
        rest := rest - {par};
      }
    }
  }

  lemma {:induction false} NewAncestorsUnion(g: Graph, parents: set<nat>, child: nat, r: set<nat>)
    requires g.Valid() && child in g.used && parents <= g.used && r <= g.used
    requires forall a :: a in r <==> a !in g.Anc(child) && exists p :: p in parents - g.Anc(child) && a in g.Anc(p)
    ensures r == g.NewAncestors(parents, child)
  {
    forall a | a in g.NewAncestors(parents, child) ensures a in r {
      var p :| p in parents && a in g.Anc(p);
      assert p !in g.Anc(child);
    }
  }
}
