/**
 `Linearize` (`cluster_linearize.h`): find or improve a linearization of a cluster.
*/
module Linearizing {
  import opened Common
  import opened FeeFracs
  import opened Orders
  import opened Sums
  import opened Diagram
  import opened Improve
  import opened DepGraphs
  import opened Chunking
  import opened Merging
  import opened Search
  import opened Finders
  import Numbers

  // ----- an optimal set can go first in every linearization

  lemma {:induction false} DropDrop(l: seq<nat>, a: set<nat>, b: set<nat>)
    ensures Drop(Drop(l, a), b) == Drop(l, a + b)
  {
    if l != [] {
      DropDrop(l[1..], a, b);
      if l[0] !in a {
        assert Drop(l, a) == [l[0]] + Drop(l[1..], a);
        assert Drop(l, a)[1..] == Drop(l[1..], a);
      }
    }
  }

  lemma {:induction false} PrefixClosed(g: Graph, a: seq<nat>, b: seq<nat>, todo: set<nat>)
    requires g.Topological(a + b) && Elems(a + b) == todo
    ensures g.Closed(Elems(a), todo)
  {
    TopologicalConcat(g, a, b);
    ElemsConcat(a, b);
  }

  /** What a closed prefix misses of an optimal set is at least as good as the set. */
  lemma {:induction false} MissedByPrefix(g: Graph, todo: set<nat>, t: set<nat>, p: set<nat>)
    requires g.AllSized() && todo <= g.used && Candidate(g, todo, t) && Optimal(g, todo, Rate(g, t))
    requires g.Closed(p, todo)
    ensures t - p == {} || Rate(g, t - p).Cross(Rate(g, t)) >= 0
  {
    var r := Rate(g, t);
    AggSplit(g.Rates(), t, p);
    CrossPlus(Rate(g, t * p), Rate(g, t - p), r);
    CrossPlus(r, r, r);
    if t * p == {} {
      AggEmpty(g.Rates());
    } else {
      ClosedIntersect(g, t, p, todo);
      assert Candidate(g, todo, t * p);
    }
  }

  lemma {:induction false} OptimalFrontAt(g: Graph, todo: set<nat>, t: seq<nat>, l: seq<nat>, p: int, q: int)
    requires g.AllSized() && todo <= g.used && 0 < q
    requires NoDup(t) && Candidate(g, todo, Elems(t)) && Optimal(g, todo, Rate(g, Elems(t)))
    requires IsOrderOf(l, todo) && g.Topological(l)
    ensures Best(Weights(g.Rates(), p, q), t + Drop(l, Elems(t))) >= Best(Weights(g.Rates(), p, q), l)
  {
    var fr, w, T := g.Rates(), Weights(g.Rates(), p, q), Elems(t);
    var k := BestToWitness(w, l, |l|);
    var a, b := l[..k], l[k..];
    assert l == a + b;
    PrefixSumIsSlice(w, l, k);
    PrefixClosed(g, a, b, todo);
    var missed := T - Elems(a);
    if Sum(w, missed) >= 0 {
      TwoGroups(a, b);
      FrontPrefix(w, [a, b], t, 1);
    } else {
      NoDupConcat(a, b);
      AboveOptimal(g, todo, T, Elems(a), p, q);
      SumSeqIsSum(w, a);
      BestBound(w, t + Drop(l, T), 0);
    }
  }

  /** A slope above what a prefix misses of the optimal set is above the prefix as well. */
  lemma {:induction false} AboveOptimal(g: Graph, todo: set<nat>, t: set<nat>, a: set<nat>, p: int, q: int)
    requires g.AllSized() && todo <= g.used && 0 < q && g.Closed(a, todo)
    requires Candidate(g, todo, t) && Optimal(g, todo, Rate(g, t))
    requires Sum(Weights(g.Rates(), p, q), t - a) < 0
    ensures Sum(Weights(g.Rates(), p, q), a) <= 0
  {
    var fr, w, missed := g.Rates(), Weights(g.Rates(), p, q), t - a;
    SumEmpty(w);
    SumWeights(fr, p, q, missed);
    MissedByPrefix(g, todo, t, a);
    AggSize(fr, missed);
    AggSize(fr, t);
    SlopeTransfer(Rate(g, missed), Rate(g, t), p, q);
    SumWeights(fr, p, q, a);
    if a != {} {
      assert Candidate(g, todo, a);
      AggSize(fr, a);
      CrossPlus(Rate(g, t), Rate(g, a), Rate(g, t));
      SlopeTransfer(Rate(g, t), Rate(g, a), p, q);
    }
  }

  lemma {:induction false} TwoGroups(a: seq<nat>, b: seq<nat>)
    ensures Flatten([a, b]) == a + b && Flatten([a, b][..1]) == a
  {
    assert [a, b] == [a] + [b];
    FlattenConcat([a], [b]);
    FlattenSingle(a);
    FlattenSingle(b);
    assert [a, b][..1] == [a];
  }

  /** An optimal set moved to the front improves every topological order. */
  lemma {:induction false} OptimalFront(g: Graph, todo: set<nat>, t: seq<nat>, l: seq<nat>)
    requires g.AllSized() && todo <= g.used
    requires NoDup(t) && Candidate(g, todo, Elems(t)) && Optimal(g, todo, Rate(g, Elems(t)))
    requires IsOrderOf(l, todo) && g.Topological(l)
    ensures Dominates(g.Rates(), t + Drop(l, Elems(t)), l)
  {
    forall p: int, q: int | 0 < q
      ensures Best(Weights(g.Rates(), p, q), t + Drop(l, Elems(t))) >= Best(Weights(g.Rates(), p, q), l)
    {
      OptimalFrontAt(g, todo, t, l, p, q);
    }
  }

  /** What was emitted, followed by the rest of any linearization, dominates that linearization. */
  ghost predicate BestSoFar(g: Graph, out: seq<nat>) {
    forall x {:trigger IsLinearization(g, x)} ::
      IsLinearization(g, x) ==> Dominates(g.Rates(), out + Drop(x, Elems(out)), x)
  }

  lemma {:induction false} BestSoFarStart(g: Graph)
    ensures BestSoFar(g, [])
  {
    forall x | IsLinearization(g, x) ensures Dominates(g.Rates(), [] + Drop(x, Elems([])), x) {
      DropNothing(x, Elems([]));
      assert [] + x == x;
    }
  }

  /** Emitting an optimal set keeps the output as good as any linearization can be. */
  lemma {:induction false} BestSoFarStep(g: Graph, out: seq<nat>, todo: set<nat>, t: seq<nat>)
    requires g.AllSized() && Emitted(g, out, todo) && BestSoFar(g, out)
    requires NoDup(t) && Candidate(g, todo, Elems(t)) && Optimal(g, todo, Rate(g, Elems(t)))
    ensures BestSoFar(g, out + t)
  {
    var fr := g.Rates();
    forall x | IsLinearization(g, x) ensures Dominates(fr, (out + t) + Drop(x, Elems(out + t)), x) {
      var r := Drop(x, Elems(out));
      var rest := Drop(r, Elems(t));
      DropElems(x, Elems(out));
      TopologicalDrop(g, x, Elems(out));
      assert Elems(r) == todo;
      OptimalFront(g, todo, t, r);
      PrependDominates(fr, out, t + rest, r);
      Assoc(out, t, rest);
      DropDrop(x, Elems(out), Elems(t));
      ElemsConcat(out, t);
      DominatesTransitive(fr, (out + t) + rest, out + r, x);
    }
  }

  lemma {:induction false} BestSoFarDone(g: Graph, out: seq<nat>)
    requires Emitted(g, out, {}) && BestSoFar(g, out)
    ensures IsLinearization(g, out)
    ensures forall x :: IsLinearization(g, x) ==> Dominates(g.Rates(), out, x)
  {
    assert g.used - {} == g.used;
    forall x | IsLinearization(g, x) ensures Dominates(g.Rates(), out, x) {
      DropAll(x, Elems(out));
      assert out + [] == out;
    }
  }

  // ----- one round

  /** The chunking of the old linearization, or an empty one if there is none. */
  ghost predicate OldSide(g: Graph, c: LinearizationChunking, hasOld: bool, out: seq<nat>, todo: set<nat>, old_: seq<nat>)
    reads c
  {
    if hasOld then Merging.Merging(g, c, out, todo, old_)
    else c.Valid() && c.depgraph == g && c.todo == {}
  }

  /** Either nothing better exists, or the set is safe to put before the old chunks. */
  ghost predicate GoodFront(
    g: Graph, todo: set<nat>, hasOld: bool, groups: seq<seq<nat>>, best: SetInfo, bound: FeeFrac, optimal: bool)
  {
    && BestOk(g, todo, best)
    && (optimal ==> Optimal(g, todo, best.feerate))
    && (!optimal && hasOld ==>
          0 < bound.size && ChunksAtMost(g.Rates(), groups, bound)
          && TailsAtLeast(g.Rates(), groups, best.transactions, bound))
  }

  /** The best remaining ancestor set, or the first chunk of the old linearization. */
  method InitialBest(g: Graph, todo: set<nat>, anc: AncestorCandidateFinder, c: LinearizationChunking, hasOld: bool)
    returns (best: SetInfo)
    requires anc.Valid() && anc.depgraph == g && anc.todo == todo && todo != {}
    requires if hasOld then InStep(g, c, todo) else c.Valid() && c.depgraph == g && c.todo == {}
    ensures BestOk(g, todo, best)
    ensures hasOld ==> c.groups != [] && best.feerate.AtLeast(AggSeq(g.Rates(), c.groups[0]))
  {
    c.SomeChunk();
    var bestPrefix := SetInfo({}, EMPTY);
    if c.NumChunksLeft() > 0 {
      bestPrefix := c.chunks[c.chunksSkip];
      FirstChunkOk(g, c.groups, todo);
    }
    best := anc.FindCandidateSet();
    AggSize(g.Rates(), best.transactions);
    if !bestPrefix.feerate.IsEmpty() && bestPrefix.feerate.AtLeast(best.feerate) {
      best := bestPrefix;
    }
    CrossPlus(best.feerate, best.feerate, best.feerate);
    CrossPlus(best.feerate, bestPrefix.feerate, best.feerate);
  }

  lemma {:induction false} FirstChunkOk(g: Graph, groups: seq<seq<nat>>, todo: set<nat>)
    requires g.AllSized() && todo <= g.used && groups != [] && NoDup(Flatten(groups))
    requires g.Topological(Flatten(groups)) && Elems(Flatten(groups)) == todo && groups[0] != []
    ensures BestOk(g, todo, SetInfo(Elems(groups[0]), AggSeq(g.Rates(), groups[0])))
    ensures 0 < AggSeq(g.Rates(), groups[0]).size
  {
    GroupInfo(g, groups, todo, 0);
    HeadStep(groups, 0);
    HeadZero(groups);
    HeadClosed(g, groups, todo, 1);
    AggSize(g.Rates(), Elems(groups[0]));
  }

  /** Cut a candidate down so that it can go before the old chunks. */
  method Intersect(g: Graph, todo: set<nat>, c: LinearizationChunking, best: SetInfo) returns (ret: SetInfo)
    requires InStep(g, c, todo) && todo != {} && BestOk(g, todo, best)
    requires c.groups != [] && best.feerate.AtLeast(AggSeq(g.Rates(), c.groups[0]))
    ensures GoodFront(g, todo, true, c.groups, ret, best.feerate, false)
  {
    c.SomeChunk();
    ret := c.IntersectPrefixes(best);
    IntersectFacts(g, c.groups, todo, best, ret);
  }

  lemma {:induction false} IntersectFacts(g: Graph, groups: seq<seq<nat>>, todo: set<nat>, best: SetInfo, ret: SetInfo)
    requires g.AllSized() && todo <= g.used && groups != []
    requires AreChunks(g.Rates(), groups) && NonIncreasing(g.Rates(), groups)
    requires g.Topological(Flatten(groups)) && Elems(Flatten(groups)) == todo
    requires BestOk(g, todo, best) && best.feerate.AtLeast(AggSeq(g.Rates(), groups[0])) && Accurate(g, ret)
    requires IsShortestPart(g.Rates(), groups, best, ret.transactions)
    ensures GoodFront(g, todo, true, groups, ret, best.feerate, false)
  {
    var fr := g.Rates();
    AggSize(fr, best.transactions);
    CrossPlus(best.feerate, AggSeq(fr, groups[0]), best.feerate);
    AtMostFirst(fr, groups, best.feerate);
    TailsOfShortest(fr, groups, best, ret.transactions);
    var j: nat :| j <= |groups| && ret.transactions == best.transactions * Head(groups, j)
      && HeadsLower(fr, groups, best, j);
    HeadClosed(g, groups, todo, j);
    ClosedIntersect(g, best.transactions, Head(groups, j), todo);
  }

  // ----- the budget

  /** What one call of the search is reckoned to cost up front with `n` transactions left: N/4, rounded up. */
  function BaseIterations(n: nat): nat {
    (n + 3) / 4
  }

  /** The up-front costs of at most `n` rounds. */
  function BaseCosts(n: nat): nat {
    if n == 0 then 0 else BaseCosts(n - 1) + BaseIterations(n)
  }

  /** With this many iterations every search from `n` transactions down finishes within its share. */
  function Need(n: nat): nat {
    BaseCosts(n) + Numbers.Pow(2, n + 1)
  }

  lemma {:induction false} NeedMonotone(a: nat, b: nat)
    requires a <= b
    ensures Need(a) <= Need(b)
  {
    if a < b {
      NeedMonotone(a, b - 1);
      Numbers.PowMonotone(2, b, b + 1);
    }
  }

  /** A search among `n` transactions took `done` iterations of `max`: fewer than 2^n, so it ended if `max` is that much. */
  ghost predicate Bounded(n: nat, max: nat, done: nat) {
    done <= max && done < Numbers.Pow(2, n) && (max >= Numbers.Pow(2, n) ==> done < max)
  }

  /** One round's use of the budget: with `n` transactions left and `before` iterations, a search may take
      `max` and takes `done` of them, and `after` are left. */
  datatype Round = Round(n: nat, before: nat, max: nat, done: nat, after: nat)

  ghost predicate RoundOk(searching: bool, r: Round) {
    if searching && r.before > BaseIterations(r.n) then
      && r.max == (r.before - BaseIterations(r.n) + 1) / 2 && Bounded(r.n, r.max, r.done)
      && r.after == r.before - BaseIterations(r.n) - r.done
    else r.max == r.done == 0 && r.after == r.before
  }

  ghost predicate IsRound(r: Round, searching: bool, n: nat, before: nat, after: nat) {
    RoundOk(searching, r) && r.n == n && r.before == before && r.after == after
  }

  /** The rounds so far: from `n` transactions and `total` iterations down to `m` transactions and `left` iterations. */
  ghost predicate Schedule(searching: bool, rounds: seq<Round>, n: nat, total: nat, m: nat, left: nat) {
    if rounds == [] then m == n && left == total
    else
      var r := rounds[|rounds| - 1];
      && RoundOk(searching, r) && m < r.n && left == r.after
      && Schedule(searching, rounds[..|rounds| - 1], n, total, r.n, r.before)
  }

  /** All rounds from `n` transactions and `total` iterations until no transaction is left. */
  ghost predicate Complete(searching: bool, rounds: seq<Round>, n: nat, total: nat) {
    exists left :: Schedule(searching, rounds, n, total, 0, left)
  }

  /** Every search ended before its share of the iterations did. */
  ghost predicate AllEarly(rounds: seq<Round>) {
    forall i :: 0 <= i < |rounds| ==> rounds[i].done < rounds[i].max
  }

  /** The splits of all searches. */
  ghost function Steps(rounds: seq<Round>): nat {
    if rounds == [] then 0 else Steps(rounds[..|rounds| - 1]) + rounds[|rounds| - 1].done
  }

  /** The rounds so far, with `optimal` set exactly if every search ended early. */
  ghost predicate OnSchedule(searching: bool, rounds: seq<Round>, n: nat, total: nat, m: nat, left: nat, optimal: bool) {
    Schedule(searching, rounds, n, total, m, left) && (optimal <==> AllEarly(rounds))
  }

  lemma {:induction false} EarlyMore(rounds: seq<Round>, r: Round)
    ensures AllEarly(rounds + [r]) <==> AllEarly(rounds) && r.done < r.max
  {
    var more := rounds + [r];
    assert forall i :: 0 <= i < |rounds| ==> more[i] == rounds[i];
    if AllEarly(more) {
      assert more[|rounds|].done < more[|rounds|].max;
      assert forall i :: 0 <= i < |rounds| ==> more[i].done < more[i].max;
    }
  }

  lemma {:induction false} ScheduleMore(
    searching: bool, rounds: seq<Round>, n: nat, total: nat, k: nat, before: nat, optimal: bool, r: Round, m: nat, after: nat)
    requires OnSchedule(searching, rounds, n, total, k, before, optimal) && IsRound(r, searching, k, before, after) && m < k
    ensures OnSchedule(searching, rounds + [r], n, total, m, after, optimal && r.done < r.max)
  {
    var more := rounds + [r];
    assert more[..|more| - 1] == rounds && more[|more| - 1] == r;
    EarlyMore(rounds, r);
  }

  lemma {:induction false} ScheduleStart(searching: bool, n: nat, total: nat)
    ensures OnSchedule(searching, [], n, total, n, total, true)
  {
  }

  lemma {:induction false} ScheduleDone(
    searching: bool, rounds: seq<Round>, n: nat, total: nat, todo: set<nat>, left: nat, optimal: bool)
    requires OnSchedule(searching, rounds, n, total, |todo|, left, optimal) && todo == {}
    ensures (optimal <==> AllEarly(rounds)) && Complete(searching, rounds, n, total)
  {
  }

  /** The searches together stay within the budget. */
  lemma {:induction false} StepsWithin(searching: bool, rounds: seq<Round>, n: nat, total: nat, m: nat, left: nat)
    requires Schedule(searching, rounds, n, total, m, left)
    ensures Steps(rounds) + left <= total
  {
    if rounds != [] {
      var r := rounds[|rounds| - 1];
      StepsWithin(searching, rounds[..|rounds| - 1], n, total, r.n, r.before);
    }
  }

  lemma {:induction false} EnoughForOne(r: Round, m: nat)
    requires RoundOk(true, r) && m < r.n && r.before >= Need(r.n)
    ensures r.done < r.max && r.after >= Need(m)
  {
    NeedStep(r.n, r.before, if r.before > BaseIterations(r.n) then r.done else 0);
    NeedMonotone(m, r.n - 1);
  }

  /** With enough iterations every search ends early, and enough are left for the rest. */
  lemma {:induction false} EnoughForAll(rounds: seq<Round>, n: nat, total: nat, m: nat, left: nat)
    requires Schedule(true, rounds, n, total, m, left) && total >= Need(n)
    ensures AllEarly(rounds) && left >= Need(m)
  {
    if rounds != [] {
      var k := |rounds| - 1;
      var r := rounds[k];
      EnoughForAll(rounds[..k], n, total, r.n, r.before);
      EnoughForOne(r, m);
      forall i | 0 <= i < |rounds| ensures rounds[i].done < rounds[i].max {
        assert i < k ==> rounds[..k][i] == rounds[i];
      }
    }
  }

  /** Half of what is left after the up-front cost covers the search of `n` transactions, and what the
      search leaves over covers the rest. */
  lemma {:induction false} NeedStep(n: nat, iterations: nat, spent: nat)
    requires 0 < n && iterations >= Need(n) && (spent == 0 || spent < Numbers.Pow(2, n))
    ensures iterations > BaseIterations(n)
    ensures (iterations - BaseIterations(n) + 1) / 2 >= Numbers.Pow(2, n)
    ensures iterations - BaseIterations(n) - spent >= Need(n - 1)
  {
    Numbers.PowPositive(2, n);
    assert Numbers.Pow(2, n + 1) == 2 * Numbers.Pow(2, n);
  }

  /** Choose the next set to output; `optimal` when it is known to be the best one. */
  method NextSet(
    g: Graph, todo: set<nat>, anc: AncestorCandidateFinder, src: SearchCandidateFinder?, c: LinearizationChunking,
    hasOld: bool, iterations: nat)
    returns (best: SetInfo, left: nat, optimal: bool, ghost bound: FeeFrac, ghost r: Round)
    requires anc.Valid() && anc.depgraph == g && anc.todo == todo && todo != {}
    requires src != null ==> src.Valid() && src.depgraph == g && src.Left() == todo
    requires if hasOld then InStep(g, c, todo) else c.Valid() && c.depgraph == g && c.todo == {}
    ensures GoodFront(g, todo, hasOld, c.groups, best, bound, optimal)
    ensures IsRound(r, src != null, |todo|, iterations, left) && optimal == (r.done < r.max)
  {
    var first := InitialBest(g, todo, anc, c, hasOld);
    best, left, optimal, r := SearchMore(g, todo, src, first, iterations);
    if hasOld {
      c.SomeChunk();
      FirstChunkOk(g, c.groups, todo);
      AtLeastTransitive(AggSeq(g.Rates(), c.groups[0]), first.feerate, best.feerate);
    }
    bound := best.feerate;
    if !optimal {
      c.SomeChunk();
      if c.NumChunksLeft() > 0 {
        best := Intersect(g, todo, c, best);
      }
    }
  }

  method BoundedSearch(g: Graph, ghost todo: set<nat>, src: SearchCandidateFinder, max: nat, first: SetInfo)
    returns (best: SetInfo, done: nat)
    requires todo != {} && BestOk(g, todo, first) && src.Valid() && src.depgraph == g && src.Left() == todo
    ensures BestOk(g, todo, best) && best.feerate.AtLeast(first.feerate)
    ensures Bounded(|todo|, max, done)
    ensures done < max ==> Optimal(g, todo, best.feerate)
  {
    src.LeftImage();
    ImageCard(g, src.originalToSorted, todo);
    ghost var open;
    best, done, open := src.FindCandidateSet(max, first);
  }

  /** Invoke the bounded search, with up to half of the remaining iterations. */
  method SearchMore(
    g: Graph, todo: set<nat>, src: SearchCandidateFinder?, first: SetInfo, iterations: nat)
    returns (best: SetInfo, left: nat, optimal: bool, ghost r: Round)
    requires g.AllSized() && todo != {} && todo <= g.used && BestOk(g, todo, first)
    requires src != null ==> src.Valid() && src.depgraph == g && src.Left() == todo
    ensures BestOk(g, todo, best) && best.feerate.AtLeast(first.feerate)
    ensures 0 < first.feerate.size && 0 < best.feerate.size
    ensures optimal ==> Optimal(g, todo, best.feerate)
    ensures IsRound(r, src != null, |todo|, iterations, left) && optimal == (r.done < r.max)
  {
    best, left := first, iterations;
    CrossPlus(first.feerate, first.feerate, first.feerate);
    var iterationsDoneNow, maxIterationsNow := 0, 0;
    if src != null {
      var baseIterations := BaseIterations(|todo|);
      if left > baseIterations {
        left := left - baseIterations;
        maxIterationsNow := (left + 1) / 2;
        best, iterationsDoneNow := BoundedSearch(g, todo, src, maxIterationsNow, best);
        left := left - iterationsDoneNow;
      }
    }
    r := Round(|todo|, iterations, maxIterationsNow, iterationsDoneNow, left);
    optimal := iterationsDoneNow != maxIterationsNow;
    AggSize(g.Rates(), first.transactions);
    AggSize(g.Rates(), best.transactions);
  }

  /** What one round does to the side of the old linearization. */
  lemma {:induction false} EmitOld(
    g: Graph, out: seq<nat>, t: seq<nat>, c: LinearizationChunking, todo: set<nat>, best: SetInfo,
    bound: FeeFrac, optimal: bool, old_: seq<nat>)
    requires Merging.Merging(g, c, out, todo, old_) && Emitted(g, out, todo)
    requires IsOrderOf(t, best.transactions)
    requires GoodFront(g, todo, true, c.groups, best, bound, optimal)
    ensures g.Topological(Drop(c.Remaining(), best.transactions))
    ensures Elems(Drop(c.Remaining(), best.transactions)) == todo - best.transactions
    ensures Dominates(g.Rates(), (out + t) + Drop(c.Remaining(), best.transactions), old_)
  {
    c.SomeChunk();
    TopologicalDrop(g, c.Remaining(), best.transactions);
    DropElems(c.Remaining(), best.transactions);
    if optimal {
      var fr, rest := g.Rates(), Drop(c.Remaining(), best.transactions);
      OptimalFront(g, todo, t, c.Remaining());
      PrependDominates(fr, out, t + rest, c.Remaining());
      Assoc(out, t, rest);
      DominatesTransitive(fr, (out + t) + rest, out + c.Remaining(), old_);
    } else {
      EmitDominates(g.Rates(), out, c.groups, t, bound, old_);
    }
  }

  /** The finders cover what remains. */
  ghost predicate FindersOk(g: Graph, anc: AncestorCandidateFinder, src: SearchCandidateFinder?, todo: set<nat>)
    reads anc, if src == null then {} else {src}
  {
    && anc.Valid() && anc.depgraph == g && anc.todo == todo
    && (src != null ==> src.Valid() && src.depgraph == g && src.Left() == todo)
  }

  /** The old side once `front` has been emitted but not yet marked done. */
  ghost predicate OldEmitted(
    g: Graph, c: LinearizationChunking, hasOld: bool, ret: seq<nat>, todo: set<nat>, front: set<nat>, old_: seq<nat>)
    reads c
  {
    if hasOld then
      && InStep(g, c, todo) && g.Topological(Drop(c.Remaining(), front))
      && Elems(Drop(c.Remaining(), front)) == todo - front
      && Dominates(g.Rates(), ret + Drop(c.Remaining(), front), old_)
    else c.Valid() && c.depgraph == g && c.todo == {}
  }

  /** Append the next set to the output. */
  method EmitSet(
    g: Graph, c: LinearizationChunking, hasOld: bool, out: seq<nat>, best: SetInfo, ghost bound: FeeFrac,
    ghost now: bool, ghost soFar: bool, ghost todo: set<nat>, ghost old_: seq<nat>)
    returns (ret: seq<nat>)
    requires g.Valid() && g.Acyclic() && g.AllSized() && Emitted(g, out, todo) && OldSide(g, c, hasOld, out, todo, old_)
    requires GoodFront(g, todo, hasOld, c.groups, best, bound, now) && (soFar ==> BestSoFar(g, out))
    ensures Emitted(g, ret, todo - best.transactions) && (soFar && now ==> BestSoFar(g, ret))
    ensures OldEmitted(g, c, hasOld, ret, todo, best.transactions, old_)
  {
    ghost var t;
    ret := g.AppendTopo(out, best.transactions);
    t := ret[|out|..];
    assert ret == out + t;
    EmitMore(g, out, todo, t);
    if soFar && now {
      BestSoFarStep(g, out, todo, t);
    }
    if hasOld {
      EmitOld(g, out, t, c, todo, best, bound, now, old_);
    }
  }

  /** Mark the emitted set done everywhere. */
  method MarkAll(
    g: Graph, anc: AncestorCandidateFinder, src: SearchCandidateFinder?, c: LinearizationChunking, hasOld: bool,
    ghost ret: seq<nat>, ghost todo: set<nat>, front: set<nat>, ghost old_: seq<nat>)
    returns (done: bool)
    requires front != {} && front <= todo <= g.used
    requires FindersOk(g, anc, src, todo) && OldEmitted(g, c, hasOld, ret, todo, front, old_)
    modifies anc, c, if src == null then {} else {src}
    ensures done == (todo - front == {})
    ensures done && hasOld ==> Dominates(g.Rates(), ret, old_)
    ensures !done ==> FindersOk(g, anc, src, todo - front) && OldSide(g, c, hasOld, ret, todo - front, old_)
  {
    anc.MarkDone(front);
    if anc.todo == {} {
      if hasOld {
        ElemsEmpty(Drop(c.Remaining(), front));
        assert ret + [] == ret;
      }
      return true;
    }
    if src != null {
      src.MarkDone(front);
    }
    MarkOld(g, c, hasOld, ret, todo, front, old_);
    done := false;
  }

  method MarkOld(
    g: Graph, c: LinearizationChunking, ghost hasOld: bool,
    ghost ret: seq<nat>, ghost todo: set<nat>, front: set<nat>, ghost old_: seq<nat>)
    requires front != {} && front <= todo && OldEmitted(g, c, hasOld, ret, todo, front, old_)
    modifies c
    ensures OldSide(g, c, hasOld, ret, todo - front, old_)
  {
    c.SomeChunk();
    if c.NumChunksLeft() > 0 {
      c.MarkDone(front);
    }
  }

  /** Between rounds: what has been emitted, and what the finders and the old chunks still hold. */
  ghost predicate Underway(
    g: Graph, anc: AncestorCandidateFinder, src: SearchCandidateFinder?, c: LinearizationChunking, hasOld: bool,
    out: seq<nat>, todo: set<nat>, old_: seq<nat>, optimal: bool)
    reads anc, c, if src == null then {} else {src}
  {
    && Emitted(g, out, todo) && (optimal ==> BestSoFar(g, out))
    && if todo == {} then hasOld ==> Dominates(g.Rates(), out, old_)
       else FindersOk(g, anc, src, todo) && OldSide(g, c, hasOld, out, todo, old_)
  }

  /** One round of the loop of `Linearize`. */
  method LinearizeRound(
    g: Graph, anc: AncestorCandidateFinder, src: SearchCandidateFinder?, c: LinearizationChunking, hasOld: bool,
    out: seq<nat>, iterations: nat, optimalSoFar: bool, ghost todo: set<nat>, ghost old_: seq<nat>,
    ghost rounds: seq<Round>, ghost total: nat)
    returns (ret: seq<nat>, left: nat, optimal: bool, done: bool, ghost todo': set<nat>, ghost rounds': seq<Round>)
    requires g.Valid() && g.Acyclic() && todo != {} && Underway(g, anc, src, c, hasOld, out, todo, old_, optimalSoFar)
    requires OnSchedule(src != null, rounds, |g.used|, total, |todo|, iterations, optimalSoFar)
    modifies anc, c, if src == null then {} else {src}
    ensures todo' < todo && done == (todo' == {}) && Underway(g, anc, src, c, hasOld, ret, todo', old_, optimal)
    ensures OnSchedule(src != null, rounds', |g.used|, total, |todo'|, left, optimal)
  {
    var best, now;
    ghost var bound, r;
    best, left, now, bound, r := NextSet(g, anc.todo, anc, src, c, hasOld, iterations);
    optimal := optimalSoFar && now;
    ret := EmitSet(g, c, hasOld, out, best, bound, now, optimalSoFar, todo, old_);
    todo' := todo - best.transactions;
    CardLess(todo', todo);
    ScheduleMore(src != null, rounds, |g.used|, total, |todo|, iterations, optimalSoFar, r, |todo'|, left);
    rounds' := rounds + [r];
    done := MarkAll(g, anc, src, c, hasOld, ret, todo, best.transactions, old_);
  }

  /** What setting up the search is reckoned to cost: N^2/64, rounded up. */
  function StartIterations(n: nat): nat {
    (n * n + 63) / 64
  }

  lemma {:induction false} EmptyCluster(g: Graph, old_: seq<nat>)
    requires g.used == {} && (old_ == [] || IsLinearization(g, old_))
    ensures IsLinearization(g, []) && old_ == []
    ensures forall x :: IsLinearization(g, x) ==> Dominates(g.Rates(), [], x)
  {
    ElemsEmpty(old_);
    BestSoFarStart(g);
    BestSoFarDone(g, []);
  }

  /** A budget that is enough for `n` transactions. */
  function Enough(n: nat): nat {
    StartIterations(n) + Need(n)
  }

  /** How a whole run uses its budget: the start cost first, if there is more than that, then round by round. */
  ghost predicate BudgetUse(rounds: seq<Round>, n: nat, maxIterations: nat) {
    if maxIterations > StartIterations(n) then Complete(true, rounds, n, maxIterations - StartIterations(n))
    else Complete(false, rounds, n, maxIterations)
  }

  lemma {:induction false} CompleteFacts(searching: bool, rounds: seq<Round>, n: nat, total: nat)
    requires Complete(searching, rounds, n, total)
    ensures Steps(rounds) <= total && (searching && total >= Need(n) ==> AllEarly(rounds))
  {
    var left :| Schedule(searching, rounds, n, total, 0, left);
    StepsWithin(searching, rounds, n, total, 0, left);
    if searching && total >= Need(n) {
      EnoughForAll(rounds, n, total, 0, left);
    }
  }

  /** The budget is kept, and one of `Enough` iterations lets every search end early. */
  lemma {:induction false} BudgetFacts(rounds: seq<Round>, n: nat, maxIterations: nat)
    requires BudgetUse(rounds, n, maxIterations)
    ensures Steps(rounds) <= maxIterations && (maxIterations >= Enough(n) ==> AllEarly(rounds))
  {
    Numbers.PowPositive(2, n + 1);
    if maxIterations > StartIterations(n) {
      CompleteFacts(true, rounds, n, maxIterations - StartIterations(n));
    } else {
      CompleteFacts(false, rounds, n, maxIterations);
    }
  }

  /** Find or improve a linearization of a cluster; `rounds` records how the budget is used. */
  method Linearize(g: Graph, maxIterations: nat, oldLinearization: seq<nat>)
    returns (linearization: seq<nat>, optimal: bool, ghost rounds: seq<Round>)
    requires g.Valid() && g.Acyclic() && g.AllSized()
    requires oldLinearization == [] || IsLinearization(g, oldLinearization)
    ensures IsLinearization(g, linearization)
    ensures oldLinearization != [] ==> Dominates(g.Rates(), linearization, oldLinearization)
    ensures optimal ==> forall x :: IsLinearization(g, x) ==> Dominates(g.Rates(), linearization, x)
    ensures g.used != {} ==> BudgetUse(rounds, |g.used|, maxIterations)
    ensures optimal <==> AllEarly(rounds)
    ensures Steps(rounds) <= maxIterations && (maxIterations >= Enough(|g.used|) ==> optimal)
  {
    if g.used == {} {
      EmptyCluster(g, oldLinearization);
      return [], true, [];
    }
    var iterationsLeft, src := SetUp(g, maxIterations);
    linearization, optimal, rounds := LinearizeLoop(g, src, iterationsLeft, oldLinearization);
    BudgetFacts(rounds, |g.used|, maxIterations);
  }

  /** The search finder, unless the budget is too small for it. */
  method SetUp(g: Graph, maxIterations: nat) returns (iterationsLeft: nat, src: SearchCandidateFinder?)
    requires g.Valid() && g.Acyclic() && g.AllSized() && g.used != {}
    ensures src != null <==> maxIterations > StartIterations(|g.used|)
    ensures iterationsLeft == if src == null then maxIterations else maxIterations - StartIterations(|g.used|)
    ensures src != null ==> fresh(src) && src.Valid() && src.depgraph == g && src.Left() == g.used
  {
    iterationsLeft, src := maxIterations, null;
    var startIterations := StartIterations(|g.used|);
    if iterationsLeft > startIterations {
      iterationsLeft := iterationsLeft - startIterations;
      src := new SearchCandidateFinder(g);
    }
  }

  /** The rounds of `Linearize`, from both finders and the old chunks set up to nothing left. */
  method LinearizeRounds(
    g: Graph, anc: AncestorCandidateFinder, src: SearchCandidateFinder?, oldChunking: LinearizationChunking,
    hasOld: bool, iterations: nat, ghost oldLinearization: seq<nat>)
    returns (linearization: seq<nat>, optimal: bool, ghost rounds: seq<Round>)
    requires g.Valid() && g.Acyclic() && g.used != {}
    requires Underway(g, anc, src, oldChunking, hasOld, [], g.used, oldLinearization, true)
    modifies anc, oldChunking, if src == null then {} else {src}
    ensures Underway(g, anc, src, oldChunking, hasOld, linearization, {}, oldLinearization, optimal)
    ensures (optimal <==> AllEarly(rounds)) && Complete(src != null, rounds, |g.used|, iterations)
  {
    linearization, optimal, rounds := [], true, [];
    var iterationsLeft: nat := iterations;
    ghost var todo := g.used;
    ScheduleStart(src != null, |g.used|, iterations);
    var done := false;
    while !done
      invariant Underway(g, anc, src, oldChunking, hasOld, linearization, todo, oldLinearization, optimal)
      invariant done == (todo == {})
      invariant OnSchedule(src != null, rounds, |g.used|, iterations, |todo|, iterationsLeft, optimal)
      decreases todo
    {
      linearization, iterationsLeft, optimal, done, todo, rounds :=
        LinearizeRound(g, anc, src, oldChunking, hasOld, linearization, iterationsLeft, optimal, todo, oldLinearization,
          rounds, iterations);
    }
    assert todo == {};
    ScheduleDone(src != null, rounds, |g.used|, iterations, todo, iterationsLeft, optimal);
  }

  /** `Linearize` with the search finder set up or left out. */
  method LinearizeLoop(
    g: Graph, src: SearchCandidateFinder?, iterations: nat, oldLinearization: seq<nat>)
    returns (linearization: seq<nat>, optimal: bool, ghost rounds: seq<Round>)
    requires g.Valid() && g.Acyclic() && g.AllSized() && g.used != {}
    requires src != null ==> src.Valid() && src.depgraph == g && src.Left() == g.used
    requires oldLinearization == [] || IsLinearization(g, oldLinearization)
    modifies if src == null then {} else {src}
    ensures IsLinearization(g, linearization)
    ensures oldLinearization != [] ==> Dominates(g.Rates(), linearization, oldLinearization)
    ensures optimal ==> forall x :: IsLinearization(g, x) ==> Dominates(g.Rates(), linearization, x)
    ensures (optimal <==> AllEarly(rounds)) && Complete(src != null, rounds, |g.used|, iterations)
  {
    var anc := new AncestorCandidateFinder(g);
    var oldChunking := new LinearizationChunking(g, oldLinearization);
    OldStart(g, oldChunking, oldLinearization);
    BestSoFarStart(g);
    linearization, optimal, rounds :=
      LinearizeRounds(g, anc, src, oldChunking, oldLinearization != [], iterations, oldLinearization);
    EmittedAll(g, linearization);
    if optimal {
      BestSoFarDone(g, linearization);
    }
  }

  lemma {:induction false} OldStart(g: Graph, c: LinearizationChunking, old_: seq<nat>)
    requires c.Valid() && c.depgraph == g && c.todo == Elems(old_) && c.Remaining() == old_
    requires old_ == [] || IsLinearization(g, old_)
    ensures OldSide(g, c, old_ != [], [], g.used, old_)
    ensures Emitted(g, [], g.used)
  {
    if old_ != [] {
      MergeStart(g, c, old_);
    }
  }
}
