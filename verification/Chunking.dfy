/**
 Chunks of a linearization: `SetInfo`, `ChunkLinearization` and `LinearizationChunking`
 (`cluster_linearize.h`).
*/
module Chunking {
  import opened Common
  import opened FeeFracs
  import opened Orders
  import opened Sums
  import opened Diagram
  import opened Improve
  import opened DepGraphs

  /** Some transactions, with their fees and sizes added up. */
  datatype SetInfo = SetInfo(transactions: set<nat>, feerate: FeeFrac)

  ghost predicate Accurate(g: Graph, s: SetInfo) {
    s.transactions <= g.used && s.feerate == Agg(g.Rates(), s.transactions)
  }

  /** Feerates of the chunks `groups`, in order. */
  ghost predicate AreRatesOf(fr: Rates, rates: seq<FeeFrac>, groups: seq<seq<nat>>) {
    |rates| == |groups| && forall k :: 0 <= k < |groups| ==> rates[k] == AggSeq(fr, groups[k])
  }

  /** Sets and feerates of the chunks `groups`, in order. */
  ghost predicate AreInfosOf(fr: Rates, infos: seq<SetInfo>, groups: seq<seq<nat>>) {
    |infos| == |groups|
    && forall k :: 0 <= k < |groups| ==> infos[k] == SetInfo(Elems(groups[k]), AggSeq(fr, groups[k]))
  }

  /** The chunking of `l`: its division into chunks of non-increasing feerate. */
  ghost predicate IsChunking(fr: Rates, groups: seq<seq<nat>>, l: seq<nat>) {
    Flatten(groups) == l && AreChunks(fr, groups) && NonIncreasing(fr, groups)
  }

  // ----- one absorption step

  /** A higher-feerate group at the end absorbs the last chunk. */
  lemma {:induction false} AbsorbLast(fr: Rates, groups: seq<seq<nat>>, cur: seq<nat>)
    requires groups != [] && AreChunks(fr, groups) && NonIncreasing(fr, groups) && IsChunk(fr, cur)
    requires AggSeq(fr, cur).Higher(AggSeq(fr, groups[|groups| - 1]))
    ensures var n := |groups| - 1;
      && AreChunks(fr, groups[..n]) && NonIncreasing(fr, groups[..n])
      && IsChunk(fr, groups[n] + cur)
      && AggSeq(fr, groups[n] + cur) == AggSeq(fr, cur).Plus(AggSeq(fr, groups[n]))
      && Flatten(groups[..n]) + (groups[n] + cur) == Flatten(groups) + cur
  {
    var n := |groups| - 1;
    ChunkMerge(fr, groups[n], cur);
    assert groups == groups[..n] + [groups[n]];
    FlattenSnoc(groups[..n], groups[n]);
    Assoc(Flatten(groups[..n]), groups[n], cur);
  }

  /** A group that is not higher than the last chunk starts a chunk of its own. */
  lemma {:induction false} PushLast(fr: Rates, groups: seq<seq<nat>>, cur: seq<nat>)
    requires AreChunks(fr, groups) && NonIncreasing(fr, groups) && IsChunk(fr, cur)
    requires groups != [] ==> !AggSeq(fr, cur).Higher(AggSeq(fr, groups[|groups| - 1]))
    ensures AreChunks(fr, groups + [cur]) && NonIncreasing(fr, groups + [cur])
    ensures Flatten(groups + [cur]) == Flatten(groups) + cur
  {
    FlattenSnoc(groups, cur);
    var n := |groups| - 1;
    forall i | 0 <= i < |groups| ensures AggSeq(fr, cur).Cross(AggSeq(fr, groups[i])) <= 0 {
      var a, b, c := AggSeq(fr, groups[i]), AggSeq(fr, groups[n]), AggSeq(fr, cur);
      AggSeqSize(fr, groups[i]);
      AggSeqSize(fr, groups[n]);
      AggSeqSize(fr, cur);
      CrossPlus(a, b, c);
      CrossPlus(b, c, a);
      CrossPlus(c, a, b);
      if i < n {
        CrossTransitive(a, b, c);
      }
    }
  }

  /** `ret` lists the feerates of the chunks of `l`; by `ChunkingUnique` there is no choice in them. */
  ghost predicate AreChunkRates(fr: Rates, l: seq<nat>, ret: seq<FeeFrac>) {
    exists groups :: IsChunking(fr, groups, l) && AreRatesOf(fr, ret, groups)
  }

  /** Feerates of the chunks of a linearization. */
  method ChunkLinearization(g: Graph, linearization: seq<nat>) returns (ret: seq<FeeFrac>)
    requires g.AllSized() && Elems(linearization) <= g.used
    ensures AreChunkRates(g.Rates(), linearization, ret)
  {
    ret := [];
    ghost var groups: seq<seq<nat>> := [];
    ghost var fr := g.Rates();
    for n := 0 to |linearization|
      invariant IsChunking(fr, groups, linearization[..n]) && AreRatesOf(fr, ret, groups)
    {
      var i := linearization[n];
      assert i in Elems(linearization);
      var newChunk := g.entries[i].feerate;
      ghost var cur := [i];
      SingletonChunk(fr, i);
      while ret != [] && newChunk.Higher(ret[|ret| - 1])
        invariant AreChunks(fr, groups) && NonIncreasing(fr, groups) && AreRatesOf(fr, ret, groups)
        invariant IsChunk(fr, cur) && newChunk == AggSeq(fr, cur)
        invariant Flatten(groups) + cur == linearization[..n] + [i]
        decreases |ret|
      {
        ghost var k := |groups| - 1;
        AbsorbLast(fr, groups, cur);
        newChunk := newChunk.Plus(ret[|ret| - 1]);
        ret := ret[..|ret| - 1];
        cur := groups[k] + cur;
        groups := groups[..k];
      }
      PushLast(fr, groups, cur);
      ret := ret + [newChunk];
      groups := groups + [cur];
      assert linearization[..n + 1] == linearization[..n] + [i];
    }
    assert linearization[..|linearization|] == linearization;
  }

  /** A linearization has only one chunking. */
  lemma {:induction false} ChunkingUnique(fr: Rates, a: seq<seq<nat>>, b: seq<seq<nat>>, l: seq<nat>)
    requires IsChunking(fr, a, l) && IsChunking(fr, b, l)
    ensures a == b
  {
    if a == [] || b == [] {
      FlattenEmpty(fr, a);
      FlattenEmpty(fr, b);
    } else {
      FirstChunkLength(fr, a, b, l);
      FirstChunkLength(fr, b, a, l);
      var n := |a[0]|;
      assert a[0] == l[..n] && b[0] == l[..n];
      assert Flatten(a[1..]) == l[n..] && Flatten(b[1..]) == l[n..];
      ChunkingTail(fr, a, l);
      ChunkingTail(fr, b, l);
      ChunkingUnique(fr, a[1..], b[1..], l[n..]);
    }
  }

  lemma {:induction false} ChunkingTail(fr: Rates, a: seq<seq<nat>>, l: seq<nat>)
    requires IsChunking(fr, a, l) && a != []
    ensures |a[0]| <= |l| && IsChunking(fr, a[1..], l[|a[0]|..])
  {
    assert l == a[0] + Flatten(a[1..]);
    assert forall i :: 0 <= i < |a[1..]| ==> a[1..][i] == a[i + 1];
  }

  lemma {:induction false} FlattenEmpty(fr: Rates, a: seq<seq<nat>>)
    requires AreChunks(fr, a)
    ensures Flatten(a) == [] <==> a == []
  {
    if a != [] {
      assert Flatten(a) == a[0] + Flatten(a[1..]);
      assert IsChunk(fr, a[0]);
    }
  }

  /** No prefix of a linearization has a higher feerate than its first chunk. */
  lemma {:induction false} FirstChunkBest(fr: Rates, a: seq<seq<nat>>, l: seq<nat>, k: nat)
    requires IsChunking(fr, a, l) && a != [] && k <= |l|
    ensures AggPrefix(fr, l, k).Cross(AggSeq(fr, a[0])) <= 0
  {
    var A := AggSeq(fr, a[0]);
    var p, q := A.fee, A.size;
    var w := Weights(fr, p, q);
    AggSeqSize(fr, a[0]);
    var m := BestAtBoundary(fr, p, q, a);
    forall i | 0 <= i < m ensures AggSeq(fr, a[..m][i]).Above(p, q) <= 0 {
      var c := AggSeq(fr, a[i]);
      assert c.Above(p, q) == c.Cross(A);
      CrossPlus(A, A, A);
    }
    ChunksBelow(fr, p, q, a[..m]);
    BestBound(w, l, k);
    PrefixSumWeights(fr, p, q, l, k);
    assert AggPrefix(fr, l, k).Above(p, q) == AggPrefix(fr, l, k).Cross(A);
  }

  /** Two chunkings of one linearization start with chunks of the same length. */
  lemma {:induction false} FirstChunkLength(fr: Rates, a: seq<seq<nat>>, b: seq<seq<nat>>, l: seq<nat>)
    requires IsChunking(fr, a, l) && IsChunking(fr, b, l) && a != [] && b != []
    ensures |b[0]| <= |a[0]|
  {
    var n, m := |a[0]|, |b[0]|;
    if n < m {
      assert l == a[0] + Flatten(a[1..]) && l == b[0] + Flatten(b[1..]);
      assert IsChunk(fr, a[0]) && IsChunk(fr, b[0]);
      PrefixAgg(fr, a[0], Flatten(a[1..]), n);
      PrefixAgg(fr, b[0], Flatten(b[1..]), n);
      PrefixAgg(fr, b[0], Flatten(b[1..]), m);
      FirstChunkBest(fr, a, l, m);
      CrossPlus(AggSeq(fr, a[0]), AggSeq(fr, b[0]), AggSeq(fr, b[0]));
      assert false;
    }
  }

  lemma {:induction false} PrefixAgg(fr: Rates, a: seq<nat>, b: seq<nat>, n: nat)
    requires n <= |a|
    ensures AggPrefix(fr, a + b, n) == AggPrefix(fr, a, n)
    ensures n == |a| ==> AggPrefix(fr, a + b, n) == AggSeq(fr, a)
  {
    PrefixSumConcat(Fees(fr), a, b, n);
    PrefixSumConcat(Sizes(fr), a, b, n);
  }

  // ----- sets moved to the front

  /** The members of the first `m` groups. */
  ghost function Head(groups: seq<seq<nat>>, m: nat): set<nat>
    requires m <= |groups|
  {
    Elems(Flatten(groups[..m]))
  }

  lemma {:induction false} HeadStep(groups: seq<seq<nat>>, m: nat)
    requires m < |groups|
    ensures Head(groups, m + 1) == Head(groups, m) + Elems(groups[m])
  {
    assert groups[..m + 1] == groups[..m] + [groups[m]];
    FlattenSnoc(groups[..m], groups[m]);
    ElemsConcat(Flatten(groups[..m]), groups[m]);
  }

  lemma {:induction false} HeadMonotone(groups: seq<seq<nat>>, m: nat, n: nat)
    requires m <= n <= |groups|
    ensures Head(groups, m) <= Head(groups, n)
  {
    if m < n {
      HeadMonotone(groups, m, n - 1);
      HeadStep(groups, n - 1);
    }
  }

  /** What `s` has in the first `m` groups is nothing, or lower in feerate than `s`. */
  ghost predicate HeadLower(fr: Rates, groups: seq<seq<nat>>, s: SetInfo, m: nat)
    requires m <= |groups|
  {
    var part := s.transactions * Head(groups, m);
    part == {} || Agg(fr, part).Lower(s.feerate)
  }

  ghost predicate HeadsLower(fr: Rates, groups: seq<seq<nat>>, s: SetInfo, n: nat)
    requires n <= |groups| + 1
  {
    forall m: nat :: m < n ==> HeadLower(fr, groups, s, m)
  }

  lemma {:induction false} HeadsLowerStep(fr: Rates, groups: seq<seq<nat>>, s: SetInfo, n: nat, part: set<nat>)
    requires n <= |groups| && HeadsLower(fr, groups, s, n) && part == s.transactions * Head(groups, n)
    requires part == {} || Agg(fr, part).Lower(s.feerate)
    ensures HeadsLower(fr, groups, s, n + 1)
  {
    forall m: nat | m < n + 1 ensures HeadLower(fr, groups, s, m) {
      if m == n {
        assert HeadLower(fr, groups, s, n);
      }
    }
  }

  /** `t` is what `s` has in some first groups, not lower in feerate than `s`, and no fewer groups do. */
  ghost predicate IsShortestPart(fr: Rates, groups: seq<seq<nat>>, s: SetInfo, t: set<nat>) {
    t != {} && !Agg(fr, t).Lower(s.feerate)
    && exists j: nat :: j <= |groups| && t == s.transactions * Head(groups, j) && HeadsLower(fr, groups, s, j)
  }

  lemma {:induction false} ShortestPartIntro(fr: Rates, groups: seq<seq<nat>>, s: SetInfo, t: set<nat>, j: nat)
    requires t != {} && !Agg(fr, t).Lower(s.feerate)
    requires j <= |groups| && t == s.transactions * Head(groups, j) && HeadsLower(fr, groups, s, j)
    ensures IsShortestPart(fr, groups, s, t)
  {
  }

  /** The whole set is the part if every shorter prefix is lower. */
  lemma {:induction false} WholePart(fr: Rates, groups: seq<seq<nat>>, s: SetInfo, j: nat)
    requires s.transactions != {} && s.feerate == Agg(fr, s.transactions)
    requires j <= |groups| && s.transactions <= Head(groups, j) && HeadsLower(fr, groups, s, j)
    ensures IsShortestPart(fr, groups, s, s.transactions)
  {
    CrossPlus(s.feerate, EMPTY, s.feerate);
    assert s.transactions * Head(groups, j) == s.transactions;
    ShortestPartIntro(fr, groups, s, s.transactions, j);
  }

  /** Whatever a chunk prefix misses of the shortest part has a high feerate. */
  lemma {:induction false} TailsOfShortest(fr: Rates, groups: seq<seq<nat>>, s: SetInfo, t: set<nat>)
    requires IsShortestPart(fr, groups, s, t)
    ensures TailsAtLeast(fr, groups, t, s.feerate)
  {
    var j: nat :| j <= |groups| && t == s.transactions * Head(groups, j) && HeadsLower(fr, groups, s, j);
    forall m | 0 <= m <= |groups|
      ensures var missed := t - Elems(Flatten(groups[..m])); missed == {} || Agg(fr, missed).Cross(s.feerate) >= 0
    {
      var missed := t - Head(groups, m);
      if m < j {
        HeadMonotone(groups, m, j);
        assert HeadLower(fr, groups, s, m);
        var part := s.transactions * Head(groups, m);
        assert part == t * Head(groups, m);
        AggSplit(fr, t, Head(groups, m));
        AggEmpty(fr);
        CrossPlus(Agg(fr, part), Agg(fr, missed), s.feerate);
      } else {
        HeadMonotone(groups, j, m);
        assert missed == {};
      }
    }
  }

  lemma {:induction false} HeadZero(groups: seq<seq<nat>>)
    ensures Head(groups, 0) == {}
  {
    assert groups[..0] == [];
  }

  /** One more chunk adds its part of the subset, which is new. */
  lemma {:induction false} AddPart(fr: Rates, groups: seq<seq<nat>>, s: SetInfo, i: nat, part: set<nat>)
    requires i < |groups| && NoDup(Flatten(groups)) && part == Elems(groups[i]) * s.transactions
    ensures s.transactions * Head(groups, i + 1) == s.transactions * Head(groups, i) + part
    ensures Agg(fr, s.transactions * Head(groups, i) + part)
         == Agg(fr, s.transactions * Head(groups, i)).Plus(Agg(fr, part))
  {
    HeadStep(groups, i);
    FlattenSplit(groups, i);
    var a := Flatten(groups[..i]) + groups[i];
    NoDupConcat(a, Flatten(groups[i + 1..]));
    NoDupConcat(Flatten(groups[..i]), groups[i]);
    AggUnion(fr, s.transactions * Head(groups, i), part);
  }

  lemma {:induction false} KeepSnoc(l: seq<nat>, n: nat, s: set<nat>)
    requires n < |l|
    ensures Keep(l[..n + 1], s) == if l[n] in s then Keep(l[..n], s) + [l[n]] else Keep(l[..n], s)
  {
    assert l[..n + 1] == l[..n] + [l[n]];
    KeepConcat(l[..n], [l[n]], s);
    assert Keep([l[n]], s) == if l[n] in s then [l[n]] + Keep([l[n]][1..], s) else Keep([l[n]][1..], s);
  }

  /** Dropping a chunk from the front of an order leaves the rest as it is. */
  lemma {:induction false} DropFirst(first: seq<nat>, rest: seq<nat>)
    requires NoDup(first + rest)
    ensures Drop(first + rest, Elems(first)) == rest
  {
    NoDupConcat(first, rest);
    DropConcat(first, rest, Elems(first));
    DropAll(first, Elems(first));
    DropNothing(rest, Elems(first));
  }

  lemma {:induction false} PrefixElems(a: seq<nat>, b: seq<nat>)
    requires a <= b
    ensures Elems(a) <= Elems(b)
  {
    forall x | x in a ensures x in b {
      var i :| 0 <= i < |a| && a[i] == x;
      assert b[i] == x;
    }
  }

  /** The first entries hold only members of a first chunk at least as long. */
  lemma {:induction false} CutEntries(a: seq<nat>, b: seq<nat>, todo: set<nat>, first: seq<nat>, rest: seq<nat>)
    requires Keep(a, todo) + Keep(b, todo) == first + rest && |a| <= |first|
    ensures Keep(a, todo - Elems(first)) == []
  {
    KeepElems(a, todo);
    var x := Keep(a, todo);
    assert x <= first by {
      assert forall i :: 0 <= i < |x| ==> x[i] == (x + Keep(b, todo))[i] == (first + rest)[i] == first[i];
    }
    PrefixElems(x, first);
    KeepMinus(a, todo, Elems(first));
    DropAll(x, Elems(first));
  }

  lemma {:induction false} CutRest(a: seq<nat>, b: seq<nat>, todo: set<nat>, first: seq<nat>, rest: seq<nat>)
    requires Keep(a + b, todo) == first + rest && NoDup(first + rest) && |a| == |first|
    ensures Keep(b, todo - Elems(first)) == rest
  {
    var left := todo - Elems(first);
    KeepConcat(a, b, todo);
    CutEntries(a, b, todo, first, rest);
    KeepConcat(a, b, left);
    assert Keep(b, left) == Keep(a + b, left);
    KeepMinus(a + b, todo, Elems(first));
    DropFirst(first, rest);
  }

  lemma {:induction false} CutMembers(b: seq<nat>, s: set<nat>, todo: set<nat>, first: seq<nat>, rest: seq<nat>)
    requires Keep(b, s) == rest && todo == Elems(first + rest) && NoDup(first + rest) && s == todo - Elems(first)
    ensures s <= Elems(b)
  {
    ElemsConcat(first, rest);
    NoDupConcat(first, rest);
    KeepElems(b, s);
  }

  /** Skipping the first chunk: as many entries can be cut off as the chunk has members. */
  lemma {:induction false} CutFirstChunk(l: seq<nat>, todo: set<nat>, first: seq<nat>, rest: seq<nat>)
    requires NoDup(l) && todo <= Elems(l) && Keep(l, todo) == first + rest
    ensures |Elems(first)| == |first| <= |l|
    ensures Keep(l[|first|..], todo - Elems(first)) == rest
    ensures todo - Elems(first) <= Elems(l[|first|..])
    ensures NoDup(l[|first|..])
  {
    KeepElems(l, todo);
    NoDupConcat(first, rest);
    ElemsCard(first);
    var a, b := l[..|first|], l[|first|..];
    assert l == a + b;
    NoDupConcat(a, b);
    CutRest(a, b, todo, first, rest);
    CutMembers(b, todo - Elems(first), todo, first, rest);
  }

  lemma {:induction false} TailInfos(fr: Rates, infos: seq<SetInfo>, groups: seq<seq<nat>>)
    requires groups != [] && AreInfosOf(fr, infos, groups) && AreChunks(fr, groups) && NonIncreasing(fr, groups)
    ensures AreInfosOf(fr, infos[1..], groups[1..]) && AreChunks(fr, groups[1..]) && NonIncreasing(fr, groups[1..])
  {
    assert forall i :: 0 <= i < |groups[1..]| ==> groups[1..][i] == groups[i + 1];
  }

  /** With its first chunk gone, what is left of the linearization has the rest of the chunks. */
  lemma {:induction false} FirstSkipped(
    fr: Rates, l: seq<nat>, todo: set<nat>, infos: seq<SetInfo>, skip: nat, groups: seq<seq<nat>>)
    requires groups != [] && NoDup(l) && todo + Elems(groups[0]) <= Elems(l) && todo !! Elems(groups[0])
    requires skip < |infos| && AreInfosOf(fr, infos[skip..], groups)
    requires IsChunking(fr, groups, Keep(l, todo + Elems(groups[0])))
    ensures |Elems(groups[0])| <= |l|
    ensures IsChunking(fr, groups[1..], Keep(l[|Elems(groups[0])|..], todo))
    ensures AreInfosOf(fr, infos[skip + 1..], groups[1..])
    ensures Flatten(groups[1..]) == Drop(Flatten(groups), Elems(groups[0]))
    ensures todo <= Elems(l[|Elems(groups[0])|..]) && NoDup(l[|Elems(groups[0])|..])
  {
    var first, rest := groups[0], Flatten(groups[1..]);
    assert todo + Elems(first) - Elems(first) == todo;
    CutFirstChunk(l, todo + Elems(first), first, rest);
    KeepElems(l, todo + Elems(first));
    DropFirst(first, rest);
    TailInfos(fr, infos[skip..], groups);
    assert infos[skip..][1..] == infos[skip + 1..];
  }

  class LinearizationChunking {
    const depgraph: Graph
    var linearization: seq<nat>
    var chunks: seq<SetInfo>
    var chunksSkip: nat
    var todo: set<nat>
    /** The remaining chunks as sequences, in linearization order. */
    ghost var groups: seq<seq<nat>>

    ghost predicate Ready()
      reads this
    {
      && depgraph.AllSized() && todo <= depgraph.used
      && NoDup(linearization) && todo <= Elems(linearization)
    }

    ghost predicate Valid()
      reads this
    {
      && Ready()
      && IsChunking(depgraph.Rates(), groups, Keep(linearization, todo))
      && chunksSkip <= |chunks|
      && AreInfosOf(depgraph.Rates(), chunks[chunksSkip..], groups)
    }

    /** What remains of the linearization. */
    ghost function Remaining(): seq<nat>
      reads this
    {
      Flatten(groups)
    }

    constructor (g: Graph, lin: seq<nat>)
      requires g.AllSized() && Elems(lin) <= g.used && NoDup(lin)
      ensures Valid() && depgraph == g && todo == Elems(lin) && Remaining() == lin
    {
      depgraph := g;
      linearization := lin;
      todo := Elems(lin);
      chunks := [];
      chunksSkip := 0;
      groups := [];
      new;
      BuildChunks();
      KeepAll(lin, todo);
    }

    method BuildChunks()
      requires Ready() && chunks == [] && chunksSkip == 0
      modifies this`linearization, this`chunks, this`groups
      ensures Valid() && Remaining() == Keep(old(linearization), todo)
    {
      while linearization != [] && linearization[0] !in todo
        invariant Ready() && chunks == [] && Keep(linearization, todo) == Keep(old(linearization), todo)
        decreases |linearization|
      {
        assert linearization == [linearization[0]] + linearization[1..];
        ElemsConcat([linearization[0]], linearization[1..]);
        NoDupConcat([linearization[0]], linearization[1..]);
        linearization := linearization[1..];
      }
      groups := [];
      ghost var fr, lin := depgraph.Rates(), linearization;
      for n := 0 to |linearization|
        invariant linearization == lin
        invariant IsChunking(fr, groups, Keep(lin[..n], todo)) && AreInfosOf(fr, chunks, groups)
      {
        var idx := linearization[n];
        KeepSnoc(lin, n, todo);
        if idx in todo {
          Append(idx);
        }
      }
      assert lin[..|lin|] == lin;
      assert chunks[chunksSkip..] == chunks;
    }

    /** Loop body of `BuildChunks`: add one transaction, absorbing lower chunks. */
    method Append(idx: nat)
      requires idx < |depgraph.entries| && 0 < depgraph.entries[idx].feerate.size
      requires AreChunks(depgraph.Rates(), groups) && NonIncreasing(depgraph.Rates(), groups)
      requires AreInfosOf(depgraph.Rates(), chunks, groups)
      modifies this`chunks, this`groups
      ensures AreChunks(depgraph.Rates(), groups) && NonIncreasing(depgraph.Rates(), groups)
      ensures AreInfosOf(depgraph.Rates(), chunks, groups)
      ensures Flatten(groups) == old(Flatten(groups)) + [idx]
    {
      ghost var fr := depgraph.Rates();
      var add := SetInfo({idx}, depgraph.entries[idx].feerate);
      ghost var cur := [idx];
      SingletonChunk(fr, idx);
      assert Elems([idx]) == {idx};
      while chunks != [] && add.feerate.Higher(chunks[|chunks| - 1].feerate)
        invariant AreChunks(fr, groups) && NonIncreasing(fr, groups) && AreInfosOf(fr, chunks, groups)
        invariant IsChunk(fr, cur) && add == SetInfo(Elems(cur), AggSeq(fr, cur))
        invariant Flatten(groups) + cur == old(Flatten(groups)) + [idx]
        decreases |chunks|
      {
        ghost var k := |groups| - 1;
        AbsorbLast(fr, groups, cur);
        ElemsConcat(groups[k], cur);
        var back := chunks[|chunks| - 1];
        add := SetInfo(add.transactions + back.transactions, add.feerate.Plus(back.feerate));
        chunks := chunks[..|chunks| - 1];
        cur := groups[k] + cur;
        groups := groups[..k];
      }
      PushLast(fr, groups, cur);
      chunks := chunks + [add];
      groups := groups + [cur];
    }

    function NumChunksLeft(): int
      reads this
    {
      |chunks| - chunksSkip
    }

    /** Remove some transactions from the linearization. */
    method MarkDone(subset: set<nat>)
      requires Valid() && subset != {} && subset <= todo
      modifies this
      ensures Valid() && todo == old(todo) - subset
      ensures Remaining() == Drop(old(Remaining()), subset)
      ensures NumChunksLeft() == 0 <==> todo == {}
    {
      SomeChunk();
      KeepMinus(linearization, todo, subset);
      assert todo - subset + subset == todo;
      todo := todo - subset;
      if chunks[chunksSkip].transactions == subset {
        SkipFirst(subset);
      } else {
        chunks := [];
        chunksSkip := 0;
        BuildChunks();
      }
      SomeChunk();
    }

    /** Fast path of `MarkDone`: the done set is exactly the first chunk. */
    method SkipFirst(subset: set<nat>)
      requires groups != [] && subset == Elems(groups[0])
      requires chunksSkip < |chunks| && AreInfosOf(depgraph.Rates(), chunks[chunksSkip..], groups)
      requires NoDup(linearization) && todo + subset <= Elems(linearization) && todo !! subset
      requires depgraph.AllSized() && todo <= depgraph.used
      requires IsChunking(depgraph.Rates(), groups, Keep(linearization, todo + subset))
      modifies this`chunksSkip, this`linearization, this`groups
      ensures Valid() && Remaining() == Drop(old(Remaining()), subset)
    {
      FirstSkipped(depgraph.Rates(), linearization, todo, chunks, chunksSkip, groups);
      chunksSkip := chunksSkip + 1;
      linearization := linearization[|subset|..];
      groups := groups[1..];
    }

    /** The shortest intersection of `subset` with a chunk prefix that is not lower in feerate. */
    method IntersectPrefixes(subset: SetInfo) returns (ret: SetInfo)
      requires Valid() && Accurate(depgraph, subset)
      requires subset.transactions != {} && subset.transactions <= todo
      ensures Accurate(depgraph, ret)
      ensures IsShortestPart(depgraph.Rates(), groups, subset, ret.transactions)
    {
      ghost var fr, j := depgraph.Rates(), 0;
      SomeChunk();
      var accumulator := SetInfo({}, EMPTY);
      AggEmpty(fr);
      HeadZero(groups);
      var i := 0;
      while i < NumChunksLeft()
        invariant 0 <= i <= |groups| && j == i
        invariant accumulator.transactions == subset.transactions * Head(groups, i)
        invariant accumulator.feerate == Agg(fr, accumulator.transactions)
        invariant HeadsLower(fr, groups, subset, i + 1)
      {
        assert chunks[chunksSkip..][i] == chunks[chunksSkip + i];
        var toAdd := chunks[chunksSkip + i].transactions * subset.transactions;
        AddPart(fr, groups, subset, i, toAdd);
        j := i + 1;
        if toAdd != {} {
          var all := accumulator.transactions + toAdd;
          if all == subset.transactions {
            break;
          }
          var more := depgraph.FeeRate(toAdd);
          accumulator := SetInfo(all, accumulator.feerate.Plus(more));
          if !accumulator.feerate.Lower(subset.feerate) {
            ShortestPartIntro(fr, groups, subset, all, j);
            return accumulator;
          }
        } else {
          assert HeadLower(fr, groups, subset, i);
        }
        HeadsLowerStep(fr, groups, subset, j, accumulator.transactions);
        i := i + 1;
      }
      if i == |groups| {
        assert groups[..i] == groups;
      }
      WholePart(fr, groups, subset, j);
      ret := subset;
    }

    /** Chunks are left exactly while transactions are left. */
    lemma SomeChunk()
      requires Valid()
      ensures NumChunksLeft() == |groups|
      ensures groups == [] <==> todo == {}
      ensures Elems(Remaining()) == todo && NoDup(Remaining())
      ensures groups != [] ==> chunks[chunksSkip] == SetInfo(Elems(groups[0]), AggSeq(depgraph.Rates(), groups[0]))
    {
      KeepElems(linearization, todo);
      FlattenEmpty(depgraph.Rates(), groups);
      if groups != [] {
        assert chunks[chunksSkip..][0] == chunks[chunksSkip];
        assert Remaining()[0] in Elems(Remaining());
      } else {
        assert Elems(Remaining()) == {};
      }
    }
  }
}
