/**
 `PostLinearize` (`cluster_linearize.h`) as it is written: groups are singly-linked lists
 of transactions from back to front, themselves linked from back to front in a circular
 list through a sentinel.  `Rep` relates these links to a list of groups.
*/
module PostLinearization {
  import opened Common
  import opened FeeFracs
  import opened Orders
  import opened Sums
  import opened DepGraphs
  import opened Merging
  import opened Diagram
  import opened PostSpec
  import opened PostGuarantees

  const SENTINEL: nat := 0
  const NO_PREV_TX: nat := 0

  datatype TxEntry = TxEntry(
    prevTx: nat, firstTx: nat, prevGroup: nat, group: set<nat>, deps: set<nat>, feerate: FeeFrac)

  // ----- what the entries represent

  /** Entry index of the last transaction of a group. */
  ghost function Tail(s: seq<nat>): nat
    requires s != []
  {
    s[|s| - 1] + 1
  }

  /** Entry index of the transaction before position `i`. */
  ghost function Before(s: seq<nat>, i: nat): nat
    requires i <= |s|
  {
    if i == 0 then NO_PREV_TX else s[i - 1] + 1
  }

  /** All ancestors of members of `s`. */
  ghost function DepsOf(h: Graph, s: seq<nat>): set<nat> {
    if s == [] then {} else DepsOf(h, s[..|s| - 1]) + h.Anc(s[|s| - 1])
  }

  /** Member `i` of the group points to the one before it. */
  ghost predicate ChainAt(e: seq<TxEntry>, s: seq<nat>, i: nat)
    requires i < |s|
  {
    s[i] + 1 < |e| && e[s[i] + 1].prevTx == Before(s, i)
  }

  ghost predicate Chained(e: seq<TxEntry>, s: seq<nat>) {
    forall i {:trigger ChainAt(e, s, i)} :: 0 <= i < |s| ==> ChainAt(e, s, i)
  }

  /** The entries hold the group `s`. */
  ghost predicate GroupRep(h: Graph, e: seq<TxEntry>, s: seq<nat>) {
    && s != [] && NoDup(s) && Chained(e, s) && ChainAt(e, s, |s| - 1)
    && e[Tail(s)].firstTx == s[0] + 1
    && e[Tail(s)].group == Elems(s)
    && e[Tail(s)].deps == DepsOf(h, s)
    && e[Tail(s)].feerate == AggSeq(h.Rates(), s)
  }

  ghost predicate AllGroups(h: Graph, e: seq<TxEntry>, groups: seq<seq<nat>>) {
    forall k {:trigger GroupRep(h, e, groups[k])} :: 0 <= k < |groups| ==> GroupRep(h, e, groups[k])
  }

  ghost predicate Apart(groups: seq<seq<nat>>) {
    forall i, j {:trigger Elems(groups[i]), Elems(groups[j])} :: 0 <= i < j < |groups| ==>
      Elems(groups[i]) !! Elems(groups[j])
  }

  /** Index of the group before position `k`; the sentinel for the first. */
  ghost function PrevTail(groups: seq<seq<nat>>, k: nat): nat
    requires k <= |groups|
  {
    if k == 0 || groups[k - 1] == [] then SENTINEL else Tail(groups[k - 1])
  }

  /** Group `k` points to the one before it. */
  ghost predicate LinkAt(e: seq<TxEntry>, groups: seq<seq<nat>>, k: nat)
    requires k < |groups|
  {
    && groups[k] != [] && Tail(groups[k]) < |e|
    && e[Tail(groups[k])].prevGroup == PrevTail(groups, k)
  }

  ghost predicate Linked(e: seq<TxEntry>, groups: seq<seq<nat>>) {
    && e != [] && e[SENTINEL].prevGroup == PrevTail(groups, |groups|)
    && forall k {:trigger LinkAt(e, groups, k)} :: 0 <= k < |groups| ==> LinkAt(e, groups, k)
  }

  /** The entries hold exactly the list of groups. */
  ghost predicate Rep(h: Graph, e: seq<TxEntry>, groups: seq<seq<nat>>) {
    && e != [] && e[SENTINEL].feerate == EMPTY
    && AllGroups(h, e, groups) && Apart(groups) && Linked(e, groups)
  }

  ghost predicate Within(groups: seq<seq<nat>>, s: set<nat>) {
    forall k :: 0 <= k < |groups| ==> Elems(groups[k]) <= s
  }

  // ----- dependencies of groups

  lemma {:induction false} DepsConcat(h: Graph, a: seq<nat>, b: seq<nat>)
    ensures DepsOf(h, a + b) == DepsOf(h, a) + DepsOf(h, b)
  {
    if b == [] {
      assert a + b == a;
    } else {
      var n := |b| - 1;
      assert (a + b)[..|a + b| - 1] == a + b[..n];
      DepsConcat(h, a, b[..n]);
    }
  }

  lemma {:induction false} DepsMember(h: Graph, s: seq<nat>, y: nat)
    ensures y in DepsOf(h, s) <==> exists x :: x in s && y in h.Anc(x)
  {
    if s != [] {
      var n := |s| - 1;
      DepsMember(h, s[..n], y);
      assert forall x :: x in s <==> x in s[..n] || x == s[n];
    }
  }

  lemma {:induction false} OverlapIsDependency(h: Graph, a: seq<nat>, b: seq<nat>)
    ensures DepsOf(h, a) * Elems(b) != {} <==> Depends(h, a, b)
  {
    forall y ensures y in DepsOf(h, a) <==> exists x :: x in a && y in h.Anc(x) {
      DepsMember(h, a, y);
    }
    if Depends(h, a, b) {
      var x, y :| x in a && y in b && y in h.Anc(x);
      assert y in DepsOf(h, a) * Elems(b);
    }
    if DepsOf(h, a) * Elems(b) != {} {
      var y :| y in DepsOf(h, a) * Elems(b);
      assert y in b;
    }
  }

  // ----- changes that leave a group alone

  /** Entries of members of `s` agree, apart from the link between groups. */
  ghost predicate SameGroup(e: seq<TxEntry>, e': seq<TxEntry>, s: seq<nat>) {
    && |e| == |e'|
    && forall x :: x in s && x + 1 < |e| ==> e'[x + 1] == e[x + 1].(prevGroup := e'[x + 1].prevGroup)
  }

  lemma {:induction false} GroupKept(h: Graph, e: seq<TxEntry>, e': seq<TxEntry>, s: seq<nat>)
    requires GroupRep(h, e, s) && SameGroup(e, e', s)
    ensures GroupRep(h, e', s)
  {
    forall i | 0 <= i < |s| ensures ChainAt(e', s, i) {
      assert ChainAt(e, s, i) && s[i] in s;
    }
    assert s[|s| - 1] in s;
  }

  lemma {:induction false} TailsDiffer(groups: seq<seq<nat>>, i: nat, j: nat, x: nat)
    requires Apart(groups) && i < |groups| && j < |groups| && i != j && x in groups[i]
    ensures x !in groups[j]
  {
    assert x in Elems(groups[i]);
    if i < j {
      assert Elems(groups[i]) !! Elems(groups[j]);
    } else {
      assert Elems(groups[j]) !! Elems(groups[i]);
    }
  }

  // ----- merging a group with the one before it

  /** `e'` is `e` after the group ending at `c` has absorbed the group ending at `p`. */
  ghost predicate Absorbs(e: seq<TxEntry>, e': seq<TxEntry>, c: nat, p: nat)
  {
    && |e'| == |e| && c < |e| && p < |e| && e[c].firstTx < |e|
    && var f := e[c].firstTx;
    && (forall j :: 0 <= j < |e| && j != c && j != f ==> e'[j] == e[j])
    && (f != c ==> e'[f] == e[f].(prevTx := p))
    && e'[c] == TxEntry(if f == c then p else e[c].prevTx, e[p].firstTx, e[p].prevGroup,
                        e[c].group + e[p].group, e[c].deps + e[p].deps, e[c].feerate.Plus(e[p].feerate))
  }

  lemma {:induction false} MergedChain(h: Graph, e: seq<TxEntry>, e': seq<TxEntry>, a: seq<nat>, b: seq<nat>)
    requires GroupRep(h, e, a) && GroupRep(h, e, b) && Elems(a) !! Elems(b)
    requires Absorbs(e, e', Tail(b), Tail(a))
    ensures Chained(e', a + b)
  {
    var s, n := a + b, |a|;
    forall i | 0 <= i < |s| ensures ChainAt(e', s, i) {
      if i < n {
        assert ChainAt(e, a, i);
        assert a[i] in Elems(a) && b[0] in Elems(b) && b[|b| - 1] in Elems(b);
      } else {
        assert ChainAt(e, b, i - n);
        if i > n {
          assert b[i - n] != b[0];
        }
      }
    }
  }

  lemma {:induction false} MergedGroup(h: Graph, e: seq<TxEntry>, e': seq<TxEntry>, a: seq<nat>, b: seq<nat>)
    requires GroupRep(h, e, a) && GroupRep(h, e, b) && Elems(a) !! Elems(b)
    requires Absorbs(e, e', Tail(b), Tail(a))
    ensures GroupRep(h, e', a + b)
  {
    MergedChain(h, e, e', a, b);
    NoDupConcat(a, b);
    ElemsConcat(a, b);
    DepsConcat(h, a, b);
    AggSeqConcat(h.Rates(), a, b);
  }

  /** The list after the group at `n + 1` has absorbed the one before it. */
  ghost function Joined(groups: seq<seq<nat>>, n: nat): seq<seq<nat>>
    requires n + 1 < |groups|
  {
    groups[..n] + [groups[n] + groups[n + 1]] + groups[n + 2..]
  }

  lemma {:induction false} JoinedAt(groups: seq<seq<nat>>, n: nat, k: nat)
    requires n + 1 < |groups| && k < |groups| - 1
    ensures |Joined(groups, n)| == |groups| - 1
    ensures Joined(groups, n)[k]
         == if k < n then groups[k] else if k == n then groups[n] + groups[n + 1] else groups[k + 1]
  {
  }

  lemma {:induction false} JoinedApart(groups: seq<seq<nat>>, n: nat)
    requires n + 1 < |groups| && Apart(groups)
    ensures Apart(Joined(groups, n))
  {
    var g' := Joined(groups, n);
    ElemsConcat(groups[n], groups[n + 1]);
    forall i, j | 0 <= i < j < |g'| ensures Elems(g'[i]) !! Elems(g'[j]) {
      JoinedAt(groups, n, i);
      JoinedAt(groups, n, j);
      assert j != n ==> Elems(groups[i]) !! Elems(groups[if j < n then j else j + 1]);
    }
  }

  lemma {:induction false} BesideJoined(h: Graph, e: seq<TxEntry>, e': seq<TxEntry>, groups: seq<seq<nat>>, n: nat, i: nat)
    requires n + 1 < |groups| && AllGroups(h, e, groups) && Apart(groups)
    requires groups[n] != [] && groups[n + 1] != []
    requires Absorbs(e, e', Tail(groups[n + 1]), Tail(groups[n])) && i < |groups| && i != n + 1
    ensures GroupRep(h, e', groups[i])
  {
    var b := groups[n + 1];
    assert GroupRep(h, e, b) && GroupRep(h, e, groups[i]);
    TailsDiffer(groups, n + 1, i, b[0]);
    TailsDiffer(groups, n + 1, i, b[|b| - 1]);
    assert SameGroup(e, e', groups[i]);
    GroupKept(h, e, e', groups[i]);
  }

  lemma {:induction false} JoinedGroups(h: Graph, e: seq<TxEntry>, e': seq<TxEntry>, groups: seq<seq<nat>>, n: nat)
    requires n + 1 < |groups| && AllGroups(h, e, groups) && Apart(groups)
    requires groups[n] != [] && groups[n + 1] != []
    requires Absorbs(e, e', Tail(groups[n + 1]), Tail(groups[n]))
    ensures AllGroups(h, e', Joined(groups, n))
  {
    var g', a, b := Joined(groups, n), groups[n], groups[n + 1];
    assert Elems(a) !! Elems(b);
    assert GroupRep(h, e, a) && GroupRep(h, e, b);
    MergedGroup(h, e, e', a, b);
    forall k | 0 <= k < |g'| ensures GroupRep(h, e', g'[k]) {
      JoinedAt(groups, n, k);
      if k != n {
        BesideJoined(h, e, e', groups, n, if k < n then k else k + 1);
      }
    }
  }

  lemma {:induction false} BesideLink(e: seq<TxEntry>, e': seq<TxEntry>, groups: seq<seq<nat>>, n: nat, i: nat)
    requires n + 1 < |groups| && Apart(groups) && Linked(e, groups) && groups[n] != [] && groups[n + 1] != []
    requires Absorbs(e, e', Tail(groups[n + 1]), Tail(groups[n])) && i < |groups| && i != n + 1
    ensures LinkAt(e', groups, i)
  {
    assert LinkAt(e, groups, i);
    TailsDiffer(groups, n + 1, i, groups[n + 1][|groups[n + 1]| - 1]);
  }

  lemma {:induction false} JoinedLink(e: seq<TxEntry>, e': seq<TxEntry>, groups: seq<seq<nat>>, n: nat, k: nat)
    requires n + 1 < |groups| && Apart(groups) && Linked(e, groups) && groups[n] != [] && groups[n + 1] != []
    requires Absorbs(e, e', Tail(groups[n + 1]), Tail(groups[n])) && k < |groups| - 1
    ensures LinkAt(e', Joined(groups, n), k)
  {
    JoinedAt(groups, n, k);
    if k > 0 {
      JoinedAt(groups, n, k - 1);
    }
    if k != n {
      BesideLink(e, e', groups, n, if k < n then k else k + 1);
    } else {
      assert LinkAt(e, groups, n) && LinkAt(e, groups, n + 1);
    }
  }

  lemma {:induction false} JoinedLinks(e: seq<TxEntry>, e': seq<TxEntry>, groups: seq<seq<nat>>, n: nat)
    requires n + 1 < |groups| && Apart(groups) && Linked(e, groups) && groups[n] != [] && groups[n + 1] != []
    requires Absorbs(e, e', Tail(groups[n + 1]), Tail(groups[n]))
    requires e[Tail(groups[n + 1])].firstTx != SENTINEL
    ensures Linked(e', Joined(groups, n))
  {
    var g' := Joined(groups, n);
    forall k | 0 <= k < |g'| ensures LinkAt(e', g', k) {
      JoinedLink(e, e', groups, n, k);
    }
    JoinedAt(groups, n, |g'| - 1);
  }

  lemma {:induction false} JoinedRep(h: Graph, e: seq<TxEntry>, e': seq<TxEntry>, groups: seq<seq<nat>>, n: nat)
    requires n + 1 < |groups| && Rep(h, e, groups) && groups[n] != [] && groups[n + 1] != []
    requires Absorbs(e, e', Tail(groups[n + 1]), Tail(groups[n]))
    ensures Rep(h, e', Joined(groups, n))
  {
    assert GroupRep(h, e, groups[n + 1]);
    JoinedApart(groups, n);
    JoinedGroups(h, e, e', groups, n);
    JoinedLinks(e, e', groups, n);
  }

  // ----- swapping a group with the one before it

  /** `e'` is `e` with the links of `next`, `p` and `c` turned to `p`, `c` and `pp`. */
  ghost predicate Relinks(e: seq<TxEntry>, e': seq<TxEntry>, next: nat, p: nat, c: nat)
  {
    && |e'| == |e| && next < |e| && p < |e| && c < |e|
    && (forall j :: 0 <= j < |e| ==> e'[j] == e[j].(prevGroup := e'[j].prevGroup))
    && (forall j :: 0 <= j < |e| && j != next && j != p && j != c ==> e'[j].prevGroup == e[j].prevGroup)
    && e'[next].prevGroup == p && e'[p].prevGroup == c && e'[c].prevGroup == e[p].prevGroup
  }

  ghost function Swapped(groups: seq<seq<nat>>, n: nat): seq<seq<nat>>
    requires n + 1 < |groups|
  {
    groups[n := groups[n + 1]][n + 1 := groups[n]]
  }

  /** Index of the group after position `k`; the sentinel after the last. */
  ghost function NextTail(groups: seq<seq<nat>>, k: nat): nat
    requires k < |groups|
  {
    if k + 1 == |groups| || groups[k + 1] == [] then SENTINEL else Tail(groups[k + 1])
  }

  lemma {:induction false} TailIndex(groups: seq<seq<nat>>, i: nat, j: nat)
    requires Apart(groups) && i < |groups| && j < |groups| && i != j && groups[i] != [] && groups[j] != []
    ensures Tail(groups[i]) != Tail(groups[j])
  {
    TailsDiffer(groups, i, j, groups[i][|groups[i]| - 1]);
  }

  lemma {:induction false} SwappedLink(e: seq<TxEntry>, e': seq<TxEntry>, groups: seq<seq<nat>>, n: nat, k: nat)
    requires n + 1 < |groups| && Apart(groups) && Linked(e, groups) && groups[n] != [] && groups[n + 1] != []
    requires Relinks(e, e', NextTail(groups, n + 1), Tail(groups[n]), Tail(groups[n + 1])) && k < |groups|
    ensures LinkAt(e', Swapped(groups, n), k)
  {
    assert LinkAt(e, groups, k);
    if k == n {
      assert LinkAt(e, groups, n + 1);
    } else if k == n + 1 {
      assert LinkAt(e, groups, n);
    } else {
      TailIndex(groups, k, n);
      TailIndex(groups, k, n + 1);
      if k != n + 2 && n + 2 < |groups| {
        assert LinkAt(e, groups, n + 2);
        TailIndex(groups, k, n + 2);
      }
    }
  }

  lemma {:induction false} SwappedLinks(e: seq<TxEntry>, e': seq<TxEntry>, groups: seq<seq<nat>>, n: nat)
    requires n + 1 < |groups| && Apart(groups) && Linked(e, groups) && groups[n] != [] && groups[n + 1] != []
    requires Relinks(e, e', NextTail(groups, n + 1), Tail(groups[n]), Tail(groups[n + 1]))
    ensures Linked(e', Swapped(groups, n))
  {
    var g' := Swapped(groups, n);
    forall k | 0 <= k < |g'| ensures LinkAt(e', g', k) {
      SwappedLink(e, e', groups, n, k);
    }
    if n + 2 < |groups| {
      assert LinkAt(e, groups, n + 2) && LinkAt(e, groups, |groups| - 1);
    }
  }

  lemma {:induction false} SwappedApart(groups: seq<seq<nat>>, n: nat)
    requires n + 1 < |groups| && Apart(groups)
    ensures Apart(Swapped(groups, n))
  {
    var g' := Swapped(groups, n);
    forall i, j | 0 <= i < j < |g'| ensures Elems(g'[i]) !! Elems(g'[j]) {
      var i' := if i == n then n + 1 else if i == n + 1 then n else i;
      var j' := if j == n then n + 1 else if j == n + 1 then n else j;
      assert g'[i] == groups[i'] && g'[j] == groups[j'];
      assert i' < j' ==> Elems(groups[i']) !! Elems(groups[j']);
      assert j' < i' ==> Elems(groups[j']) !! Elems(groups[i']);
    }
  }

  lemma {:induction false} SwappedRep(h: Graph, e: seq<TxEntry>, e': seq<TxEntry>, groups: seq<seq<nat>>, n: nat)
    requires n + 1 < |groups| && Rep(h, e, groups) && groups[n] != [] && groups[n + 1] != []
    requires Relinks(e, e', NextTail(groups, n + 1), Tail(groups[n]), Tail(groups[n + 1]))
    ensures Rep(h, e', Swapped(groups, n))
  {
    var g' := Swapped(groups, n);
    forall k | 0 <= k < |g'| ensures GroupRep(h, e', g'[k]) {
      var i := if k == n then n + 1 else if k == n + 1 then n else k;
      assert g'[k] == groups[i];
      assert GroupRep(h, e, groups[i]);
      assert SameGroup(e, e', groups[i]);
      GroupKept(h, e, e', groups[i]);
    }
    SwappedApart(groups, n);
    SwappedLinks(e, e', groups, n);
  }

  // ----- a new group at the end

  lemma {:induction false} NewGroup(h: Graph, e: seq<TxEntry>, x: nat)
    requires x + 1 < |e| && x < |h.entries|
    requires e[x + 1].prevTx == NO_PREV_TX && e[x + 1].firstTx == x + 1 && e[x + 1].group == {x}
    requires e[x + 1].deps == h.Anc(x) && e[x + 1].feerate == h.entries[x].feerate
    ensures GroupRep(h, e, [x])
  {
    AggSeqSingle(h.Rates(), x);
    assert [x][..0] == [];
    assert DepsOf(h, [x]) == DepsOf(h, []) + h.Anc(x);
  }

  lemma {:induction false} PushedLinks(e: seq<TxEntry>, e': seq<TxEntry>, groups: seq<seq<nat>>, x: nat, seen: set<nat>)
    requires Linked(e, groups) && Within(groups, seen) && x !in seen
    requires |e'| == |e| && x + 1 < |e| && e'[x + 1].prevGroup == e[SENTINEL].prevGroup && e'[SENTINEL].prevGroup == x + 1
    requires forall j :: 0 < j < |e| && j != x + 1 ==> e'[j] == e[j]
    ensures Linked(e', groups + [[x]])
  {
    var g' := groups + [[x]];
    forall k | 0 <= k < |g'| ensures LinkAt(e', g', k) {
      if k < |groups| {
        assert LinkAt(e, groups, k);
        assert groups[k][|groups[k]| - 1] in Elems(groups[k]);
      }
    }
  }

  lemma {:induction false} PushedRep(h: Graph, e: seq<TxEntry>, e': seq<TxEntry>, groups: seq<seq<nat>>, x: nat, seen: set<nat>)
    requires Rep(h, e, groups) && Within(groups, seen) && x !in seen
    requires |e'| == |e| && x + 1 < |e| && e'[x + 1].prevGroup == e[SENTINEL].prevGroup && e'[SENTINEL].prevGroup == x + 1
    requires forall j :: 0 < j < |e| && j != x + 1 ==> e'[j] == e[j]
    requires e'[SENTINEL].feerate == EMPTY && GroupRep(h, e', [x])
    ensures Rep(h, e', groups + [[x]]) && Within(groups + [[x]], seen + {x})
  {
    var g' := groups + [[x]];
    forall k | 0 <= k < |g'| ensures GroupRep(h, e', g'[k]) {
      if k < |groups| {
        assert GroupRep(h, e, groups[k]);
        assert forall y :: y in groups[k] ==> y in Elems(groups[k]);
        assert SameGroup(e, e', groups[k]);
        GroupKept(h, e, e', groups[k]);
      }
    }
    forall i, j | 0 <= i < j < |g'| ensures Elems(g'[i]) !! Elems(g'[j]) {
      assert j < |groups| ==> Elems(groups[i]) !! Elems(groups[j]);
      assert Elems(groups[i]) <= seen;
    }
    PushedLinks(e, e', groups, x, seen);
  }

  // ----- the moves follow `Bubble`

  ghost function BubbleAt(h: Graph, groups: seq<seq<nat>>, m: nat): seq<seq<nat>>
    requires m < |groups|
  {
    Bubble(h, groups[..m], groups[m], groups[m + 1..])
  }

  lemma {:induction false} BubbleStops(h: Graph, groups: seq<seq<nat>>, m: nat)
    requires m < |groups|
    requires m > 0 ==> !AggSeq(h.Rates(), groups[m]).Higher(AggSeq(h.Rates(), groups[m - 1]))
    ensures BubbleAt(h, groups, m) == groups
  {
    assert groups == groups[..m] + [groups[m]] + groups[m + 1..];
    if m > 0 {
      assert groups[..m][m - 1] == groups[m - 1];
    }
  }

  lemma {:induction false} BubbleJoins(h: Graph, groups: seq<seq<nat>>, m: nat)
    requires 0 < m < |groups| && AggSeq(h.Rates(), groups[m]).Higher(AggSeq(h.Rates(), groups[m - 1]))
    requires Depends(h, groups[m], groups[m - 1])
    ensures BubbleAt(h, groups, m) == BubbleAt(h, Joined(groups, m - 1), m - 1)
  {
    var g' := Joined(groups, m - 1);
    assert groups[..m][m - 1] == groups[m - 1] && groups[..m][..m - 1] == groups[..m - 1] == g'[..m - 1];
    assert g'[m - 1] == groups[m - 1] + groups[m] && g'[m..] == groups[m + 1..];
  }

  lemma {:induction false} BubbleSwaps(h: Graph, groups: seq<seq<nat>>, m: nat)
    requires 0 < m < |groups| && AggSeq(h.Rates(), groups[m]).Higher(AggSeq(h.Rates(), groups[m - 1]))
    requires !Depends(h, groups[m], groups[m - 1])
    ensures BubbleAt(h, groups, m) == BubbleAt(h, Swapped(groups, m - 1), m - 1)
  {
    var g' := Swapped(groups, m - 1);
    assert groups[..m][m - 1] == groups[m - 1] && groups[..m][..m - 1] == groups[..m - 1] == g'[..m - 1];
    assert g'[m - 1] == groups[m] && g'[m..] == [groups[m - 1]] + groups[m + 1..];
  }

  lemma {:induction false} JoinedWithin(groups: seq<seq<nat>>, n: nat, s: set<nat>)
    requires n + 1 < |groups| && Within(groups, s)
    ensures Within(Joined(groups, n), s)
  {
    ElemsConcat(groups[n], groups[n + 1]);
    forall k | 0 <= k < |Joined(groups, n)| ensures Elems(Joined(groups, n)[k]) <= s {
      JoinedAt(groups, n, k);
    }
  }

  // ----- the code

  method MergeGroups(e: seq<TxEntry>, cur: nat, prev: nat) returns (entries: seq<TxEntry>)
    requires cur < |e| && prev < |e| && cur != prev && e[cur].firstTx < |e| && e[cur].firstTx != prev
    ensures Absorbs(e, entries, cur, prev)
  {
    entries := e;
    entries := entries[cur := entries[cur].(group := entries[cur].group + entries[prev].group)];
    entries := entries[cur := entries[cur].(deps := entries[cur].deps + entries[prev].deps)];
    entries := entries[cur := entries[cur].(feerate := entries[cur].feerate.Plus(entries[prev].feerate))];
    var first := entries[cur].firstTx;
    entries := entries[first := entries[first].(prevTx := prev)];
    entries := entries[cur := entries[cur].(firstTx := entries[prev].firstTx)];
    entries := entries[cur := entries[cur].(prevGroup := entries[prev].prevGroup)];
  }

  method SwapGroups(e: seq<TxEntry>, next: nat, prev: nat, cur: nat) returns (entries: seq<TxEntry>)
    requires next < |e| && prev < |e| && cur < |e| && next != prev && next != cur && prev != cur
    ensures Relinks(e, entries, next, prev, cur)
  {
    entries := e;
    var preprev := entries[prev].prevGroup;
    entries := entries[next := entries[next].(prevGroup := prev)];
    entries := entries[prev := entries[prev].(prevGroup := cur)];
    entries := entries[cur := entries[cur].(prevGroup := preprev)];
  }

  /** What holds while the group at position `m` moves to the front. */
  ghost predicate Settling(
    h: Graph, e: seq<TxEntry>, groups: seq<seq<nat>>, m: nat, cur: nat, prev: nat, next: nat, seen: set<nat>)
  {
    && Rep(h, e, groups) && Within(groups, seen) && m < |groups| && groups[m] != []
    && cur == Tail(groups[m]) && prev == PrevTail(groups, m) && next == NextTail(groups, m)
  }

  lemma {:induction false} SettlingFacts(
    h: Graph, e: seq<TxEntry>, groups: seq<seq<nat>>, m: nat, cur: nat, prev: nat, next: nat, seen: set<nat>)
    requires Settling(h, e, groups, m, cur, prev, next, seen)
    ensures cur < |e| && prev < |e| && next < |e| && e[cur].firstTx < |e| && e[cur].firstTx == groups[m][0] + 1
    ensures e[cur].feerate == AggSeq(h.Rates(), groups[m])
    ensures m == 0 ==> e[prev].feerate == EMPTY
    ensures m > 0 ==> groups[m - 1] != [] && prev == Tail(groups[m - 1]) && e[prev].feerate == AggSeq(h.Rates(), groups[m - 1])
    ensures m > 0 ==> (e[cur].deps * e[prev].group != {} <==> Depends(h, groups[m], groups[m - 1]))
    ensures m > 0 ==> cur != prev && prev != next && e[cur].firstTx != prev && e[prev].prevGroup == PrevTail(groups, m - 1)
    ensures cur != next
  {
    assert GroupRep(h, e, groups[m]);
    assert ChainAt(e, groups[m], 0);
    if m + 1 < |groups| {
      assert LinkAt(e, groups, m + 1);
      TailIndex(groups, m, m + 1);
    }
    if m > 0 {
      assert GroupRep(h, e, groups[m - 1]) && LinkAt(e, groups, m - 1);
      OverlapIsDependency(h, groups[m], groups[m - 1]);
      TailIndex(groups, m, m - 1);
      TailsDiffer(groups, m, m - 1, groups[m][0]);
      if m + 1 < |groups| {
        TailIndex(groups, m - 1, m + 1);
      }
    }
  }

  lemma {:induction false} SettlingJoined(
    h: Graph, e: seq<TxEntry>, e': seq<TxEntry>, groups: seq<seq<nat>>, m: nat, cur: nat, prev: nat, next: nat, seen: set<nat>)
    requires Settling(h, e, groups, m, cur, prev, next, seen) && m > 0 && Absorbs(e, e', cur, prev)
    ensures Settling(h, e', Joined(groups, m - 1), m - 1, cur, e[prev].prevGroup, next, seen)
  {
    SettlingFacts(h, e, groups, m, cur, prev, next, seen);
    JoinedRep(h, e, e', groups, m - 1);
    JoinedWithin(groups, m - 1, seen);
    JoinedAt(groups, m - 1, m - 1);
    if m + 1 < |groups| {
      JoinedAt(groups, m - 1, m);
    }
    if m > 1 {
      JoinedAt(groups, m - 1, m - 2);
    }
  }

  lemma {:induction false} SettlingSwapped(
    h: Graph, e: seq<TxEntry>, e': seq<TxEntry>, groups: seq<seq<nat>>, m: nat, cur: nat, prev: nat, next: nat, seen: set<nat>)
    requires Settling(h, e, groups, m, cur, prev, next, seen) && m > 0 && Relinks(e, e', next, prev, cur)
    ensures Settling(h, e', Swapped(groups, m - 1), m - 1, cur, e[prev].prevGroup, prev, seen)
  {
    SettlingFacts(h, e, groups, m, cur, prev, next, seen);
    SwappedRep(h, e, e', groups, m - 1);
  }

  /** Move the last group to the front as far as it goes. */
  method Settle(e: seq<TxEntry>, curGroup: nat, ghost h: Graph, ghost groups: seq<seq<nat>>, ghost seen: set<nat>)
    returns (entries: seq<TxEntry>)
    requires groups != [] && Rep(h, e, groups) && Within(groups, seen)
    requires groups[|groups| - 1] != [] && curGroup == Tail(groups[|groups| - 1])
    ensures |entries| == |e| && Rep(h, entries, BubbleAt(h, groups, |groups| - 1))
    ensures Within(BubbleAt(h, groups, |groups| - 1), seen)
  {
    entries := e;
    ghost var now, m: nat := groups, |groups| - 1;
    assert LinkAt(e, groups, m);
    var nextGroup: nat := SENTINEL;
    var prevGroup: nat := entries[curGroup].prevGroup;
    SettlingFacts(h, entries, now, m, curGroup, prevGroup, nextGroup, seen);
    while entries[curGroup].feerate.Higher(entries[prevGroup].feerate)
      invariant |entries| == |e| && curGroup < |entries| && prevGroup < |entries|
      invariant Settling(h, entries, now, m, curGroup, prevGroup, nextGroup, seen)
      invariant BubbleAt(h, now, m) == BubbleAt(h, groups, |groups| - 1)
      decreases m
    {
      SettlingFacts(h, entries, now, m, curGroup, prevGroup, nextGroup, seen);
      ghost var before := entries;
      var preprev := entries[prevGroup].prevGroup;
      if entries[curGroup].deps * entries[prevGroup].group != {} {
        BubbleJoins(h, now, m);
        entries := MergeGroups(entries, curGroup, prevGroup);
        SettlingJoined(h, before, entries, now, m, curGroup, prevGroup, nextGroup, seen);
        now := Joined(now, m - 1);
        prevGroup := preprev;
      } else {
        BubbleSwaps(h, now, m);
        entries := SwapGroups(entries, nextGroup, prevGroup, curGroup);
        SettlingSwapped(h, before, entries, now, m, curGroup, prevGroup, nextGroup, seen);
        now := Swapped(now, m - 1);
        nextGroup := prevGroup;
        prevGroup := preprev;
      }
      m := m - 1;
      SettlingFacts(h, entries, now, m, curGroup, prevGroup, nextGroup, seen);
    }
    SettlingFacts(h, entries, now, m, curGroup, prevGroup, nextGroup, seen);
    BubbleStops(h, now, m);
  }

  /** The graph as a pass sees it. */
  ghost function Seen(g: Graph, rev: bool): Graph {
    if rev then Flip(g) else g
  }

  /** The transactions in the order a pass takes them. */
  ghost function Taken(l: seq<nat>, rev: bool): seq<nat> {
    if rev then Rev(l) else l
  }

  /** Insert a transaction as a new group at the end. */
  method StartGroup(g: Graph, rev: bool, e: seq<TxEntry>, idx: nat, ghost groups: seq<seq<nat>>, ghost seen: set<nat>)
    returns (entries: seq<TxEntry>)
    requires idx < |g.entries| && |e| == |g.entries| + 1
    requires Rep(Seen(g, rev), e, groups) && Within(groups, seen) && idx !in seen
    ensures |entries| == |e| && Rep(Seen(g, rev), entries, groups + [[idx]])
    ensures Within(groups + [[idx]], seen + {idx})
  {
    entries := e;
    var feerate := g.entries[idx].feerate;
    if rev {
      feerate := FeeFrac(-feerate.fee, feerate.size);
    }
    var deps := if rev then g.Des(idx) else g.Anc(idx);
    entries := entries[idx + 1 := TxEntry(NO_PREV_TX, idx + 1, entries[SENTINEL].prevGroup, {idx}, deps, feerate)];
    entries := entries[SENTINEL := entries[SENTINEL].(prevGroup := idx + 1)];
    NewGroup(Seen(g, rev), entries, idx);
    PushedRep(Seen(g, rev), e, entries, groups, idx, seen);
  }

  lemma {:induction false} PassStep(h: Graph, l: seq<nat>, i: nat)
    requires i < |l|
    ensures var groups := PassGroups(h, l[..i]) + [[l[i]]];
      PassGroups(h, l[..i + 1]) == BubbleAt(h, groups, |groups| - 1)
  {
    var groups := PassGroups(h, l[..i]) + [[l[i]]];
    var n := |groups| - 1;
    assert l[..i + 1][..i] == l[..i];
    assert groups[..n] == PassGroups(h, l[..i]) && groups[n] == [l[i]] && groups[n + 1..] == [];
  }

  lemma {:induction false} SeenStep(l: seq<nat>, i: nat)
    requires i < |l| && NoDup(l)
    ensures l[i] !in Elems(l[..i]) && Elems(l[..i + 1]) == Elems(l[..i]) + {l[i]}
  {
    assert l[..i + 1] == l[..i] + [l[i]];
  }

  /** Take the transaction at position `i` of the pass. */
  method TakeNext(g: Graph, rev: bool, e: seq<TxEntry>, idx: nat, ghost l: seq<nat>, ghost i: nat)
    returns (entries: seq<TxEntry>)
    requires i < |l| && NoDup(l) && idx == l[i] && idx < |g.entries| && |e| == |g.entries| + 1
    requires Rep(Seen(g, rev), e, PassGroups(Seen(g, rev), l[..i]))
    requires Within(PassGroups(Seen(g, rev), l[..i]), Elems(l[..i]))
    ensures |entries| == |e| && Rep(Seen(g, rev), entries, PassGroups(Seen(g, rev), l[..i + 1]))
    ensures Within(PassGroups(Seen(g, rev), l[..i + 1]), Elems(l[..i + 1]))
  {
    ghost var h := Seen(g, rev);
    ghost var groups, before := PassGroups(h, l[..i]), Elems(l[..i]);
    SeenStep(l, i);
    PassStep(h, l, i);
    entries := StartGroup(g, rev, e, idx, groups, before);
    entries := Settle(entries, idx + 1, h, groups + [[idx]], before + {idx});
  }

  /** One pass: the entries end up holding the groups of `PassGroups`. */
  method Pass(g: Graph, linearization: array<nat>, rev: bool, e: seq<TxEntry>) returns (entries: seq<TxEntry>)
    requires g.Valid() && NoDup(linearization[..]) && Elems(linearization[..]) <= g.used
    requires |e| == |g.entries| + 1 && e[SENTINEL].feerate == EMPTY
    ensures |entries| == |e| && Rep(Seen(g, rev), entries, PassGroups(Seen(g, rev), Taken(linearization[..], rev)))
  {
    ghost var h, l := Seen(g, rev), Taken(linearization[..], rev);
    RevNoDup(linearization[..]);
    entries := e[SENTINEL := e[SENTINEL].(prevGroup := SENTINEL)];
    for i := 0 to linearization.Length
      invariant |entries| == |e| && Rep(h, entries, PassGroups(h, l[..i]))
      invariant Within(PassGroups(h, l[..i]), Elems(l[..i]))
    {
      var idx := linearization[if rev then linearization.Length - 1 - i else i];
      assert idx in Elems(linearization[..]);
      entries := TakeNext(g, rev, entries, idx, l, i);
    }
    assert l[..|l|] == l;
  }

  lemma {:induction false} RevNoDup(l: seq<nat>)
    requires NoDup(l)
    ensures NoDup(Rev(l))
  {
  }

  // ----- writing the groups back

  ghost predicate Written(a: array<nat>, rev: bool, done: nat, out: seq<nat>)
    reads a
  {
    && |out| == done <= a.Length
    && forall i :: 0 <= i < done ==> a[if rev then done - 1 - i else a.Length - done + i] == out[i]
  }

  method WriteNext(a: array<nat>, rev: bool, done: nat, x: nat, ghost out: seq<nat>)
    requires Written(a, rev, done, out) && done < a.Length
    modifies a
    ensures Written(a, rev, done + 1, [x] + out)
  {
    if rev {
      a[done] := x;
    } else {
      a[a.Length - (done + 1)] := x;
    }
  }

  lemma {:induction false} WrittenSoFar(s: seq<nat>, j: nat, out: seq<nat>)
    requires j <= |s|
    ensures j == |s| ==> s[j..] + out == out
    ensures j > 0 ==> [s[j - 1]] + (s[j..] + out) == s[j - 1..] + out
    ensures j == 0 ==> s[j..] + out == s + out
  {
  }

  /** Write one group, from back to front. */
  method WriteGroup(e: seq<TxEntry>, a: array<nat>, rev: bool, start: nat, group: nat, ghost s: seq<nat>, ghost out: seq<nat>)
    returns (done: nat)
    requires s != [] && Chained(e, s) && group == Tail(s)
    requires Written(a, rev, start, out) && start + |s| <= a.Length
    modifies a
    ensures done == start + |s| && Written(a, rev, done, s + out)
  {
    done := start;
    var tx := group;
    ghost var j: nat := |s|;
    WrittenSoFar(s, j, out);
    while true
      invariant 0 < j <= |s| && tx == s[j - 1] + 1 && done == start + |s| - j
      invariant Written(a, rev, done, s[j..] + out)
      decreases j
    {
      assert ChainAt(e, s, j - 1);
      WriteNext(a, rev, done, tx - 1, s[j..] + out);
      WrittenSoFar(s, j, out);
      done := done + 1;
      tx := e[tx].prevTx;
      j := j - 1;
      if tx == NO_PREV_TX {
        break;
      }
    }
    WrittenSoFar(s, 0, out);
  }

  lemma {:induction false} FlattenFrom(groups: seq<seq<nat>>, k: nat)
    requires k < |groups|
    ensures Flatten(groups[k..]) == groups[k] + Flatten(groups[k + 1..])
    ensures |Flatten(groups[k..])| <= |Flatten(groups)|
  {
    assert groups[k..] == [groups[k]] + groups[k + 1..];
    FlattenConcat([groups[k]], groups[k + 1..]);
    FlattenSingle(groups[k]);
    assert groups == groups[..k] + groups[k..];
    FlattenConcat(groups[..k], groups[k..]);
  }

  /** Replace the linearization by the groups: reversed after a backward pass. */
  method WriteBack(e: seq<TxEntry>, a: array<nat>, rev: bool, ghost h: Graph, ghost groups: seq<seq<nat>>)
    requires Rep(h, e, groups) && |Flatten(groups)| == a.Length
    modifies a
    ensures a[..] == Taken(Flatten(groups), rev)
  {
    var group := e[SENTINEL].prevGroup;
    var done: nat := 0;
    ghost var k: nat := |groups|;
    assert groups[k..] == [];
    if k > 0 {
      assert LinkAt(e, groups, k - 1);
    }
    while group != SENTINEL
      invariant k <= |groups| && group == PrevTail(groups, k) && (k > 0 ==> groups[k - 1] != [])
      invariant Written(a, rev, done, Flatten(groups[k..]))
      decreases k
    {
      assert LinkAt(e, groups, k - 1) && GroupRep(h, e, groups[k - 1]);
      FlattenFrom(groups, k - 1);
      done := WriteGroup(e, a, rev, done, group, groups[k - 1], Flatten(groups[k..]));
      group := e[group].prevGroup;
      k := k - 1;
      if k > 0 {
        assert LinkAt(e, groups, k - 1);
      }
    }
    assert groups[0..] == groups;
    ghost var out := Flatten(groups);
    forall i | 0 <= i < a.Length ensures a[i] == Taken(out, rev)[i] {
      var i' := if rev then a.Length - 1 - i else i;
      assert a[if rev then done - 1 - i' else a.Length - done + i'] == out[i'];
    }
  }

  // ----- both passes

  lemma {:induction false} BubbleKeeps(h: Graph, left: seq<seq<nat>>, cur: seq<nat>, right: seq<seq<nat>>)
    ensures |Flatten(Bubble(h, left, cur, right))| == |Flatten(left)| + |cur| + |Flatten(right)|
    ensures Elems(Flatten(Bubble(h, left, cur, right))) == Elems(Flatten(left)) + Elems(cur) + Elems(Flatten(right))
    decreases |left|
  {
    var n := |left| - 1;
    if left == [] || !AggSeq(h.Rates(), cur).Higher(AggSeq(h.Rates(), left[n])) {
      BubbleFlat(left, cur, right, []);
      assert Flatten(left + [cur] + right) + [] == Flatten(left + [cur] + right);
      assert left == [] ==> [cur] + right == left + [cur] + right;
      assert Flatten(right) + [] == Flatten(right);
      ElemsConcat(Flatten(left), cur + Flatten(right));
      ElemsConcat(cur, Flatten(right));
    } else {
      FlattenSnoc(left[..n], left[n]);
      assert left[..n] + [left[n]] == left;
      ElemsConcat(Flatten(left[..n]), left[n]);
      if Depends(h, cur, left[n]) {
        BubbleKeeps(h, left[..n], left[n] + cur, right);
        ElemsConcat(left[n], cur);
      } else {
        BubbleKeeps(h, left[..n], cur, [left[n]] + right);
        FlattenConcat([left[n]], right);
        FlattenSingle(left[n]);
        ElemsConcat(left[n], Flatten(right));
      }
    }
  }

  lemma {:induction false} PassKeeps(h: Graph, l: seq<nat>)
    ensures |Flatten(PassGroups(h, l))| == |l| && Elems(Flatten(PassGroups(h, l))) == Elems(l)
  {
    if l != [] {
      var n := |l| - 1;
      PassKeeps(h, l[..n]);
      BubbleKeeps(h, PassGroups(h, l[..n]), [l[n]], []);
      assert l == l[..n] + [l[n]];
      ElemsConcat(l[..n], [l[n]]);
    }
  }

  lemma {:induction false} SameCardNoDup(l: seq<nat>, l': seq<nat>)
    requires NoDup(l) && |l| == |l'| && Elems(l) == Elems(l')
    ensures NoDup(l')
  {
    ElemsCard(l);
    CardNoDup(l');
  }

  lemma {:induction false} CardNoDup(l: seq<nat>)
    ensures |Elems(l)| <= |l| && (|Elems(l)| == |l| ==> NoDup(l))
  {
    if l != [] {
      var n := |l| - 1;
      CardNoDup(l[..n]);
      assert Elems(l) == Elems(l[..n]) + {l[n]};
      if l[n] in Elems(l[..n]) {
        assert Elems(l) == Elems(l[..n]);
      } else {
        assert |Elems(l)| == |Elems(l[..n])| + 1;
        if |Elems(l)| == |l| {
          assert l == l[..n] + [l[n]];
          NoDupConcat(l[..n], [l[n]]);
        }
      }
    }
  }

  /** A pass, written back: `Backward` or `Forward`. */
  method RunPass(g: Graph, linearization: array<nat>, rev: bool, e: seq<TxEntry>) returns (entries: seq<TxEntry>)
    requires g.Valid() && IsOrderOf(linearization[..], g.used)
    requires |e| == |g.entries| + 1 && e[SENTINEL].feerate == EMPTY
    modifies linearization
    ensures |entries| == |e| && entries[SENTINEL].feerate == EMPTY
    ensures linearization[..] == if rev then Backward(g, old(linearization[..])) else Forward(g, old(linearization[..]))
    ensures IsOrderOf(linearization[..], g.used)
  {
    ghost var l := linearization[..];
    ghost var h := Seen(g, rev);
    ghost var groups := PassGroups(h, Taken(l, rev));
    entries := Pass(g, linearization, rev, e);
    PassKeeps(h, Taken(l, rev));
    RevElems(l);
    RevElems(Flatten(groups));
    WriteBack(entries, linearization, rev, h, groups);
    SameCardNoDup(l, linearization[..]);
  }

  /** Two passes, the first from back to front: exactly `PostLin`. */
  method PostLinearize(g: Graph, linearization: array<nat>)
    requires g.Valid() && IsOrderOf(linearization[..], g.used)
    modifies linearization
    ensures linearization[..] == PostLin(g, old(linearization[..]))
    ensures IsOrderOf(linearization[..], g.used)
    ensures g.AllSized() && IsLinearization(g, old(linearization[..])) ==>
      && IsLinearization(g, linearization[..])
      && Dominates(g.Rates(), linearization[..], old(linearization[..]))
  {
    ghost var l := linearization[..];
    var entries := seq(|g.entries| + 1, _ => TxEntry(0, 0, 0, {}, {}, EMPTY));
    entries := RunPass(g, linearization, true, entries);
    entries := RunPass(g, linearization, false, entries);
    if g.AllSized() && IsLinearization(g, l) {
      PostLinImproves(g, l);
    }
  }
}
