/**
 The bit-set operations the cluster code uses on sets of positions (`util/bitset.h`):
 the first and last member, which also fix the order in which a set is iterated, and
 `std::sort` by a strict total order.
*/
module BitSets {
  import opened Common
  import opened Orders

  lemma {:induction false} MinExists(s: set<nat>) returns (x: nat)
    requires s != {}
    ensures x in s && forall y :: y in s ==> x <= y
    decreases |s|
  {
    x :| x in s;
    var rest := s - {x};
    assert forall z :: z in s ==> z == x || z in rest;
    if rest != {} {
      var y := MinExists(rest);
      if y < x {
        x := y;
      }
    }
  }

  lemma {:induction false} MaxExists(s: set<nat>) returns (x: nat)
    requires s != {}
    ensures x in s && forall y :: y in s ==> y <= x
    decreases |s|
  {
    x :| x in s;
    var rest := s - {x};
    assert forall z :: z in s ==> z == x || z in rest;
    if rest != {} {
      var y := MaxExists(rest);
      if x < y {
        x := y;
      }
    }
  }

  /** The lowest position in the set. */
  function First(s: set<nat>): (x: nat)
    requires s != {}
    ensures x in s && forall y :: y in s ==> x <= y
  {
    assert exists x :: x in s && forall y | y in s :: x <= y by {
      var x := MinExists(s);
    }
    var x :| x in s && forall y | y in s :: x <= y;
    x
  }

  /** The highest position in the set. */
  function Last(s: set<nat>): (x: nat)
    requires s != {}
    ensures x in s && forall y :: y in s ==> y <= x
  {
    assert exists x :: x in s && forall y | y in s :: y <= x by {
      var x := MaxExists(s);
    }
    var x :| x in s && forall y | y in s :: y <= x;
    x
  }

  /** The positions below `n`. */
  function Fill(n: nat): (s: set<nat>)
    ensures forall i: nat :: i in s <==> i < n
  {
    if n == 0 then {} else Fill(n - 1) + {n - 1}
  }

  /** A set in iteration order, which is increasing. */
  function Ascending(s: set<nat>): seq<nat>
    decreases |s|
  {
    if s == {} then [] else [First(s)] + Ascending(s - {First(s)})
  }

  lemma {:induction false} AscendingOrder(s: set<nat>)
    ensures IsOrderOf(Ascending(s), s)
    ensures forall i, j :: 0 <= i < j < |Ascending(s)| ==> Ascending(s)[i] < Ascending(s)[j]
    decreases |s|
  {
    if s != {} {
      var x := First(s);
      var rest := Ascending(s - {x});
      AscendingOrder(s - {x});
      LeastFirst(s, x, rest);
    }
  }

  lemma {:induction false} LeastFirst(s: set<nat>, x: nat, rest: seq<nat>)
    requires x in s && (forall y :: y in s ==> x <= y) && IsOrderOf(rest, s - {x})
    requires forall i, j :: 0 <= i < j < |rest| ==> rest[i] < rest[j]
    ensures IsOrderOf([x] + rest, s)
    ensures forall i, j :: 0 <= i < j < |[x] + rest| ==> ([x] + rest)[i] < ([x] + rest)[j]
  {
    forall i | 0 <= i < |rest| ensures x < rest[i] {
      assert rest[i] in Elems(rest);
    }
    ElemsConcat([x], rest);
    NoDupConcat([x], rest);
    assert Elems([x]) == {x};
  }

  type Less = (nat, nat) -> bool

  /** `less` orders the members of `s` strictly and totally. */
  ghost predicate StrictTotal(less: Less, s: set<nat>) {
    && (forall a, b :: a in s && b in s && a != b ==> less(a, b) || less(b, a))
    && (forall a, b, c :: a in s && b in s && c in s && less(a, b) && less(b, c) ==> less(a, c))
  }

  ghost predicate SortedBy(less: Less, l: seq<nat>) {
    forall i, j :: 0 <= i < j < |l| ==> less(l[i], l[j])
  }

  function InsertBy(less: Less, x: nat, l: seq<nat>): seq<nat> {
    if l == [] then [x]
    else if less(l[0], x) then [l[0]] + InsertBy(less, x, l[1..])
    else [x] + l
  }

  function SortBy(less: Less, l: seq<nat>): seq<nat> {
    if l == [] then [] else InsertBy(less, l[0], SortBy(less, l[1..]))
  }

  lemma {:induction false} InsertElems(less: Less, x: nat, l: seq<nat>)
    ensures Elems(InsertBy(less, x, l)) == {x} + Elems(l)
    ensures NoDup(l) && x !in l ==> NoDup(InsertBy(less, x, l))
  {
    if l == [] {
    } else if less(l[0], x) {
      InsertElems(less, x, l[1..]);
      assert l == [l[0]] + l[1..];
      ElemsConcat([l[0]], l[1..]);
      ElemsConcat([l[0]], InsertBy(less, x, l[1..]));
      if NoDup(l) && x !in l {
        NoDupConcat([l[0]], l[1..]);
        NoDupConcat([l[0]], InsertBy(less, x, l[1..]));
      }
    } else {
      ElemsConcat([x], l);
      NoDupConcat([x], l);
    }
  }

  lemma {:induction false} InsertSorted(less: Less, x: nat, l: seq<nat>, s: set<nat>)
    requires StrictTotal(less, s) && x in s && Elems(l) <= s && x !in l
    requires SortedBy(less, l)
    ensures SortedBy(less, InsertBy(less, x, l))
  {
    if l == [] {
    } else {
      assert l[0] in Elems(l);
      assert forall i :: 0 <= i < |l| ==> l[i] in Elems(l);
      if less(l[0], x) {
        var rest := l[1..];
        assert forall i :: 0 <= i < |rest| ==> rest[i] == l[i + 1];
        InsertSorted(less, x, rest, s);
        InsertElems(less, x, rest);
        var r := InsertBy(less, x, rest);
        forall j | 0 <= j < |r| ensures less(l[0], r[j]) {
          assert r[j] in Elems(r);
          if r[j] != x {
            var k :| 0 <= k < |rest| && rest[k] == r[j];
            assert less(l[0], l[k + 1]);
          }
        }
      } else {
        forall j | 0 <= j < |l| ensures less(x, l[j]) {
          assert l[j] in s && l[j] != x;
          if j > 0 {
            assert less(l[0], l[j]);
          }
        }
      }
    }
  }

  /** Sorting keeps the members and puts them in order. */
  lemma {:induction false} SortCorrect(less: Less, l: seq<nat>, s: set<nat>)
    requires StrictTotal(less, s) && Elems(l) <= s && NoDup(l)
    ensures IsOrderOf(SortBy(less, l), Elems(l))
    ensures SortedBy(less, SortBy(less, l))
  {
    if l != [] {
      var rest := l[1..];
      assert l == [l[0]] + rest;
      NoDupConcat([l[0]], rest);
      ElemsConcat([l[0]], rest);
      SortCorrect(less, rest, s);
      assert l[0] in Elems(l);
      assert l[0] !in Elems(SortBy(less, rest));
      InsertElems(less, l[0], SortBy(less, rest));
      InsertSorted(less, l[0], SortBy(less, rest), s);
    }
  }
}
