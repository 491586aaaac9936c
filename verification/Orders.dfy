/**
 Sequences of transaction positions: no repetition, the set of elements, sub-sequences
 kept or dropped by a set, and the concatenation of a list of groups.
*/
module Orders {
  import opened Common

  function Elems(l: seq<nat>): set<nat> {
    set x | x in l
  }

  /** `l` lists each member of `s` once and nothing else. */
  ghost predicate IsOrderOf(l: seq<nat>, s: set<nat>) {
    NoDup(l) && Elems(l) == s
  }

  /** The sub-sequence of the elements that lie in `s`. */
  ghost function Keep(l: seq<nat>, s: set<nat>): seq<nat> {
    if l == [] then []
    else if l[0] in s then [l[0]] + Keep(l[1..], s)
    else Keep(l[1..], s)
  }

  /** The sub-sequence of the elements that lie outside `s`. */
  ghost function Drop(l: seq<nat>, s: set<nat>): seq<nat> {
    if l == [] then []
    else if l[0] in s then Drop(l[1..], s)
    else [l[0]] + Drop(l[1..], s)
  }

  ghost function Flatten(groups: seq<seq<nat>>): seq<nat> {
    if groups == [] then [] else groups[0] + Flatten(groups[1..])
  }

  lemma {:induction false} Assoc<T>(a: seq<T>, b: seq<T>, c: seq<T>)
    ensures (a + b) + c == a + (b + c)
  {
  }

  lemma {:induction false} ElemsEmpty(l: seq<nat>)
    ensures Elems(l) == {} <==> l == []
  {
    if l != [] {
      assert l[0] in Elems(l);
    }
  }

  lemma {:induction false} ElemsConcat(a: seq<nat>, b: seq<nat>)
    ensures Elems(a + b) == Elems(a) + Elems(b)
  {
  }

  lemma {:induction false} NoDupConcat(a: seq<nat>, b: seq<nat>)
    ensures NoDup(a + b) <==> NoDup(a) && NoDup(b) && Elems(a) !! Elems(b)
  {
    var l := a + b;
    if NoDup(l) {
      forall i, j | 0 <= i < j < |a| ensures a[i] != a[j] { assert l[i] != l[j]; }
      forall i, j | 0 <= i < j < |b| ensures b[i] != b[j] { assert l[|a| + i] != l[|a| + j]; }
      forall x | x in Elems(a) ensures x !in Elems(b) {
        var i :| 0 <= i < |a| && a[i] == x;
        forall j | 0 <= j < |b| ensures b[j] != x { assert l[i] != l[|a| + j]; }
      }
    }
    if NoDup(a) && NoDup(b) && Elems(a) !! Elems(b) {
      forall i, j | 0 <= i < j < |l| ensures l[i] != l[j] {
        if i < |a| <= j {
          assert l[i] in Elems(a) && l[j] in Elems(b);
        }
      }
    }
  }

  lemma {:induction false} DropConcat(a: seq<nat>, b: seq<nat>, s: set<nat>)
    ensures Drop(a + b, s) == Drop(a, s) + Drop(b, s)
  {
    if a == [] {
      assert a + b == b;
    } else {
      var rest := a[1..];
      DropConcat(rest, b, s);
      assert (a + b)[1..] == rest + b;
      assert (a + b)[0] == a[0];
      Assoc([a[0]], Drop(rest, s), Drop(b, s));
    }
  }

  lemma {:induction false} KeepConcat(a: seq<nat>, b: seq<nat>, s: set<nat>)
    ensures Keep(a + b, s) == Keep(a, s) + Keep(b, s)
  {
    if a == [] {
      assert a + b == b;
    } else {
      var rest := a[1..];
      KeepConcat(rest, b, s);
      assert (a + b)[1..] == rest + b;
      assert (a + b)[0] == a[0];
      Assoc([a[0]], Keep(rest, s), Keep(b, s));
    }
  }

  lemma {:induction false} DropElems(l: seq<nat>, s: set<nat>)
    ensures Elems(Drop(l, s)) == Elems(l) - s
    ensures NoDup(l) ==> NoDup(Drop(l, s))
  {
    if l != [] {
      DropElems(l[1..], s);
      assert l == [l[0]] + l[1..];
      ElemsConcat([l[0]], l[1..]);
      ElemsConcat([l[0]], Drop(l[1..], s));
      if NoDup(l) {
        NoDupConcat([l[0]], l[1..]);
        NoDupConcat([l[0]], Drop(l[1..], s));
      }
    }
  }

  /** Nothing is lost or kept twice: `Drop` and `Keep` split the sequence. */
  lemma {:induction false} DropNothing(l: seq<nat>, s: set<nat>)
    requires Elems(l) !! s
    ensures Drop(l, s) == l
  {
    if l != [] {
      assert l[0] in Elems(l);
      assert forall x :: x in Elems(l[1..]) ==> x in Elems(l);
      DropNothing(l[1..], s);
    }
  }

  lemma {:induction false} DropAll(l: seq<nat>, s: set<nat>)
    requires Elems(l) <= s
    ensures Drop(l, s) == []
  {
    if l != [] {
      assert l[0] in Elems(l);
      assert forall x :: x in Elems(l[1..]) ==> x in Elems(l);
      DropAll(l[1..], s);
    }
  }

  lemma {:induction false} KeepMinus(l: seq<nat>, a: set<nat>, b: set<nat>)
    ensures Keep(l, a - b) == Drop(Keep(l, a), b)
  {
    if l != [] {
      KeepMinus(l[1..], a, b);
      if l[0] in a {
        assert Keep(l, a) == [l[0]] + Keep(l[1..], a);
        assert Keep(l, a)[1..] == Keep(l[1..], a);
      }
    }
  }

  lemma {:induction false} KeepAll(l: seq<nat>, s: set<nat>)
    requires Elems(l) <= s
    ensures Keep(l, s) == l
  {
    if l != [] {
      assert l[0] in Elems(l);
      assert forall x :: x in Elems(l[1..]) ==> x in Elems(l);
      KeepAll(l[1..], s);
    }
  }

  lemma {:induction false} KeepElems(l: seq<nat>, s: set<nat>)
    ensures Elems(Keep(l, s)) == Elems(l) * s
    ensures |Keep(l, s)| <= |l|
    ensures NoDup(l) ==> NoDup(Keep(l, s))
  {
    if l != [] {
      KeepElems(l[1..], s);
      assert l == [l[0]] + l[1..];
      ElemsConcat([l[0]], l[1..]);
      ElemsConcat([l[0]], Keep(l[1..], s));
      if NoDup(l) {
        NoDupConcat([l[0]], l[1..]);
        NoDupConcat([l[0]], Keep(l[1..], s));
      }
    }
  }

  lemma {:induction false} FlattenConcat(a: seq<seq<nat>>, b: seq<seq<nat>>)
    ensures Flatten(a + b) == Flatten(a) + Flatten(b)
  {
    if a == [] {
      assert a + b == b;
    } else {
      FlattenConcat(a[1..], b);
      assert (a + b)[1..] == a[1..] + b;
      assert (a + b)[0] == a[0];
      Assoc(a[0], Flatten(a[1..]), Flatten(b));
    }
  }

  lemma {:induction false} FlattenSingle(g: seq<nat>)
    ensures Flatten([g]) == g
  {
    assert Flatten([g]) == g + Flatten([g][1..]);
  }

  /** A group of a list is a contiguous part of the concatenation. */
  lemma {:induction false} FlattenSplit(groups: seq<seq<nat>>, k: nat)
    requires k < |groups|
    ensures Flatten(groups) == Flatten(groups[..k]) + groups[k] + Flatten(groups[k+1..])
  {
    var a, g, b := groups[..k], groups[k], groups[k+1..];
    assert groups == (a + [g]) + b;
    FlattenConcat(a + [g], b);
    FlattenSnoc(a, g);
  }

  lemma {:induction false} FlattenSnoc(groups: seq<seq<nat>>, g: seq<nat>)
    ensures Flatten(groups + [g]) == Flatten(groups) + g
  {
    FlattenConcat(groups, [g]);
    FlattenSingle(g);
  }

  lemma {:induction false} ElemsCard(l: seq<nat>)
    requires NoDup(l)
    ensures |Elems(l)| == |l|
  {
    if l != [] {
      assert l == [l[0]] + l[1..];
      NoDupConcat([l[0]], l[1..]);
      ElemsConcat([l[0]], l[1..]);
      ElemsCard(l[1..]);
      assert Elems(l) == {l[0]} + Elems(l[1..]);
    }
  }
}
