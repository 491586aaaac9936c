/**
 `CompareChunks` (`util/feefrac.cpp`): a sweep over the corners of two feerate diagrams decides
 which of them lies above the other somewhere.
*/
module Compare {
  import opened Common
  import opened FeeFracs
  import opened Orders
  import opened Diagram
  import opened DepGraphs
  import opened Chunking
  import opened Heights

  datatype Ordering = Less | Equivalent | Greater | Unordered

  /** The diagram of `c` is above that of `d` at some size. */
  ghost predicate AboveSomewhere(c: seq<FeeFrac>, d: seq<FeeFrac>)
    requires AllPositive(c) && AllPositive(d)
  {
    exists x: real :: 0.0 <= x && Height(c, x) > Height(d, x)
  }

  ghost predicate AboveUpTo(c: seq<FeeFrac>, d: seq<FeeFrac>, z: real)
    requires AllPositive(c) && AllPositive(d)
  {
    exists x: real :: 0.0 <= x <= z && Height(c, x) > Height(d, x)
  }

  // ----- positions on a diagram

  /** The corner after the first `i` chunks. */
  ghost function Corner(c: seq<FeeFrac>, i: nat): FeeFrac
    requires i <= |c|
  {
    if i == 0 then EMPTY else Corner(c, i - 1).Plus(c[i - 1])
  }

  lemma {:induction false} CornerTail(c: seq<FeeFrac>, i: nat)
    requires 0 < i <= |c|
    ensures Corner(c, i) == c[0].Plus(Corner(c[1..], i - 1))
    decreases i
  {
    if i > 1 {
      CornerTail(c, i - 1);
    }
  }

  lemma {:induction false} CornerSize(c: seq<FeeFrac>, i: nat)
    requires AllPositive(c) && i <= |c|
    ensures 0 <= Corner(c, i).size
  {
    if i > 0 {
      CornerSize(c, i - 1);
    }
  }

  /** Between two corners the diagram is a straight line, and flat after the last one. */
  lemma {:induction false} HeightBetween(c: seq<FeeFrac>, i: nat, x: real)
    requires AllPositive(c) && i <= |c| && Corner(c, i).size as real <= x
    requires i < |c| ==> x <= Corner(c, i).size as real + c[i].size as real
    ensures 0.0 <= x
    ensures Height(c, x) == Corner(c, i).fee as real + if i < |c| then OnLine(c[i], x - Corner(c, i).size as real) else 0.0
    decreases i
  {
    CornerSize(c, i);
    if i > 0 {
      CornerTail(c, i);
      CornerSize(c[1..], i - 1);
      HeightPast(c, x);
      assert i < |c| ==> c[1..][i - 1] == c[i];
      HeightBetween(c[1..], i - 1, x - c[0].size as real);
    }
  }

  /** The height gained over a distance, at a slope; `Unfold(true)` opens the definition. */
  ghost predicate IsGain(r: real, t: real, g: real) {
    forall b {:trigger Unfold(b)} :: Unfold(b) ==> g == r * t
  }

  lemma {:induction false} LineSlope(f: FeeFrac, y: real, y': real, r: real)
    requires 0 < f.size && r == f.fee as real / f.size as real
    ensures IsGain(r, y' - y, OnLine(f, y') - OnLine(f, y))
  {
  }

  ghost predicate IsSlope(c: seq<FeeFrac>, i: nat, r: real)
    requires AllPositive(c) && i <= |c|
  {
    forall b {:trigger Unfold(b)} :: Unfold(b) ==> r == if i < |c| then c[i].fee as real / c[i].size as real else 0.0
  }

  lemma {:induction false} SlopeExists(c: seq<FeeFrac>, i: nat) returns (r: real)
    requires AllPositive(c) && i <= |c|
    ensures IsSlope(c, i, r)
  {
    r := if i < |c| then c[i].fee as real / c[i].size as real else 0.0;
  }

  /** Sizes between two corners, or past the last one. */
  ghost predicate Between(c: seq<FeeFrac>, i: nat, z: real, z': real) {
    && i <= |c| && Corner(c, i).size as real <= z <= z'
    && (i < |c| ==> z' <= Corner(c, i).size as real + c[i].size as real)
  }

  lemma {:induction false} Flat(r: real, t: real)
    requires r == 0.0
    ensures IsGain(r, t, 0.0)
  {
  }

  lemma {:induction false} Rise(c: seq<FeeFrac>, i: nat, z: real, x: real, r: real)
    requires AllPositive(c) && Between(c, i, z, x) && IsSlope(c, i, r)
    ensures 0.0 <= z && IsGain(r, x - z, Height(c, x) - Height(c, z))
  {
    HeightBetween(c, i, z);
    HeightBetween(c, i, x);
    assert Unfold(true);
    var s := Corner(c, i).size as real;
    if i < |c| {
      LineSlope(c[i], z - s, x - s, r);
      assert (x - s) - (z - s) == x - z;
    } else {
      Flat(r, x - z);
    }
  }

  /** A difference that is not positive at both ends is not positive in between. */
  lemma {:induction false} NotBoth(d: real, a: real, b: real, t: real, t': real, ga: real, gb: real, ga': real, gb': real)
    requires 0.0 <= t <= t' && IsGain(a, t, ga) && IsGain(b, t, gb) && IsGain(a, t', ga') && IsGain(b, t', gb')
    requires d <= 0.0 && d + ga' - gb' <= 0.0
    ensures d + ga - gb <= 0.0
  {
    assert Unfold(true);
    var r := a - b;
    assert ga - gb == r * t && ga' - gb' == r * t';
    if r > 0.0 {
      Nonnegative(r, t' - t);
      assert r * (t' - t) == r * t' - r * t;
    } else {
      Nonnegative(-r, t);
      assert -r * t == -(r * t);
    }
  }

  lemma {:induction false} Nonnegative(x: real, y: real)
    requires 0.0 <= x && 0.0 <= y
    ensures 0.0 <= x * y
  {
  }

  /** Without corners in between, one diagram is above the other only if it is at one of the ends. */
  lemma {:induction false} NothingBetween(c: seq<FeeFrac>, i: nat, d: seq<FeeFrac>, j: nat, z: real, z': real, x: real)
    requires AllPositive(c) && AllPositive(d) && Between(c, i, z, z') && Between(d, j, z, z') && 0.0 <= z <= x <= z'
    requires Height(c, z) <= Height(d, z) && Height(c, z') <= Height(d, z')
    ensures Height(c, x) <= Height(d, x)
  {
    var a := SlopeExists(c, i);
    var b := SlopeExists(d, j);
    Rise(c, i, z, x, a);
    Rise(d, j, z, x, b);
    Rise(c, i, z, z', a);
    Rise(d, j, z, z', b);
    NotBoth(Height(c, z) - Height(d, z), a, b, x - z, z' - z,
            Height(c, x) - Height(c, z), Height(d, x) - Height(d, z),
            Height(c, z') - Height(c, z), Height(d, z') - Height(d, z));
  }

  /** The sweep moves on to the next corner of either diagram. */
  lemma {:induction false} SweepOn(c: seq<FeeFrac>, i: nat, d: seq<FeeFrac>, j: nat, z: real, z': real)
    requires AllPositive(c) && AllPositive(d) && Between(c, i, z, z') && Between(d, j, z, z') && 0.0 <= z
    ensures AboveUpTo(c, d, z') <==> AboveUpTo(c, d, z) || Height(c, z') > Height(d, z')
  {
    if AboveUpTo(c, d, z') && !AboveUpTo(c, d, z) && Height(c, z') <= Height(d, z') {
      var x: real :| 0.0 <= x <= z' && Height(c, x) > Height(d, x);
      assert x > z;
      assert Height(c, z) <= Height(d, z);
      NothingBetween(c, i, d, j, z, z', x);
      assert false;
    }
    if AboveUpTo(c, d, z) {
      var x: real :| 0.0 <= x <= z && Height(c, x) > Height(d, x);
      assert 0.0 <= x <= z';
    }
  }

  /** Past the last corners nothing changes. */
  lemma {:induction false} SweepDone(c: seq<FeeFrac>, d: seq<FeeFrac>, z: real)
    requires AllPositive(c) && AllPositive(d) && Corner(c, |c|).size as real <= z && Corner(d, |d|).size as real <= z
    ensures AboveUpTo(c, d, z) <==> AboveSomewhere(c, d)
  {
    CornerSize(c, |c|);
    if AboveSomewhere(c, d) {
      var x: real :| 0.0 <= x && Height(c, x) > Height(d, x);
      if x > z {
        SweepOn(c, |c|, d, |d|, z, x);
        HeightBetween(c, |c|, z);
        HeightBetween(d, |d|, z);
        HeightBetween(c, |c|, x);
        HeightBetween(d, |d|, x);
        assert 0.0 <= z <= z && Height(c, z) > Height(d, z);
      }
    }
  }

  // ----- one comparison

  lemma {:induction false} AboveLine(dy: int, dx: int, f: FeeFrac)
    requires 0 < f.size
    ensures FeeFrac(dy, dx).Cross(f) > 0 <==> dy as real > OnLine(f, dx as real)
    ensures FeeFrac(dy, dx).Cross(f) < 0 <==> dy as real < OnLine(f, dx as real)
  {
    var h, s := OnLine(f, dx as real), f.size as real;
    OnLineIs(f, dx as real);
    assert FeeFrac(dy, dx).Cross(f) as real == dy as real * s - f.fee as real * dx as real;
    SameSign(dy as real, h, s);
  }

  lemma {:induction false} SameSign(a: real, h: real, s: real)
    requires 0.0 < s
    ensures a * s - h * s > 0.0 <==> a > h
    ensures a * s - h * s < 0.0 <==> a < h
  {
    assert a * s - h * s == (a - h) * s;
  }

  /** Compare the next corner of one diagram with the other diagram. */
  method CompareCorner(cu: seq<FeeFrac>, iu: nat, au: FeeFrac, co: seq<FeeFrac>, io: nat, ao: FeeFrac) returns (cmp: int)
    requires AllPositive(cu) && AllPositive(co) && iu < |cu| && io <= |co| && au == Corner(cu, iu) && ao == Corner(co, io)
    requires ao.size < au.size + cu[iu].size && (io < |co| ==> au.size + cu[iu].size <= ao.size + co[io].size)
    ensures 0 <= au.size + cu[iu].size
    ensures var x := (au.size + cu[iu].size) as real;
      (cmp > 0 <==> Height(cu, x) > Height(co, x)) && (cmp < 0 <==> Height(cu, x) < Height(co, x))
  {
    var pointP := cu[iu].Plus(au);
    var slopeAP := pointP.Minus(ao);
    CornerSize(cu, iu);
    HeightBetween(cu, iu, pointP.size as real);
    OnLineIs(cu[iu], cu[iu].size as real);
    HeightBetween(co, io, pointP.size as real);
    if io == |co| {
      cmp := slopeAP.Cross(FeeFrac(0, 1));
    } else {
      var pointB := co[io].Plus(ao);
      var slopeAB := pointB.Minus(ao);
      assert slopeAB == co[io];
      cmp := slopeAP.Cross(slopeAB);
      AboveLine(slopeAP.fee, slopeAP.size, co[io]);
    }
  }

  // ----- the sweep

  /** Everything up to size `z` has been compared, and the next corners lie further on. */
  ghost predicate Swept(c: seq<FeeFrac>, i: nat, d: seq<FeeFrac>, j: nat, z: int) {
    && AllPositive(c) && AllPositive(d) && i <= |c| && j <= |d|
    && 0 <= z && Corner(c, i).size <= z && Corner(d, j).size <= z
    && (i < |c| ==> z < Corner(c, i).size + c[i].size) && (j < |d| ==> z < Corner(d, j).size + d[j].size)
  }

  /** What is known after the sweep up to `z`. */
  ghost predicate Known(c: seq<FeeFrac>, d: seq<FeeFrac>, z: int, better: bool, worse: bool)
    requires AllPositive(c) && AllPositive(d)
  {
    (better <==> AboveUpTo(c, d, z as real)) && (worse <==> AboveUpTo(d, c, z as real))
  }

  lemma {:induction false} KnownNext(c: seq<FeeFrac>, i: nat, d: seq<FeeFrac>, j: nat, z: int, z': int, better: bool, worse: bool, cmp: int)
    requires Swept(c, i, d, j, z) && Known(c, d, z, better, worse) && z < z'
    requires i < |c| ==> z' <= Corner(c, i).size + c[i].size
    requires j < |d| ==> z' <= Corner(d, j).size + d[j].size
    requires cmp > 0 <==> Height(c, z' as real) > Height(d, z' as real)
    requires cmp < 0 <==> Height(c, z' as real) < Height(d, z' as real)
    ensures Known(c, d, z', better || cmp > 0, worse || cmp < 0)
  {
    SweepOn(c, i, d, j, z as real, z' as real);
    SweepOn(d, j, c, i, z as real, z' as real);
  }

  /** The next corner of the diagram `cu`, which is not behind that of `co`. */
  method Advance(cu: seq<FeeFrac>, iu: nat, au: FeeFrac, co: seq<FeeFrac>, io: nat, ao: FeeFrac,
                 better: bool, worse: bool, ghost z: int)
    returns (iu': nat, au': FeeFrac, io': nat, ao': FeeFrac, better': bool, worse': bool, ghost z': int)
    requires Swept(cu, iu, co, io, z) && Known(cu, co, z, better, worse) && au == Corner(cu, iu) && ao == Corner(co, io)
    requires iu < |cu| && (io < |co| ==> au.size + cu[iu].size <= ao.size + co[io].size)
    ensures Swept(cu, iu', co, io', z') && Known(cu, co, z', better', worse') && au' == Corner(cu, iu') && ao' == Corner(co, io')
    ensures iu' == iu + 1 && io <= io' <= |co|
  {
    z' := au.size + cu[iu].size;
    var cmp := CompareCorner(cu, iu, au, co, io, ao);
    KnownNext(cu, iu, co, io, z, z', better, worse, cmp);
    better', worse' := better || cmp > 0, worse || cmp < 0;
    io', ao' := io, ao;
    if io < |co| && co[io].Plus(ao).size == cu[iu].Plus(au).size {
      ao' := ao.Plus(co[io]);
      io' := io + 1;
    }
    au' := au.Plus(cu[iu]);
    iu' := iu + 1;
  }

  lemma {:induction false} UpToSomewhere(c: seq<FeeFrac>, d: seq<FeeFrac>, z: real)
    requires AllPositive(c) && AllPositive(d) && AboveUpTo(c, d, z)
    ensures AboveSomewhere(c, d)
  {
    var x: real :| 0.0 <= x <= z && Height(c, x) > Height(d, x);
  }

  function Verdict(better: bool, worse: bool): Ordering {
    if better && worse then Unordered else if better then Greater else if worse then Less else Equivalent
  }

  lemma {:induction false} SweepStart(c: seq<FeeFrac>, d: seq<FeeFrac>)
    requires AllPositive(c) && AllPositive(d)
    ensures Swept(c, 0, d, 0, 0) && Known(c, d, 0, false, false)
  {
    HeightStart(c);
    HeightStart(d);
  }

  method CompareChunks(chunks0: seq<FeeFrac>, chunks1: seq<FeeFrac>) returns (r: Ordering)
    requires AllPositive(chunks0) && AllPositive(chunks1)
    ensures r == Verdict(AboveSomewhere(chunks0, chunks1), AboveSomewhere(chunks1, chunks0))
  {
    var i, j, a, b := 0, 0, EMPTY, EMPTY;
    var better0, better1 := false, false;
    ghost var z := 0;
    SweepStart(chunks0, chunks1);
    while i < |chunks0| || j < |chunks1|
      invariant Swept(chunks0, i, chunks1, j, z) && a == Corner(chunks0, i) && b == Corner(chunks1, j)
      invariant Known(chunks0, chunks1, z, better0, better1)
      decreases |chunks0| - i + (|chunks1| - j)
    {
      var side1 := if i == |chunks0| || j == |chunks1| then i == |chunks0| else chunks0[i].Plus(a).size > chunks1[j].Plus(b).size;
      if side1 {
        j, b, i, a, better1, better0, z := Advance(chunks1, j, b, chunks0, i, a, better1, better0, z);
      } else {
        i, a, j, b, better0, better1, z := Advance(chunks0, i, a, chunks1, j, b, better0, better1, z);
      }
      if better0 && better1 {
        UpToSomewhere(chunks0, chunks1, z as real);
        UpToSomewhere(chunks1, chunks0, z as real);
        return Unordered;
      }
    }
    SweepDone(chunks0, chunks1, z as real);
    SweepDone(chunks1, chunks0, z as real);
    return Verdict(better0, better1);
  }

  lemma {:induction false} NotAbove(c: seq<FeeFrac>, d: seq<FeeFrac>)
    requires AllPositive(c) && AllPositive(d)
    ensures NowhereBelow(c, d) <==> !AboveSomewhere(d, c)
  {
    if !AboveSomewhere(d, c) {
      forall x: real | 0.0 <= x ensures Height(c, x) >= Height(d, x) {
        assert !(0.0 <= x && Height(d, x) > Height(c, x));
      }
    }
  }

  /** Comparing the chunks of two linearizations decides which of them dominates the other. */
  method CompareLinearizations(g: Graph, a: seq<nat>, b: seq<nat>) returns (r: Ordering)
    requires g.AllSized() && IsOrderOf(a, g.used) && IsOrderOf(b, g.used)
    ensures r == Greater || r == Equivalent <==> Dominates(g.Rates(), a, b)
    ensures r == Less || r == Equivalent <==> Dominates(g.Rates(), b, a)
  {
    var ca := ChunkLinearization(g, a);
    var cb := ChunkLinearization(g, b);
    ghost var fr := g.Rates();
    ghost var ga :| IsChunking(fr, ga, a) && AreRatesOf(fr, ca, ga);
    ghost var gb :| IsChunking(fr, gb, b) && AreRatesOf(fr, cb, gb);
    DominatesIsDiagram(fr, g.used, a, b, ga, gb, ca, cb);
    DominatesIsDiagram(fr, g.used, b, a, gb, ga, cb, ca);
    NotAbove(ca, cb);
    NotAbove(cb, ca);
    r := CompareChunks(ca, cb);
  }
}
