/**
 Feerate diagrams as curves (`util/feefrac.h`, `util/feefrac.cpp`): the diagram of a list of
 chunks starts at the origin, adds fee and size of each chunk in turn, and goes on horizontally.
 One linearization dominates another exactly when its diagram is nowhere below the other's, and
 `CompareChunks` tells where two diagrams lie above each other.
*/
module Heights {
  import opened Common
  import opened FeeFracs
  import opened Orders
  import opened Sums
  import opened Diagram
  import opened Chunking

  ghost predicate AllPositive(c: seq<FeeFrac>) {
    forall i :: 0 <= i < |c| ==> 0 < c[i].size
  }

  /** Fee at size `x` on the straight line from the origin to `f`. */
  ghost function OnLine(f: FeeFrac, x: real): real
    requires 0 < f.size
  {
    f.fee as real * x / f.size as real
  }

  /** The height of the diagram at size `x`. */
  ghost function Height(c: seq<FeeFrac>, x: real): real
    requires AllPositive(c) && 0.0 <= x
    decreases |c|
  {
    if c == [] then 0.0
    else if x <= c[0].size as real then OnLine(c[0], x)
    else c[0].fee as real + Height(c[1..], x - c[0].size as real)
  }

  // ----- straight lines

  lemma {:induction false} OnLineIs(f: FeeFrac, x: real)
    requires 0 < f.size
    ensures OnLine(f, x) * f.size as real == f.fee as real * x
    ensures OnLine(f, f.size as real) == f.fee as real && OnLine(f, 0.0) == 0.0
  {
  }

  lemma {:induction false} HeightStart(c: seq<FeeFrac>)
    requires AllPositive(c)
    ensures Height(c, 0.0) == 0.0
  {
    if c != [] {
      OnLineIs(c[0], 0.0);
    }
  }

  lemma {:induction false} HeightPast(c: seq<FeeFrac>, x: real)
    requires AllPositive(c) && c != [] && c[0].size as real <= x
    ensures AllPositive(c[1..]) && Height(c, x) == c[0].fee as real + Height(c[1..], x - c[0].size as real)
  {
    if x == c[0].size as real {
      OnLineIs(c[0], x);
      HeightStart(c[1..]);
    }
  }

  ghost predicate IsLift(h: real, x: real, p: int, q: int, r: real) {
    forall b {:trigger Unfold(b)} :: Unfold(b) ==> r == q as real * h - p as real * x
  }

  /** How far the point (x, h) lies above the line of slope `p/q` through the origin, times `q`. */
  ghost function Lift(h: real, x: real, p: int, q: int): real {
    assert IsLift(h, x, p, q, q as real * h - p as real * x);
    var r: real :| IsLift(h, x, p, q, r);
    r
  }

  lemma {:induction false} LiftIs(h: real, x: real, p: int, q: int)
    ensures Lift(h, x, p, q) == q as real * h - p as real * x
  {
    assert Unfold(true);
  }

  /** Between its ends a weighted line is nowhere above both of them. */
  lemma {:induction false} LineBelow(f: FeeFrac, x: real, p: int, q: int)
    requires 0 < f.size && 0.0 <= x <= f.size as real && 0 < q
    ensures Lift(OnLine(f, x), x, p, q) <= Max(0, f.Above(p, q)) as real
  {
    LiftIs(OnLine(f, x), x, p, q);
    var h, s, w := OnLine(f, x), f.size as real, f.Above(p, q) as real;
    OnLineIs(f, x);
    assert w == q as real * f.fee as real - p as real * s;
    LineScaled(q as real, h, p as real, x, s, f.fee as real, w);
    if w <= 0.0 {
      ScaledDown(x, w);
      NotPositive(q as real * h - p as real * x, s, w * x);
    } else {
      NotAbove(q as real * h - p as real * x, s, w, x);
    }
  }

  lemma {:induction false} LineScaled(q: real, h: real, p: real, x: real, s: real, fee: real, w: real)
    requires h * s == fee * x && w == q * fee - p * s
    ensures (q * h - p * x) * s == w * x
  {
    assert (q * h - p * x) * s == q * (h * s) - p * x * s;
    assert q * (fee * x) == (q * fee) * x;
  }

  lemma {:induction false} ScaledDown(x: real, w: real)
    requires 0.0 <= x && w <= 0.0
    ensures w * x <= 0.0
  {
  }

  lemma {:induction false} NotPositive(v: real, s: real, y: real)
    requires 0.0 < s && v * s == y && y <= 0.0
    ensures v <= 0.0
  {
  }

  lemma {:induction false} NotAbove(v: real, s: real, w: real, x: real)
    requires 0.0 < s && v * s == w * x && x <= s && 0.0 <= w
    ensures v <= w
  {
    assert w * (s - x) >= 0.0;
    assert (v - w) * s <= 0.0;
  }

  // ----- supporting lines

  /** How far the highest corner of the diagram lies above the line of slope `p/q`, times `q`. */
  ghost function Support(c: seq<FeeFrac>, p: int, q: int): int {
    if c == [] then 0 else Max(0, c[0].Above(p, q) + Support(c[1..], p, q))
  }

  ghost function TotalSize(c: seq<FeeFrac>): int {
    if c == [] then 0 else c[0].size + TotalSize(c[1..])
  }

  lemma {:induction false} SizePositive(c: seq<FeeFrac>)
    requires AllPositive(c)
    ensures 0 <= TotalSize(c)
  {
    if c != [] {
      SizePositive(c[1..]);
    }
  }

  lemma {:induction false} SupportNotNegative(c: seq<FeeFrac>, p: int, q: int)
    ensures 0 <= Support(c, p, q)
  {
  }

  /** No point of the diagram lies further above the line than its highest corner. */
  lemma {:induction false} SupportAbove(c: seq<FeeFrac>, x: real, p: int, q: int)
    requires AllPositive(c) && 0.0 <= x <= TotalSize(c) as real && 0 < q
    ensures Lift(Height(c, x), x, p, q) <= Support(c, p, q) as real
    decreases |c|
  {
    if c != [] {
      SupportNotNegative(c[1..], p, q);
      if x <= c[0].size as real {
        LineBelow(c[0], x, p, q);
      } else {
        SupportAbove(c[1..], x - c[0].size as real, p, q);
        Split(c[0], Height(c[1..], x - c[0].size as real), Height(c, x), x, p, q);
      }
    } else {
      LiftIs(0.0, 0.0, p, q);
    }
  }

  /** A height past the first chunk, seen from the end of that chunk. */
  lemma {:induction false} Split(f: FeeFrac, h: real, y: real, x: real, p: int, q: int)
    requires y == f.fee as real + h
    ensures Lift(y, x, p, q) == f.Above(p, q) as real + Lift(h, x - f.size as real, p, q)
  {
    LiftIs(y, x, p, q);
    LiftIs(h, x - f.size as real, p, q);
    assert f.Above(p, q) as real == q as real * f.fee as real - p as real * f.size as real;
    assert q as real * (f.fee as real + h) == q as real * f.fee as real + q as real * h;
    assert p as real * (x - f.size as real) == p as real * x - p as real * f.size as real;
  }

  /** Some point of the diagram is as far above. */
  lemma {:induction false} SupportReached(c: seq<FeeFrac>, p: int, q: int) returns (x: real)
    requires AllPositive(c) && 0 < q
    ensures 0.0 <= x <= TotalSize(c) as real && Lift(Height(c, x), x, p, q) == Support(c, p, q) as real
    decreases |c|
  {
    SizePositive(c);
    HeightStart(c);
    if c == [] || c[0].Above(p, q) + Support(c[1..], p, q) <= 0 {
      x := 0.0;
      LiftIs(0.0, 0.0, p, q);
    } else {
      var y := SupportReached(c[1..], p, q);
      x := c[0].size as real + y;
      HeightPast(c, x);
      Split(c[0], Height(c[1..], y), Height(c, x), x, p, q);
    }
  }

  /** Feerates do not increase. */
  ghost predicate Sorted(c: seq<FeeFrac>) {
    forall i, j :: 0 <= i < j < |c| ==> c[j].Cross(c[i]) <= 0
  }

  lemma {:induction false} NothingAbove(c: seq<FeeFrac>, f: FeeFrac)
    requires forall i :: 0 <= i < |c| ==> c[i].Cross(f) <= 0
    ensures Support(c, f.fee, f.size) == 0
    decreases |c|
  {
    if c != [] {
      NothingAbove(c[1..], f);
      AboveCross(f, c[0]);
    }
  }

  lemma {:induction false} OnOwnLine(f: FeeFrac, x: real)
    requires 0 < f.size
    ensures Lift(OnLine(f, x), x, f.fee, f.size) == 0.0 && f.Above(f.fee, f.size) == 0
  {
    LiftIs(OnLine(f, x), x, f.fee, f.size);
    OnLineIs(f, x);
  }

  lemma {:induction false} AboveCross(f: FeeFrac, g: FeeFrac)
    ensures g.Above(f.fee, f.size) == -f.Cross(g) == g.Cross(f)
  {
  }

  /** At its own slope a point of a concave diagram is the highest. */
  lemma {:induction false} SlopeAt(c: seq<FeeFrac>, x: real) returns (k: nat)
    requires AllPositive(c) && Sorted(c) && 0.0 < x <= TotalSize(c) as real
    ensures k < |c|
    ensures Lift(Height(c, x), x, c[k].fee, c[k].size) == Support(c, c[k].fee, c[k].size) as real
    decreases |c|
  {
    var rest := c[1..];
    if x <= c[0].size as real {
      k := 0;
      OnOwnLine(c[0], x);
      assert forall i :: 0 <= i < |rest| ==> rest[i] == c[i + 1];
      NothingAbove(rest, c[0]);
    } else {
      var j := SlopeAt(rest, x - c[0].size as real);
      k := j + 1;
      var f := c[k];
      assert f == rest[j];
      Split(c[0], Height(rest, x - c[0].size as real), Height(c, x), x, f.fee, f.size);
      AboveCross(f, c[0]);
      SupportNotNegative(rest, f.fee, f.size);
    }
  }

  // ----- domination and diagrams

  ghost function TotalFee(c: seq<FeeFrac>): int {
    if c == [] then 0 else c[0].fee + TotalFee(c[1..])
  }

  lemma {:induction false} HeightEnd(c: seq<FeeFrac>, x: real)
    requires AllPositive(c) && TotalSize(c) as real <= x
    ensures 0.0 <= x && Height(c, x) == TotalFee(c) as real
    decreases |c|
  {
    SizePositive(c);
    if c != [] {
      SizePositive(c[1..]);
      HeightPast(c, x);
      HeightEnd(c[1..], x - c[0].size as real);
    }
  }

  /** The best prefix of a linearization, from the feerates of its chunks. */
  lemma {:induction false} SupportIsBest(fr: Rates, groups: seq<seq<nat>>, c: seq<FeeFrac>, p: int, q: int)
    requires AreChunks(fr, groups) && AreRatesOf(fr, c, groups) && 0 < q
    ensures Support(c, p, q) == Best(Weights(fr, p, q), Flatten(groups))
    decreases |groups|
  {
    if groups != [] {
      var rest, w := groups[1..], Weights(fr, p, q);
      assert forall i :: 0 <= i < |rest| ==> rest[i] == groups[i + 1] && c[1..][i] == c[i + 1];
      SupportIsBest(fr, rest, c[1..], p, q);
      BestConcat(w, groups[0], Flatten(rest));
      ChunkBest(fr, p, q, groups[0]);
      SumSeqWeights(fr, p, q, groups[0]);
      SupportNotNegative(c[1..], p, q);
    }
  }

  lemma {:induction false} Totals(fr: Rates, groups: seq<seq<nat>>, c: seq<FeeFrac>)
    requires AreRatesOf(fr, c, groups)
    ensures FeeFrac(TotalFee(c), TotalSize(c)) == AggSeq(fr, Flatten(groups))
    decreases |groups|
  {
    if groups != [] {
      var rest := groups[1..];
      assert forall i :: 0 <= i < |rest| ==> rest[i] == groups[i + 1] && c[1..][i] == c[i + 1];
      Totals(fr, rest, c[1..]);
      SumSeqConcat(Fees(fr), groups[0], Flatten(rest));
      SumSeqConcat(Sizes(fr), groups[0], Flatten(rest));
    }
  }

  lemma {:induction false} LiftOrder(h: real, h': real, x: real, p: int, q: int)
    requires 0 < q
    ensures Lift(h, x, p, q) >= Lift(h', x, p, q) <==> h >= h'
  {
    LiftIs(h, x, p, q);
    LiftIs(h', x, p, q);
    Scale(q as real, h - h');
    assert q as real * h - q as real * h' == q as real * (h - h');
  }

  lemma {:induction false} Scale(q: real, d: real)
    requires 0.0 < q
    ensures q * d >= 0.0 <==> d >= 0.0
  {
  }

  /** The diagram of `c` is nowhere below that of `d`. */
  ghost predicate NowhereBelow(c: seq<FeeFrac>, d: seq<FeeFrac>)
    requires AllPositive(c) && AllPositive(d)
  {
    forall x: real :: 0.0 <= x ==> Height(c, x) >= Height(d, x)
  }

  lemma {:induction false} HigherSupport(c: seq<FeeFrac>, d: seq<FeeFrac>, p: int, q: int)
    requires AllPositive(c) && AllPositive(d) && TotalSize(c) == TotalSize(d) && 0 < q && NowhereBelow(c, d)
    ensures Support(c, p, q) >= Support(d, p, q)
  {
    var x := SupportReached(d, p, q);
    LiftOrder(Height(c, x), Height(d, x), x, p, q);
    SupportAbove(c, x, p, q);
  }

  lemma {:induction false} HigherDiagram(c: seq<FeeFrac>, d: seq<FeeFrac>, x: real)
    requires AllPositive(c) && AllPositive(d) && Sorted(c) && TotalSize(c) == TotalSize(d) && TotalFee(c) == TotalFee(d)
    requires forall p: int, q: int :: 0 < q ==> Support(c, p, q) >= Support(d, p, q)
    requires 0.0 <= x
    ensures Height(c, x) >= Height(d, x)
  {
    HeightStart(c);
    HeightStart(d);
    if x > TotalSize(c) as real {
      HeightEnd(c, x);
      HeightEnd(d, x);
    } else if x > 0.0 {
      var k := SlopeAt(c, x);
      var p, q := c[k].fee, c[k].size;
      assert Support(c, p, q) >= Support(d, p, q);
      SupportAbove(d, x, p, q);
      LiftOrder(Height(c, x), Height(d, x), x, p, q);
    }
  }

  lemma {:induction false} ChunkRates(fr: Rates, groups: seq<seq<nat>>, c: seq<FeeFrac>, l: seq<nat>)
    requires IsChunking(fr, groups, l) && AreRatesOf(fr, c, groups)
    ensures AllPositive(c) && Sorted(c)
  {
    forall i | 0 <= i < |c| ensures 0 < c[i].size {
      AggSeqSize(fr, groups[i]);
    }
  }

  /** Domination is the order of feerate diagrams. */
  lemma {:induction false} DominatesIsDiagram(fr: Rates, s: set<nat>, a: seq<nat>, b: seq<nat>,
                                              ga: seq<seq<nat>>, gb: seq<seq<nat>>, ca: seq<FeeFrac>, cb: seq<FeeFrac>)
    requires IsOrderOf(a, s) && IsOrderOf(b, s)
    requires IsChunking(fr, ga, a) && IsChunking(fr, gb, b) && AreRatesOf(fr, ca, ga) && AreRatesOf(fr, cb, gb)
    ensures AllPositive(ca) && AllPositive(cb)
    ensures Dominates(fr, a, b) <==> NowhereBelow(ca, cb)
  {
    ChunkRates(fr, ga, ca, a);
    ChunkRates(fr, gb, cb, b);
    Totals(fr, ga, ca);
    Totals(fr, gb, cb);
    AggSeqIsAgg(fr, a);
    AggSeqIsAgg(fr, b);
    forall p: int, q: int | 0 < q
      ensures Support(ca, p, q) == Best(Weights(fr, p, q), a) && Support(cb, p, q) == Best(Weights(fr, p, q), b)
    {
      SupportIsBest(fr, ga, ca, p, q);
      SupportIsBest(fr, gb, cb, p, q);
    }
    if Dominates(fr, a, b) {
      forall x: real | 0.0 <= x ensures Height(ca, x) >= Height(cb, x) {
        HigherDiagram(ca, cb, x);
      }
    }
    if NowhereBelow(ca, cb) {
      forall p: int, q: int | 0 < q ensures Best(Weights(fr, p, q), a) >= Best(Weights(fr, p, q), b) {
        HigherSupport(ca, cb, p, q);
      }
    }
  }
}
