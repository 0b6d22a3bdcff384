/** Robust per-pair spread, shrunk towards a pooled estimate, and how far tampering can move it. */
module Scales {
  import opened Permutations
  import opened OrderedReals
  import opened Points

  type Scale = Point

  const SHRINKAGE_WEIGHT := 10.0

  /** The least scale of each dimension, in its own units. */
  function MinimumScale(dim: nat): (f: real)
    requires dim < NUM_DIMS
    ensures f > 0.0
  {
    if dim == DIM_USER_ACTIVE then 0.5 else 0.1
  }

  function Max(a: real, b: real): real { if a < b then b else a }

  function Abs(x: real): real { if x < 0.0 then -x else x }

  function Along(cloud: seq<Point>, dim: nat): (r: seq<real>)
    requires dim < NUM_DIMS
    ensures |r| == |cloud| && forall i :: 0 <= i < |cloud| ==> r[i] == cloud[i][dim]
  {
    seq(|cloud|, i requires 0 <= i < |cloud| => cloud[i][dim])
  }

  function Deviations(values: seq<real>, center: real): (r: seq<real>)
    ensures |r| == |values| && forall i :: 0 <= i < |values| ==> r[i] == Abs(values[i] - center)
  {
    seq(|values|, i requires 0 <= i < |values| => Abs(values[i] - center))
  }

  /** Median absolute deviation. */
  function Mad(values: seq<real>): real { Median(Deviations(values, Median(values))) }

  /** How much a cloud of n points is trusted over the pooled scale. */
  function Weight(n: nat): (w: real)
    ensures 0.0 <= w <= 1.0
  {
    n as real / (n as real + SHRINKAGE_WEIGHT)
  }

  function Floored(x: real, dim: nat): real
    requires dim < NUM_DIMS
  {
    Max(x, MinimumScale(dim))
  }

  function Blend(w: real, x: real, y: real): real { w * x + (1.0 - w) * y }

  function ScaleAlong(cloud: seq<Point>, pooled: Scale, dim: nat): real
    requires dim < NUM_DIMS
  {
    Blend(Weight(|cloud|), Floored(Mad(Along(cloud, dim)), dim), Floored(pooled[dim], dim))
  }

  function ScaleFor(cloud: seq<Point>, pooled: Scale): Scale {
    seq(NUM_DIMS, dim requires 0 <= dim < NUM_DIMS => ScaleAlong(cloud, pooled, dim))
  }

  function Concat<T>(clouds: seq<seq<T>>): seq<T> {
    if clouds == [] then [] else Concat(clouds[..|clouds| - 1]) + clouds[|clouds| - 1]
  }

  function Spreads(all: seq<Point>): Scale {
    seq(NUM_DIMS, dim requires 0 <= dim < NUM_DIMS => Floored(Mad(Along(all, dim)), dim))
  }

  function PooledScale(clouds: seq<seq<Point>>): Scale { Spreads(Concat(clouds)) }

  // ---------------------------------------------------------------- order does not matter

  lemma AlongPermutes(a: seq<Point>, b: seq<Point>, dim: nat)
    requires dim < NUM_DIMS && multiset(a) == multiset(b)
    ensures multiset(Along(a, dim)) == multiset(Along(b, dim))
  {
    var f := (p: Point) => p[dim];
    MapPermutes(f, a, b);
    assert Map(f, a) == Along(a, dim) && Map(f, b) == Along(b, dim);
  }

  lemma DeviationsPermute(a: seq<real>, b: seq<real>, c: real)
    requires multiset(a) == multiset(b)
    ensures multiset(Deviations(a, c)) == multiset(Deviations(b, c))
  {
    var f := x => Abs(x - c);
    MapPermutes(f, a, b);
    assert Map(f, a) == Deviations(a, c) && Map(f, b) == Deviations(b, c);
  }

  lemma MadPermutes(a: seq<real>, b: seq<real>)
    requires multiset(a) == multiset(b)
    ensures Mad(a) == Mad(b)
  {
    MedianPermutes(a, b);
    DeviationsPermute(a, b, Median(a));
    MedianPermutes(Deviations(a, Median(a)), Deviations(b, Median(b)));
  }

  lemma {:induction false} ConcatSplit<T>(a: seq<seq<T>>, b: seq<seq<T>>)
    ensures Concat(a + b) == Concat(a) + Concat(b)
    decreases |b|
  {
    if b == [] {
      assert a + b == a;
    } else {
      ConcatSplit(a, b[..|b| - 1]);
      assert (a + b)[..|a + b| - 1] == a + b[..|b| - 1];
    }
  }

  lemma ConcatOne<T>(e: seq<T>)
    ensures Concat([e]) == e
  {
    var one := [e];
    assert one[..0] == [] && Concat(one) == Concat(one[..0]) + e;
  }

  lemma {:induction false} ConcatPermutes<T>(a: seq<seq<T>>, b: seq<seq<T>>)
    requires multiset(a) == multiset(b)
    ensures multiset(Concat(a)) == multiset(Concat(b))
    decreases |a|
  {
    PermutationMembers(a, b);
    if a != [] {
      var init, e := a[..|a| - 1], a[|a| - 1];
      assert a == init + [e];
      var l, r := TakeOut(init, e, b);
      ConcatPermutes(init, l + r);
      ConcatSplit(init, [e]);
      ConcatSplit(l, [e] + r);
      ConcatSplit([e], r);
      ConcatSplit(l, r);
      ConcatOne(e);
      MultisetConcat(Concat(init), e);
      MultisetConcat(Concat(l), e + Concat(r));
      MultisetConcat(e, Concat(r));
      MultisetConcat(Concat(l), Concat(r));
    }
  }

  /** The pooled scale is the same whatever order the map of clouds is walked in. */
  lemma PooledScalePermutes(a: seq<seq<Point>>, b: seq<seq<Point>>)
    requires multiset(a) == multiset(b)
    ensures PooledScale(a) == PooledScale(b)
  {
    ConcatPermutes(a, b);
    forall dim | 0 <= dim < NUM_DIMS ensures PooledScale(a)[dim] == PooledScale(b)[dim] {
      AlongPermutes(Concat(a), Concat(b), dim);
      MadPermutes(Along(Concat(a), dim), Along(Concat(b), dim));
    }
  }

  /** Mirroring the values about any point, and so moving them, leaves the deviation as it was. */
  lemma MadReflects(values: seq<real>, c: real)
    ensures Mad(Reflected(values, c)) == Mad(values)
  {
    if values == [] {
      assert Reflected(values, c) == [];
    } else {
      MedianReflects(values, c);
      DeviationsReflect(values, c, Median(values));
      MadFrom(Reflected(values, c), c - Median(values), Deviations(values, Median(values)));
      MadFrom(values, Median(values), Deviations(values, Median(values)));
    }
  }

  lemma MadFrom(values: seq<real>, m: real, deviations: seq<real>)
    requires m == Median(values) && deviations == Deviations(values, m)
    ensures Mad(values) == Median(deviations)
  {
  }

  lemma DeviationsReflect(values: seq<real>, c: real, m: real)
    ensures Deviations(Reflected(values, c), c - m) == Deviations(values, m)
  {
  }

  /** At least half of the values are no further from the median than the deviation, and at least half no nearer. */
  lemma MadSplits(values: seq<real>)
    ensures 2 * CountIf(AtMost(Mad(values)), Deviations(values, Median(values))) >= |values|
    ensures 2 * CountIf(AtLeast(Mad(values)), Deviations(values, Median(values))) >= |values|
  {
    MedianSplits(Deviations(values, Median(values)));
  }

  // ---------------------------------------------------------------- resistance to tampering

  /** Positions of kept left alone by whoever produced got. */
  predicate Untouched(kept: seq<real>, got: seq<real>, touched: set<nat>) {
    |kept| == |got| && forall i: nat :: i < |kept| && i !in touched ==> got[i] == kept[i]
  }

  /** Untouched positions count towards the range they lie in. */
  lemma {:induction false} UntouchedCount(values: seq<real>, touched: set<nat>, lo: real, hi: real)
    requires forall i: nat :: i < |values| && i !in touched ==> lo <= values[i] <= hi
    ensures CountIn(values, lo, hi) + |touched| >= |values|
    decreases |values|
  {
    if values != [] {
      var n := |values| - 1;
      assert forall i: nat :: i < n && i !in touched - {n} ==> values[..n][i] == values[i];
      UntouchedCount(values[..n], touched - {n}, lo, hi);
    }
  }

  /** Replacing fewer than half the values keeps the median in the range of the others, and the MAD within its width. */
  lemma TamperedMedian(honest: seq<real>, got: seq<real>, touched: set<nat>, lo: real, hi: real)
    requires Untouched(honest, got, touched) && 2 * |touched| < |honest|
    requires forall i: nat :: i < |honest| && i !in touched ==> lo <= honest[i] <= hi
    ensures lo <= Median(got) <= hi
    ensures 0.0 <= Mad(got) <= hi - lo
  {
    UntouchedCount(got, touched, lo, hi);
    MajorityHoldsMedian(got, lo, hi);
    var c := Median(got);
    var d := Deviations(got, c);
    UntouchedCount(d, touched, 0.0, hi - lo);
    MajorityHoldsMedian(d, 0.0, hi - lo);
  }

  /** A weighted mean of two numbers lies between any bounds they share. */
  lemma Blends(w: real, x: real, y: real, low: real, high: real)
    requires 0.0 <= w <= 1.0 && low <= x <= high && low <= y <= high
    ensures low <= Blend(w, x, y) <= high
  {
    var v := 1.0 - w;
    Distribute(w, v, low);
    Distribute(w, v, high);
    Mix(w, v, x, y, low, high);
  }

  lemma Mix(w: real, v: real, x: real, y: real, low: real, high: real)
    requires w >= 0.0 && v >= 0.0 && low <= x <= high && low <= y <= high
    requires w * low + v * low == low && w * high + v * high == high
    ensures low <= w * x + v * y <= high
  {
    Scaled(w, low, x);
    Scaled(w, x, high);
    Scaled(v, low, y);
    Scaled(v, y, high);
    AddBounds(w * low, w * x, v * low, v * y, low);
    AddBounds(-(w * high), -(w * x), -(v * high), -(v * y), -high);
  }

  lemma AddBounds(a: real, b: real, c: real, d: real, low: real)
    requires a <= b && c <= d && a + c == low
    ensures low <= b + d
  {
  }

  lemma Distribute(w: real, v: real, x: real)
    requires w + v == 1.0
    ensures w * x + v * x == x
  {
    var s := w + v;
    assert s * x == x;
  }

  lemma Scaled(w: real, x: real, y: real)
    requires w >= 0.0 && x <= y
    ensures w * x <= w * y
  {
    assert w * (y - x) >= 0.0;
    assert w * (y - x) == w * y - w * x;
  }

  /**
   * If fewer than half of a cloud's points were replaced arbitrarily, its scale still lies between the floor and
   * the greatest of floor, pooled scale and the spread of the points left alone, for every cloud size.
   */
  lemma TamperedScale(honest: seq<Point>, got: seq<Point>, touched: set<nat>, pooled: Scale, dim: nat, lo: real, hi: real)
    requires dim < NUM_DIMS && |honest| == |got| && 2 * |touched| < |honest|
    requires forall i: nat :: i < |honest| && i !in touched ==> got[i] == honest[i] && lo <= honest[i][dim] <= hi
    ensures MinimumScale(dim) <= ScaleFor(got, pooled)[dim]
    ensures ScaleFor(got, pooled)[dim] <= Max(MinimumScale(dim), Max(pooled[dim], hi - lo))
  {
    TamperedMedian(Along(honest, dim), Along(got, dim), touched, lo, hi);
    var floor := MinimumScale(dim);
    Blends(Weight(|got|), Max(Mad(Along(got, dim)), floor), Max(pooled[dim], floor), floor, Max(floor, Max(pooled[dim], hi - lo)));
  }

  /** A scale is never below its floor, so no distance divides by zero. */
  lemma ScaleAboveFloor(cloud: seq<Point>, pooled: Scale, dim: nat)
    requires dim < NUM_DIMS
    ensures ScaleFor(cloud, pooled)[dim] >= MinimumScale(dim) > 0.0
  {
    var floor := MinimumScale(dim);
    var own, base := Max(Mad(Along(cloud, dim)), floor), Max(pooled[dim], floor);
    Blends(Weight(|cloud|), own, base, floor, Max(own, base));
  }

  // ---------------------------------------------------------------- how far a cloud is trusted

  /** The least spread reckoned with: half a step of the keyboard, a tenth in any other dimension. */
  function LeastSpread(dim: nat): real { if dim == 6 then 0.5 else 0.1 }

  /** The cloud's own spread, and the pooled one, in a dimension. */
  function OwnSpread(cloud: seq<Point>, dim: nat): (r: real)
    requires dim < NUM_DIMS
    ensures r >= LeastSpread(dim)
  {
    var spread := Mad(Along(cloud, dim));
    if spread < LeastSpread(dim) then LeastSpread(dim) else spread
  }

  function SharedSpread(pooled: Scale, dim: nat): (r: real)
    requires dim < NUM_DIMS
    ensures r >= LeastSpread(dim)
  {
    if pooled[dim] < LeastSpread(dim) then LeastSpread(dim) else pooled[dim]
  }

  lemma ScaleIsBlend(cloud: seq<Point>, pooled: Scale, dim: nat)
    requires dim < NUM_DIMS
    ensures ScaleFor(cloud, pooled)[dim] == Blend(Weight(|cloud|), OwnSpread(cloud, dim), SharedSpread(pooled, dim))
  {
  }

  lemma WeightIs(n: nat)
    ensures Weight(n) * (n as real + 10.0) == n as real
  {
  }

  /** n points leave ten parts in n + 10 of the way from their own spread to the pooled one. */
  lemma ScaleDistance(cloud: seq<Point>, pooled: Scale, dim: nat)
    requires dim < NUM_DIMS
    ensures Apart(ScaleFor(cloud, pooled)[dim], OwnSpread(cloud, dim), SharedSpread(pooled, dim), |cloud|)
  {
    ScaleIsBlend(cloud, pooled, dim);
    BlendDistance(ScaleFor(cloud, pooled)[dim], OwnSpread(cloud, dim), SharedSpread(pooled, dim), |cloud|);
  }

  predicate Apart(x: real, own: real, base: real, n: nat) { (x - own) * (n as real + 10.0) == 10.0 * (base - own) }

  lemma BlendDistance(x: real, own: real, base: real, n: nat)
    requires x == Blend(Weight(n), own, base)
    ensures Apart(x, own, base, n)
  {
    WeightIs(n);
    Blended(x, Weight(n), own, base, n as real + 10.0);
  }

  lemma Blended(x: real, w: real, own: real, base: real, m: real)
    requires x == Blend(w, own, base) && w * m == m - 10.0
    ensures (x - own) * m == 10.0 * (base - own)
  {
    var g := base - own;
    assert x - own == (1.0 - w) * g;
    assert ((1.0 - w) * g) * m == (m - w * m) * g;
  }

  /** Without points the scale is the pooled one, no less than the least spread. */
  lemma EmptyCloudScale(pooled: Scale, dim: nat)
    requires dim < NUM_DIMS
    ensures ScaleFor([], pooled)[dim] == SharedSpread(pooled, dim)
  {
    ScaleDistance([], pooled, dim);
    Nearest(ScaleFor([], pooled)[dim], OwnSpread([], dim), SharedSpread(pooled, dim));
  }

  lemma Nearest(x: real, own: real, base: real)
    requires Apart(x, own, base, 0)
    ensures x == base
  {
  }

  /**
   * Of two clouds with one spread the larger has a scale no further from that spread, and strictly closer whenever it is
   * larger and the pooled spread differs.
   */
  lemma MorePointsTrustedMore(c: seq<Point>, d: seq<Point>, pooled: Scale, dim: nat)
    requires dim < NUM_DIMS && |c| < |d| && OwnSpread(c, dim) == OwnSpread(d, dim)
    ensures var own := OwnSpread(c, dim);
      var x, y := Abs(ScaleFor(c, pooled)[dim] - own), Abs(ScaleFor(d, pooled)[dim] - own);
      y <= x && (own != SharedSpread(pooled, dim) ==> y < x)
  {
    ScaleDistance(c, pooled, dim);
    ScaleDistance(d, pooled, dim);
    SmallerShare(ScaleFor(c, pooled)[dim], ScaleFor(d, pooled)[dim], OwnSpread(c, dim), SharedSpread(pooled, dim), |c|, |d|);
  }

  lemma SmallerShare(x: real, y: real, own: real, base: real, m: nat, n: nat)
    requires m < n && Apart(x, own, base, m) && Apart(y, own, base, n)
    ensures Abs(y - own) <= Abs(x - own) && (own != base ==> Abs(y - own) < Abs(x - own))
  {
    var g := base - own;
    if g == 0.0 {
      Zero(x - own, m as real + 10.0);
      Zero(y - own, n as real + 10.0);
    } else if g > 0.0 {
      Smaller(x - own, y - own, m as real + 10.0, n as real + 10.0);
    } else {
      Smaller(own - x, own - y, m as real + 10.0, n as real + 10.0);
    }
  }

  lemma Zero(x: real, m: real)
    requires m > 0.0 && x * m == 0.0
    ensures x == 0.0
  {
  }

  lemma Smaller(x: real, y: real, m: real, n: real)
    requires 0.0 < m < n && x * m == y * n && x * m > 0.0
    ensures 0.0 < y < x
  {
    assert x > 0.0 && y > 0.0;
    assert x * (n - m) > 0.0;
    assert (x - y) * n == x * (n - m);
  }

  /** Ten points are where a cloud counts as much as all others together. */
  lemma HalfwayAtTen(cloud: seq<Point>, pooled: Scale, dim: nat)
    requires dim < NUM_DIMS && OwnSpread(cloud, dim) != SharedSpread(pooled, dim)
    ensures ScaleFor(cloud, pooled)[dim] == (OwnSpread(cloud, dim) + SharedSpread(pooled, dim)) / 2.0 <==> |cloud| == 10
  {
    ScaleDistance(cloud, pooled, dim);
    Halfway(ScaleFor(cloud, pooled)[dim], OwnSpread(cloud, dim), SharedSpread(pooled, dim), |cloud|);
  }

  lemma Halfway(x: real, own: real, base: real, n: nat)
    requires own != base && Apart(x, own, base, n)
    ensures x == (own + base) / 2.0 <==> n == 10
  {
    var g := base - own;
    if n == 10 { assert x - own == g / 2.0; }
    if x == (own + base) / 2.0 {
      assert g * (n as real - 10.0) == 0.0;
      if g > 0.0 { Zero(n as real - 10.0, g); } else { Zero(n as real - 10.0, -g); }
    }
  }

  /** The pooled scale is the spread all points of all clouds have together. */
  lemma PooledIs(clouds: seq<seq<Point>>, dim: nat)
    requires dim < NUM_DIMS
    ensures PooledScale(clouds)[dim] == OwnSpread(Concat(clouds), dim)
  {
  }

  // ---------------------------------------------------------------- the loops

  method MedianOf(values: array<real>) returns (m: real)
    ensures m == Median(values[..])
  {
    if values.Length == 0 { return 0.0; }
    var sorted := Sort(values[..]);
    SortFacts(values[..]);
    var mid := |sorted| / 2;
    if |sorted| % 2 == 1 { return sorted[mid]; }
    return (sorted[mid - 1] + sorted[mid]) / 2.0;
  }

  /** Fill an array with one coordinate, then overwrite it with deviations. */
  method MadAlong(cloud: seq<Point>, dim: nat) returns (m: real)
    requires dim < NUM_DIMS
    ensures m == Mad(Along(cloud, dim))
  {
    var values := new real[|cloud|];
    for i := 0 to |cloud|
      invariant forall k :: 0 <= k < i ==> values[k] == cloud[k][dim]
    {
      values[i] := cloud[i][dim];
    }
    assert values[..] == Along(cloud, dim);
    var center := MedianOf(values);
    for i := 0 to values.Length
      invariant forall k :: 0 <= k < i ==> values[k] == Abs(cloud[k][dim] - center)
      invariant forall k :: i <= k < values.Length ==> values[k] == cloud[k][dim]
    {
      values[i] := Abs(values[i] - center);
    }
    assert values[..] == Deviations(Along(cloud, dim), center);
    m := MedianOf(values);
  }

  method AtLeastFloor(spread: real, dim: nat) returns (r: real)
    requires dim < NUM_DIMS
    ensures r == Floored(spread, dim)
  {
    r := spread;
    if r < MinimumScale(dim) { r := MinimumScale(dim); }
  }

  method ComputeScale(cloud: seq<Point>, pooled: Scale) returns (scale: Scale)
    ensures scale == ScaleFor(cloud, pooled)
  {
    scale := ZERO_POINT;
    ghost var want := ScaleFor(cloud, pooled);
    var weight := Weight(|cloud|);
    for dim := 0 to NUM_DIMS
      invariant forall d :: 0 <= d < dim ==> scale[d] == want[d]
    {
      var base := AtLeastFloor(pooled[dim], dim);
      var own := MadAlong(cloud, dim);
      own := AtLeastFloor(own, dim);
      scale := scale[dim := Blend(weight, own, base)];
    }
  }

  method AllPoints(clouds: seq<seq<Point>>) returns (all: seq<Point>)
    ensures all == Concat(clouds)
  {
    all := [];
    for i := 0 to |clouds|
      invariant all == Concat(clouds[..i])
    {
      assert clouds[..i + 1][..i] == clouds[..i];
      all := all + clouds[i];
    }
    assert clouds[..|clouds|] == clouds;
  }

  method ComputePooledScale(clouds: seq<seq<Point>>) returns (scale: Scale)
    ensures scale == PooledScale(clouds)
  {
    var all := AllPoints(clouds);
    ghost var want := Spreads(all);
    scale := ZERO_POINT;
    for dim := 0 to NUM_DIMS
      invariant forall d :: 0 <= d < dim ==> scale[d] == want[d]
    {
      var spread := MadAlong(all, dim);
      spread := AtLeastFloor(spread, dim);
      scale := scale[dim := spread];
    }
  }
}
