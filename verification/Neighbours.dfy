/** The distance from one connection to its pair's history: the mean over the nearest points. */
module Neighbours {
  import opened Options
  import opened Permutations
  import opened OrderedReals
  import opened Points
  import opened Scales

  const K := 5
  const DOMINANT_DIMENSIONS := 2

  type Dim = d: nat | d < NUM_DIMS

  /** Result of a comparison; no distance stands for an infinite one. */
  datatype Score = Score(scored: bool, distance: Option<real>, neighbours: nat, dominant: seq<Dim>, nearest: Option<Point>)

  predicate Usable(s: Scale) { forall d :: 0 <= d < NUM_DIMS ==> s[d] > 0.0 }

  /** What one dimension adds to the squared distance. */
  function Share(p: Point, q: Point, s: Scale, d: Dim): real
    requires Usable(s)
  {
    var diff := (p[d] - q[d]) / s[d];
    diff * diff
  }

  function SquaredUpTo(p: Point, q: Point, s: Scale, dims: nat): real
    requires dims <= NUM_DIMS && Usable(s)
  {
    if dims == 0 then 0.0
    else SquaredUpTo(p, q, s, dims - 1) + Share(p, q, s, dims - 1)
  }

  function ScaledDistance(fn: Analysis, p: Point, q: Point, s: Scale): real
    requires Usable(s)
  {
    fn.sqrt(SquaredUpTo(p, q, s, NUM_DIMS))
  }

  function Distances(fn: Analysis, p: Point, cloud: seq<Point>, s: Scale): (r: seq<real>)
    requires Usable(s)
    ensures |r| == |cloud| && forall i :: 0 <= i < |cloud| ==> r[i] == ScaledDistance(fn, p, cloud[i], s)
  {
    seq(|cloud|, i requires 0 <= i < |cloud| => ScaledDistance(fn, p, cloud[i], s))
  }

  function AtMostK(n: nat): nat { if n < K then n else K }

  /** The mean of the smallest numbers, five of them when there are that many. */
  function MeanOfNearest(ds: seq<real>): real
    requires ds != []
  {
    SortFacts(ds);
    SumOf(Sort(ds)[..AtMostK(|ds|)]) / AtMostK(|ds|) as real
  }

  /** What comparing p to a cloud yields: the mean of the nearest, and one of the nearest points. */
  ghost predicate Scores(fn: Analysis, p: Point, cloud: seq<Point>, s: Scale, score: Score)
    requires Usable(s)
  {
    if cloud == [] then score == Score(true, None, 0, [], None)
    else
      && score.scored && score.neighbours == AtMostK(|cloud|)
      && score.distance == Some(MeanOfNearest(Distances(fn, p, cloud, s)))
      && score.nearest.Some? && score.nearest.value in cloud
      && (forall q :: q in cloud ==> ScaledDistance(fn, p, score.nearest.value, s) <= ScaledDistance(fn, p, q, s))
      && Dominant(Shares(p, score.nearest.value, s), score.dominant)
  }

  // ---------------------------------------------------------------- the dominant dimensions

  /** What each dimension adds to the squared distance. */
  function Shares(p: Point, q: Point, s: Scale): (r: Point)
    requires Usable(s)
    ensures forall d: Dim :: r[d] == Share(p, q, s, d)
  {
    seq(NUM_DIMS, d requires 0 <= d < NUM_DIMS => Share(p, q, s, d))
  }

  predicate NamedIn(out: seq<Dim>, d: Dim) { exists k :: 0 <= k < |out| && DIM_NAMES[out[k]] == DIM_NAMES[d] }

  /** No dimension named otherwise than these has a share over most. */
  predicate OthersAtMost(shares: Point, out: seq<Dim>, most: real) { forall d: Dim :: NamedIn(out, d) || shares[d] <= most }

  /** Up to two differently named dimensions, each with the greatest share of the names left, none with an empty share. */
  predicate Dominant(shares: Point, out: seq<Dim>) {
    && |out| <= DOMINANT_DIMENSIONS
    && (forall k :: 0 <= k < |out| ==> Chosen(shares, out, k))
    && (|out| < DOMINANT_DIMENSIONS ==> OthersAtMost(shares, out, 0.0))
  }

  predicate Chosen(shares: Point, out: seq<Dim>, k: nat)
    requires k < |out|
  {
    shares[out[k]] > 0.0 && !NamedIn(out[..k], out[k]) && OthersAtMost(shares, out[..k], shares[out[k]])
  }

  predicate NonNegative(shares: Point) { forall d: Dim :: shares[d] >= 0.0 }

  lemma ShareIsPositiveIff(p: Point, q: Point, s: Scale, d: Dim)
    requires Usable(s)
    ensures Share(p, q, s, d) >= 0.0
    ensures Share(p, q, s, d) > 0.0 <==> p[d] != q[d]
  {
    var diff := (p[d] - q[d]) / s[d];
    assert diff * s[d] == p[d] - q[d];
    assert diff == 0.0 <==> p[d] == q[d];
  }

  lemma SharesArePositiveIff(p: Point, q: Point, s: Scale)
    requires Usable(s)
    ensures NonNegative(Shares(p, q, s))
    ensures forall d: Dim :: Shares(p, q, s)[d] > 0.0 <==> p[d] != q[d]
  {
    forall d: Dim ensures Share(p, q, s, d) >= 0.0 && (Share(p, q, s, d) > 0.0 <==> p[d] != q[d]) { ShareIsPositiveIff(p, q, s, d); }
  }

  lemma NoneShownIff(shares: Point, out: seq<Dim>)
    requires Dominant(shares, out)
    ensures out == [] <==> forall d: Dim :: shares[d] <= 0.0
  {
    if out == [] {
      forall d: Dim ensures shares[d] <= 0.0 { assert !NamedIn(out, d); }
    } else {
      assert Chosen(shares, out, 0);
    }
  }

  lemma OneShownIff(shares: Point, out: seq<Dim>)
    requires Dominant(shares, out) && out != []
    ensures |out| == 1 <==> forall d: Dim :: shares[d] > 0.0 ==> DIM_NAMES[d] == DIM_NAMES[out[0]]
  {
    if |out| == 1 {
      forall d: Dim | shares[d] > 0.0 ensures DIM_NAMES[d] == DIM_NAMES[out[0]] { assert NamedIn(out, d); }
    } else {
      assert Chosen(shares, out, 1) && out[..1][0] == out[0];
      assert shares[out[1]] > 0.0;
    }
  }

  /** A connection is called typical exactly when it coincides with its nearest predecessor. */
  lemma TypicalIffSame(p: Point, q: Point, s: Scale, out: seq<Dim>)
    requires Usable(s) && Dominant(Shares(p, q, s), out)
    ensures out == [] <==> p == q
  {
    var shares := Shares(p, q, s);
    SharesArePositiveIff(p, q, s);
    NoneShownIff(shares, out);
    if out == [] {
      forall d | 0 <= d < NUM_DIMS ensures p[d] == q[d] { var dim: Dim := d; assert shares[dim] <= 0.0; }
    }
  }

  /** One name alone is shown exactly when the points differ, and only in dimensions of that name. */
  lemma OneNameIff(p: Point, q: Point, s: Scale, out: seq<Dim>)
    requires Usable(s) && Dominant(Shares(p, q, s), out) && out != []
    ensures |out| == 1 <==> forall d: Dim :: p[d] != q[d] ==> DIM_NAMES[d] == DIM_NAMES[out[0]]
  {
    SharesArePositiveIff(p, q, s);
    OneShownIff(Shares(p, q, s), out);
  }

  lemma FirstShares(shares: Point, x: seq<Dim>, y: seq<Dim>)
    requires Dominant(shares, x) && Dominant(shares, y)
    requires x != []
    ensures y != [] && shares[x[0]] == shares[y[0]]
  {
    NoneShownIff(shares, x);
    NoneShownIff(shares, y);
    assert Chosen(shares, x, 0) && Chosen(shares, y, 0);
    assert !NamedIn(x[..0], y[0]) && !NamedIn(y[..0], x[0]);
  }

  lemma AlsoTwo(shares: Point, x: seq<Dim>, y: seq<Dim>)
    requires Dominant(shares, x) && Dominant(shares, y)
    requires |x| == 2
    ensures |y| == 2
  {
    FirstShares(shares, x, y);
    OneShownIff(shares, x);
    OneShownIff(shares, y);
    assert Chosen(shares, x, 0);
  }

  lemma SecondShare(shares: Point, x: seq<Dim>, y: seq<Dim>)
    requires Dominant(shares, x) && Dominant(shares, y)
    requires |x| == 2 && |y| == 2
    ensures shares[x[1]] <= shares[y[1]]
  {
    FirstShares(shares, x, y);
    assert Chosen(shares, x, 0) && Chosen(shares, x, 1) && Chosen(shares, y, 1);
    assert x[..1][0] == x[0] && !NamedIn(x[..1], x[1]);
    assert !NamedIn(x[..0], x[1]);
    var other := if DIM_NAMES[x[1]] != DIM_NAMES[y[0]] then x[1] else x[0];
    assert y[..1] == [y[0]] && !NamedIn(y[..1], other);
  }

  /** However ties fall, the shown dimensions are as many and weigh the same. */
  lemma DominantTies(shares: Point, x: seq<Dim>, y: seq<Dim>)
    requires Dominant(shares, x) && Dominant(shares, y)
    ensures |x| == |y| && forall k :: 0 <= k < |x| ==> shares[x[k]] == shares[y[k]]
  {
    if x != [] { FirstShares(shares, x, y); }
    if y != [] { FirstShares(shares, y, x); }
    if |x| == 2 { AlsoTwo(shares, x, y); }
    if |y| == 2 {
      AlsoTwo(shares, y, x);
      SecondShare(shares, x, y);
      SecondShare(shares, y, x);
    }
  }

  /** Only the two coordinates of the hour share a name. */
  lemma NamesShared(d: Dim, e: Dim)
    ensures DIM_NAMES[d] == DIM_NAMES[e] <==> d == e || (d in {4, 5} && e in {4, 5})
  {
    var lengths := [10, 14, 13, 8, 11, 11, 32, 43, 40];
    assert |DIM_NAMES[d]| == lengths[d] && |DIM_NAMES[e]| == lengths[e];
  }

  // ---------------------------------------------------------------- what the score means

  lemma DistancesPermute(fn: Analysis, p: Point, a: seq<Point>, b: seq<Point>, s: Scale)
    requires Usable(s) && multiset(a) == multiset(b)
    ensures multiset(Distances(fn, p, a, s)) == multiset(Distances(fn, p, b, s))
  {
    var f := (q: Point) => ScaledDistance(fn, p, q, s);
    MapPermutes(f, a, b);
    assert Map(f, a) == Distances(fn, p, a, s) && Map(f, b) == Distances(fn, p, b, s);
  }

  /** Neither the order of the cloud nor the order the sort leaves ties in changes the distance. */
  lemma OrderIrrelevant(fn: Analysis, p: Point, a: seq<Point>, b: seq<Point>, s: Scale, x: Score, y: Score)
    requires Usable(s) && multiset(a) == multiset(b)
    requires Scores(fn, p, a, s, x) && Scores(fn, p, b, s, y)
    ensures x.scored == y.scored && x.distance == y.distance && x.neighbours == y.neighbours
  {
    PermutationMembers(a, b);
    if a != [] {
      DistancesPermute(fn, p, a, b, s);
      SortPermutes(Distances(fn, p, a, s), Distances(fn, p, b, s));
    }
  }

  /** A coordinate's share is its difference in units of its scale, squared. */
  lemma ShareIs(p: Point, q: Point, s: Scale, d: Dim)
    requires Usable(s)
    ensures Share(p, q, s, d) * (s[d] * s[d]) == (p[d] - q[d]) * (p[d] - q[d])
  {
    var diff := (p[d] - q[d]) / s[d];
    assert diff * s[d] == p[d] - q[d];
    assert (diff * diff) * (s[d] * s[d]) == (diff * s[d]) * (diff * s[d]);
  }

  /** The distance is the root of a sum that is zero between a point and itself and moves with each coordinate by its share. */
  lemma {:induction false} DistanceMoves(fn: Analysis, p: Point, q: Point, s: Scale, d: Dim, x: real)
    requires Usable(s)
    ensures ScaledDistance(fn, q, q, s) == fn.sqrt(0.0)
    ensures exists a: real, b: real ::
      && ScaledDistance(fn, p, q, s) == fn.sqrt(a) && ScaledDistance(fn, p[d := x], q, s) == fn.sqrt(b)
      && b - a == Share(p[d := x], q, s, d) - Share(p, q, s, d)
  {
    ItselfIsNear(q, s, NUM_DIMS);
    OneMoves(p, q, s, d, x, NUM_DIMS);
    assert ScaledDistance(fn, p, q, s) == fn.sqrt(SquaredUpTo(p, q, s, NUM_DIMS));
    assert ScaledDistance(fn, p[d := x], q, s) == fn.sqrt(SquaredUpTo(p[d := x], q, s, NUM_DIMS));
  }

  lemma {:induction false} ItselfIsNear(q: Point, s: Scale, dims: nat)
    requires dims <= NUM_DIMS && Usable(s)
    ensures SquaredUpTo(q, q, s, dims) == 0.0
  {
    if dims > 0 { ItselfIsNear(q, s, dims - 1); }
  }

  lemma {:induction false} OneMoves(p: Point, q: Point, s: Scale, d: Dim, x: real, dims: nat)
    requires dims <= NUM_DIMS && Usable(s)
    ensures SquaredUpTo(p[d := x], q, s, dims) - SquaredUpTo(p, q, s, dims)
      == if d < dims then Share(p[d := x], q, s, d) - Share(p, q, s, d) else 0.0
  {
    if dims > 0 { OneMoves(p, q, s, d, x, dims - 1); }
  }

  lemma DistancesConcat(fn: Analysis, p: Point, a: seq<Point>, b: seq<Point>, s: Scale)
    requires Usable(s)
    ensures Distances(fn, p, a + b, s) == Distances(fn, p, a, s) + Distances(fn, p, b, s)
  {
  }

  lemma Divide(x: real, y: real, n: nat)
    requires x <= y && n > 0
    ensures x / n as real <= y / n as real
  {
  }

  /** No choice of that many points of the cloud is nearer on average. */
  lemma NoNearerChoice(fn: Analysis, p: Point, cloud: seq<Point>, s: Scale, chosen: seq<Point>, rest: seq<Point>, x: Score)
    requires Usable(s) && cloud != [] && multiset(cloud) == multiset(chosen + rest)
    requires |chosen| == if |cloud| < 5 then |cloud| else 5
    requires Scores(fn, p, cloud, s, x)
    ensures x.distance.value <= SumOf(Distances(fn, p, chosen, s)) / |chosen| as real && x.neighbours == |chosen|
  {
    DistancesPermute(fn, p, cloud, chosen + rest, s);
    var near, far := Distances(fn, p, chosen, s), Distances(fn, p, rest, s);
    DistancesConcat(fn, p, chosen, rest, s);
    SmallestSum(near, far, Distances(fn, p, cloud, s));
    Divide(SumOf(Sort(Distances(fn, p, cloud, s))[..|chosen|]), SumOf(near), |chosen|);
  }

  /** For a fixed scale, adding points to a cloud of at least five never increases the distance. */
  lemma MorePointsNoFurther(fn: Analysis, p: Point, cloud: seq<Point>, extra: seq<Point>, s: Scale, x: Score, y: Score)
    requires Usable(s) && |cloud| >= 5
    requires Scores(fn, p, cloud, s, x) && Scores(fn, p, cloud + extra, s, y)
    ensures y.distance.value <= x.distance.value
  {
    var a, b := Distances(fn, p, cloud, s), Distances(fn, p, extra, s);
    DistancesConcat(fn, p, cloud, extra, s);
    MoreNumbersNoFurther(a, b);
  }

  lemma MoreNumbersNoFurther(a: seq<real>, b: seq<real>)
    requires |a| >= K
    ensures MeanOfNearest(a + b) <= MeanOfNearest(a)
  {
    SortDominates(a, b);
    var s, t := Sort(a)[..K], Sort(a + b)[..K];
    SumOrder(t, s);
    Divide(SumOf(t), SumOf(s), K);
  }

  /** With fewer than five points it can: one more raises the distance exactly when it is further than the mean so far. */
  lemma FewPointsCanGrow(ds: seq<real>, d: real)
    requires 0 < |ds| < 5
    ensures MeanOfNearest(ds + [d]) > MeanOfNearest(ds) <==> d > MeanOfNearest(ds)
  {
    MeanOfAll(ds);
    MeanOfAll(ds + [d]);
    assert (ds + [d])[..|ds|] == ds;
    Averages(SumOf(ds), d, |ds|);
  }

  lemma MeanOfAll(ds: seq<real>)
    requires 0 < |ds| <= K
    ensures MeanOfNearest(ds) == SumOf(ds) / |ds| as real
  {
    SortFacts(ds);
    assert Sort(ds)[..|ds|] == Sort(ds);
    SumPermutes(Sort(ds), ds);
  }

  lemma Averages(sum: real, d: real, n: nat)
    requires n > 0
    ensures (sum + d) / (n + 1) as real > sum / n as real <==> d > sum / n as real
  {
    var m := n as real;
    var a, b := sum / m, (sum + d) / (m + 1.0);
    assert a * m == sum && b * (m + 1.0) == sum + d;
    SignOfDifference(a, b, m + 1.0, d - a);
  }

  lemma SignOfDifference(a: real, b: real, k: real, g: real)
    requires k > 0.0 && b * k - a * k == g
    ensures a < b <==> g > 0.0
  {
    assert (b - a) * k == g;
  }

  // ---------------------------------------------------------------- the loops

  datatype Neighbour = Neighbour(d: real, i: nat)

  predicate NearestFirst(all: seq<Neighbour>) { forall a, b :: 0 <= a < b < |all| ==> all[a].d <= all[b].d }

  /** sort.Slice by distance: ties may fall either way, so nothing more is promised. */
  method SortNeighbours(all: seq<Neighbour>) returns (r: seq<Neighbour>)
    ensures NearestFirst(r) && multiset(r) == multiset(all)
  {
    r := [];
    for n := 0 to |all|
      invariant NearestFirst(r) && multiset(r) == multiset(all[..n])
    {
      ghost var before := r;
      r := InsertNeighbour(r, all[n]);
      SamePlusOne(before, all[..n], all[n]);
      assert all[..n + 1] == all[..n] + [all[n]];
    }
    assert all[..|all|] == all;
  }

  lemma SamePlusOne<T>(a: seq<T>, b: seq<T>, e: T)
    requires multiset(a) == multiset(b)
    ensures multiset(a + [e]) == multiset(b + [e])
  {
    MultisetConcat(a, [e]);
    MultisetConcat(b, [e]);
  }

  method InsertNeighbour(s: seq<Neighbour>, e: Neighbour) returns (r: seq<Neighbour>)
    requires NearestFirst(s)
    ensures NearestFirst(r) && multiset(r) == multiset(s + [e])
  {
    var j := |s|;
    while j > 0 && s[j - 1].d > e.d
      invariant 0 <= j <= |s|
      invariant forall m :: j <= m < |s| ==> e.d <= s[m].d
    {
      j := j - 1;
    }
    InsertNearest(s, j, e);
    InsertAt(s, j, e);
    r := s[..j] + [e] + s[j..];
  }

  lemma InsertNearest(r: seq<Neighbour>, j: nat, e: Neighbour)
    requires NearestFirst(r) && j <= |r|
    requires j > 0 ==> r[j - 1].d <= e.d
    requires forall m :: j <= m < |r| ==> e.d <= r[m].d
    ensures NearestFirst(r[..j] + [e] + r[j..])
  {
    forall m | 0 <= m < j ensures r[m].d <= e.d {
      assert m < j - 1 ==> r[m].d <= r[j - 1].d;
    }
  }

  method ComputeDistance(fn: Analysis, p: Point, q: Point, s: Scale) returns (d: real)
    requires Usable(s)
    ensures d == ScaledDistance(fn, p, q, s)
  {
    var sum := 0.0;
    for dim := 0 to NUM_DIMS
      invariant sum == SquaredUpTo(p, q, s, dim)
    {
      var diff := (p[dim] - q[dim]) / s[dim];
      sum := sum + diff * diff;
    }
    d := fn.sqrt(sum);
  }

  /** The sort is by falling share, here the rising order of its negation. */
  predicate Ranked(shares: Point, r: seq<Neighbour>) {
    && NearestFirst(r)
    && (forall n :: n in r ==> n.i < NUM_DIMS && n.d == -shares[n.i])
    && (forall d: Dim :: Neighbour(-shares[d], d) in r)
  }

  method RankShares(p: Point, q: Point, s: Scale) returns (r: seq<Neighbour>)
    requires Usable(s)
    ensures Ranked(Shares(p, q, s), r)
  {
    ghost var shares := Shares(p, q, s);
    var all: seq<Neighbour> := [];
    for d := 0 to NUM_DIMS
      invariant |all| == d && forall k :: 0 <= k < d ==> all[k] == Neighbour(-shares[k], k)
    {
      var diff := (p[d] - q[d]) / s[d];
      assert shares[d] == Share(p, q, s, d);
      all := all + [Neighbour(-(diff * diff), d)];
    }
    r := SortNeighbours(all);
    PermutationMembers(r, all);
    forall d: Dim ensures Neighbour(-shares[d], d) in r { assert all[d] in all; }
  }

  /** Once every name ranked before n is shown, what is ranked from there on bounds the others. */
  lemma RestIsSmaller(shares: Point, r: seq<Neighbour>, n: nat, out: seq<Dim>, most: real)
    requires Ranked(shares, r) && n <= |r|
    requires forall m :: 0 <= m < n ==> NamedIn(out, r[m].i)
    requires n < |r| ==> -r[n].d <= most
    ensures OthersAtMost(shares, out, most)
  {
    forall d: Dim | !NamedIn(out, d) ensures shares[d] <= most {
      var e := Neighbour(-shares[d], d);
      assert e in r;
      var m :| 0 <= m < |r| && r[m] == e;
      assert n <= m && r[n].d <= r[m].d;
    }
  }

  lemma ChosenSnoc(shares: Point, out: seq<Dim>, d: Dim)
    requires forall k :: 0 <= k < |out| ==> Chosen(shares, out, k)
    requires shares[d] > 0.0 && !NamedIn(out, d) && OthersAtMost(shares, out, shares[d])
    ensures forall k :: 0 <= k < |out| + 1 ==> Chosen(shares, out + [d], k)
  {
    forall k | 0 <= k < |out| + 1 ensures Chosen(shares, out + [d], k) {
      if k < |out| { assert Chosen(shares, out, k) && (out + [d])[..k] == out[..k]; } else { assert (out + [d])[..k] == out; }
    }
  }

  /** The first n ranked shares are positive and their names are shown. */
  predicate Picked(shares: Point, r: seq<Neighbour>, n: nat, out: seq<Dim>)
    requires Ranked(shares, r) && n <= |r|
  {
    && (forall m :: 0 <= m < n ==> r[m] in r && NamedIn(out, r[m].i))
    && (forall k :: 0 <= k < |out| ==> Chosen(shares, out, k))
  }

  /** The next share in rank is shown unless its name already is. */
  lemma PickNext(shares: Point, r: seq<Neighbour>, n: nat, out: seq<Dim>)
    requires NonNegative(shares) && Ranked(shares, r) && n < |r| && Picked(shares, r, n, out) && r[n].d != 0.0
    ensures r[n].i < NUM_DIMS && Picked(shares, r, n + 1, if NamedIn(out, r[n].i) then out else out + [r[n].i])
  {
    assert r[n] in r;
    var d: Dim := r[n].i;
    assert shares[d] >= 0.0;
    if !NamedIn(out, d) {
      RestIsSmaller(shares, r, n, out, -r[n].d);
      ChosenSnoc(shares, out, d);
      StillNamed(r, n, out, d);
    }
  }

  lemma PickedIsDominant(shares: Point, r: seq<Neighbour>, n: nat, out: seq<Dim>)
    requires Ranked(shares, r) && n <= |r| && Picked(shares, r, n, out) && |out| <= DOMINANT_DIMENSIONS
    requires |out| == DOMINANT_DIMENSIONS || n == |r| || r[n].d == 0.0
    ensures Dominant(shares, out)
  {
    if |out| < DOMINANT_DIMENSIONS { RestIsSmaller(shares, r, n, out, 0.0); }
  }

  lemma StillNamed(r: seq<Neighbour>, n: nat, out: seq<Dim>, d: Dim)
    requires n < |r| && r[n].i == d && forall m :: 0 <= m < n ==> r[m].i < NUM_DIMS && NamedIn(out, r[m].i)
    ensures forall m :: 0 <= m < n + 1 ==> r[m].i < NUM_DIMS && NamedIn(out + [d], r[m].i)
  {
    forall m | 0 <= m < n + 1 ensures r[m].i < NUM_DIMS && NamedIn(out + [d], r[m].i) {
      if m < n {
        var k :| 0 <= k < |out| && DIM_NAMES[out[k]] == DIM_NAMES[r[m].i];
        assert (out + [d])[k] == out[k];
      } else {
        assert (out + [d])[|out|] == d;
      }
    }
  }

  method DominantAgainst(p: Point, nearest: Point, s: Scale) returns (out: seq<Dim>)
    requires Usable(s)
    ensures Dominant(Shares(p, nearest, s), out)
  {
    var all := RankShares(p, nearest, s);
    SharesArePositiveIff(p, nearest, s);
    out := PickDominant(Shares(p, nearest, s), all);
  }

  /** Walk the ranked shares until two names are found or the rest is empty. */
  method PickDominant(ghost shares: Point, all: seq<Neighbour>) returns (out: seq<Dim>)
    requires NonNegative(shares) && Ranked(shares, all)
    ensures Dominant(shares, out)
  {
    out := [];
    var n := 0;
    while n < |all| && |out| < DOMINANT_DIMENSIONS && all[n].d != 0.0
      invariant n <= |all| && |out| <= DOMINANT_DIMENSIONS && Picked(shares, all, n, out)
    {
      PickNext(shares, all, n, out);
      if !NamedIn(out, all[n].i) { out := out + [all[n].i]; }
      n := n + 1;
    }
    PickedIsDominant(shares, all, n, out);
  }

  function DistanceOf(n: Neighbour): real { n.d }

  /** Any list that is ascending by distance lists the sorted distances. */
  lemma NearestIsSorted(all: seq<Neighbour>, r: seq<Neighbour>, ds: seq<real>)
    requires NearestFirst(r) && multiset(r) == multiset(all)
    requires ds == Map(DistanceOf, all)
    ensures Map(DistanceOf, r) == Sort(ds)
  {
    MapPermutes(DistanceOf, r, all);
    SortFacts(ds);
    AscendingUnique(Map(DistanceOf, r), Sort(ds));
  }

  method ScorePoint(fn: Analysis, p: Point, cloud: seq<Point>, s: Scale) returns (score: Score)
    requires Usable(s)
    ensures Scores(fn, p, cloud, s, score)
  {
    if |cloud| == 0 { return Score(true, None, 0, [], None); }
    ghost var ds := Distances(fn, p, cloud, s);
    var all: seq<Neighbour> := [];
    for i := 0 to |cloud|
      invariant |all| == i && forall k :: 0 <= k < i ==> all[k] == Neighbour(ds[k], k)
    {
      var d := ComputeDistance(fn, p, cloud[i], s);
      all := all + [Neighbour(d, i)];
    }
    assert Map(DistanceOf, all) == ds;
    var sorted := SortNeighbours(all);
    PermutationMembers(sorted, all);
    NearestIsSorted(all, sorted, ds);
    var n := if K > |sorted| then |sorted| else K;
    var sum := 0.0;
    for i := 0 to n
      invariant sum == SumOf(Sort(ds)[..i])
    {
      assert Sort(ds)[..i + 1][..i] == Sort(ds)[..i];
      sum := sum + sorted[i].d;
    }
    NearestPoint(all, sorted, ds, |cloud|);
    var nearest := cloud[sorted[0].i];
    var dominant := DominantAgainst(p, nearest, s);
    score := Score(true, Some(sum / n as real), n, dominant, Some(nearest));
  }

  lemma NearestPoint(all: seq<Neighbour>, sorted: seq<Neighbour>, ds: seq<real>, n: nat)
    requires |ds| == |all| == n > 0 && forall k :: 0 <= k < n ==> all[k] == Neighbour(ds[k], k)
    requires NearestFirst(sorted) && |sorted| == n && forall x :: x in sorted <==> x in all
    ensures sorted[0].i < n && forall k :: 0 <= k < n ==> ds[sorted[0].i] <= ds[k]
  {
    assert sorted[0] in all;
    forall k | 0 <= k < n ensures sorted[0].d <= ds[k] {
      assert all[k] in sorted;
      var j :| 0 <= j < n && sorted[j] == all[k];
    }
  }
}
