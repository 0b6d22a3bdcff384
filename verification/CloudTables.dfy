/** The clouds kept per pair, and what one more joined row does to them. */
module CloudTables {
  import opened Options
  import opened Permutations
  import opened Entries
  import opened Identities
  import opened Concurrency
  import opened Points
  import opened Scales
  import opened Baselines
  import opened BaselineStats

  /** What the clouds are computed from: the numeric functions, the rejections and the whole joined log. */
  datatype Context = Context(fn: Analysis, rej: RejectionSet, all: seq<Joined>)

  ghost predicate PointsFor(c: Context, js: seq<Joined>, points: map<string, seq<Point>>, key: string) {
    && (key in points <==> EverTaught(c.rej, js, key))
    && (key in points ==> points[key] == Newest(PairPoints(c.fn, c.rej, c.all, js, key)))
  }

  ghost predicate LastFor(c: Context, js: seq<Joined>, last: map<string, int>, key: string) {
    && (key in last <==> EverDated(c.rej, js, key))
    && (if key in last then last[key] else 0) == LastAt(c.rej, js, key)
  }

  ghost predicate MetaFor(c: Context, js: seq<Joined>, meta: map<string, Pair>, key: string) {
    && (key in meta <==> EverTaught(c.rej, js, key))
    && (key in meta ==> NamedBy(c.rej, js, key, meta[key]))
  }

  ghost predicate CloudsHold(c: Context, js: seq<Joined>, points: map<string, seq<Point>>, last: map<string, int>, meta: map<string, Pair>) {
    && (forall key :: PointsFor(c, js, points, key))
    && (forall key :: LastFor(c, js, last, key))
    && (forall key :: MetaFor(c, js, meta, key))
  }

  lemma EmptyClouds(c: Context)
    ensures CloudsHold(c, [], map[], map[], map[])
  {
  }

  // ---------------------------------------------------------------- one more row

  function WithPoint(points: map<string, seq<Point>>, key: string, p: Option<Point>): map<string, seq<Point>> {
    var cloud := if key in points then points[key] else [];
    points[key := if p.Some? then Newest(cloud + [p.value]) else cloud]
  }

  lemma EverSnoc(rej: RejectionSet, js: seq<Joined>, j: Joined, key: string)
    ensures EverTaught(rej, js + [j], key) <==> EverTaught(rej, js, key) || TaughtFor(rej, j.decision, key)
    ensures EverDated(rej, js + [j], key) <==> EverDated(rej, js, key) || DatedFor(rej, j.decision, key)
  {
    var g := js + [j];
    assert g[|js|] == j;
    if i :| 0 <= i < |js| && TaughtFor(rej, js[i].decision, key) { assert g[i] == js[i]; }
    if i :| 0 <= i < |js| && DatedFor(rej, js[i].decision, key) { assert g[i] == js[i]; }
  }

  lemma {:induction false} UntaughtHasNoPoints(c: Context, js: seq<Joined>, key: string)
    requires !EverTaught(c.rej, js, key)
    ensures PairPoints(c.fn, c.rej, c.all, js, key) == []
    decreases |js|
  {
    if js != [] {
      var n := |js| - 1;
      assert js == js[..n] + [js[n]];
      EverSnoc(c.rej, js[..n], js[n], key);
      UntaughtHasNoPoints(c, js[..n], key);
    }
  }

  lemma PointsSnoc(c: Context, js: seq<Joined>, j: Joined, key: string)
    ensures var p := PointAfter(c.fn, c.rej, c.all, js, j);
      PairPoints(c.fn, c.rej, c.all, js + [j], key)
      == PairPoints(c.fn, c.rej, c.all, js, key) + (if TaughtFor(c.rej, j.decision, key) && p.Some? then [p.value] else [])
  {
    assert (js + [j])[..|js|] == js;
  }

  lemma PointsStep(c: Context, js: seq<Joined>, j: Joined, points: map<string, seq<Point>>, key: string)
    requires PointsFor(c, js, points, key)
    ensures Taught(c.rej, j.decision) ==>
      PointsFor(c, js + [j], WithPoint(points, Bucket(j.decision), PointAfter(c.fn, c.rej, c.all, js, j)), key)
    ensures !Taught(c.rej, j.decision) ==> PointsFor(c, js + [j], points, key)
  {
    EverSnoc(c.rej, js, j, key);
    if TaughtFor(c.rej, j.decision, key) {
      OwnPointsStep(c, js, j, points);
    } else {
      OtherPointsStay(c, js, j, key);
    }
  }

  lemma OtherPointsStay(c: Context, js: seq<Joined>, j: Joined, key: string)
    requires !TaughtFor(c.rej, j.decision, key)
    ensures PairPoints(c.fn, c.rej, c.all, js + [j], key) == PairPoints(c.fn, c.rej, c.all, js, key)
  {
    PointsSnoc(c, js, j, key);
  }

  lemma OwnPointsStep(c: Context, js: seq<Joined>, j: Joined, points: map<string, seq<Point>>)
    requires Taught(c.rej, j.decision) && PointsFor(c, js, points, Bucket(j.decision))
    ensures var b := Bucket(j.decision);
      WithPoint(points, b, PointAfter(c.fn, c.rej, c.all, js, j))[b] == Newest(PairPoints(c.fn, c.rej, c.all, js + [j], b))
  {
    var b := Bucket(j.decision);
    PointsSnoc(c, js, j, b);
    var before, p := PairPoints(c.fn, c.rej, c.all, js, b), PointAfter(c.fn, c.rej, c.all, js, j);
    if !EverTaught(c.rej, js, b) { UntaughtHasNoPoints(c, js, b); }
    assert (if b in points then points[b] else []) == Newest(before);
    NewestMaybeSnoc(before, p);
  }

  lemma NewestMaybeSnoc<T>(before: seq<T>, p: Option<T>)
    ensures (if p.Some? then Newest(Newest(before) + [p.value]) else Newest(before))
      == Newest(before + (if p.Some? then [p.value] else []))
  {
    if p.Some? { NewestSnoc(before, p.value); } else { assert before + [] == before; }
  }

  lemma LastStep(c: Context, js: seq<Joined>, j: Joined, last: map<string, int>, key: string)
    requires LastFor(c, js, last, key)
    ensures Taught(c.rej, j.decision) && j.decision.at.Some? ==>
      LastFor(c, js + [j], last[Bucket(j.decision) := j.decision.at.value], key)
    ensures !(Taught(c.rej, j.decision) && j.decision.at.Some?) ==> LastFor(c, js + [j], last, key)
  {
    EverSnoc(c.rej, js, j, key);
    assert (js + [j])[..|js|] == js;
  }

  lemma MetaStep(c: Context, js: seq<Joined>, j: Joined, meta: map<string, Pair>, key: string)
    requires MetaFor(c, js, meta, key)
    ensures Taught(c.rej, j.decision) ==>
      MetaFor(c, js + [j], meta[Bucket(j.decision) := Pair(IdentityFromEntry(j.decision), j.decision.host)], key)
    ensures !Taught(c.rej, j.decision) ==> MetaFor(c, js + [j], meta, key)
  {
    EverSnoc(c.rej, js, j, key);
    NamedBySnoc(c.rej, js, j, key);
  }

  lemma NamedBySnoc(rej: RejectionSet, js: seq<Joined>, j: Joined, key: string)
    ensures forall p :: NamedBy(rej, js + [j], key, p) <==>
      if TaughtFor(rej, j.decision, key) then p == Pair(IdentityFromEntry(j.decision), j.decision.host) else NamedBy(rej, js, key, p)
  {
    assert (js + [j])[..|js|] == js;
  }

  lemma QuietRow(c: Context, js: seq<Joined>, j: Joined, points: map<string, seq<Point>>, last: map<string, int>, meta: map<string, Pair>)
    requires CloudsHold(c, js, points, last, meta) && !Taught(c.rej, j.decision)
    ensures CloudsHold(c, js + [j], points, last, meta)
  {
    forall key ensures PointsFor(c, js + [j], points, key) { PointsStep(c, js, j, points, key); }
    forall key ensures LastFor(c, js + [j], last, key) { LastStep(c, js, j, last, key); }
    forall key ensures MetaFor(c, js + [j], meta, key) { MetaStep(c, js, j, meta, key); }
  }

  lemma TaughtRow(c: Context, js: seq<Joined>, j: Joined, points: map<string, seq<Point>>, last: map<string, int>, meta: map<string, Pair>)
    requires CloudsHold(c, js, points, last, meta) && Taught(c.rej, j.decision)
    ensures var key, at := Bucket(j.decision), j.decision.at;
      CloudsHold(c, js + [j], WithPoint(points, key, PointAfter(c.fn, c.rej, c.all, js, j)),
        if at.Some? then last[key := at.value] else last, meta[key := Pair(IdentityFromEntry(j.decision), j.decision.host)])
  {
    var b, at := Bucket(j.decision), j.decision.at;
    var grown := WithPoint(points, b, PointAfter(c.fn, c.rej, c.all, js, j));
    var later := if at.Some? then last[b := at.value] else last;
    var named := meta[b := Pair(IdentityFromEntry(j.decision), j.decision.host)];
    forall key ensures PointsFor(c, js + [j], grown, key) { PointsStep(c, js, j, points, key); }
    forall key ensures LastFor(c, js + [j], later, key) { LastStep(c, js, j, last, key); }
    forall key ensures MetaFor(c, js + [j], named, key) { MetaStep(c, js, j, meta, key); }
  }

  // ---------------------------------------------------------------- the walk over the rows

  datatype Tables = Tables(points: map<string, seq<Point>>, last: map<string, int>, meta: map<string, Pair>, learned: map<string, Learned>)

  /** The point of one row, given the table of last times. */
  ghost function RowPoint(c: Context, last: map<string, int>, j: Joined): Option<Point> {
    if j.decision.at.None? then None
    else
      var key, at := Bucket(j.decision), j.decision.at.value;
      PointFrom(c.fn, j, if key in last then last[key] else 0, Indexed(c.all, at, j.decision.connID))
  }

  /** The tables after one more row. */
  ghost function AfterRow(c: Context, t: Tables, j: Joined): Tables {
    if !Taught(c.rej, j.decision) then t
    else
      var key, at := Bucket(j.decision), j.decision.at;
      Tables(WithPoint(t.points, key, RowPoint(c, t.last, j)),
             if at.Some? then t.last[key := at.value] else t.last,
             t.meta[key := Pair(IdentityFromEntry(j.decision), j.decision.host)],
             AfterEntry(c.rej, t.learned, j.decision))
  }

  ghost function TablesOf(c: Context, js: seq<Joined>): Tables {
    if js == [] then Tables(map[], map[], map[], map[]) else AfterRow(c, TablesOf(c, js[..|js| - 1]), js[|js| - 1])
  }

  /** The tables of a walk say what they should about every pair. */
  lemma {:induction false} TablesHold(c: Context, js: seq<Joined>)
    ensures var t := TablesOf(c, js);
      CloudsHold(c, js, t.points, t.last, t.meta) && ProvenanceHolds(c.rej, DecisionsOf(js), t.learned)
    decreases |js|
  {
    if js == [] {
      EmptyClouds(c);
    } else {
      var n := |js| - 1;
      var t := TablesOf(c, js[..n]);
      TablesHold(c, js[..n]);
      assert js == js[..n] + [js[n]];
      assert DecisionsOf(js) == DecisionsOf(js[..n]) + [js[n].decision];
      ObservedStep(c.rej, DecisionsOf(js[..n]), js[n].decision, t.learned);
      if Taught(c.rej, js[n].decision) {
        SamePoint(c, js[..n], js[n], t);
        TaughtRow(c, js[..n], js[n], t.points, t.last, t.meta);
      } else {
        QuietRow(c, js[..n], js[n], t.points, t.last, t.meta);
      }
    }
  }

  lemma SamePoint(c: Context, js: seq<Joined>, j: Joined, t: Tables)
    requires CloudsHold(c, js, t.points, t.last, t.meta)
    ensures RowPoint(c, t.last, j) == PointAfter(c.fn, c.rej, c.all, js, j)
  {
    assert LastFor(c, js, t.last, Bucket(j.decision));
  }

  // ---------------------------------------------------------------- the pooled scale

  /** ks names every key once, in some order. */
  ghost predicate Enumerates(ks: seq<string>, keys: set<string>) {
    (forall k :: k in ks <==> k in keys) && forall i, j :: 0 <= i < j < |ks| ==> ks[i] != ks[j]
  }

  function CloudsIn(points: map<string, seq<Point>>, ks: seq<string>): seq<seq<Point>>
    requires forall k :: k in ks ==> k in points
  {
    seq(|ks|, i requires 0 <= i < |ks| => points[ks[i]])
  }

  /** Pooled over all clouds, walking the map in some order. */
  ghost predicate Pooled(points: map<string, seq<Point>>, scale: Scale) {
    exists ks :: Enumerates(ks, points.Keys) && scale == PooledScale(CloudsIn(points, ks))
  }

  lemma {:induction false} EnumerationsPermute(a: seq<string>, b: seq<string>, keys: set<string>)
    requires Enumerates(a, keys) && Enumerates(b, keys)
    ensures multiset(a) == multiset(b)
  {
    forall k ensures multiset(a)[k] == multiset(b)[k] {
      OnceEach(a, keys, k);
      OnceEach(b, keys, k);
    }
  }

  lemma {:induction false} OnceEach(a: seq<string>, keys: set<string>, k: string)
    requires Enumerates(a, keys)
    ensures multiset(a)[k] == if k in keys then 1 else 0
    decreases |a|
  {
    if a != [] {
      var n := |a| - 1;
      assert a == a[..n] + [a[n]];
      assert forall x :: x in a[..n] <==> x in keys - {a[n]};
      OnceEach(a[..n], keys - {a[n]}, k);
    }
  }

  /** However the map of clouds is walked, before saving or after loading, the pooled scale is one and the same. */
  lemma PooledIsUnique(points: map<string, seq<Point>>, s: Scale, t: Scale)
    requires Pooled(points, s) && Pooled(points, t)
    ensures s == t
  {
    var a :| Enumerates(a, points.Keys) && s == PooledScale(CloudsIn(points, a));
    var b :| Enumerates(b, points.Keys) && t == PooledScale(CloudsIn(points, b));
    AnyWalkPools(points, a, b);
  }

  lemma AnyWalkPools(points: map<string, seq<Point>>, a: seq<string>, b: seq<string>)
    requires Enumerates(a, points.Keys) && Enumerates(b, points.Keys)
    ensures PooledScale(CloudsIn(points, a)) == PooledScale(CloudsIn(points, b))
  {
    EnumerationsPermute(a, b, points.Keys);
    var f := (k: string) => if k in points then points[k] else [];
    MapPermutes(f, a, b);
    assert Map(f, a) == CloudsIn(points, a) && Map(f, b) == CloudsIn(points, b);
    PooledScalePermutes(CloudsIn(points, a), CloudsIn(points, b));
  }
}
