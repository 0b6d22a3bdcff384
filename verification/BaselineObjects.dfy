/** The baseline as the program holds it: built by walking the log twice, then asked about connections. */
module BaselineObjects {
  import opened Options
  import opened Permutations
  import opened Entries
  import opened Identities
  import opened Rejections
  import opened Concurrency
  import opened ConcurrencyIndex
  import opened Points
  import opened Scales
  import opened Neighbours
  import opened Baselines
  import opened BaselineStats
  import opened CloudTables
  import opened BaselineViews
  import C = Catalogs

  lemma UpdateTwice<K, V>(m: map<K, V>, k: K, v: V, w: V)
    ensures m[k := v][k := w] == m[k := w]
    ensures k in m && m[k] == w ==> m[k := w] == m
  {
  }

  class Clouds {
    var points: map<string, seq<Point>>
    var last: map<string, int>
    var pooled: Scale
    var meta: map<string, Pair>

    ghost function With(learned: map<string, Learned>): Tables
      reads this
    {
      Tables(points, last, meta, learned)
    }

    constructor ()
      ensures points == map[] && last == map[] && meta == map[]
    {
      points, last, pooled, meta := map[], map[], ZERO_POINT, map[];
    }

    /** One accepted row: name the pair, and if its time parses, add its point and remember the time. */
    method Add(key: string, identity: Identity, host: string, j: Joined, index: Index, fn: Analysis)
      requires index.Valid()
      modifies this
      ensures meta == old(meta)[key := Pair(identity, host)] && pooled == old(pooled)
      ensures last == if j.decision.at.Some? then old(last)[key := j.decision.at.value] else old(last)
      ensures points == WithPoint(old(points), key, if j.decision.at.None? then None else PointFrom(fn, j,
                  if key in old(last) then old(last)[key] else 0, Indexed(index.rows, j.decision.at.value, j.decision.connID)))
    {
      meta := meta[key := Pair(identity, host)];
      ghost var before := points;
      if key !in points { points := points[key := []]; }
      UpdateTwice(before, key, [], points[key]);
      if j.decision.at.None? { return; }
      var timestamp := j.decision.at.value;
      var point := PointOf(index, fn, timestamp, if key in last then last[key] else 0, j);
      last := last[key := timestamp];
      if point.None? { return; }
      var grown := Append(points[key], point.value);
      UpdateTwice(before, key, points[key], grown);
      points := points[key := grown];
    }

    static method PointOf(index: Index, fn: Analysis, timestamp: int, prev: int, j: Joined) returns (point: Option<Point>)
      requires index.Valid()
      ensures point == PointFrom(fn, j, prev, Indexed(index.rows, timestamp, j.decision.connID))
    {
      var concurrency := index.At(timestamp, j.decision.connID);
      point := PointFrom(fn, j, prev, concurrency);
    }

    static method Append(cloud: seq<Point>, p: Point) returns (grown: seq<Point>)
      ensures grown == Newest(cloud + [p])
    {
      grown := cloud + [p];
      if |grown| > MAX_CLOUD_POINTS { grown := grown[|grown| - MAX_CLOUD_POINTS..]; }
    }

    /** Pool every cloud, walking the map in whatever order it comes. */
    method Finish()
      modifies this`pooled
      ensures Pooled(points, pooled)
    {
      var all: seq<seq<Point>> := [];
      ghost var ks: seq<string> := [];
      var left := points.Keys;
      while left != {}
        invariant left <= points.Keys && Enumerates(ks, points.Keys - left)
        invariant all == CloudsIn(points, ks)
        decreases left
      {
        var key :| key in left;
        ghost var more := ks + [key];
        left := left - {key};
        all := all + [points[key]];
        assert Enumerates(more, points.Keys - left);
        ks := more;
      }
      assert points.Keys - left == points.Keys;
      pooled := ComputePooledScale(all);
    }
  }

  class Baseline {
    const cat: C.Catalog?
    var identities: set<string>
    var hosts: set<string>
    var pairs: set<string>
    var learned: map<string, Learned>
    var clouds: Clouds
    var builtThrough: int
    var rejectionDigest: string

    ghost function Value(): View
      reads this, clouds
    {
      View(identities, hosts, pairs, learned, clouds.points, clouds.last, clouds.meta, clouds.pooled, builtThrough, rejectionDigest)
    }

    /** `BuildBaselineWithRejections`. */
    constructor Build(cat: C.Catalog?, entries: seq<Entry>, rej: RejectionSet, digest: string, fn: Analysis)
      ensures BuiltFrom(Value(), fn, rej, entries)
      ensures this.cat == cat && rejectionDigest == digest && fresh(clouds)
    {
      var byPair, latest := CountDays(entries, rej);
      var ids, hs, ps := StablePairs(byPair);
      FrequentAreStable(rej, entries, byPair);
      var rows := JoinEntries(entries);
      var cl, l := BuildClouds(rows, rej, fn);
      TablesHold(Context(fn, rej, rows), rows);
      JoinKeepsDecisions([], entries);
      assert DecisionsOf([]) == [];
      assert DecisionsOf(rows) == Decisions(entries);
      this.cat := cat;
      identities, hosts, pairs := ids, hs, ps;
      learned, clouds := l, cl;
      builtThrough := latest;
      rejectionDigest := digest;
    }

    /** A baseline with given contents. */
    constructor Of(cat: C.Catalog?, identities: set<string>, hosts: set<string>, pairs: set<string>, learned: map<string, Learned>,
                   clouds: Clouds, builtThrough: int, rejectionDigest: string)
      ensures this.cat == cat && this.clouds == clouds
      ensures Value() == View(identities, hosts, pairs, learned, clouds.points, clouds.last, clouds.meta, clouds.pooled, builtThrough, rejectionDigest)
    {
      this.cat := cat;
      this.identities, this.hosts, this.pairs, this.learned := identities, hosts, pairs, learned;
      this.clouds, this.builtThrough, this.rejectionDigest := clouds, builtThrough, rejectionDigest;
    }

    /** First walk: the days of each pair, and how far the log reaches. */
    static method CountDays(entries: seq<Entry>, rej: RejectionSet) returns (byPair: map<string, PairStats>, latest: int)
      ensures StatsHold(rej, entries, byPair) && latest == BuiltThrough(entries)
    {
      byPair, latest := map[], 0;
      for n := 0 to |entries|
        invariant StatsHold(rej, entries[..n], byPair) && latest == BuiltThrough(entries[..n])
      {
        var e := entries[n];
        ghost var done := entries[..n];
        assert entries[..n + 1] == done + [e] && (done + [e])[..n] == done;
        if !Taught(rej, e) { QuietStats(rej, done, e, byPair); } else { StatsStep(rej, done, e, byPair); }
        if !FoldsIntoBaseline(e) { continue; }
        if e.at.Some? && e.at.value > latest { latest := e.at.value; }
        if Rejected(rej, e) { continue; }
        var identity := IdentityFromEntry(e);
        var pair := PairKey(IdentityKey(identity), HostKey(e.host));
        var stats := if pair in byPair then byPair[pair] else PairStats({}, IdentityKey(identity), HostKey(e.host));
        if e.at.Some? { stats := stats.(days := stats.days + {Day(e.at.value)}); }
        byPair := byPair[pair := stats];
      }
      assert entries[..|entries|] == entries;
    }

    /** The pairs with enough days, their identities and their hosts. */
    static method StablePairs(byPair: map<string, PairStats>) returns (identities: set<string>, hosts: set<string>, pairs: set<string>)
      ensures pairs == Frequent(byPair) && identities == IdsOf(byPair, Frequent(byPair)) && hosts == HostsOf(byPair, Frequent(byPair))
    {
      identities, hosts, pairs := {}, {}, {};
      var left := byPair.Keys;
      while left != {}
        invariant left <= byPair.Keys && pairs == Frequent(byPair) - left
        invariant identities == IdsOf(byPair, pairs) && hosts == HostsOf(byPair, pairs)
        decreases left
      {
        var pair :| pair in left;
        left := left - {pair};
        if |byPair[pair].days| < MIN_STABLE_DAYS { continue; }
        identities, hosts, pairs := identities + {byPair[pair].id}, hosts + {byPair[pair].host}, pairs + {pair};
      }
    }

    /** Second walk, over the joined rows: clouds and provenance. */
    static method BuildClouds(rows: seq<Joined>, rej: RejectionSet, fn: Analysis) returns (clouds: Clouds, learned: map<string, Learned>)
      ensures fresh(clouds) && clouds.With(learned) == TablesOf(Context(fn, rej, rows), rows)
      ensures Pooled(clouds.points, clouds.pooled)
    {
      var index := new Index.Build(rows);
      clouds := new Clouds();
      learned := map[];
      ghost var c := Context(fn, rej, rows);
      for n := 0 to |rows|
        invariant fresh(clouds) && index.Valid() && index.rows == rows
        invariant clouds.With(learned) == TablesOf(c, rows[..n])
      {
        assert rows[..n + 1][..n] == rows[..n];
        learned := TakeRow(clouds, learned, rows[n], index, rej, fn);
      }
      assert rows[..|rows|] == rows;
      clouds.Finish();
    }

    /** One joined row: nothing unless it teaches. */
    static method TakeRow(clouds: Clouds, learned: map<string, Learned>, j: Joined, index: Index, rej: RejectionSet, fn: Analysis)
      returns (next: map<string, Learned>)
      requires index.Valid()
      modifies clouds
      ensures clouds.With(next) == AfterRow(Context(fn, rej, index.rows), old(clouds.With(learned)), j)
    {
      next := learned;
      if !FoldsIntoBaseline(j.decision) { return; }
      if Rejected(rej, j.decision) { return; }
      var identity := IdentityFromEntry(j.decision);
      var key := PairKey(IdentityKey(identity), HostKey(j.decision.host));
      clouds.Add(key, identity, j.decision.host, j, index, fn);
      if j.decision.at.Some? { next := ObserveLearned(learned, key, identity, j.decision.host, j.decision.at.value); }
    }

    /** Count a pair once more, widening its first and last time. */
    static method ObserveLearned(learned: map<string, Learned>, key: string, id: Identity, host: string, at: int) returns (next: map<string, Learned>)
      ensures next == Observed(learned, key, id, host, at)
    {
      if key !in learned { return learned[key := Learned(id, host, at, at, 1)]; }
      var p := learned[key];
      if at < p.firstSeen { p := p.(firstSeen := at); }
      if at > p.lastSeen { p := p.(lastSeen := at); }
      next := learned[key := p.(count := p.count + 1)];
    }

    method IsStale(entries: seq<Entry>) returns (r: bool)
      ensures r == StaleFor(builtThrough, entries)
    {
      for i := 0 to |entries|
        invariant forall k :: 0 <= k < i ==> !(FoldsIntoBaseline(entries[k]) && entries[k].at.Some? && entries[k].at.value > builtThrough)
      {
        if !FoldsIntoBaseline(entries[i]) { continue; }
        if entries[i].at.Some? && entries[i].at.value > builtThrough { return true; }
      }
      return false;
    }

    method CloudFor(id: Identity, host: string) returns (cloud: seq<Point>, scale: Scale)
      ensures cloud == CloudOf(Value(), id, host) && scale == ScaleOf(Value(), id, host)
    {
      var key := PairKey(IdentityKey(id), HostKey(host));
      cloud := if key in clouds.points then clouds.points[key] else [];
      scale := ComputeScale(cloud, clouds.pooled);
    }

    method LastSeenFor(id: Identity, host: string) returns (at: int)
      ensures at == LastSeenOf(Value(), id, host)
    {
      var key := PairKey(IdentityKey(id), HostKey(host));
      at := if key in clouds.last then clouds.last[key] else 0;
    }

    /** Compare one completed connection with its pair's history. */
    method ScoreAgainst(fn: Analysis, id: Identity, host: string, j: Joined, prev: int, concurrency: int) returns (score: Score)
      ensures ScoresAgainst(Value(), fn, id, host, j, prev, concurrency, score)
    {
      var point := PointFrom(fn, j, prev, concurrency);
      if point.None? { return UNSCORED; }
      var cloud, scale := CloudFor(id, host);
      ScaleIsUsable(cloud, clouds.pooled);
      score := ScorePoint(fn, point.value, cloud, scale);
    }

    /** Known pair, catalog fact, or a drift with its reason and rank; never yet a score. */
    method Classify(fn: Analysis, e: Entry) returns (ev: DriftEvent)
      ensures ev.class_ == Classification(Value(), if cat == null then None else Some(cat.entries), e)
      ensures ev.identity == IdentityFromEntry(e) && ev.host == e.host && ev.log == e
      ensures ev.firstSeen == if e.at.Some? then e.at.value else 0
      ensures ev.score == UNSCORED
    {
      var id := IdentityFromEntry(e);
      var idKey, hKey := IdentityKey(id), HostKey(e.host);
      var hostKnown := hKey in hosts;
      var prev := LastSeenFor(id, e.host);
      var score := ScoreAgainst(fn, id, e.host, Joined(e, None), prev, 0);
      ev := DriftEvent(KnownPair, id, e.host, if e.at.Some? then e.at.value else 0, e, score);
      if PairKey(idKey, hKey) in pairs { return; }
      if cat != null {
        var m := cat.Lookup(id, e.host);
        if m.neverHit { return ev.(class_ := Drift(NovelPairing, 4)); }
        if m.found && m.authoritative { return; }
        var named := cat.HasHost(e.host);
        NamedIff(cat.entries, e.host);
        if named { hostKnown := true; }
      }
      if idKey !in identities { return ev.(class_ := Drift(NovelIdentity, 3)); }
      if !hostKnown { return ev.(class_ := Drift(NovelDestination, 2)); }
      return ev.(class_ := Drift(NovelPairing, 1));
    }
  }

  lemma NamedIff(es: seq<C.Entry>, host: string)
    ensures NamedInCatalog(es, host) <==> exists e :: e in es && (C.Lists(e.never, host) || C.Expects(e, host))
  {
    if e :| e in es && (C.Lists(e.never, host) || C.Expects(e, host)) {
      var i :| 0 <= i < |es| && es[i] == e;
    }
    if i :| 0 <= i < |es| && (C.Lists(es[i].never, host) || C.Expects(es[i], host)) { assert es[i] in es; }
  }
}
