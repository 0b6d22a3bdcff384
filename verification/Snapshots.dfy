/**
 * Saving a baseline and loading it back. Times are written to the second, and the text form of an identity leaves
 * out its path and hash; everything a connection is judged by survives anyway.
 */
module Snapshots {
  import opened Options
  import opened Text
  import opened Entries
  import opened Identities
  import opened Points
  import opened Scales
  import opened Neighbours
  import opened Baselines
  import opened BaselineStats
  import opened CloudTables
  import opened BaselineViews
  import opened BaselineObjects
  import C = Catalogs

  const BASELINE_SCHEMA_VERSION := 6

  /** The file's contents, its encoding aside. */
  datatype Snapshot = Snapshot(
    schemaVersion: int,
    builtThrough: int,
    identities: seq<string>,
    hosts: seq<string>,
    pairs: seq<string>,
    cloudPoints: map<string, seq<Point>>,
    cloudLast: map<string, int>,
    cloudMeta: Option<map<string, Pair>>,
    learned: seq<Learned>,
    rejectionDigest: string)

  function WholeSeconds(at: int): int { at - at % NANOS_PER_SECOND }

  function HiddenPair(p: Pair): Pair { Pair(Hidden(p.identity), p.host) }

  function HiddenLearned(l: Learned): Learned { l.(identity := Hidden(l.identity)) }

  function LearnedIn(learned: map<string, Learned>, ks: seq<string>): seq<Learned>
    requires forall k :: k in ks ==> k in learned
  {
    seq(|ks|, i requires 0 <= i < |ks| => HiddenLearned(learned[ks[i]]))
  }

  function LearnedFrom(pairs: seq<Learned>): map<string, Learned> {
    if pairs == [] then map[]
    else
      var p := pairs[|pairs| - 1];
      LearnedFrom(pairs[..|pairs| - 1])[BucketOf(p.identity, p.host) := p]
  }

  ghost predicate Saved(v: View, s: Snapshot) {
    && s.schemaVersion == BASELINE_SCHEMA_VERSION && s.builtThrough == WholeSeconds(v.builtThrough)
    && Enumerates(s.identities, v.identities) && Enumerates(s.hosts, v.hosts) && Enumerates(s.pairs, v.pairs)
    && s.cloudPoints == v.points
    && s.cloudLast == (map k | k in v.last :: WholeSeconds(v.last[k]))
    && s.cloudMeta == Some(map k | k in v.meta :: HiddenPair(v.meta[k]))
    && (exists ks :: Enumerates(ks, v.learned.Keys) && s.learned == LearnedIn(v.learned, ks))
    && s.rejectionDigest == v.rejectionDigest
  }

  predicate Acceptable(s: Snapshot) { s.schemaVersion == BASELINE_SCHEMA_VERSION && s.cloudMeta.Some? }

  ghost predicate Restored(s: Snapshot, w: View) {
    && Acceptable(s)
    && w.identities == (set x | x in s.identities) && w.hosts == (set x | x in s.hosts) && w.pairs == (set x | x in s.pairs)
    && w.points == s.cloudPoints && w.last == s.cloudLast && w.meta == s.cloudMeta.value
    && Pooled(w.points, w.pooled)
    && w.learned == LearnedFrom(s.learned)
    && w.builtThrough == s.builtThrough && w.rejectionDigest == s.rejectionDigest
  }

  // ---------------------------------------------------------------- the round trip

  /**
   * A baseline saved and loaded judges every connection as before: the same classification, cloud, scale and
   * score, whatever order the file and the maps are walked in.
   */
  lemma LoadJudgesAlike(v: View, s: Snapshot, w: View, cat: Option<seq<C.Entry>>, e: Entry, id: Identity, host: string)
    requires Pooled(v.points, v.pooled) && Saved(v, s) && Restored(s, w)
    ensures Classification(w, cat, e) == Classification(v, cat, e)
    ensures CloudOf(w, id, host) == CloudOf(v, id, host) && ScaleOf(w, id, host) == ScaleOf(v, id, host)
  {
    PooledIsUnique(v.points, v.pooled, w.pooled);
    assert w.identities == v.identities && w.hosts == v.hosts && w.pairs == v.pairs;
  }

  lemma LoadScoresAlike(v: View, s: Snapshot, w: View, fn: Analysis, id: Identity, host: string, j: Joined, prev: int,
                        concurrency: int, score: Score)
    requires Pooled(v.points, v.pooled) && Saved(v, s) && Restored(s, w)
    ensures ScoresAgainst(w, fn, id, host, j, prev, concurrency, score) <==> ScoresAgainst(v, fn, id, host, j, prev, concurrency, score)
  {
    PooledIsUnique(v.points, v.pooled, w.pooled);
  }

  /** A pair's last time comes back to the second: unchanged exactly when it was whole. */
  lemma LoadLastSeen(v: View, s: Snapshot, w: View, id: Identity, host: string)
    requires Saved(v, s) && Restored(s, w)
    ensures LastSeenOf(w, id, host) % 1000000000 == 0 && 0 <= LastSeenOf(v, id, host) - LastSeenOf(w, id, host) < 1000000000
    ensures LastSeenOf(w, id, host) == LastSeenOf(v, id, host) <==> LastSeenOf(v, id, host) % NANOS_PER_SECOND == 0
  {
  }

  /** Staleness is judged alike for every log exactly when the watermark was a whole second. */
  lemma LoadStaleIff(v: View, s: Snapshot, w: View)
    requires Saved(v, s) && Restored(s, w)
    ensures (forall es :: StaleFor(w.builtThrough, es) <==> StaleFor(v.builtThrough, es)) <==> v.builtThrough % NANOS_PER_SECOND == 0
  {
    if v.builtThrough % NANOS_PER_SECOND != 0 {
      var e := Entry(false, false, Some(v.builtThrough), 0, "", "", "", "", "", "", 0, 0, 0, None);
      assert [e][0] == e && StaleFor(w.builtThrough, [e]) && !StaleFor(v.builtThrough, [e]);
    }
  }

  /** A log with fractions of a second: its baseline, loaded again, calls that very log stale exactly if its newest time has one. */
  lemma FractionLooksStale(v: View, s: Snapshot, w: View, fn: Analysis, rej: RejectionSet, es: seq<Entry>)
    requires BuiltFrom(v, fn, rej, es) && Saved(v, s) && Restored(s, w)
    ensures StaleFor(w.builtThrough, es) <==> v.builtThrough % NANOS_PER_SECOND != 0
  {
    BuiltThroughNotNegative(es);
    StaleIffFurther(w.builtThrough, es);
  }

  /** Whole-second logs, the only ones the daemon writes, have whole-second watermarks and last times. */
  lemma {:induction false} WholeLog(rej: RejectionSet, es: seq<Entry>, js: seq<Joined>, key: string)
    requires forall i :: 0 <= i < |es| && es[i].at.Some? ==> es[i].at.value % NANOS_PER_SECOND == 0
    requires forall i :: 0 <= i < |js| && js[i].decision.at.Some? ==> js[i].decision.at.value % NANOS_PER_SECOND == 0
    ensures BuiltThrough(es) % NANOS_PER_SECOND == 0 && LastAt(rej, js, key) % NANOS_PER_SECOND == 0
    decreases |es| + |js|
  {
    if es != [] { WholeLog(rej, es[..|es| - 1], js, key); }
    if js != [] { WholeLog(rej, es, js[..|js| - 1], key); }
  }

  /**
   * The pair metadata and the provenance list lose path and hash: looked up by what they name, a hashed pair's
   * cloud, last time and provenance are under another bucket than before.
   */
  lemma RebucketedIff(id: Identity, host: string)
    requires NulFree(id.exePath) && NulFree(id.exeSHA256) && NulFree(id.teamID) && NulFree(id.exeBasename)
    ensures BucketOf(Hidden(id), host) == BucketOf(id, host) <==> id.exePath == "" && id.exeSHA256 == ""
  {
    if BucketOf(Hidden(id), host) == BucketOf(id, host) { BucketsAreDistinct(Hidden(id), id, host, host); }
  }

  lemma {:induction false} LearnedBack(learned: map<string, Learned>, ks: seq<string>, key: string)
    requires (forall k :: k in ks ==> k in learned) && key in ks
    requires forall k :: k in ks && k != key ==> HiddenBucket(learned[k]) != HiddenBucket(learned[key])
    ensures HiddenBucket(learned[key]) in LearnedFrom(LearnedIn(learned, ks))
    ensures LearnedFrom(LearnedIn(learned, ks))[HiddenBucket(learned[key])] == learned[key].(identity := Hidden(learned[key].identity))
    decreases |ks|
  {
    var n := |ks| - 1;
    assert ks == ks[..n] + [ks[n]];
    assert LearnedIn(learned, ks)[..n] == LearnedIn(learned, ks[..n]);
    if ks[n] != key { LearnedBack(learned, ks[..n], key); }
  }

  function HiddenBucket(l: Learned): string { BucketOf(Hidden(l.identity), l.host) }

  /**
   * A pair's provenance comes back complete but for path and hash, unless another pair differs from it in these alone; and
   * so does the name of its cloud.
   */
  lemma LoadLearned(v: View, s: Snapshot, w: View, key: string)
    requires Saved(v, s) && Restored(s, w)
    ensures key in v.learned && (forall k :: k in v.learned && k != key ==> HiddenBucket(v.learned[k]) != HiddenBucket(v.learned[key])) ==>
      && HiddenBucket(v.learned[key]) in w.learned
      && (var l, m := v.learned[key], w.learned[HiddenBucket(v.learned[key])];
          && m.firstSeen == l.firstSeen && m.lastSeen == l.lastSeen && m.count == l.count && m.host == l.host
          && m.identity == Identity(l.identity.exeBasename, "", "", l.identity.teamID, l.identity.bundleID, l.identity.signedRequired))
    ensures (key in w.meta <==> key in v.meta)
      && (key in v.meta ==> w.meta[key].host == v.meta[key].host && w.meta[key].identity.exeBasename == v.meta[key].identity.exeBasename
                            && w.meta[key].identity.teamID == v.meta[key].identity.teamID)
  {
    var ks :| Enumerates(ks, v.learned.Keys) && s.learned == LearnedIn(v.learned, ks);
    if key in v.learned && forall k :: k in v.learned && k != key ==> HiddenBucket(v.learned[k]) != HiddenBucket(v.learned[key]) {
      LearnedBack(v.learned, ks, key);
    }
  }

  // ---------------------------------------------------------------- the loops

  method Keys(m: set<string>) returns (r: seq<string>)
    ensures Enumerates(r, m)
  {
    r := [];
    var left := m;
    while left != {}
      invariant left <= m && Enumerates(r, m - left)
      decreases left
    {
      var k :| k in left;
      left := left - {k};
      r := r + [k];
    }
    assert m - left == m;
  }

  method ToSet(s: seq<string>) returns (r: set<string>)
    ensures r == set x | x in s
  {
    r := {};
    for i := 0 to |s|
      invariant r == set x | x in s[..i]
    {
      assert s[..i + 1] == s[..i] + [s[i]];
      r := r + {s[i]};
    }
    assert s[..|s|] == s;
  }

  method ListLearned(learned: map<string, Learned>) returns (r: seq<Learned>)
    ensures exists ks :: Enumerates(ks, learned.Keys) && r == LearnedIn(learned, ks)
  {
    var ks := Keys(learned.Keys);
    r := [];
    for i := 0 to |ks|
      invariant r == LearnedIn(learned, ks[..i])
    {
      assert ks[i] in learned;
      r := r + [HiddenLearned(learned[ks[i]])];
    }
    assert ks[..|ks|] == ks;
  }

  method LearnedFromSlice(pairs: seq<Learned>) returns (r: map<string, Learned>)
    ensures r == LearnedFrom(pairs)
  {
    r := map[];
    for i := 0 to |pairs|
      invariant r == LearnedFrom(pairs[..i])
    {
      assert pairs[..i + 1][..i] == pairs[..i];
      r := r[BucketOf(pairs[i].identity, pairs[i].host) := pairs[i]];
    }
    assert pairs[..|pairs|] == pairs;
  }

  method Save(b: Baseline) returns (s: Snapshot)
    ensures Saved(b.Value(), s) && s.schemaVersion == 6
  {
    var ids := Keys(b.identities);
    var hosts := Keys(b.hosts);
    var pairs := Keys(b.pairs);
    var learned := ListLearned(b.learned);
    var last := map k | k in b.clouds.last :: WholeSeconds(b.clouds.last[k]);
    var meta := map k | k in b.clouds.meta :: HiddenPair(b.clouds.meta[k]);
    s := Snapshot(BASELINE_SCHEMA_VERSION, WholeSeconds(b.builtThrough), ids, hosts, pairs, b.clouds.points, last, Some(meta),
                  learned, b.rejectionDigest);
  }

  /** A missing file and a snapshot of another schema are both absent: the caller rebuilds from the log. */
  method LoadBaseline(file: Option<Snapshot>, cat: C.Catalog?) returns (b: Option<Baseline>)
    ensures b.Some? <==> file.Some? && file.value.schemaVersion == 6 && file.value.cloudMeta.Some?
    ensures b.Some? ==> Restored(file.value, b.value.Value()) && b.value.cat == cat
  {
    if file.None? { return None; }
    var s := file.value;
    if s.schemaVersion != BASELINE_SCHEMA_VERSION || s.cloudMeta.None? { return None; }
    var clouds := new Clouds();
    clouds.points, clouds.meta, clouds.last := s.cloudPoints, s.cloudMeta.value, s.cloudLast;
    clouds.Finish();
    var ids := ToSet(s.identities);
    var hosts := ToSet(s.hosts);
    var pairs := ToSet(s.pairs);
    var learned := LearnedFromSlice(s.learned);
    var loaded := new Baseline.Of(cat, ids, hosts, pairs, learned, clouds, s.builtThrough, s.rejectionDigest);
    return Some(loaded);
  }
}
