/** A finished baseline as a value: what it says about its log, and the questions it answers. */
module BaselineViews {
  import opened Options
  import opened Permutations
  import opened Entries
  import opened Identities
  import opened Rejections
  import opened Points
  import opened Scales
  import opened Neighbours
  import opened Baselines
  import opened BaselineStats
  import opened LogOrder
  import opened CloudTables
  import C = Catalogs

  datatype View = View(
    identities: set<string>,
    hosts: set<string>,
    pairs: set<string>,
    learned: map<string, Learned>,
    points: map<string, seq<Point>>,
    last: map<string, int>,
    meta: map<string, Pair>,
    pooled: Scale,
    builtThrough: int,
    rejectionDigest: string)

  /** What a fold of the log must yield. */
  ghost predicate BuiltFrom(v: View, fn: Analysis, rej: RejectionSet, es: seq<Entry>) {
    && StableSets(rej, es, v.identities, v.hosts, v.pairs)
    && ProvenanceHolds(rej, Decisions(es), v.learned)
    && CloudsHold(Context(fn, rej, Join(es)), Join(es), v.points, v.last, v.meta)
    && Pooled(v.points, v.pooled)
    && v.builtThrough == BuiltThrough(es)
  }

  // ---------------------------------------------------------------- joining loses no lesson

  lemma {:induction false} DecisionsKeepLessons(rej: RejectionSet, es: seq<Entry>)
    ensures Lessons(rej, Decisions(es)) == Lessons(rej, es)
    decreases |es|
  {
    if es != [] {
      var f := Teaches(rej);
      var front := if es[0].isFlow then [] else [es[0]];
      DecisionsKeepLessons(rej, es[1..]);
      assert es == [es[0]] + es[1..];
      FilterConcat(f, [es[0]], es[1..]);
      FilterConcat(f, front, Decisions(es[1..]));
      FilterOne(f, es[0]);
    }
  }

  /** A pair is stable exactly when its provenance spans two days; it was then seen at least twice. */
  lemma StablePairsHaveProvenance(v: View, fn: Analysis, rej: RejectionSet, es: seq<Entry>, key: string)
    requires BuiltFrom(v, fn, rej, es)
    ensures key in v.pairs <==> key in v.learned && Day(v.learned[key].firstSeen) != Day(v.learned[key].lastSeen)
    ensures key in v.pairs ==> v.learned[key].count >= 2 && v.learned[key].firstSeen < v.learned[key].lastSeen
  {
    var ds := Decisions(es);
    DecisionsKeepLessons(rej, es);
    SameLessonsSameStable(rej, ds, es, key);
    assert key in v.learned <==> CountFor(rej, ds, key) > 0;
    if key in v.learned {
      assert Provenance(rej, ds, key, v.learned[key]);
      StableIffSpread(rej, ds, key, v.learned[key]);
    } else {
      CountedIsDated(rej, ds, key);
    }
  }

  predicate SameTimes(l: Learned, m: Learned) { l.firstSeen == m.firstSeen && l.lastSeen == m.lastSeen && l.count == m.count }

  /** Logs with the same lessons, in any order and among any denials, agree on each pair: stable or not, and its provenance. */
  lemma OrderAndDenialsIrrelevant(v: View, w: View, fn: Analysis, rej: RejectionSet, a: seq<Entry>, b: seq<Entry>, key: string)
    requires BuiltFrom(v, fn, rej, a) && BuiltFrom(w, fn, rej, b)
    requires multiset(Lessons(rej, a)) == multiset(Lessons(rej, b))
    ensures key in v.pairs <==> key in w.pairs
    ensures key in v.learned <==> key in w.learned
    ensures key in v.learned && key in w.learned ==> SameTimes(v.learned[key], w.learned[key])
  {
    SameLessonsSameStable(rej, a, b, key);
    DecisionsKeepLessons(rej, a);
    DecisionsKeepLessons(rej, b);
    var da, db := Decisions(a), Decisions(b);
    SameKey(rej, da, db, v.learned, w.learned, key);
    if key in v.learned && key in w.learned { SameRecord(rej, da, db, v.learned, w.learned, key); }
  }

  /**
   * The stable identities and hosts agree as well, though they are those of each pair's first entry, when the log is
   * settled; every log whose fields hold no separator is.
   */
  lemma OrderAndDenialsKeepSets(v: View, w: View, fn: Analysis, rej: RejectionSet, a: seq<Entry>, b: seq<Entry>)
    requires BuiltFrom(v, fn, rej, a) && BuiltFrom(w, fn, rej, b) && SameLessons(rej, a, b)
    requires CleanLog(a) || (Settled(rej, a, BY_IDENTITY) && Settled(rej, a, BY_HOST))
    ensures v.pairs == w.pairs && v.identities == w.identities && v.hosts == w.hosts
  {
    if CleanLog(a) { CleanIsSettled(rej, a); }
    forall key ensures key in v.pairs <==> key in w.pairs { SameLessonsSameStable(rej, a, b, key); }
    forall id ensures id in v.identities <==> id in w.identities { SettledKeepsSet(rej, a, b, BY_IDENTITY, id); }
    forall h ensures h in v.hosts <==> h in w.hosts { SettledKeepsSet(rej, a, b, BY_HOST, h); }
  }

  /** So every connection is classified alike: neither the order of the log nor its denials can be seen in a verdict. */
  lemma OrderAndDenialsClassifyAlike(v: View, w: View, fn: Analysis, rej: RejectionSet, a: seq<Entry>, b: seq<Entry>,
                                     cat: Option<seq<C.Entry>>, e: Entry)
    requires BuiltFrom(v, fn, rej, a) && BuiltFrom(w, fn, rej, b) && SameLessons(rej, a, b)
    requires CleanLog(a) || (Settled(rej, a, BY_IDENTITY) && Settled(rej, a, BY_HOST))
    ensures Classification(v, cat, e) == Classification(w, cat, e)
  {
    OrderAndDenialsKeepSets(v, w, fn, rej, a, b);
    SameSetsClassifyAlike(v, w, cat, e);
  }

  lemma SameSetsClassifyAlike(v: View, w: View, cat: Option<seq<C.Entry>>, e: Entry)
    requires v.pairs == w.pairs && v.identities == w.identities && v.hosts == w.hosts
    ensures Classification(v, cat, e) == Classification(w, cat, e)
  {
  }

  lemma SameKey(rej: RejectionSet, a: seq<Entry>, b: seq<Entry>, l: map<string, Learned>, m: map<string, Learned>, key: string)
    requires ProvenanceHolds(rej, a, l) && ProvenanceHolds(rej, b, m)
    requires multiset(Lessons(rej, a)) == multiset(Lessons(rej, b))
    ensures key in l <==> key in m
  {
    SameCount(rej, a, b, key);
  }

  lemma SameRecord(rej: RejectionSet, a: seq<Entry>, b: seq<Entry>, l: map<string, Learned>, m: map<string, Learned>, key: string)
    requires ProvenanceHolds(rej, a, l) && ProvenanceHolds(rej, b, m) && key in l && key in m
    requires multiset(Lessons(rej, a)) == multiset(Lessons(rej, b))
    ensures SameTimes(l[key], m[key])
  {
    assert Provenance(rej, a, key, l[key]) && Provenance(rej, b, key, m[key]);
    SameLessonsSameProvenance(rej, a, b, key, l[key], m[key]);
  }

  lemma SameCount(rej: RejectionSet, a: seq<Entry>, b: seq<Entry>, key: string)
    requires multiset(Lessons(rej, a)) == multiset(Lessons(rej, b))
    ensures CountFor(rej, a, key) == CountFor(rej, b, key)
  {
    CountOfLessons(rej, a, key);
    CountOfLessons(rej, b, key);
    FilterPermutes(Dated(rej, key), Lessons(rej, a), Lessons(rej, b));
    PermutationMembers(Filter(Dated(rej, key), Lessons(rej, a)), Filter(Dated(rej, key), Lessons(rej, b)));
  }

  lemma {:induction false} DecisionsAreEntries(es: seq<Entry>)
    ensures forall e :: e in Decisions(es) ==> e in es
  {
    if es != [] { DecisionsAreEntries(es[1..]); }
  }

  /** The bucket of a rejected pair appears in no view of the baseline. */
  lemma RejectedIsNowhere(v: View, fn: Analysis, rej: RejectionSet, es: seq<Entry>, r: Entry)
    requires BuiltFrom(v, fn, rej, es) && CleanLog(es) && Clean(r) && Rejected(rej, r)
    ensures var key := Bucket(r);
      key !in v.pairs && key !in v.learned && key !in v.points && key !in v.last && key !in v.meta
  {
    var key, js := Bucket(r), Join(es);
    forall e | e in es ensures !TaughtFor(rej, e, key) { RejectedTeachesNothing(rej, es, r, e); }
    assert !Stable(rej, es, key);
    DecisionsAreEntries(es);
    CountedIsDated(rej, Decisions(es), key);
    JoinKeepsDecisions([], es);
    forall i | 0 <= i < |js| ensures !TaughtFor(rej, js[i].decision, key) {
      assert DecisionsOf(js)[i] in Decisions(es);
    }
    assert !EverTaught(rej, js, key) && !EverDated(rej, js, key);
    var c := Context(fn, rej, js);
    assert PointsFor(c, js, v.points, key) && LastFor(c, js, v.last, key) && MetaFor(c, js, v.meta, key);
  }

  /** A baseline just built is not stale for its own log. */
  lemma FreshWhenBuilt(v: View, fn: Analysis, rej: RejectionSet, es: seq<Entry>)
    requires BuiltFrom(v, fn, rej, es)
    ensures !StaleFor(v.builtThrough, es)
  {
    FreshForOwnLog(es, es);
  }

  // ---------------------------------------------------------------- questions

  function CloudOf(v: View, id: Identity, host: string): seq<Point> {
    var key := BucketOf(id, host);
    if key in v.points then v.points[key] else []
  }

  function ScaleOf(v: View, id: Identity, host: string): Scale { ScaleFor(CloudOf(v, id, host), v.pooled) }

  function LastSeenOf(v: View, id: Identity, host: string): int {
    var key := BucketOf(id, host);
    if key in v.last then v.last[key] else 0
  }

  lemma ScaleIsUsable(cloud: seq<Point>, pooled: Scale)
    ensures Usable(ScaleFor(cloud, pooled))
  {
    forall d | 0 <= d < NUM_DIMS ensures ScaleFor(cloud, pooled)[d] > 0.0 { ScaleAboveFloor(cloud, pooled, d); }
  }

  const UNSCORED := Score(false, None, 0, [], None)

  /** The scores a joined connection may get, ties of the sort left open. */
  ghost predicate ScoresAgainst(v: View, fn: Analysis, id: Identity, host: string, j: Joined, prev: int, concurrency: int, score: Score) {
    var p := PointFrom(fn, j, prev, concurrency);
    if p.None? then score == UNSCORED
    else
      ScaleIsUsable(CloudOf(v, id, host), v.pooled);
      Scores(fn, p.value, CloudOf(v, id, host), ScaleOf(v, id, host), score)
  }

  datatype Class = KnownPair | Drift(reason: DriftReason, rank: nat)

  /** A classified record; without the flow that closes it there is no score yet. */
  datatype DriftEvent = DriftEvent(class_: Class, identity: Identity, host: string, firstSeen: int, log: Entry, score: Score)

  datatype DriftReason = NovelIdentity | NovelDestination | NovelPairing

  predicate NamedInCatalog(es: seq<C.Entry>, host: string) { exists i :: 0 <= i < |es| && (C.Lists(es[i].never, host) || C.Expects(es[i], host)) }

  /** How a connection compares with the baseline; a host the catalog names is no novel destination. */
  function Classification(v: View, cat: Option<seq<C.Entry>>, e: Entry): Class {
    var id := IdentityFromEntry(e);
    var verdict := if cat.Some? then C.VerdictOf(cat.value, id, e.host) else C.Unknown;
    if Bucket(e) in v.pairs then KnownPair
    else if verdict == C.Never then Drift(NovelPairing, 4)
    else if verdict == C.Authorized then KnownPair
    else if IdentityKey(id) !in v.identities then Drift(NovelIdentity, 3)
    else if HostKey(e.host) !in v.hosts && !(cat.Some? && NamedInCatalog(cat.value, e.host)) then Drift(NovelDestination, 2)
    else Drift(NovelPairing, 1)
  }
}
