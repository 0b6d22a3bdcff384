/** What a baseline's classification says about the log it was built from. */
module Judgements {
  import opened Options
  import opened Text
  import opened Entries
  import opened Identities
  import opened Rejections
  import opened Points
  import opened Concurrency
  import opened CloudTables
  import opened Baselines
  import opened BaselineStats
  import opened BaselineViews
  import C = Catalogs

  /** The record may teach: a decision, not denied, about a pair the user has not disowned. */
  ghost predicate Teaching(rej: RejectionSet, e: Entry) {
    var id := IdentityFromEntry(e);
    !e.isFlow && !e.denied && RejectionKey(id.exeBasename, id.exeSHA256, id.teamID, ToLower(e.host)) !in rej
  }

  /** Two teaching records of this bucket lie on different UTC days. */
  ghost predicate SeenOnTwoDays(rej: RejectionSet, es: seq<Entry>, key: string) {
    exists a, b :: a in es && b in es && Teaching(rej, a) && Teaching(rej, b) && Bucket(a) == key && Bucket(b) == key
                   && a.at.Some? && b.at.Some? && OtherDay(a.at.value, b.at.value)
  }

  /** Nanoseconds of 24 hours of 3600 seconds tell days apart. */
  predicate OtherDay(a: int, b: int) { a / (24 * 3600 * 1000000000) != b / (24 * 3600 * 1000000000) }

  lemma StableIff(rej: RejectionSet, es: seq<Entry>, key: string)
    ensures Stable(rej, es, key) <==> SeenOnTwoDays(rej, es, key)
  {
    forall e ensures Taught(rej, e) <==> Teaching(rej, e) {}
    forall a, b ensures Day(a) != Day(b) <==> OtherDay(a, b) {}
    if Stable(rej, es, key) {
      var a, b :| a in es && b in es && DatedFor(rej, a, key) && DatedFor(rej, b, key) && Day(a.at.value) != Day(b.at.value);
      assert Teaching(rej, a) && Teaching(rej, b) && OtherDay(a.at.value, b.at.value);
    }
    if SeenOnTwoDays(rej, es, key) {
      var a, b :| a in es && b in es && Teaching(rej, a) && Teaching(rej, b) && Bucket(a) == key && Bucket(b) == key
                  && a.at.Some? && b.at.Some? && OtherDay(a.at.value, b.at.value);
      assert DatedFor(rej, a, key) && DatedFor(rej, b, key) && Day(a.at.value) != Day(b.at.value);
    }
  }

  /** What the catalog, if there is one, says of the record. */
  function Ruling(cat: Option<seq<C.Entry>>, e: Entry): C.Verdict {
    if cat.Some? then C.VerdictOf(cat.value, IdentityFromEntry(e), e.host) else C.Unknown
  }

  /**
   * A connection is known exactly when its pair taught on two days, or the catalog authorizes it; a pair that did not and
   * that the catalog denies is drift of the highest rank.
   */
  lemma KnownIff(v: View, fn: Analysis, rej: RejectionSet, es: seq<Entry>, cat: Option<seq<C.Entry>>, e: Entry)
    requires BuiltFrom(v, fn, rej, es)
    ensures Classification(v, cat, e) == KnownPair <==> SeenOnTwoDays(rej, es, Bucket(e)) || Ruling(cat, e) == C.Authorized
    ensures !SeenOnTwoDays(rej, es, Bucket(e)) && Ruling(cat, e) == C.Never ==> Classification(v, cat, e) == Drift(NovelPairing, 4)
  {
    StableIff(rej, es, Bucket(e));
  }

  /** Some pair that taught on two days is of this process. */
  ghost predicate ProcessSeen(rej: RejectionSet, es: seq<Entry>, id: Identity) {
    exists a :: a in es && Teaching(rej, a) && SeenOnTwoDays(rej, es, Bucket(a)) && SameProcess(IdentityFromEntry(a), id)
  }

  ghost predicate HostSeen(rej: RejectionSet, es: seq<Entry>, host: string) {
    exists a :: a in es && Teaching(rej, a) && SeenOnTwoDays(rej, es, Bucket(a)) && SameButCase(a.host, host)
  }

  /** Some catalog entry denies or expects the host. */
  ghost predicate HostNamed(cat: Option<seq<C.Entry>>, host: string) {
    cat.Some? && exists e: C.Entry :: e in cat.value && (C.Expecting(e, host) || exists h :: h in e.never && C.NormalizeHost(h) == C.NormalizeHost(host))
  }

  lemma OpenerSeen(rej: RejectionSet, es: seq<Entry>, i: nat)
    requires Opens(rej, es, i) && Stable(rej, es, Bucket(es[i]))
    ensures es[i] in es && Teaching(rej, es[i]) && SeenOnTwoDays(rej, es, Bucket(es[i]))
  {
    StableIff(rej, es, Bucket(es[i]));
  }

  lemma SeenShown(rej: RejectionSet, es: seq<Entry>, a: Entry)
    requires CleanLog(es) && a in es && Teaching(rej, a) && SeenOnTwoDays(rej, es, Bucket(a))
    ensures StableIdentity(rej, es, IdentityKey(IdentityFromEntry(a))) && StableHost(rej, es, HostKey(a.host))
  {
    var i :| 0 <= i < |es| && es[i] == a;
    StableIff(rej, es, Bucket(a));
    StablePairShowsBoth(rej, es, i);
  }

  lemma ProcessSeenIff(rej: RejectionSet, es: seq<Entry>, e: Entry)
    requires CleanLog(es) && Clean(e)
    ensures StableIdentity(rej, es, IdentityKey(IdentityFromEntry(e))) <==> ProcessSeen(rej, es, IdentityFromEntry(e))
  {
    var id := IdentityFromEntry(e);
    if StableIdentity(rej, es, IdentityKey(id)) {
      var i: nat :| Opens(rej, es, i) && Stable(rej, es, Bucket(es[i])) && IdentityKey(IdentityFromEntry(es[i])) == IdentityKey(id);
      OpenerSeen(rej, es, i);
      SameKeyIff(IdentityFromEntry(es[i]), id);
    }
    if ProcessSeen(rej, es, id) {
      var a :| a in es && Teaching(rej, a) && SeenOnTwoDays(rej, es, Bucket(a)) && SameProcess(IdentityFromEntry(a), id);
      SeenShown(rej, es, a);
    }
  }

  lemma HostSeenIff(rej: RejectionSet, es: seq<Entry>, host: string)
    requires CleanLog(es)
    ensures StableHost(rej, es, HostKey(host)) <==> HostSeen(rej, es, host)
  {
    if StableHost(rej, es, HostKey(host)) {
      var i: nat :| Opens(rej, es, i) && Stable(rej, es, Bucket(es[i])) && HostKey(es[i].host) == HostKey(host);
      OpenerSeen(rej, es, i);
      ToLowerIff(es[i].host, host);
    }
    if HostSeen(rej, es, host) {
      var a :| a in es && Teaching(rej, a) && SeenOnTwoDays(rej, es, Bucket(a)) && SameButCase(a.host, host);
      SeenShown(rej, es, a);
      ToLowerIff(a.host, host);
    }
  }

  lemma HostNamedIff(cat: Option<seq<C.Entry>>, host: string)
    ensures (cat.Some? && NamedInCatalog(cat.value, host)) <==> HostNamed(cat, host)
  {
    if cat.Some? {
      forall e: C.Entry ensures C.Lists(e.never, host) <==> exists h :: h in e.never && C.NormalizeHost(h) == C.NormalizeHost(host) {
        C.ListsIff(e.never, host);
      }
      forall e: C.Entry ensures C.Expects(e, host) <==> C.Expecting(e, host) { C.ExpectsIff(e, host); }
      if i :| 0 <= i < |cat.value| && (C.Lists(cat.value[i].never, host) || C.Expects(cat.value[i], host)) { assert cat.value[i] in cat.value; }
      if e :| e in cat.value && (C.Lists(e.never, host) || C.Expects(e, host)) { var i :| 0 <= i < |cat.value| && cat.value[i] == e; }
    }
  }

  /**
   * Why a connection that nothing settles is drift: its process is in no pair that taught on two days; or it is, but its
   * host is in none and in no catalog entry; or both are known apart.
   */
  lemma DriftReasonIff(v: View, fn: Analysis, rej: RejectionSet, es: seq<Entry>, cat: Option<seq<C.Entry>>, e: Entry)
    requires BuiltFrom(v, fn, rej, es) && CleanLog(es) && Clean(e)
    requires !SeenOnTwoDays(rej, es, Bucket(e)) && Ruling(cat, e) !in {C.Never, C.Authorized}
    ensures var process, host := ProcessSeen(rej, es, IdentityFromEntry(e)), HostSeen(rej, es, e.host) || HostNamed(cat, e.host);
      && (Classification(v, cat, e) == Drift(NovelIdentity, 3) <==> !process)
      && (Classification(v, cat, e) == Drift(NovelDestination, 2) <==> process && !host)
      && (Classification(v, cat, e) == Drift(NovelPairing, 1) <==> process && host)
  {
    StableIff(rej, es, Bucket(e));
    ProcessSeenIff(rej, es, e);
    HostSeenIff(rej, es, e.host);
    HostNamedIff(cat, e.host);
  }

  /** A drift's rank orders denials before new processes, these before new hosts, and these before new pairings. */
  lemma RanksOrder(v: View, cat: Option<seq<C.Entry>>, e: Entry, w: View, dog: Option<seq<C.Entry>>, f: Entry)
    requires Classification(v, cat, e).Drift? && Classification(w, dog, f).Drift?
    ensures var c, d := Classification(v, cat, e), Classification(w, dog, f);
      && (Ruling(cat, e) == C.Never && Ruling(dog, f) != C.Never ==> c.rank > d.rank)
      && (Ruling(cat, e) != C.Never && Ruling(dog, f) != C.Never ==>
            (c.rank > d.rank <==> (c.reason.NovelIdentity? && !d.reason.NovelIdentity?)
                                  || (c.reason.NovelDestination? && d.reason.NovelPairing?)))
      && (c.rank == d.rank ==> c.reason == d.reason)
  {
  }

  // ---------------------------------------------------------------- staleness and predecessors

  lemma {:induction false} BuiltThroughIsLatest(es: seq<Entry>)
    ensures BuiltThrough(es) >= 0
    ensures forall e :: e in es && !e.isFlow && !e.denied && e.at.Some? ==> e.at.value <= BuiltThrough(es)
    ensures BuiltThrough(es) == 0 || exists e :: e in es && !e.isFlow && !e.denied && e.at == Some(BuiltThrough(es))
    decreases |es|
  {
    if es != [] {
      var n := |es| - 1;
      BuiltThroughIsLatest(es[..n]);
      assert es == es[..n] + [es[n]];
    }
  }

  /** A baseline is stale for a log exactly when that holds an accepted decision later than every one it was built from. */
  lemma StaleIffLater(v: View, fn: Analysis, rej: RejectionSet, es: seq<Entry>, fs: seq<Entry>)
    requires BuiltFrom(v, fn, rej, es)
    ensures StaleFor(v.builtThrough, fs) <==> exists f ::
      && f in fs && !f.isFlow && !f.denied && f.at.Some? && f.at.value > 0
      && forall e :: e in es && !e.isFlow && !e.denied && e.at.Some? ==> e.at.value < f.at.value
  {
    BuiltThroughIsLatest(es);
    if i :| 0 <= i < |fs| && FoldsIntoBaseline(fs[i]) && fs[i].at.Some? && fs[i].at.value > v.builtThrough { assert fs[i] in fs; }
  }

  ghost predicate Precedes(rej: RejectionSet, e: Entry, key: string) { Teaching(rej, e) && Bucket(e) == key && e.at.Some? }

  lemma DatedIff(rej: RejectionSet, e: Entry, key: string)
    ensures DatedFor(rej, e, key) <==> Precedes(rej, e, key)
  {
  }

  /** The time a pair's next point counts its gap from is that of its latest teaching row in log order. */
  lemma {:induction false} PredecessorIs(rej: RejectionSet, js: seq<Joined>, key: string, i: nat)
    requires i < |js| && Precedes(rej, js[i].decision, key) && forall k :: i < k < |js| ==> !Precedes(rej, js[k].decision, key)
    ensures LastAt(rej, js, key) == js[i].decision.at.value
    decreases |js|
  {
    var n := |js| - 1;
    DatedIff(rej, js[n].decision, key);
    if i < n { PredecessorIs(rej, js[..n], key, i); }
  }

  /** A pair's first point counts it from no time at all. */
  lemma {:induction false} NoPredecessor(rej: RejectionSet, js: seq<Joined>, key: string)
    requires forall k :: 0 <= k < |js| ==> !Precedes(rej, js[k].decision, key)
    ensures LastAt(rej, js, key) == 0
    decreases |js|
  {
    if js != [] {
      var n := |js| - 1;
      DatedIff(rej, js[n].decision, key);
      NoPredecessor(rej, js[..n], key);
    }
  }

  /** A cloud keeps at most 512 points, and of more the last. */
  lemma CloudKeepsLast<T>(s: seq<T>)
    ensures |Newest(s)| == (if |s| < 512 then |s| else 512) && s == s[..|s| - |Newest(s)|] + Newest(s)
  {
  }

  // ---------------------------------------------------------------- clouds

  /** A row adds its point to its own pair's cloud, last, when it teaches and has one; no other row adds any. */
  lemma CloudGrows(fn: Analysis, rej: RejectionSet, all: seq<Joined>, js: seq<Joined>, j: Joined, key: string)
    ensures var p := if j.decision.at.None? then None
        else PointFrom(fn, j, LastAt(rej, js, Bucket(j.decision)), Indexed(all, j.decision.at.value, j.decision.connID));
      PairPoints(fn, rej, all, js + [j], key)
        == PairPoints(fn, rej, all, js, key) + (if Teaching(rej, j.decision) && Bucket(j.decision) == key && p.Some? then [p.value] else [])
  {
    assert (js + [j])[..|js|] == js;
  }

  /** What a connection is compared with: the last 512 points of its own pair, and the time of the pair's last row. */
  lemma ComparedWith(v: View, fn: Analysis, rej: RejectionSet, es: seq<Entry>, e: Entry)
    requires BuiltFrom(v, fn, rej, es)
    ensures CloudOf(v, IdentityFromEntry(e), e.host) == Newest(PairPoints(fn, rej, Join(es), Join(es), Bucket(e)))
    ensures LastSeenOf(v, IdentityFromEntry(e), e.host) == LastAt(rej, Join(es), Bucket(e))
  {
    var js, key := Join(es), Bucket(e);
    var c := Context(fn, rej, js);
    assert PointsFor(c, js, v.points, key) && LastFor(c, js, v.last, key);
    if key !in v.points { NoPoints(fn, rej, js, js, key); }
  }

  lemma {:induction false} NoPoints(fn: Analysis, rej: RejectionSet, all: seq<Joined>, js: seq<Joined>, key: string)
    requires !EverTaught(rej, js, key)
    ensures PairPoints(fn, rej, all, js, key) == []
    decreases |js|
  {
    if js != [] {
      var n := |js| - 1;
      assert forall i :: 0 <= i < n ==> js[..n][i] == js[i];
      NoPoints(fn, rej, all, js[..n], key);
    }
  }
}
