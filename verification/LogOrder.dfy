/**
 * When the order of a log can be seen in the baseline: a stable pair contributes the identity and the host of its
 * first entry, so two entries that share a bucket but not an identity or host would make the order matter.
 */
module LogOrder {
  import opened Options
  import opened Text
  import opened Permutations
  import opened Entries
  import opened Identities
  import opened Rejections
  import opened Baselines

  ghost predicate SameLessons(rej: RejectionSet, a: seq<Entry>, b: seq<Entry>) {
    multiset(Lessons(rej, a)) == multiset(Lessons(rej, b))
  }

  /** What a pair contributes to a set: its identity, or its host. */
  type Label = Entry -> string

  const BY_IDENTITY: Label := (e: Entry) => IdentityKey(IdentityFromEntry(e))

  const BY_HOST: Label := (e: Entry) => HostKey(e.host)

  /** The first entry of some stable pair has this label: it is in the baseline's set. */
  ghost predicate Chosen(rej: RejectionSet, es: seq<Entry>, f: Label, x: string) {
    exists i: nat :: Opens(rej, es, i) && Stable(rej, es, Bucket(es[i])) && f(es[i]) == x
  }

  /** Some entry of some stable pair has this label. */
  ghost predicate Shown(rej: RejectionSet, es: seq<Entry>, f: Label, x: string) {
    exists e :: e in es && Taught(rej, e) && Stable(rej, es, Bucket(e)) && f(e) == x
  }

  /** All entries of this bucket have this label. */
  ghost predicate Uniform(rej: RejectionSet, es: seq<Entry>, key: string, f: Label, x: string) {
    forall d :: d in es && TaughtFor(rej, d, key) ==> f(d) == x
  }

  /** All entries of some stable pair have this label. */
  ghost predicate Alone(rej: RejectionSet, es: seq<Entry>, f: Label, x: string) {
    exists e :: e in es && Taught(rej, e) && Stable(rej, es, Bucket(e)) && Uniform(rej, es, Bucket(e), f, x)
  }

  /** Every label a stable pair shows is the only one of some stable pair. */
  ghost predicate Settled(rej: RejectionSet, es: seq<Entry>, f: Label) {
    forall x :: Shown(rej, es, f, x) ==> Alone(rej, es, f, x)
  }

  lemma TaughtInBoth(rej: RejectionSet, a: seq<Entry>, b: seq<Entry>)
    requires SameLessons(rej, a, b)
    ensures forall e :: Taught(rej, e) ==> (e in a <==> e in b)
  {
    LessonsMembers(rej, a);
    LessonsMembers(rej, b);
    PermutationMembers(Lessons(rej, a), Lessons(rej, b));
    forall e | Taught(rej, e) ensures e in a <==> e in b { assert e in Lessons(rej, a) <==> e in Lessons(rej, b); }
  }

  lemma ShownCarries(rej: RejectionSet, a: seq<Entry>, b: seq<Entry>, f: Label, x: string)
    requires SameLessons(rej, a, b) && Shown(rej, a, f, x)
    ensures Shown(rej, b, f, x)
  {
    TaughtInBoth(rej, a, b);
    var e :| e in a && Taught(rej, e) && Stable(rej, a, Bucket(e)) && f(e) == x;
    SameLessonsSameStable(rej, a, b, Bucket(e));
  }

  lemma AloneCarries(rej: RejectionSet, a: seq<Entry>, b: seq<Entry>, f: Label, x: string)
    requires SameLessons(rej, a, b) && Alone(rej, a, f, x)
    ensures Alone(rej, b, f, x)
  {
    TaughtInBoth(rej, a, b);
    var e :| e in a && Taught(rej, e) && Stable(rej, a, Bucket(e)) && Uniform(rej, a, Bucket(e), f, x);
    SameLessonsSameStable(rej, a, b, Bucket(e));
    assert Uniform(rej, b, Bucket(e), f, x);
  }

  lemma ChosenIsShown(rej: RejectionSet, es: seq<Entry>, f: Label, x: string)
    requires Chosen(rej, es, f, x)
    ensures Shown(rej, es, f, x)
  {
    var i: nat :| Opens(rej, es, i) && Stable(rej, es, Bucket(es[i])) && f(es[i]) == x;
    assert es[i] in es;
  }

  lemma AloneIsChosen(rej: RejectionSet, es: seq<Entry>, f: Label, x: string)
    requires Alone(rej, es, f, x)
    ensures Chosen(rej, es, f, x)
  {
    var e :| e in es && Taught(rej, e) && Stable(rej, es, Bucket(e)) && Uniform(rej, es, Bucket(e), f, x);
    var i :| 0 <= i < |es| && es[i] == e;
    var o := SomeOpens(rej, es, i);
    assert es[o] in es && TaughtFor(rej, es[o], Bucket(e));
  }

  /** A settled log's set is the same in every order and among any denials. */
  lemma SettledKeepsSet(rej: RejectionSet, a: seq<Entry>, b: seq<Entry>, f: Label, x: string)
    requires SameLessons(rej, a, b) && Settled(rej, a, f)
    ensures Chosen(rej, a, f, x) <==> Chosen(rej, b, f, x)
  {
    if Chosen(rej, a, f, x) {
      ChosenIsShown(rej, a, f, x);
      AloneCarries(rej, a, b, f, x);
      AloneIsChosen(rej, b, f, x);
    }
    if Chosen(rej, b, f, x) {
      ChosenIsShown(rej, b, f, x);
      ShownCarries(rej, b, a, f, x);
      AloneIsChosen(rej, a, f, x);
    }
  }

  // ---------------------------------------------------------------- and only a settled log's

  function Has(f: Label, x: string): Entry -> bool { (e: Entry) => f(e) == x }

  function Lacks(f: Label, x: string): Entry -> bool { (e: Entry) => f(e) != x }

  function First(f: Label, x: string, es: seq<Entry>): seq<Entry> { Filter(Has(f, x), es) + Filter(Lacks(f, x), es) }

  function Last(f: Label, x: string, es: seq<Entry>): seq<Entry> { Filter(Lacks(f, x), es) + Filter(Has(f, x), es) }

  lemma {:induction false} SplitPermutes(f: Label, x: string, es: seq<Entry>)
    ensures multiset(Filter(Has(f, x), es)) + multiset(Filter(Lacks(f, x), es)) == multiset(es)
    decreases |es|
  {
    if es != [] {
      var n := |es| - 1;
      SplitPermutes(f, x, es[..n]);
      assert es == es[..n] + [es[n]];
      assert Has(f, x)(es[n]) <==> !Lacks(f, x)(es[n]);
    }
  }

  lemma SplitLessons(rej: RejectionSet, f: Label, x: string, es: seq<Entry>)
    ensures SameLessons(rej, es, First(f, x, es)) && SameLessons(rej, es, Last(f, x, es))
  {
    SplitPermutes(f, x, es);
    PermutedLessons(rej, es, First(f, x, es));
    PermutedLessons(rej, es, Last(f, x, es));
  }

  /** Moved to the front, a shown label is chosen. */
  lemma FirstIsChosen(rej: RejectionSet, es: seq<Entry>, f: Label, x: string)
    requires Shown(rej, es, f, x)
    ensures Chosen(rej, First(f, x, es), f, x)
  {
    var front, g := Filter(Has(f, x), es), First(f, x, es);
    var e :| e in es && Taught(rej, e) && Stable(rej, es, Bucket(e)) && f(e) == x;
    FilterMembers(Has(f, x), es);
    assert Has(f, x)(e) && e in front;
    var i :| 0 <= i < |front| && front[i] == e;
    assert g[i] == e;
    var o := SomeOpens(rej, g, i);
    assert g[o] == front[o] && front[o] in front && Has(f, x)(front[o]);
    SplitLessons(rej, f, x, es);
    SameLessonsSameStable(rej, es, g, Bucket(e));
  }

  /** Moved to the back, a label that is nowhere alone is not chosen. */
  lemma LastIsNotChosen(rej: RejectionSet, es: seq<Entry>, f: Label, x: string)
    requires !Alone(rej, es, f, x)
    ensures !Chosen(rej, Last(f, x, es), f, x)
  {
    var front, g := Filter(Lacks(f, x), es), Last(f, x, es);
    FilterMembers(Lacks(f, x), es);
    FilterMembers(Has(f, x), es);
    SplitLessons(rej, f, x, es);
    forall i: nat | Opens(rej, g, i) && Stable(rej, g, Bucket(g[i])) ensures f(g[i]) != x {
      SameLessonsSameStable(rej, es, g, Bucket(g[i]));
      assert g[i] in front || g[i] in Filter(Has(f, x), es);
      OpenerLacks(rej, es, f, x, i);
    }
  }

  lemma OpenerLacks(rej: RejectionSet, es: seq<Entry>, f: Label, x: string, i: nat)
    requires Opens(rej, Last(f, x, es), i) && Last(f, x, es)[i] in es
    requires !Uniform(rej, es, Bucket(Last(f, x, es)[i]), f, x)
    ensures f(Last(f, x, es)[i]) != x
  {
    var front, g := Filter(Lacks(f, x), es), Last(f, x, es);
    FilterMembers(Lacks(f, x), es);
    var d :| d in es && TaughtFor(rej, d, Bucket(g[i])) && f(d) != x;
    assert Lacks(f, x)(d) && d in front;
    var k :| 0 <= k < |front| && front[k] == d;
    assert g[k] == d;
    assert i <= k && g[i] == front[i] && front[i] in front && Lacks(f, x)(front[i]);
  }

  /**
   * The identities (or hosts) of a baseline are the same for every order of its log, among any denials, exactly when
   * every identity a stable pair shows is the only one of some stable pair.
   */
  lemma OrderInvisibleIff(rej: RejectionSet, a: seq<Entry>, f: Label)
    ensures (forall b, x :: SameLessons(rej, a, b) ==> (Chosen(rej, b, f, x) <==> Chosen(rej, a, f, x))) <==> Settled(rej, a, f)
  {
    if Settled(rej, a, f) {
      forall b, x | SameLessons(rej, a, b) ensures Chosen(rej, b, f, x) <==> Chosen(rej, a, f, x) {
        SettledKeepsSet(rej, a, b, f, x);
      }
    } else {
      var x :| Shown(rej, a, f, x) && !Alone(rej, a, f, x);
      SplitLessons(rej, f, x, a);
      FirstIsChosen(rej, a, f, x);
      LastIsNotChosen(rej, a, f, x);
      assert Chosen(rej, First(f, x, a), f, x) && !Chosen(rej, Last(f, x, a), f, x);
    }
  }

  /** Logs whose fields hold no separator are settled. */
  lemma CleanIsSettled(rej: RejectionSet, es: seq<Entry>)
    requires CleanLog(es)
    ensures Settled(rej, es, BY_IDENTITY) && Settled(rej, es, BY_HOST)
  {
    forall x | Shown(rej, es, BY_IDENTITY, x) ensures Alone(rej, es, BY_IDENTITY, x) {
      var e :| e in es && Taught(rej, e) && Stable(rej, es, Bucket(e)) && BY_IDENTITY(e) == x;
      forall d | d in es && TaughtFor(rej, d, Bucket(e)) ensures BY_IDENTITY(d) == x { SameBucketSameLabels(d, e); }
      assert Uniform(rej, es, Bucket(e), BY_IDENTITY, x);
    }
    forall x | Shown(rej, es, BY_HOST, x) ensures Alone(rej, es, BY_HOST, x) {
      var e :| e in es && Taught(rej, e) && Stable(rej, es, Bucket(e)) && BY_HOST(e) == x;
      forall d | d in es && TaughtFor(rej, d, Bucket(e)) ensures BY_HOST(d) == x { SameBucketSameLabels(d, e); }
      assert Uniform(rej, es, Bucket(e), BY_HOST, x);
    }
  }

  lemma SameBucketSameLabels(d: Entry, e: Entry)
    requires Clean(d) && Clean(e) && Bucket(d) == Bucket(e)
    ensures BY_IDENTITY(d) == BY_IDENTITY(e) && BY_HOST(d) == BY_HOST(e)
  {
    BucketsAreDistinct(IdentityFromEntry(d), IdentityFromEntry(e), d.host, e.host);
  }

  /** Two entries of one bucket with different labels unsettle a log. */
  lemma TwoLabelsUnsettle(rej: RejectionSet, d: Entry, e: Entry, f: Label)
    requires Taught(rej, d) && Taught(rej, e) && d.at.Some? && e.at.Some? && Day(d.at.value) != Day(e.at.value)
    requires Bucket(d) == Bucket(e) && f(d) != f(e)
    ensures !Settled(rej, [d, e], f)
  {
    var a, key := [d, e], Bucket(d);
    assert a[0] == d && a[1] == e && d in a && e in a;
    assert DatedFor(rej, d, key) && DatedFor(rej, e, key);
    assert Stable(rej, a, key);
    assert Shown(rej, a, f, f(d));
    forall c | c in a ensures !Uniform(rej, a, Bucket(c), f, f(d)) {
      assert Bucket(c) == key && TaughtFor(rej, e, key);
    }
  }

  /** An accepted entry of a process known by its short name only. */
  function Seen(comm: string, host: string, at: int): Entry {
    Entry(false, false, Some(at), 0, "", "", comm, "", "", host, 0, 0, 0, None)
  }

  lemma SeenIdentity(comm: string, host: string, at: int)
    ensures IdentityFromEntry(Seen(comm, host, at)) == Identity(comm, "", "", "", "", false)
  {
    assert Base("") == ".";
  }

  lemma SeenKey(comm: string, host: string, at: int)
    ensures |BY_IDENTITY(Seen(comm, host, at))| == |comm| + 3
  {
    SeenIdentity(comm, host, at);
  }

  /** The separator may sit in the name or in the host. */
  lemma SeenCollide(p: string, q: string, r: string, s: int, t: int)
    requires ToLower(q) == q
    ensures Bucket(Seen(p, q + (NUL + r), s)) == Bucket(Seen(p + (NUL + q), r, t))
  {
    var host := q + (NUL + r);
    SeenIdentity(p, host, s);
    SeenIdentity(p + (NUL + q), r, t);
    BucketRegroups(Identity(p, "", "", "", "", false), host);
    BucketRegroups(Identity(p + (NUL + q), "", "", "", "", false), r);
    ToLowerConcat(q, NUL + r);
    ToLowerConcat(NUL, r);
    assert ToLower(NUL) == NUL;
    PushIn(p, NUL, q, NUL + ToLower(r));
  }

  lemma SeenTaught(comm: string, host: string, at: int)
    ensures Taught({}, Seen(comm, host, at)) && Seen(comm, host, at).at == Some(at)
  {
  }

  lemma TwoDays()
    ensures Day(0) != Day(NANOS_PER_DAY)
  {
  }

  lemma SeenUnsettle(d: Entry, e: Entry)
    requires Taught({}, d) && Taught({}, e) && d.at == Some(0) && e.at == Some(NANOS_PER_DAY)
    requires Bucket(d) == Bucket(e) && |BY_IDENTITY(d)| < |BY_IDENTITY(e)|
    ensures !Settled({}, [d, e], BY_IDENTITY)
  {
    TwoDays();
    assert BY_IDENTITY(d) != BY_IDENTITY(e);
    TwoLabelsUnsettle({}, d, e, BY_IDENTITY);
  }

  /** A separator in a process name can unsettle a log: these entries share a bucket but not an identity. */
  lemma SeparatorUnsettles(p: string, q: string, r: string)
    requires ToLower(q) == q
    ensures !Settled({}, [Seen(p, q + (NUL + r), 0), Seen(p + (NUL + q), r, NANOS_PER_DAY)], BY_IDENTITY)
  {
    var left, right := q + (NUL + r), p + (NUL + q);
    SeenCollide(p, q, r, 0, NANOS_PER_DAY);
    SeenKey(p, left, 0);
    SeenKey(right, r, NANOS_PER_DAY);
    SeenTaught(p, left, 0);
    SeenTaught(right, r, NANOS_PER_DAY);
    SeenUnsettle(Seen(p, left, 0), Seen(right, r, NANOS_PER_DAY));
  }
}
