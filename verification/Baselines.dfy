/**
 * What a decision log teaches: which pairs of process and host are stable, since when and how often each was
 * seen, and the cloud of past behaviour of each pair.
 */
module Baselines {
  import opened Options
  import opened Permutations
  import opened Entries
  import opened Identities
  import opened Rejections
  import opened Concurrency
  import opened Points

  const NANOS_PER_DAY := NANOS_PER_SECOND * SECONDS_PER_DAY
  const MIN_STABLE_DAYS := 2
  const MAX_CLOUD_POINTS := 512

  /** The UTC day of an instant. */
  function Day(at: int): int { at / NANOS_PER_DAY }

  type RejectionSet = set<RejectionKey>

  /** Entries that teach: accepted, and not of a pair the user disowned. */
  predicate Taught(rej: RejectionSet, e: Entry) { FoldsIntoBaseline(e) && !Rejected(rej, e) }

  predicate TaughtFor(rej: RejectionSet, e: Entry, key: string) { Taught(rej, e) && Bucket(e) == key }

  predicate DatedFor(rej: RejectionSet, e: Entry, key: string) { TaughtFor(rej, e, key) && e.at.Some? }

  // ---------------------------------------------------------------- stable pairs

  /** A pair is stable when it was seen on two different days. */
  ghost predicate Stable(rej: RejectionSet, es: seq<Entry>, key: string) {
    exists a, b :: a in es && b in es && DatedFor(rej, a, key) && DatedFor(rej, b, key) && Day(a.at.value) != Day(b.at.value)
  }

  /** Entry i is the first to teach its bucket. */
  ghost predicate Opens(rej: RejectionSet, es: seq<Entry>, i: nat) {
    i < |es| && Taught(rej, es[i]) && forall k :: 0 <= k < i ==> !TaughtFor(rej, es[k], Bucket(es[i]))
  }

  ghost predicate StableIdentity(rej: RejectionSet, es: seq<Entry>, id: string) {
    exists i: nat :: Opens(rej, es, i) && Stable(rej, es, Bucket(es[i])) && IdentityKey(IdentityFromEntry(es[i])) == id
  }

  ghost predicate StableHost(rej: RejectionSet, es: seq<Entry>, host: string) {
    exists i: nat :: Opens(rej, es, i) && Stable(rej, es, Bucket(es[i])) && HostKey(es[i].host) == host
  }

  // ---------------------------------------------------------------- provenance

  datatype Learned = Learned(identity: Identity, host: string, firstSeen: int, lastSeen: int, count: nat)

  function CountFor(rej: RejectionSet, es: seq<Entry>, key: string): nat {
    if es == [] then 0 else CountFor(rej, es[..|es| - 1], key) + (if DatedFor(rej, es[|es| - 1], key) then 1 else 0)
  }

  /** at is the time of some entry of the pair, and none is earlier. */
  ghost predicate Earliest(rej: RejectionSet, es: seq<Entry>, key: string, at: int) {
    && (exists e :: e in es && DatedFor(rej, e, key) && e.at.value == at)
    && (forall e :: e in es && DatedFor(rej, e, key) ==> at <= e.at.value)
  }

  ghost predicate Latest(rej: RejectionSet, es: seq<Entry>, key: string, at: int) {
    && (exists e :: e in es && DatedFor(rej, e, key) && e.at.value == at)
    && (forall e :: e in es && DatedFor(rej, e, key) ==> e.at.value <= at)
  }

  /** The provenance of a pair: first and last time, how often, and whose it was the first time. */
  ghost predicate Provenance(rej: RejectionSet, es: seq<Entry>, key: string, l: Learned) {
    && Earliest(rej, es, key, l.firstSeen) && Latest(rej, es, key, l.lastSeen)
    && l.count == CountFor(rej, es, key)
    && exists i :: 0 <= i < |es| && DatedFor(rej, es[i], key) && l.identity == IdentityFromEntry(es[i]) && l.host == es[i].host
         && forall k :: 0 <= k < i ==> !DatedFor(rej, es[k], key)
  }

  ghost predicate ProvenanceHolds(rej: RejectionSet, es: seq<Entry>, learned: map<string, Learned>) {
    forall key :: (key in learned <==> CountFor(rej, es, key) > 0) && (key in learned ==> Provenance(rej, es, key, learned[key]))
  }

  lemma {:induction false} CountedIsDated(rej: RejectionSet, es: seq<Entry>, key: string)
    ensures CountFor(rej, es, key) > 0 <==> exists e :: e in es && DatedFor(rej, e, key)
    decreases |es|
  {
    if es != [] {
      var n := |es| - 1;
      CountedIsDated(rej, es[..n], key);
      assert es == es[..n] + [es[n]];
    }
  }

  lemma {:induction false} TwoCounted(rej: RejectionSet, es: seq<Entry>, key: string, a: Entry, b: Entry)
    requires a in es && b in es && a != b && DatedFor(rej, a, key) && DatedFor(rej, b, key)
    ensures CountFor(rej, es, key) >= 2
    decreases |es|
  {
    var n := |es| - 1;
    assert es == es[..n] + [es[n]];
    if a in es[..n] && b in es[..n] {
      TwoCounted(rej, es[..n], key, a, b);
    } else {
      CountedIsDated(rej, es[..n], key);
    }
  }

  /**
   * A pair is stable exactly when its provenance begins and ends on different days; it has then been seen at least
   * twice.
   */
  lemma StableIffSpread(rej: RejectionSet, es: seq<Entry>, key: string, l: Learned)
    requires Provenance(rej, es, key, l)
    ensures Stable(rej, es, key) <==> Day(l.firstSeen) != Day(l.lastSeen)
    ensures Stable(rej, es, key) ==> l.count >= MIN_STABLE_DAYS && l.firstSeen < l.lastSeen
  {
    if Day(l.firstSeen) != Day(l.lastSeen) { SpreadIsStable(rej, es, key, l.firstSeen, l.lastSeen); }
    if Stable(rej, es, key) { StableIsSpread(rej, es, key, l.firstSeen, l.lastSeen); }
  }

  lemma SpreadIsStable(rej: RejectionSet, es: seq<Entry>, key: string, first: int, last: int)
    requires Earliest(rej, es, key, first) && Latest(rej, es, key, last) && Day(first) != Day(last)
    ensures Stable(rej, es, key) && CountFor(rej, es, key) >= 2 && first < last
  {
    var a :| a in es && DatedFor(rej, a, key) && a.at.value == first;
    var b :| b in es && DatedFor(rej, b, key) && b.at.value == last;
    assert first != last && a != b;
    TwoCounted(rej, es, key, a, b);
    assert Day(a.at.value) != Day(b.at.value);
  }

  lemma StableIsSpread(rej: RejectionSet, es: seq<Entry>, key: string, first: int, last: int)
    requires Earliest(rej, es, key, first) && Latest(rej, es, key, last) && Stable(rej, es, key)
    ensures Day(first) != Day(last)
  {
    var x, y :| x in es && y in es && DatedFor(rej, x, key) && DatedFor(rej, y, key) && Day(x.at.value) != Day(y.at.value);
    DayOrder(first, x.at.value, last);
    DayOrder(first, y.at.value, last);
  }

  lemma DayOrder(a: int, b: int, c: int)
    requires a <= b <= c
    ensures Day(a) <= Day(b) <= Day(c)
  {
  }

  // ---------------------------------------------------------------- order and denials do not matter

  function Teaches(rej: RejectionSet): Entry -> bool { e => Taught(rej, e) }

  function Dated(rej: RejectionSet, key: string): Entry -> bool { e => DatedFor(rej, e, key) }

  function Lessons(rej: RejectionSet, es: seq<Entry>): seq<Entry> { Filter(Teaches(rej), es) }

  lemma LessonsMembers(rej: RejectionSet, es: seq<Entry>)
    ensures forall e :: e in Lessons(rej, es) <==> e in es && Taught(rej, e)
  {
    FilterMembers(Teaches(rej), es);
  }

  lemma LessonsSnoc(rej: RejectionSet, es: seq<Entry>)
    requires es != []
    ensures Lessons(rej, es) == Lessons(rej, es[..|es| - 1]) + (if Taught(rej, es[|es| - 1]) then [es[|es| - 1]] else [])
  {
    assert Teaches(rej)(es[|es| - 1]) == Taught(rej, es[|es| - 1]);
  }

  lemma {:induction false} CountOfLessons(rej: RejectionSet, es: seq<Entry>, key: string)
    ensures CountFor(rej, es, key) == |Filter(Dated(rej, key), Lessons(rej, es))|
    decreases |es|
  {
    if es != [] {
      var n := |es| - 1;
      CountOfLessons(rej, es[..n], key);
      LessonsSnoc(rej, es);
      assert !Taught(rej, es[n]) ==> Lessons(rej, es) == Lessons(rej, es[..n]);
      assert Dated(rej, key)(es[n]) == DatedFor(rej, es[n], key);
      FilterConcat(Dated(rej, key), Lessons(rej, es[..n]), [es[n]]);
      FilterOne(Dated(rej, key), es[n]);
    }
  }

  /** Two logs that teach the same entries, in any order and among any denials, agree on every stable pair. */
  lemma SameLessonsSameStable(rej: RejectionSet, a: seq<Entry>, b: seq<Entry>, key: string)
    requires multiset(Lessons(rej, a)) == multiset(Lessons(rej, b))
    ensures Stable(rej, a, key) <==> Stable(rej, b, key)
  {
    LessonsMembers(rej, a);
    LessonsMembers(rej, b);
    PermutationMembers(Lessons(rej, a), Lessons(rej, b));
    forall e | Taught(rej, e) ensures e in a <==> e in b {
      assert e in Lessons(rej, a) <==> e in Lessons(rej, b);
    }
  }

  /** They agree on every pair's provenance too. */
  lemma SameLessonsSameProvenance(rej: RejectionSet, a: seq<Entry>, b: seq<Entry>, key: string, l: Learned, m: Learned)
    requires multiset(Lessons(rej, a)) == multiset(Lessons(rej, b))
    requires Provenance(rej, a, key, l) && Provenance(rej, b, key, m)
    ensures l.firstSeen == m.firstSeen && l.lastSeen == m.lastSeen && l.count == m.count
  {
    LessonsMembers(rej, a);
    LessonsMembers(rej, b);
    PermutationMembers(Lessons(rej, a), Lessons(rej, b));
    forall e | Taught(rej, e) ensures e in a <==> e in b {
      assert e in Lessons(rej, a) <==> e in Lessons(rej, b);
    }
    CountOfLessons(rej, a, key);
    CountOfLessons(rej, b, key);
    var dated := Dated(rej, key);
    FilterPermutes(dated, Lessons(rej, a), Lessons(rej, b));
    PermutationMembers(Filter(dated, Lessons(rej, a)), Filter(dated, Lessons(rej, b)));
  }

  /** Permuting a log changes no lesson. */
  lemma PermutedLessons(rej: RejectionSet, a: seq<Entry>, b: seq<Entry>)
    requires multiset(a) == multiset(b)
    ensures multiset(Lessons(rej, a)) == multiset(Lessons(rej, b))
  {
    FilterPermutes(Teaches(rej), a, b);
  }

  /** Putting denials (or flows, or rejected entries) in anywhere changes no lesson. */
  lemma DenialsTeachNothing(rej: RejectionSet, before: seq<Entry>, denials: seq<Entry>, after: seq<Entry>)
    requires forall d :: d in denials ==> !Taught(rej, d)
    ensures Lessons(rej, before + denials + after) == Lessons(rej, before + after)
  {
    var f := Teaches(rej);
    FilterConcat(f, before + denials, after);
    FilterConcat(f, before, denials);
    FilterConcat(f, before, after);
    FilterNone(f, denials);
  }

  // ---------------------------------------------------------------- staleness

  /** Rejected pairs advance the watermark too: it says how far the log was read. */
  function BuiltThrough(es: seq<Entry>): int {
    if es == [] then 0
    else
      var e, before := es[|es| - 1], BuiltThrough(es[..|es| - 1]);
      if FoldsIntoBaseline(e) && e.at.Some? && e.at.value > before then e.at.value else before
  }

  predicate StaleFor(builtThrough: int, es: seq<Entry>) {
    exists i :: 0 <= i < |es| && FoldsIntoBaseline(es[i]) && es[i].at.Some? && es[i].at.value > builtThrough
  }

  /** A baseline is stale for a log exactly when the log reaches further than the one it was built from. */
  lemma {:induction false} StaleIffFurther(builtThrough: int, es: seq<Entry>)
    ensures builtThrough >= 0 ==> (StaleFor(builtThrough, es) <==> BuiltThrough(es) > builtThrough)
    decreases |es|
  {
    if es != [] {
      var n := |es| - 1;
      StaleIffFurther(builtThrough, es[..n]);
      if i :| 0 <= i < n && FoldsIntoBaseline(es[i]) && es[i].at.Some? && es[i].at.value > builtThrough {
        assert es[..n][i] == es[i];
      }
    }
  }

  lemma {:induction false} BuiltThroughNotNegative(es: seq<Entry>)
    ensures BuiltThrough(es) >= 0
    decreases |es|
  {
    if es != [] { BuiltThroughNotNegative(es[..|es| - 1]); }
  }

  /** A fresh baseline is not stale for its own log, nor for any part of it. */
  lemma FreshForOwnLog(es: seq<Entry>, part: seq<Entry>)
    requires forall e :: e in part ==> e in es
    ensures !StaleFor(BuiltThrough(es), part)
  {
    BuiltThroughNotNegative(es);
    StaleIffFurther(BuiltThrough(es), es);
    forall i | 0 <= i < |part| && FoldsIntoBaseline(part[i]) && part[i].at.Some? ensures part[i].at.value <= BuiltThrough(es) {
      assert part[i] in es;
      var k :| 0 <= k < |es| && es[k] == part[i];
    }
  }

  // ---------------------------------------------------------------- rejection reaches every view

  predicate CleanLog(es: seq<Entry>) { forall e :: e in es ==> Clean(e) }

  /** In a log whose fields hold no separator, the bucket of a rejected entry teaches nothing at all. */
  lemma RejectedTeachesNothing(rej: RejectionSet, es: seq<Entry>, r: Entry, e: Entry)
    requires CleanLog(es) && Clean(r) && Rejected(rej, r) && e in es
    ensures !TaughtFor(rej, e, Bucket(r))
  {
    if Bucket(e) == Bucket(r) { BucketRejectedTogether(rej, e, r); }
  }

  /** In such a log a stable pair's identity and host are stable whichever entry shows them. */
  lemma {:induction false} SomeOpens(rej: RejectionSet, es: seq<Entry>, i: nat) returns (o: nat)
    requires i < |es| && Taught(rej, es[i])
    ensures o <= i && Opens(rej, es, o) && Bucket(es[o]) == Bucket(es[i])
    decreases i
  {
    o := i;
    if k :| 0 <= k < i && TaughtFor(rej, es[k], Bucket(es[i])) { o := SomeOpens(rej, es, k); }
  }

  lemma StablePairShowsBoth(rej: RejectionSet, es: seq<Entry>, i: nat)
    requires CleanLog(es) && i < |es| && Taught(rej, es[i]) && Stable(rej, es, Bucket(es[i]))
    ensures StableIdentity(rej, es, IdentityKey(IdentityFromEntry(es[i])))
    ensures StableHost(rej, es, HostKey(es[i].host))
  {
    var o := SomeOpens(rej, es, i);
    assert es[o] in es && es[i] in es;
    BucketsAreDistinct(IdentityFromEntry(es[o]), IdentityFromEntry(es[i]), es[o].host, es[i].host);
  }

  // ---------------------------------------------------------------- clouds

  /** The time of the pair's latest entry so far in log order, or the zero time. */
  function LastAt(rej: RejectionSet, js: seq<Joined>, key: string): int {
    if js == [] then 0
    else if DatedFor(rej, js[|js| - 1].decision, key) then js[|js| - 1].decision.at.value
    else LastAt(rej, js[..|js| - 1], key)
  }

  predicate EverDated(rej: RejectionSet, js: seq<Joined>, key: string) {
    exists i :: 0 <= i < |js| && DatedFor(rej, js[i].decision, key)
  }

  predicate EverTaught(rej: RejectionSet, js: seq<Joined>, key: string) {
    exists i :: 0 <= i < |js| && TaughtFor(rej, js[i].decision, key)
  }

  /** Pairs are told apart by bucket, so a row's point needs the rows before it and who else was connected. */
  ghost function PointAfter(fn: Analysis, rej: RejectionSet, all: seq<Joined>, before: seq<Joined>, j: Joined): Option<Point> {
    if j.decision.at.None? then None
    else PointFrom(fn, j, LastAt(rej, before, Bucket(j.decision)), Indexed(all, j.decision.at.value, j.decision.connID))
  }

  /** The points of one pair, in log order. */
  ghost function PairPoints(fn: Analysis, rej: RejectionSet, all: seq<Joined>, js: seq<Joined>, key: string): seq<Point> {
    if js == [] then []
    else
      var init, j := js[..|js| - 1], js[|js| - 1];
      var p := PointAfter(fn, rej, all, init, j);
      PairPoints(fn, rej, all, init, key) + (if TaughtFor(rej, j.decision, key) && p.Some? then [p.value] else [])
  }

  function Newest<T>(s: seq<T>): seq<T> { if |s| > MAX_CLOUD_POINTS then s[|s| - MAX_CLOUD_POINTS..] else s }

  /** Truncating at every step is truncating once. */
  lemma NewestSnoc<T>(s: seq<T>, p: T)
    ensures Newest(Newest(s) + [p]) == Newest(s + [p])
  {
  }

  datatype Pair = Pair(identity: Identity, host: string)

  /** The pair metadata is that of the latest entry of the pair. */
  predicate NamedBy(rej: RejectionSet, js: seq<Joined>, key: string, p: Pair) {
    js != [] &&
    var e := js[|js| - 1].decision;
    if TaughtFor(rej, e, key) then p == Pair(IdentityFromEntry(e), e.host) else NamedBy(rej, js[..|js| - 1], key, p)
  }
}
