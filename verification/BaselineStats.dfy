/** The tables the fold keeps while it walks the log, and what one more record does to them. */
module BaselineStats {
  import opened Options
  import opened Permutations
  import opened Entries
  import opened Identities
  import opened Points
  import opened Scales
  import opened Baselines

  // ---------------------------------------------------------------- days per pair

  datatype PairStats = PairStats(days: set<int>, id: string, host: string)

  ghost predicate SeenOn(rej: RejectionSet, es: seq<Entry>, key: string, day: int) {
    exists i :: 0 <= i < |es| && DatedFor(rej, es[i], key) && Day(es[i].at.value) == day
  }

  ghost predicate OpenedBy(rej: RejectionSet, es: seq<Entry>, key: string, id: string, host: string) {
    exists i: nat :: Opens(rej, es, i) && Bucket(es[i]) == key
      && id == IdentityKey(IdentityFromEntry(es[i])) && host == HostKey(es[i].host)
  }

  ghost predicate StatsFor(rej: RejectionSet, es: seq<Entry>, byPair: map<string, PairStats>, key: string) {
    && (key in byPair <==> exists i :: 0 <= i < |es| && TaughtFor(rej, es[i], key))
    && (key in byPair ==> OpenedBy(rej, es, key, byPair[key].id, byPair[key].host))
    && (key in byPair ==> forall d :: d in byPair[key].days <==> SeenOn(rej, es, key, d))
  }

  ghost predicate StatsHold(rej: RejectionSet, es: seq<Entry>, byPair: map<string, PairStats>) {
    forall key :: StatsFor(rej, es, byPair, key)
  }

  /** The table after one taught entry. */
  function WithEntry(byPair: map<string, PairStats>, e: Entry): map<string, PairStats> {
    var key, id := Bucket(e), IdentityFromEntry(e);
    var stats := if key in byPair then byPair[key] else PairStats({}, IdentityKey(id), HostKey(e.host));
    byPair[key := if e.at.Some? then stats.(days := stats.days + {Day(e.at.value)}) else stats]
  }

  lemma OpensLater(rej: RejectionSet, es: seq<Entry>, e: Entry, i: nat)
    requires i < |es|
    ensures Opens(rej, es + [e], i) <==> Opens(rej, es, i)
  {
    var g := es + [e];
    assert forall k :: 0 <= k < |es| ==> g[k] == es[k];
  }

  lemma SeenOnSnoc(rej: RejectionSet, es: seq<Entry>, e: Entry, key: string, day: int)
    ensures SeenOn(rej, es + [e], key, day) <==> SeenOn(rej, es, key, day) || (DatedFor(rej, e, key) && Day(e.at.value) == day)
  {
    var g := es + [e];
    assert g[|es|] == e;
    if i :| 0 <= i < |es| && DatedFor(rej, es[i], key) && Day(es[i].at.value) == day { assert g[i] == es[i]; }
  }

  lemma OpenedBySnoc(rej: RejectionSet, es: seq<Entry>, e: Entry, key: string, id: string, host: string)
    requires OpenedBy(rej, es, key, id, host)
    ensures OpenedBy(rej, es + [e], key, id, host)
  {
    var i: nat :| Opens(rej, es, i) && Bucket(es[i]) == key && id == IdentityKey(IdentityFromEntry(es[i])) && host == HostKey(es[i].host);
    OpensLater(rej, es, e, i);
  }

  lemma TaughtSnoc(rej: RejectionSet, es: seq<Entry>, e: Entry, key: string)
    ensures (exists i :: 0 <= i < |es + [e]| && TaughtFor(rej, (es + [e])[i], key))
      <==> (exists i :: 0 <= i < |es| && TaughtFor(rej, es[i], key)) || TaughtFor(rej, e, key)
  {
    var g := es + [e];
    assert g[|es|] == e;
    if i :| 0 <= i < |es| && TaughtFor(rej, es[i], key) { assert g[i] == es[i]; }
  }

  lemma QuietStats(rej: RejectionSet, es: seq<Entry>, e: Entry, byPair: map<string, PairStats>)
    requires StatsHold(rej, es, byPair) && !Taught(rej, e)
    ensures StatsHold(rej, es + [e], byPair)
  {
    forall key ensures StatsFor(rej, es + [e], byPair, key) {
      assert StatsFor(rej, es, byPair, key);
      TaughtSnoc(rej, es, e, key);
      forall d ensures SeenOn(rej, es + [e], key, d) <==> SeenOn(rej, es, key, d) { SeenOnSnoc(rej, es, e, key, d); }
      if key in byPair { OpenedBySnoc(rej, es, e, key, byPair[key].id, byPair[key].host); }
    }
  }

  lemma StatsStep(rej: RejectionSet, es: seq<Entry>, e: Entry, byPair: map<string, PairStats>)
    requires StatsHold(rej, es, byPair) && Taught(rej, e)
    ensures StatsHold(rej, es + [e], WithEntry(byPair, e))
  {
    forall key ensures StatsFor(rej, es + [e], WithEntry(byPair, e), key) { StatsStepFor(rej, es, e, byPair, key); }
  }

  lemma StatsStepFor(rej: RejectionSet, es: seq<Entry>, e: Entry, byPair: map<string, PairStats>, key: string)
    requires StatsFor(rej, es, byPair, key) && Taught(rej, e)
    ensures StatsFor(rej, es + [e], WithEntry(byPair, e), key)
  {
    TaughtSnoc(rej, es, e, key);
    DaysStep(rej, es, e, byPair, key);
    if key in byPair {
      OpenedBySnoc(rej, es, e, key, byPair[key].id, byPair[key].host);
    } else if key == Bucket(e) {
      FirstOpens(rej, es, e);
    }
  }

  lemma DaysStep(rej: RejectionSet, es: seq<Entry>, e: Entry, byPair: map<string, PairStats>, key: string)
    requires StatsFor(rej, es, byPair, key) && Taught(rej, e)
    ensures key in WithEntry(byPair, e) ==> forall d :: d in WithEntry(byPair, e)[key].days <==> SeenOn(rej, es + [e], key, d)
  {
    forall d ensures SeenOn(rej, es + [e], key, d) <==> SeenOn(rej, es, key, d) || (DatedFor(rej, e, key) && Day(e.at.value) == d) {
      SeenOnSnoc(rej, es, e, key, d);
    }
    if key !in byPair && key == Bucket(e) { FirstOpens(rej, es, e); }
  }

  lemma FirstOpens(rej: RejectionSet, es: seq<Entry>, e: Entry)
    requires Taught(rej, e) && !exists i :: 0 <= i < |es| && TaughtFor(rej, es[i], Bucket(e))
    ensures OpenedBy(rej, es + [e], Bucket(e), IdentityKey(IdentityFromEntry(e)), HostKey(e.host))
    ensures forall d :: !SeenOn(rej, es, Bucket(e), d)
  {
    var g := es + [e];
    assert g[|es|] == e && forall k :: 0 <= k < |es| ==> g[k] == es[k];
    assert Opens(rej, g, |es|);
  }

  // ---------------------------------------------------------------- which pairs come out stable

  lemma PickTwo<T>(s: set<T>) returns (a: T, b: T)
    requires |s| >= 2
    ensures a in s && b in s && a != b
  {
    a :| a in s;
    var rest := s - {a};
    assert s == {a} + rest;
    assert |rest| >= 1;
    b :| b in rest;
  }

  lemma TwoMembers<T>(s: set<T>, a: T, b: T)
    requires a in s && b in s && a != b
    ensures |s| >= 2
  {
    assert {a, b} <= s;
    SubsetSize({a, b}, s);
  }

  lemma TwoDaysAreStable(rej: RejectionSet, es: seq<Entry>, key: string, d: int, f: int)
    requires SeenOn(rej, es, key, d) && SeenOn(rej, es, key, f) && d != f
    ensures Stable(rej, es, key)
  {
    var i :| 0 <= i < |es| && DatedFor(rej, es[i], key) && Day(es[i].at.value) == d;
    var k :| 0 <= k < |es| && DatedFor(rej, es[k], key) && Day(es[k].at.value) == f;
    assert es[i] in es && es[k] in es;
  }

  lemma StableHasTwoDays(rej: RejectionSet, es: seq<Entry>, key: string) returns (d: int, f: int)
    requires Stable(rej, es, key)
    ensures SeenOn(rej, es, key, d) && SeenOn(rej, es, key, f) && d != f
    ensures exists i :: 0 <= i < |es| && TaughtFor(rej, es[i], key)
  {
    var a, b :| a in es && b in es && DatedFor(rej, a, key) && DatedFor(rej, b, key) && Day(a.at.value) != Day(b.at.value);
    d, f := Day(a.at.value), Day(b.at.value);
    var i :| 0 <= i < |es| && es[i] == a;
    var k :| 0 <= k < |es| && es[k] == b;
    assert TaughtFor(rej, es[i], key);
  }

  /** Enough days in the table is stability. */
  lemma StatsShowStable(rej: RejectionSet, es: seq<Entry>, byPair: map<string, PairStats>, key: string)
    requires StatsHold(rej, es, byPair)
    ensures Stable(rej, es, key) <==> key in byPair && |byPair[key].days| >= MIN_STABLE_DAYS
  {
    assert StatsFor(rej, es, byPair, key);
    if Stable(rej, es, key) {
      var d, f := StableHasTwoDays(rej, es, key);
      TwoMembers(byPair[key].days, d, f);
    }
    if key in byPair && |byPair[key].days| >= MIN_STABLE_DAYS {
      var d, f := PickTwo(byPair[key].days);
      TwoDaysAreStable(rej, es, key, d, f);
    }
  }

  /** Bucket openings are unique, so the table's identity and host are the openers'. */
  lemma OpenersAgree(rej: RejectionSet, es: seq<Entry>, byPair: map<string, PairStats>, i: nat)
    requires StatsHold(rej, es, byPair) && Opens(rej, es, i)
    ensures Bucket(es[i]) in byPair
    ensures byPair[Bucket(es[i])].id == IdentityKey(IdentityFromEntry(es[i])) && byPair[Bucket(es[i])].host == HostKey(es[i].host)
  {
    var key := Bucket(es[i]);
    assert StatsFor(rej, es, byPair, key);
    assert TaughtFor(rej, es[i], key);
    var o: nat :| Opens(rej, es, o) && Bucket(es[o]) == key
      && byPair[key].id == IdentityKey(IdentityFromEntry(es[o])) && byPair[key].host == HostKey(es[o].host);
    OpensOnce(rej, es, i, o);
  }

  lemma OpensOnce(rej: RejectionSet, es: seq<Entry>, i: nat, o: nat)
    requires Opens(rej, es, i) && Opens(rej, es, o) && Bucket(es[i]) == Bucket(es[o])
    ensures i == o
  {
    assert TaughtFor(rej, es[o], Bucket(es[i])) && TaughtFor(rej, es[i], Bucket(es[o]));
  }

  ghost predicate StableSets(rej: RejectionSet, es: seq<Entry>, identities: set<string>, hosts: set<string>, pairs: set<string>) {
    && (forall key :: key in pairs <==> Stable(rej, es, key))
    && (forall id :: id in identities <==> StableIdentity(rej, es, id))
    && (forall h :: h in hosts <==> StableHost(rej, es, h))
  }

  function Frequent(byPair: map<string, PairStats>): set<string> {
    set key | key in byPair && |byPair[key].days| >= MIN_STABLE_DAYS
  }

  lemma FrequentHas(rej: RejectionSet, es: seq<Entry>, byPair: map<string, PairStats>, i: nat)
    requires StatsHold(rej, es, byPair) && Opens(rej, es, i) && Stable(rej, es, Bucket(es[i]))
    ensures var key := Bucket(es[i]);
      key in Frequent(byPair) && byPair[key].id == IdentityKey(IdentityFromEntry(es[i])) && byPair[key].host == HostKey(es[i].host)
  {
    OpenersAgree(rej, es, byPair, i);
    StatsShowStable(rej, es, byPair, Bucket(es[i]));
  }

  lemma FrequentOpened(rej: RejectionSet, es: seq<Entry>, byPair: map<string, PairStats>, key: string)
    requires StatsHold(rej, es, byPair) && key in Frequent(byPair)
    ensures StableIdentity(rej, es, byPair[key].id) && StableHost(rej, es, byPair[key].host)
  {
    assert StatsFor(rej, es, byPair, key);
    StatsShowStable(rej, es, byPair, key);
  }

  lemma FrequentIdentities(rej: RejectionSet, es: seq<Entry>, byPair: map<string, PairStats>, id: string)
    requires StatsHold(rej, es, byPair)
    ensures (exists key :: key in Frequent(byPair) && byPair[key].id == id) <==> StableIdentity(rej, es, id)
  {
    if key :| key in Frequent(byPair) && byPair[key].id == id { FrequentOpened(rej, es, byPair, key); }
    if i: nat :| Opens(rej, es, i) && Stable(rej, es, Bucket(es[i])) && IdentityKey(IdentityFromEntry(es[i])) == id {
      FrequentHas(rej, es, byPair, i);
    }
  }

  lemma FrequentHosts(rej: RejectionSet, es: seq<Entry>, byPair: map<string, PairStats>, h: string)
    requires StatsHold(rej, es, byPair)
    ensures (exists key :: key in Frequent(byPair) && byPair[key].host == h) <==> StableHost(rej, es, h)
  {
    if key :| key in Frequent(byPair) && byPair[key].host == h { FrequentOpened(rej, es, byPair, key); }
    if i: nat :| Opens(rej, es, i) && Stable(rej, es, Bucket(es[i])) && HostKey(es[i].host) == h {
      FrequentHas(rej, es, byPair, i);
    }
  }

  function IdsOf(byPair: map<string, PairStats>, keys: set<string>): set<string>
    requires keys <= byPair.Keys
  {
    set key | key in keys :: byPair[key].id
  }

  function HostsOf(byPair: map<string, PairStats>, keys: set<string>): set<string>
    requires keys <= byPair.Keys
  {
    set key | key in keys :: byPair[key].host
  }

  /** The pairs with enough days, and their identities and hosts, are the stable ones. */
  lemma FrequentAreStable(rej: RejectionSet, es: seq<Entry>, byPair: map<string, PairStats>)
    requires StatsHold(rej, es, byPair)
    ensures StableSets(rej, es, IdsOf(byPair, Frequent(byPair)), HostsOf(byPair, Frequent(byPair)), Frequent(byPair))
  {
    forall key ensures key in Frequent(byPair) <==> Stable(rej, es, key) { StatsShowStable(rej, es, byPair, key); }
    forall id ensures id in IdsOf(byPair, Frequent(byPair)) <==> StableIdentity(rej, es, id) { FrequentIdentities(rej, es, byPair, id); }
    forall h ensures h in HostsOf(byPair, Frequent(byPair)) <==> StableHost(rej, es, h) { FrequentHosts(rej, es, byPair, h); }
  }

  // ---------------------------------------------------------------- provenance

  /** A pair seen once more. */
  function Again(p: Learned, at: int): Learned {
    Learned(p.identity, p.host, if at < p.firstSeen then at else p.firstSeen, if at > p.lastSeen then at else p.lastSeen, p.count + 1)
  }

  function Observed(learned: map<string, Learned>, key: string, id: Identity, host: string, at: int): map<string, Learned> {
    learned[key := if key in learned then Again(learned[key], at) else Learned(id, host, at, at, 1)]
  }

  ghost predicate FirstDated(rej: RejectionSet, es: seq<Entry>, key: string, id: Identity, host: string) {
    exists i :: 0 <= i < |es| && DatedFor(rej, es[i], key) && id == IdentityFromEntry(es[i]) && host == es[i].host
         && forall k :: 0 <= k < i ==> !DatedFor(rej, es[k], key)
  }

  lemma FirstDatedSnoc(rej: RejectionSet, es: seq<Entry>, e: Entry, key: string, id: Identity, host: string)
    ensures FirstDated(rej, es, key, id, host) ==> FirstDated(rej, es + [e], key, id, host)
    ensures DatedFor(rej, e, key) && CountFor(rej, es, key) == 0 ==> FirstDated(rej, es + [e], key, IdentityFromEntry(e), e.host)
  {
    var g := es + [e];
    assert g[|es|] == e && forall k :: 0 <= k < |es| ==> g[k] == es[k];
    if FirstDated(rej, es, key, id, host) {
      var i :| 0 <= i < |es| && DatedFor(rej, es[i], key) && id == IdentityFromEntry(es[i]) && host == es[i].host
        && forall k :: 0 <= k < i ==> !DatedFor(rej, es[k], key);
      assert DatedFor(rej, g[i], key);
    }
    CountedIsDated(rej, es, key);
    if DatedFor(rej, e, key) && CountFor(rej, es, key) == 0 {
      assert forall k :: 0 <= k < |es| ==> es[k] in es && !DatedFor(rej, es[k], key);
    }
  }

  lemma ExtremesSnoc(rej: RejectionSet, es: seq<Entry>, e: Entry, key: string, first: int, last: int)
    requires Earliest(rej, es, key, first) && Latest(rej, es, key, last)
    ensures !DatedFor(rej, e, key) ==> Earliest(rej, es + [e], key, first) && Latest(rej, es + [e], key, last)
    ensures DatedFor(rej, e, key) ==> Earliest(rej, es + [e], key, if e.at.value < first then e.at.value else first)
    ensures DatedFor(rej, e, key) ==> Latest(rej, es + [e], key, if e.at.value > last then e.at.value else last)
  {
    assert forall x :: x in es + [e] <==> x in es || x == e;
  }

  lemma CountSnoc(rej: RejectionSet, es: seq<Entry>, e: Entry, key: string)
    ensures CountFor(rej, es + [e], key) == CountFor(rej, es, key) + (if DatedFor(rej, e, key) then 1 else 0)
  {
    assert (es + [e])[..|es|] == es;
  }

  lemma FirstObservation(rej: RejectionSet, es: seq<Entry>, e: Entry, key: string)
    requires CountFor(rej, es, key) == 0 && DatedFor(rej, e, key)
    ensures Earliest(rej, es + [e], key, e.at.value) && Latest(rej, es + [e], key, e.at.value)
  {
    CountedIsDated(rej, es, key);
    assert e in es + [e];
    assert forall x :: x in es + [e] <==> x in es || x == e;
  }

  ghost predicate Informed(rej: RejectionSet, es: seq<Entry>, key: string, l: Learned) {
    && Earliest(rej, es, key, l.firstSeen) && Latest(rej, es, key, l.lastSeen)
    && l.count == CountFor(rej, es, key) && FirstDated(rej, es, key, l.identity, l.host)
  }

  lemma InformedIsProvenance(rej: RejectionSet, es: seq<Entry>, key: string, l: Learned)
    ensures Informed(rej, es, key, l) <==> Provenance(rej, es, key, l)
  {
  }

  lemma InformedSnoc(rej: RejectionSet, es: seq<Entry>, e: Entry, key: string, l: Learned)
    requires Informed(rej, es, key, l)
    ensures !DatedFor(rej, e, key) ==> Informed(rej, es + [e], key, l)
    ensures DatedFor(rej, e, key) ==> Informed(rej, es + [e], key, Again(l, e.at.value))
  {
    CountSnoc(rej, es, e, key);
    FirstDatedSnoc(rej, es, e, key, l.identity, l.host);
    ExtremesSnoc(rej, es, e, key, l.firstSeen, l.lastSeen);
  }

  lemma InformedFirst(rej: RejectionSet, es: seq<Entry>, e: Entry, key: string)
    requires CountFor(rej, es, key) == 0 && DatedFor(rej, e, key)
    ensures Informed(rej, es + [e], key, Learned(IdentityFromEntry(e), e.host, e.at.value, e.at.value, 1))
  {
    CountSnoc(rej, es, e, key);
    FirstDatedSnoc(rej, es, e, key, IdentityFromEntry(e), e.host);
    FirstObservation(rej, es, e, key);
  }

  /** The table after a record: only a taught and dated one changes it. */
  function AfterEntry(rej: RejectionSet, learned: map<string, Learned>, e: Entry): map<string, Learned> {
    if Taught(rej, e) && e.at.Some? then Observed(learned, Bucket(e), IdentityFromEntry(e), e.host, e.at.value) else learned
  }

  lemma ObservedStep(rej: RejectionSet, es: seq<Entry>, e: Entry, learned: map<string, Learned>)
    requires ProvenanceHolds(rej, es, learned)
    ensures ProvenanceHolds(rej, es + [e], AfterEntry(rej, learned, e))
  {
    var next := AfterEntry(rej, learned, e);
    forall key
      ensures (key in next <==> CountFor(rej, es + [e], key) > 0) && (key in next ==> Provenance(rej, es + [e], key, next[key]))
    {
      ObservedFor(rej, es, e, learned, key);
      if key in next { InformedIsProvenance(rej, es + [e], key, next[key]); }
    }
  }

  lemma ObservedFor(rej: RejectionSet, es: seq<Entry>, e: Entry, learned: map<string, Learned>, key: string)
    requires key in learned <==> CountFor(rej, es, key) > 0
    requires key in learned ==> Provenance(rej, es, key, learned[key])
    ensures var next := AfterEntry(rej, learned, e);
      (key in next <==> CountFor(rej, es + [e], key) > 0) && (key in next ==> Informed(rej, es + [e], key, next[key]))
  {
    CountSnoc(rej, es, e, key);
    if key in learned {
      InformedIsProvenance(rej, es, key, learned[key]);
      InformedSnoc(rej, es, e, key, learned[key]);
    } else if DatedFor(rej, e, key) {
      InformedFirst(rej, es, e, key);
    }
  }
}
