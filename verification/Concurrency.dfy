/**
 * How many other connections were in flight at an instant: the sorted-event index with prefix sums and its
 * own-event correction, against plainly counting intervals.
 */
module Concurrency {
  import opened Options
  import opened Entries
  import opened Permutations

  const NANOS_PER_MS := 1000000

  // ---------------------------------------------------------------- the plain meaning

  /** A connection with a completed flow of positive length is an interval. */
  predicate Timed(j: Joined) { j.decision.at.Some? && j.flow.Some? && j.flow.value.durationMS > 0 }

  /** Any other connection is an attempt at its opening instant. */
  predicate Instant(j: Joined) { j.decision.at.Some? && !Timed(j) }

  function OpenAt(j: Joined): int requires Timed(j) { j.decision.at.value }

  function ShutAt(j: Joined): int requires Timed(j) { j.decision.at.value + j.flow.value.durationMS * NANOS_PER_MS }

  predicate Covers(j: Joined, t: int) { Timed(j) && OpenAt(j) <= t < ShutAt(j) }

  predicate InstantAt(j: Joined, t: int) { Instant(j) && j.decision.at.value == t }

  function One(b: bool): nat { if b then 1 else 0 }

  /** Connections egressing at t, other than the excluded one. */
  function Naive(js: seq<Joined>, t: int, ex: string): nat {
    if js == [] then 0 else
      var j := js[|js| - 1];
      Naive(js[..|js| - 1], t, ex) + One((Covers(j, t) || InstantAt(j, t)) && (ex == "" || j.decision.connID != ex))
  }

  // ---------------------------------------------------------------- what the index computes

  /** One row is company from its decision until as many milliseconds later as it lasted, or at that instant alone. */
  lemma OneRow(j: Joined, t: int)
    ensures Naive([j], t, "") == 1 <==>
      && j.decision.at.Some?
      && (if j.flow.Some? && j.flow.value.durationMS > 0
          then j.decision.at.value <= t < j.decision.at.value + 1000000 * j.flow.value.durationMS
          else t == j.decision.at.value)
  {
    assert Naive([j][..0], t, "") == 0;
  }

  /** Rows are counted one by one, those with the excluded label left out. */
  lemma NaiveSnoc(js: seq<Joined>, j: Joined, t: int, ex: string)
    ensures Naive(js + [j], t, ex) == Naive(js, t, ex) + (if ex != "" && j.decision.connID == ex then 0 else Naive([j], t, ""))
  {
    assert (js + [j])[..|js|] == js && [j][..0] == [];
  }

  function CoverCount(js: seq<Joined>, t: int): nat {
    if js == [] then 0 else CoverCount(js[..|js| - 1], t) + One(Covers(js[|js| - 1], t))
  }

  function CoverCountOf(js: seq<Joined>, t: int, id: string): nat {
    if js == [] then 0
    else CoverCountOf(js[..|js| - 1], t, id) + One(Covers(js[|js| - 1], t) && js[|js| - 1].decision.connID == id)
  }

  function InstantCount(js: seq<Joined>, t: int): nat {
    if js == [] then 0 else InstantCount(js[..|js| - 1], t) + One(InstantAt(js[|js| - 1], t))
  }

  function InstantCountOf(js: seq<Joined>, t: int, id: string): nat {
    if js == [] then 0
    else InstantCountOf(js[..|js| - 1], t, id) + One(InstantAt(js[|js| - 1], t) && js[|js| - 1].decision.connID == id)
  }

  predicate TimedOf(j: Joined, id: string) { Timed(j) && j.decision.connID == id }

  /**
   * The correction for the subject: one, if every interval it labels has opened by t and not every one has
   * closed. With a single such interval that is whether it covers t.
   */
  ghost predicate OwnOpen(js: seq<Joined>, t: int, id: string) {
    && id != ""
    && (exists i :: 0 <= i < |js| && TimedOf(js[i], id) && ShutAt(js[i]) > t)
    && (forall i :: 0 <= i < |js| && TimedOf(js[i], id) ==> OpenAt(js[i]) <= t)
  }

  ghost function Indexed(js: seq<Joined>, t: int, ex: string): int {
    CoverCount(js, t) - One(OwnOpen(js, t, ex)) + InstantCount(js, t) - (if ex == "" then 0 else InstantCountOf(js, t, ex))
  }

  // ---------------------------------------------------------------- events

  datatype Event = Event(at: int, delta: int, connID: string)

  function RowEvents(j: Joined): seq<Event> {
    if Timed(j) then [Event(OpenAt(j), 1, j.decision.connID), Event(ShutAt(j), -1, j.decision.connID)] else []
  }

  function Events(js: seq<Joined>): seq<Event> {
    if js == [] then [] else Events(js[..|js| - 1]) + RowEvents(js[|js| - 1])
  }

  /** Closing time order, opens before closes at one instant. */
  predicate EventLeq(a: Event, b: Event) { a.at < b.at || (a.at == b.at && a.delta >= b.delta) }

  predicate InOrder(es: seq<Event>) { forall i, j :: 0 <= i < j < |es| ==> EventLeq(es[i], es[j]) }

  /** Sum of the changes up to and including t. */
  function Weight(es: seq<Event>, t: int): int {
    if es == [] then 0 else Weight(es[..|es| - 1], t) + (if es[|es| - 1].at <= t then es[|es| - 1].delta else 0)
  }

  function Sum(es: seq<Event>): int {
    if es == [] then 0 else Sum(es[..|es| - 1]) + es[|es| - 1].delta
  }

  lemma {:induction false} WeightConcat(a: seq<Event>, b: seq<Event>, t: int)
    ensures Weight(a + b, t) == Weight(a, t) + Weight(b, t)
    decreases |b|
  {
    if b == [] {
      assert a + b == a;
    } else {
      var c, e := b[..|b| - 1], b[|b| - 1];
      WeightConcat(a, c, t);
      assert (a + b)[..|a + b| - 1] == a + c;
    }
  }

  /** The weight does not depend on how ties are ordered, nor on any order at all. */
  lemma {:induction false} WeightPermutes(a: seq<Event>, b: seq<Event>, t: int)
    requires multiset(a) == multiset(b)
    ensures Weight(a, t) == Weight(b, t)
    decreases |a|
  {
    PermutationMembers(a, b);
    if a != [] {
      var init, e := a[..|a| - 1], a[|a| - 1];
      assert a == init + [e];
      var l, r := TakeOut(init, e, b);
      WeightPermutes(init, l + r, t);
      WeightConcat(l, [e] + r, t);
      WeightConcat([e], r, t);
      WeightConcat(l, r, t);
      WeightConcat(init, [e], t);
    }
  }

  /** Counting intervals over t is adding opens and taking away closes. */
  lemma {:induction false} WeightIsCover(js: seq<Joined>, t: int)
    ensures Weight(Events(js), t) == CoverCount(js, t)
    decreases |js|
  {
    if js != [] {
      var init, j := js[..|js| - 1], js[|js| - 1];
      WeightIsCover(init, t);
      WeightConcat(Events(init), RowEvents(j), t);
      RowWeight(j, t);
    }
  }

  lemma RowWeight(j: Joined, t: int)
    ensures Weight(RowEvents(j), t) == One(Covers(j, t))
  {
    if Timed(j) {
      var o, c := RowEvents(j)[0], RowEvents(j)[1];
      assert RowEvents(j) == [o] + [c];
      WeightConcat([o], [c], t);
      assert Weight([], t) == 0 && [o][..0] == [] && [c][..0] == [];
    }
  }

  /** The sum of the first hi sorted events, hi being the number at or before t, is the weight at t. */
  lemma {:induction false} PrefixIsWeight(es: seq<Event>, hi: nat, t: int)
    requires hi <= |es|
    requires forall i :: 0 <= i < hi ==> es[i].at <= t
    requires forall i :: hi <= i < |es| ==> es[i].at > t
    ensures Sum(es[..hi]) == Weight(es, t)
    decreases |es|
  {
    if es != [] {
      var init := es[..|es| - 1];
      if hi == |es| {
        PrefixIsWeight(init, hi - 1, t);
        assert es[..hi] == es && init[..hi - 1] == init;
      } else {
        PrefixIsWeight(init, hi, t);
        assert init[..hi] == es[..hi];
      }
    }
  }

  // ---------------------------------------------------------------- the subject's own events

  predicate OwnEvent(e: Event, id: string, opening: bool) { e.connID == id && (e.delta > 0) == opening }

  /** The last sorted event of this connection in one direction, or -1. */
  function LastOwn(es: seq<Event>, id: string, opening: bool): (i: int)
    ensures -1 <= i < |es|
    ensures i >= 0 ==> OwnEvent(es[i], id, opening)
    ensures forall k :: i < k < |es| ==> !OwnEvent(es[k], id, opening)
  {
    if es == [] then -1
    else if OwnEvent(es[|es| - 1], id, opening) then |es| - 1
    else LastOwn(es[..|es| - 1], id, opening)
  }

  /** In sorted order the last own event is counted exactly when there is one and all are at or before t. */
  lemma LastOwnCounted(es: seq<Event>, id: string, opening: bool, hi: nat, t: int)
    requires InOrder(es) && hi <= |es|
    requires forall i :: 0 <= i < hi ==> es[i].at <= t
    requires forall i :: hi <= i < |es| ==> es[i].at > t
    ensures 0 <= LastOwn(es, id, opening) < hi <==>
      (exists e :: e in es && OwnEvent(e, id, opening)) && forall e :: e in es && OwnEvent(e, id, opening) ==> e.at <= t
  {
    var i := LastOwn(es, id, opening);
    if 0 <= i < hi {
      forall e | e in es && OwnEvent(e, id, opening) ensures e.at <= t {
        var k :| 0 <= k < |es| && es[k] == e;
        assert k <= i;
      }
      assert es[i] in es;
    } else if i >= hi {
      assert es[i] in es && OwnEvent(es[i], id, opening) && es[i].at > t;
    } else {
      forall e | e in es ensures !OwnEvent(e, id, opening) {}
    }
  }

  /** An event comes from some row. */
  lemma {:induction false} EventHasRow(js: seq<Joined>, e: Event)
    ensures e in Events(js) <==> exists i :: 0 <= i < |js| && e in RowEvents(js[i])
    decreases |js|
  {
    if js != [] {
      var n := |js| - 1;
      EventHasRow(js[..n], e);
      if i :| 0 <= i < |js| && e in RowEvents(js[i]) {
        assert i < n ==> js[..n][i] == js[i];
      }
      if i :| 0 <= i < n && e in RowEvents(js[..n][i]) { assert e in RowEvents(js[i]); }
    }
  }

  ghost predicate OwnBy(js: seq<Joined>, t: int, id: string, opening: bool) {
    && (exists i :: 0 <= i < |js| && TimedOf(js[i], id))
    && (forall i :: 0 <= i < |js| && TimedOf(js[i], id) ==> (if opening then OpenAt(js[i]) else ShutAt(js[i])) <= t)
  }

  lemma OwnRow(js: seq<Joined>, i: nat, id: string, opening: bool) returns (e: Event)
    requires i < |js| && TimedOf(js[i], id)
    ensures e == Event(if opening then OpenAt(js[i]) else ShutAt(js[i]), if opening then 1 else -1, id)
    ensures e in Events(js) && OwnEvent(e, id, opening)
  {
    e := RowEvents(js[i])[if opening then 0 else 1];
    assert e in RowEvents(js[i]);
    EventHasRow(js, e);
  }

  lemma OwnCounted(js: seq<Joined>, es: seq<Event>, id: string, opening: bool, hi: nat, t: int)
    requires multiset(es) == multiset(Events(js)) && InOrder(es) && hi <= |es|
    requires forall i :: 0 <= i < hi ==> es[i].at <= t
    requires forall i :: hi <= i < |es| ==> es[i].at > t
    ensures 0 <= LastOwn(es, id, opening) < hi <==> OwnBy(js, t, id, opening)
  {
    LastOwnCounted(es, id, opening, hi, t);
    PermutationMembers(es, Events(js));
    OwnRows(js, es, id, opening, t);
  }

  function Moment(j: Joined, opening: bool): int requires Timed(j) { if opening then OpenAt(j) else ShutAt(j) }

  lemma OwnRows(js: seq<Joined>, es: seq<Event>, id: string, opening: bool, t: int)
    requires forall e :: e in es <==> e in Events(js)
    ensures (exists e :: e in es && OwnEvent(e, id, opening)) && (forall e :: e in es && OwnEvent(e, id, opening) ==> e.at <= t)
      <==> OwnBy(js, t, id, opening)
  {
    forall e | e in es && OwnEvent(e, id, opening)
      ensures exists i :: 0 <= i < |js| && TimedOf(js[i], id) && e.at == Moment(js[i], opening)
    {
      EventHasRow(js, e);
      var i :| 0 <= i < |js| && e in RowEvents(js[i]);
      assert TimedOf(js[i], id);
    }
    forall i | 0 <= i < |js| && TimedOf(js[i], id)
      ensures exists e :: e in es && OwnEvent(e, id, opening) && e.at == Moment(js[i], opening)
    {
      var e := OwnRow(js, i, id, opening);
    }
  }

  lemma OwnCorrection(js: seq<Joined>, t: int, id: string)
    requires id != ""
    ensures One(OwnOpen(js, t, id)) == One(OwnBy(js, t, id, true)) - One(OwnBy(js, t, id, false))
  {
    if OwnBy(js, t, id, false) {
      forall i | 0 <= i < |js| && TimedOf(js[i], id) ensures OpenAt(js[i]) <= t { assert ShutAt(js[i]) <= t; }
    }
  }

  // ---------------------------------------------------------------- the results

  /** An interval of the subject that is open at t is one of the intervals counted. */
  lemma {:induction false} CoverPositive(js: seq<Joined>, t: int, i: nat)
    requires i < |js| && Covers(js[i], t)
    ensures CoverCount(js, t) >= 1
    decreases |js|
  {
    if i < |js| - 1 {
      assert js[..|js| - 1][i] == js[i];
      CoverPositive(js[..|js| - 1], t, i);
    }
  }

  lemma {:induction false} InstantOfAtMost(js: seq<Joined>, t: int, id: string)
    ensures InstantCountOf(js, t, id) <= InstantCount(js, t)
    decreases |js|
  {
    if js != [] { InstantOfAtMost(js[..|js| - 1], t, id); }
  }

  /** The final clamp never acts: for every log, repeated connection ids included, the count is not negative. */
  lemma ClampUnreachable(js: seq<Joined>, t: int, ex: string)
    ensures Indexed(js, t, ex) >= 0
  {
    InstantOfAtMost(js, t, ex);
    if OwnOpen(js, t, ex) {
      var i :| 0 <= i < |js| && TimedOf(js[i], ex) && ShutAt(js[i]) > t;
      CoverPositive(js, t, i);
    }
  }

  lemma {:induction false} NaiveSplits(js: seq<Joined>, t: int, ex: string)
    ensures Naive(js, t, ex) == CoverCount(js, t) + InstantCount(js, t)
      - (if ex == "" then 0 else CoverCountOf(js, t, ex) + InstantCountOf(js, t, ex))
    decreases |js|
  {
    if js != [] { NaiveSplits(js[..|js| - 1], t, ex); }
  }

  lemma IndexedIsNaiveWhen(js: seq<Joined>, t: int, ex: string)
    ensures Indexed(js, t, ex) == Naive(js, t, ex) <==> ex == "" || CoverCountOf(js, t, ex) == One(OwnOpen(js, t, ex))
  {
    NaiveSplits(js, t, ex);
  }

  predicate CoversFor(j: Joined, t: int, id: string) { Covers(j, t) && j.decision.connID == id }

  /** At most one flow of this connection is open at t. */
  ghost predicate AtMostOneCovers(js: seq<Joined>, t: int, id: string) {
    forall i, k :: 0 <= i < k < |js| ==> !(CoversFor(js[i], t, id) && CoversFor(js[k], t, id))
  }

  /** No flow of this connection opens after t. */
  ghost predicate NoneLater(js: seq<Joined>, t: int, id: string) {
    forall i :: 0 <= i < |js| && TimedOf(js[i], id) ==> OpenAt(js[i]) <= t
  }

  ghost predicate SomeCovers(js: seq<Joined>, t: int, id: string) { exists i :: 0 <= i < |js| && CoversFor(js[i], t, id) }

  /** The number of open flows, as far as being none, one or more is concerned. */
  lemma {:induction false} CoverCountCases(js: seq<Joined>, t: int, id: string)
    ensures CoverCountOf(js, t, id) == 0 <==> !SomeCovers(js, t, id)
    ensures CoverCountOf(js, t, id) <= 1 <==> AtMostOneCovers(js, t, id)
    decreases |js|
  {
    if js != [] {
      var n := |js| - 1;
      CoverCountCases(js[..n], t, id);
      CoversSnoc(js, t, id);
    }
  }

  lemma CoversSnoc(js: seq<Joined>, t: int, id: string)
    requires js != []
    ensures var n := |js| - 1;
      && (SomeCovers(js, t, id) <==> SomeCovers(js[..n], t, id) || CoversFor(js[n], t, id))
      && (AtMostOneCovers(js, t, id) <==> AtMostOneCovers(js[..n], t, id) && !(SomeCovers(js[..n], t, id) && CoversFor(js[n], t, id)))
  {
    var n := |js| - 1;
    var init := js[..n];
    assert forall i :: 0 <= i < n ==> init[i] == js[i];
    if SomeCovers(init, t, id) {
      var i :| 0 <= i < |init| && CoversFor(init[i], t, id);
      assert CoversFor(js[i], t, id);
    }
    if AtMostOneCovers(init, t, id) && !(SomeCovers(init, t, id) && CoversFor(js[n], t, id)) {
      forall i, k | 0 <= i < k < |js| ensures !(CoversFor(js[i], t, id) && CoversFor(js[k], t, id)) {
        assert CoversFor(init[i], t, id) <==> CoversFor(js[i], t, id);
        assert k < n ==> (CoversFor(init[k], t, id) <==> CoversFor(js[k], t, id));
      }
    }
    if AtMostOneCovers(js, t, id) {
      assert forall i, k :: 0 <= i < k < n ==> !(CoversFor(js[i], t, id) && CoversFor(js[k], t, id));
    }
  }

  /**
   * For every log the index agrees with plain counting exactly when at most one flow of the excluded connection is
   * open at t and, if one is, none of its flows opens later.
   */
  lemma IndexedIsNaiveIff(js: seq<Joined>, t: int, ex: string)
    ensures Indexed(js, t, ex) == Naive(js, t, ex) <==>
      ex == "" || (AtMostOneCovers(js, t, ex) && (SomeCovers(js, t, ex) ==> NoneLater(js, t, ex)))
  {
    IndexedIsNaiveWhen(js, t, ex);
    CoverCountCases(js, t, ex);
    if SomeCovers(js, t, ex) {
      var i :| 0 <= i < |js| && CoversFor(js[i], t, ex);
      assert TimedOf(js[i], ex) && ShutAt(js[i]) > t;
    }
    if OwnOpen(js, t, ex) {
      var i :| 0 <= i < |js| && TimedOf(js[i], ex) && ShutAt(js[i]) > t;
      assert CoversFor(js[i], t, ex);
    }
  }

  ghost predicate AtMostOneTimed(js: seq<Joined>, id: string) {
    forall i, k :: 0 <= i < k < |js| ==> !(TimedOf(js[i], id) && TimedOf(js[k], id))
  }

  lemma {:induction false} OwnCoverCount(js: seq<Joined>, t: int, id: string)
    requires AtMostOneTimed(js, id)
    ensures CoverCountOf(js, t, id) == One(exists i :: 0 <= i < |js| && TimedOf(js[i], id) && Covers(js[i], t))
    decreases |js|
  {
    if js != [] {
      var n := |js| - 1;
      var init := js[..n];
      assert forall i :: 0 <= i < n ==> init[i] == js[i];
      OwnCoverCount(init, t, id);
      if TimedOf(js[n], id) {
        forall i | 0 <= i < n ensures !TimedOf(init[i], id) {}
      } else {
        assert (exists i :: 0 <= i < |js| && TimedOf(js[i], id) && Covers(js[i], t))
          <==> (exists i :: 0 <= i < n && TimedOf(init[i], id) && Covers(init[i], t));
      }
    }
  }

  /** A connection id labels at most one timed flow: then leaving the subject out means leaving it out. */
  lemma {:induction false} IndexedIsNaive(js: seq<Joined>, t: int, ex: string)
    requires ex == "" || AtMostOneTimed(js, ex)
    ensures Indexed(js, t, ex) == Naive(js, t, ex)
  {
    IndexedIsNaiveWhen(js, t, ex);
    if ex != "" {
      OwnCoverCount(js, t, ex);
      if i :| 0 <= i < |js| && TimedOf(js[i], ex) && Covers(js[i], t) {
        forall k | 0 <= k < |js| && TimedOf(js[k], ex) ensures k == i {}
        assert OwnOpen(js, t, ex);
      }
    }
  }

  /** Two overlapping flows under one id: only one of them is left out. */
  lemma RepeatedIdCountsOne(d: Entry, f: Entry)
    requires d.at == Some(0) && d.connID != "" && f.durationMS == 1
    ensures var js := [Joined(d, Some(f)), Joined(d, Some(f))]; Indexed(js, 0, d.connID) == 1 && Naive(js, 0, d.connID) == 0
  {
    var j := Joined(d, Some(f));
    var js := [j, j];
    assert js[..1] == [j] && [j][..0] == [];
    assert Covers(j, 0);
    assert TimedOf(js[0], d.connID) && ShutAt(js[0]) > 0;
    assert CoverCount([j], 0) == 1 && InstantCount([j], 0) == 0 && InstantCountOf([j], 0, d.connID) == 0;
    assert Naive([j], 0, d.connID) == 0;
  }
}
