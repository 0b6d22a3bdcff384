/**
 * Replaying a log to measure what the drift score would have been: train on a prefix, then walk the rest with the
 * same geometry the clouds are built in.
 */
module Calibrations {
  import opened Options
  import opened Entries
  import opened Identities
  import opened Rejections
  import opened Concurrency
  import opened ConcurrencyIndex
  import opened Points
  import opened Neighbours
  import opened Baselines
  import opened BaselineViews
  import opened BaselineObjects
  import C = Catalogs

  /** The previous time the replay measures row i against, and the company it had. */
  function ReplayPrevious(js: seq<Joined>, i: nat): int
    requires i < |js|
  {
    LastAt({}, js[..i], Bucket(js[i].decision))
  }

  ghost function ReplayPoint(fn: Analysis, js: seq<Joined>, i: nat): Option<Point>
    requires i < |js|
  {
    if js[i].decision.at.None? then None
    else PointFrom(fn, js[i], ReplayPrevious(js, i), Indexed(js, js[i].decision.at.value, js[i].decision.connID))
  }

  predicate CleanRows(js: seq<Joined>) { forall i :: 0 <= i < |js| ==> Clean(js[i].decision) }

  /** Rejections take out whole buckets, so what came before in a bucket that is not rejected is the same without them. */
  lemma {:induction false} RejectionsKeepPrevious(rej: RejectionSet, js: seq<Joined>, e: Entry)
    requires CleanRows(js) && Clean(e) && !Rejected(rej, e)
    ensures LastAt(rej, js, Bucket(e)) == LastAt({}, js, Bucket(e))
    decreases |js|
  {
    if js != [] {
      var n := |js| - 1;
      RejectionsKeepPrevious(rej, js[..n], e);
      if Bucket(js[n].decision) == Bucket(e) { BucketRejectedTogether(rej, js[n].decision, e); }
    }
  }

  /**
   * The point the replay makes of an accepted connection is exactly the one a baseline over the whole log puts
   * into its pair's cloud: same predecessor, same concurrency. Without rejections that is so for every log.
   */
  lemma ReplayIsCloudGeometry(fn: Analysis, rej: RejectionSet, js: seq<Joined>, i: nat)
    requires i < |js| && Taught(rej, js[i].decision)
    requires rej == {} || CleanRows(js)
    ensures ReplayPoint(fn, js, i) == PointAfter(fn, rej, js, js[..i], js[i])
    ensures PairPoints(fn, rej, js, js[..i + 1], Bucket(js[i].decision))
      == PairPoints(fn, rej, js, js[..i], Bucket(js[i].decision))
         + (if ReplayPoint(fn, js, i).Some? then [ReplayPoint(fn, js, i).value] else [])
  {
    if rej != {} { RejectionsKeepPrevious(rej, js[..i], js[i].decision); }
    assert js[..i + 1][..i] == js[..i];
  }

  /** A denied connection moves no predecessor: the rows after it are measured as if it were not there. */
  lemma DenialsMoveNothing(js: seq<Joined>, j: Joined, key: string)
    requires !FoldsIntoBaseline(j.decision)
    ensures LastAt({}, js + [j], key) == LastAt({}, js, key)
  {
    assert (js + [j])[..|js|] == js;
  }

  // ---------------------------------------------------------------- the measurement

  function Finite(outcomes: seq<Score>): seq<real> {
    if outcomes == [] then []
    else
      var o := outcomes[|outcomes| - 1];
      Finite(outcomes[..|outcomes| - 1]) + (if o.scored && o.distance.Some? then [o.distance.value] else [])
  }

  function CountInfinite(outcomes: seq<Score>): nat {
    if outcomes == [] then 0
    else
      var o := outcomes[|outcomes| - 1];
      CountInfinite(outcomes[..|outcomes| - 1]) + (if o.scored && o.distance.None? then 1 else 0)
  }

  /** No connection is dropped or counted twice: each is a distance, an infinite one, or a non-measurement. */
  lemma {:induction false} EveryOutcomeCounts(outcomes: seq<Score>)
    ensures |Finite(outcomes)| + CountInfinite(outcomes) <= |outcomes|
    ensures (|Finite(outcomes)| + CountInfinite(outcomes) == |outcomes|) <==> forall i :: 0 <= i < |outcomes| ==> outcomes[i].scored
    decreases |outcomes|
  {
    if outcomes != [] {
      var n := |outcomes| - 1;
      EveryOutcomeCounts(outcomes[..n]);
      assert forall i :: 0 <= i < n ==> outcomes[..n][i] == outcomes[i];
    }
  }

  /** How row i must be scored: against the trained baseline, with the replay's own predecessor and concurrency. */
  ghost predicate Measured(v: View, fn: Analysis, js: seq<Joined>, i: nat, o: Score)
    requires i < |js|
  {
    var e := js[i].decision;
    if e.at.None? then o == UNSCORED
    else ScoresAgainst(v, fn, IdentityFromEntry(e), e.host, js[i], ReplayPrevious(js, i), Indexed(js, e.at.value, e.connID), o)
  }

  /** The table of last times after some rows; denials leave it alone. */
  function LastTimes(js: seq<Joined>): map<string, int> {
    if js == [] then map[]
    else
      var before, e := LastTimes(js[..|js| - 1]), js[|js| - 1].decision;
      if FoldsIntoBaseline(e) && e.at.Some? then before[Bucket(e) := e.at.value] else before
  }

  lemma {:induction false} LastTimesAre(js: seq<Joined>, key: string)
    ensures (if key in LastTimes(js) then LastTimes(js)[key] else 0) == LastAt({}, js, key)
    decreases |js|
  {
    if js != [] { LastTimesAre(js[..|js| - 1], key); }
  }

  /** The table after each number of rows. */
  function AllLastTimes(js: seq<Joined>): (r: seq<map<string, int>>)
    ensures |r| == |js| + 1
  {
    if js == [] then [LastTimes([])] else AllLastTimes(js[..|js| - 1]) + [LastTimes(js)]
  }

  lemma {:induction false} AllLastTimesAt(js: seq<Joined>, n: nat)
    requires n <= |js|
    ensures AllLastTimes(js)[n] == LastTimes(js[..n])
    decreases |js|
  {
    if n == |js| {
      assert js[..n] == js;
    } else {
      AllLastTimesAt(js[..|js| - 1], n);
      assert js[..|js| - 1][..n] == js[..n];
    }
  }

  /** Seed the last times from the training half. */
  method SeedLast(js: seq<Joined>) returns (lastSeen: map<string, int>)
    ensures lastSeen == LastTimes(js)
  {
    lastSeen := map[];
    for n := 0 to |js|
      invariant lastSeen == LastTimes(js[..n])
    {
      assert js[..n + 1][..n] == js[..n];
      if !FoldsIntoBaseline(js[n].decision) { continue; }
      if js[n].decision.at.Some? { lastSeen := lastSeen[Bucket(js[n].decision) := js[n].decision.at.value]; }
    }
    assert js[..|js|] == js;
  }

  /** Write the training rows out again, each decision followed by its flow. */
  method Training(js: seq<Joined>) returns (training: seq<Entry>)
    ensures training == Flatten(js)
  {
    training := [];
    for n := 0 to |js|
      invariant training == Flatten(js[..n])
    {
      assert js[..n + 1][..n] == js[..n];
      training := training + [js[n].decision];
      if js[n].flow.Some? { training := training + [js[n].flow.value]; }
    }
    assert js[..|js|] == js;
  }

  /** Rows from cut on are measured, one outcome each. */
  ghost predicate AllMeasured(v: View, fn: Analysis, js: seq<Joined>, cut: nat, outcomes: seq<Score>)
    requires cut + |outcomes| <= |js|
  {
    outcomes != [] ==>
      var n := |outcomes| - 1; AllMeasured(v, fn, js, cut, outcomes[..n]) && Measured(v, fn, js, cut + n, outcomes[n])
  }

  lemma MeasuredSnoc(v: View, fn: Analysis, js: seq<Joined>, cut: nat, outcomes: seq<Score>, o: Score)
    requires cut + |outcomes| < |js| && AllMeasured(v, fn, js, cut, outcomes) && Measured(v, fn, js, cut + |outcomes|, o)
    ensures AllMeasured(v, fn, js, cut, outcomes + [o])
  {
    var more := outcomes + [o];
    assert more[..|outcomes|] == outcomes && more[|outcomes|] == o && |more| - 1 == |outcomes|;
  }

  lemma {:induction false} MeasuredAt(v: View, fn: Analysis, js: seq<Joined>, cut: nat, outcomes: seq<Score>, k: nat)
    requires cut + |outcomes| <= |js| && AllMeasured(v, fn, js, cut, outcomes) && k < |outcomes|
    ensures Measured(v, fn, js, cut + k, outcomes[k])
    decreases |outcomes|
  {
    if k < |outcomes| - 1 { MeasuredAt(v, fn, js, cut, outcomes[..|outcomes| - 1], k); }
  }

  predicate Tallied(outcomes: seq<Score>, scores: seq<real>, infinite: nat, unscorable: nat) {
    scores == Finite(outcomes) && infinite == CountInfinite(outcomes) && |scores| + infinite + unscorable == |outcomes|
  }

  lemma TallySnoc(outcomes: seq<Score>, o: Score, scores: seq<real>, infinite: nat, unscorable: nat)
    requires Tallied(outcomes, scores, infinite, unscorable)
    ensures !o.scored ==> Tallied(outcomes + [o], scores, infinite, unscorable + 1)
    ensures o.scored && o.distance.None? ==> Tallied(outcomes + [o], scores, infinite + 1, unscorable)
    ensures o.scored && o.distance.Some? ==> Tallied(outcomes + [o], scores + [o.distance.value], infinite, unscorable)
  {
    assert (outcomes + [o])[..|outcomes|] == outcomes;
  }

  /** Score one held-out row, then let it become its pair's predecessor if it was accepted. */
  method ScoreRow(fn: Analysis, baseline: Baseline, index: Index, js: seq<Joined>, n: nat, lastSeen: map<string, int>)
    returns (score: Score, next: map<string, int>)
    requires n < |js| && index.Valid() && index.rows == js && lastSeen == AllLastTimes(js)[n]
    ensures Measured(baseline.Value(), fn, js, n, score)
    ensures next == AllLastTimes(js)[n + 1]
  {
    var item := js[n];
    AllLastTimesAt(js, n);
    AllLastTimesAt(js, n + 1);
    assert js[..n + 1][..n] == js[..n];
    LastTimesAre(js[..n], Bucket(item.decision));
    var identity, key := IdentityFromEntry(item.decision), Bucket(item.decision);
    if item.decision.at.None? { return UNSCORED, lastSeen; }
    var at := item.decision.at.value;
    var company := index.At(at, item.decision.connID);
    score := baseline.ScoreAgainst(fn, identity, item.decision.host, item, if key in lastSeen then lastSeen[key] else 0, company);
    next := if FoldsIntoBaseline(item.decision) then lastSeen[key := at] else lastSeen;
  }

  /**
   * What a calibration reports: some baseline trained on exactly the first cut rows, one outcome per held-out row
   * scored against it, the finite distances in order, and every other row counted as infinite or not measured.
   */
  ghost predicate Reports(fn: Analysis, entries: seq<Entry>, cut: nat, rej: RejectionSet, scores: seq<real>, infinite: nat, unscorable: nat)
    requires cut <= |Join(entries)|
  {
    exists outcomes, trained ::
      && BuiltFrom(trained, fn, rej, Flatten(Join(entries)[..cut])) && Join(Flatten(Join(entries)[..cut])) == Join(entries)[..cut]
      && |outcomes| == |Join(entries)| - cut && AllMeasured(trained, fn, Join(entries), cut, outcomes)
      && Tallied(outcomes, scores, infinite, unscorable)
  }

  /** `scoresForEntries`, split after the first cut joined rows. */
  method ScoresForEntries(fn: Analysis, entries: seq<Entry>, cut: nat, rej: RejectionSet, digest: string)
    returns (scores: seq<real>, infinite: nat, unscorable: nat)
    requires cut <= |Join(entries)|
    ensures Reports(fn, entries, cut, rej, scores, infinite, unscorable)
  {
    var js := JoinEntries(entries);
    PrefixRejoins(entries, cut);
    var training := Training(js[..cut]);
    var cat := new C.Catalog();
    var baseline := new Baseline.Build(cat, training, rej, digest, fn);
    ghost var trained := baseline.Value();
    var index := new Index.Build(js);
    var lastSeen := SeedLast(js[..cut]);
    AllLastTimesAt(js, cut);
    ghost var outcomes;
    scores, infinite, unscorable, outcomes := HeldOut(fn, baseline, index, js, cut, lastSeen);
    assert baseline.Value() == trained;
  }

  /** The walk over the held-out rows. */
  method HeldOut(fn: Analysis, baseline: Baseline, index: Index, js: seq<Joined>, cut: nat, seeded: map<string, int>)
    returns (scores: seq<real>, infinite: nat, unscorable: nat, ghost outcomes: seq<Score>)
    requires cut <= |js| && index.Valid() && index.rows == js && seeded == AllLastTimes(js)[cut]
    ensures |outcomes| == |js| - cut && AllMeasured(baseline.Value(), fn, js, cut, outcomes)
    ensures Tallied(outcomes, scores, infinite, unscorable)
  {
    scores, infinite, unscorable, outcomes := [], 0, 0, [];
    var lastSeen := seeded;
    ghost var v, lasts := baseline.Value(), AllLastTimes(js);
    for n := cut to |js|
      invariant lastSeen == lasts[n]
      invariant baseline.Value() == v && |outcomes| == n - cut && AllMeasured(v, fn, js, cut, outcomes)
      invariant Tallied(outcomes, scores, infinite, unscorable)
    {
      var score;
      score, lastSeen := ScoreRow(fn, baseline, index, js, n, lastSeen);
      MeasuredSnoc(v, fn, js, cut, outcomes, score);
      TallySnoc(outcomes, score, scores, infinite, unscorable);
      outcomes := outcomes + [score];
      if !score.scored {
        unscorable := unscorable + 1;
      } else if score.distance.None? {
        infinite := infinite + 1;
      } else {
        scores := scores + [score.distance.value];
      }
    }
  }
}
