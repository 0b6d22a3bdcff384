/** Building and querying the concurrency index, as the loops do it. */
module ConcurrencyIndex {
  import opened Options
  import opened Entries
  import opened Permutations
  import opened Concurrency

  datatype InstantCounts = InstantCounts(total: int, byConnID: map<string, int>)

  function Get(m: map<string, int>, id: string): int { if id in m then m[id] else 0 }

  function CountsAt(instants: map<int, InstantCounts>, t: int): InstantCounts {
    if t in instants then instants[t] else InstantCounts(0, map[])
  }

  ghost predicate InstantsOk(js: seq<Joined>, instants: map<int, InstantCounts>) {
    && (forall t :: CountsAt(instants, t).total == InstantCount(js, t))
    && (forall t, id :: Get(CountsAt(instants, t).byConnID, id) == InstantCountOf(js, t, id))
  }

  ghost predicate OwnOk(es: seq<Event>, own: map<string, (int, int)>) {
    forall id :: id != "" ==>
      (if id in own then own[id] else (-1, -1)) == (LastOwn(es, id, true), LastOwn(es, id, false))
  }

  /** sort.Slice: some order that puts earlier events first and opens before closes; ties may fall either way. */
  method SortEvents(es: seq<Event>) returns (r: seq<Event>)
    ensures InOrder(r) && multiset(r) == multiset(es)
  {
    r := [];
    for n := 0 to |es|
      invariant InOrder(r) && multiset(r) == multiset(es[..n])
    {
      var j := |r|;
      while j > 0 && !EventLeq(r[j - 1], es[n])
        invariant 0 <= j <= |r|
        invariant forall m :: j <= m < |r| ==> EventLeq(es[n], r[m])
      {
        j := j - 1;
      }
      InsertInOrder(r, j, es[n]);
      assert r == r[..j] + r[j..] && es[..n + 1] == es[..n] + [es[n]];
      r := r[..j] + [es[n]] + r[j..];
    }
    assert es[..|es|] == es;
  }

  lemma InsertInOrder(r: seq<Event>, j: nat, e: Event)
    requires InOrder(r) && j <= |r|
    requires j > 0 ==> EventLeq(r[j - 1], e)
    requires forall m :: j <= m < |r| ==> EventLeq(e, r[m])
    ensures InOrder(r[..j] + [e] + r[j..])
  {
    forall m | 0 <= m < j ensures EventLeq(r[m], e) {
      assert m < j - 1 ==> EventLeq(r[m], r[j - 1]);
    }
  }

  method CollectRows(js: seq<Joined>) returns (events: seq<Event>, instants: map<int, InstantCounts>)
    ensures events == Events(js) && InstantsOk(js, instants)
  {
    events := [];
    instants := map[];
    for n := 0 to |js|
      invariant events == Events(js[..n]) && InstantsOk(js[..n], instants)
    {
      var j := js[n];
      ghost var done := js[..n];
      assert js[..n + 1] == done + [j] && (done + [j])[..n] == done;
      if j.decision.at.Some? {
        var begun := j.decision.at.value;
        if j.flow.None? || j.flow.value.durationMS <= 0 {
          InstantStep(done, j, instants);
          instants := instants[begun := Counted(CountsAt(instants, begun), j.decision.connID)];
          continue;
        }
        var shut := begun + j.flow.value.durationMS * NANOS_PER_MS;
        events := events + [Event(begun, 1, j.decision.connID), Event(shut, -1, j.decision.connID)];
      }
      QuietStep(done, j, instants);
    }
    assert js[..|js|] == js;
  }

  lemma CountsSnoc(done: seq<Joined>, j: Joined, t: int, id: string)
    ensures InstantCount(done + [j], t) == InstantCount(done, t) + One(InstantAt(j, t))
    ensures InstantCountOf(done + [j], t, id) == InstantCountOf(done, t, id) + One(InstantAt(j, t) && j.decision.connID == id)
  {
    assert (done + [j])[..|done|] == done;
  }

  function Counted(counts: InstantCounts, id: string): InstantCounts {
    InstantCounts(counts.total + 1, counts.byConnID[id := Get(counts.byConnID, id) + 1])
  }

  lemma InstantStep(done: seq<Joined>, j: Joined, instants: map<int, InstantCounts>)
    requires InstantsOk(done, instants) && Instant(j)
    ensures var begun := j.decision.at.value;
      InstantsOk(done + [j], instants[begun := Counted(CountsAt(instants, begun), j.decision.connID)])
  {
    var begun := j.decision.at.value;
    var next := instants[begun := Counted(CountsAt(instants, begun), j.decision.connID)];
    forall t ensures CountsAt(next, t).total == InstantCount(done + [j], t) { CountsSnoc(done, j, t, ""); }
    forall t, id ensures Get(CountsAt(next, t).byConnID, id) == InstantCountOf(done + [j], t, id) {
      CountsSnoc(done, j, t, id);
      assert Get(CountsAt(instants, t).byConnID, id) == InstantCountOf(done, t, id);
    }
  }

  lemma QuietStep(done: seq<Joined>, j: Joined, instants: map<int, InstantCounts>)
    requires InstantsOk(done, instants) && !Instant(j)
    ensures InstantsOk(done + [j], instants)
  {
    forall t ensures CountsAt(instants, t).total == InstantCount(done + [j], t) { CountsSnoc(done, j, t, ""); }
    forall t, id ensures Get(CountsAt(instants, t).byConnID, id) == InstantCountOf(done + [j], t, id) {
      CountsSnoc(done, j, t, id);
      assert Get(CountsAt(instants, t).byConnID, id) == InstantCountOf(done, t, id);
    }
  }

  /** Remember event i as its connection's latest in its direction. */
  function WithOwn(own: map<string, (int, int)>, i: nat, e: Event): map<string, (int, int)> {
    if e.connID == "" then own else
      var o := if e.connID in own then own[e.connID] else (-1, -1);
      own[e.connID := if e.delta > 0 then (i, o.1) else (o.0, i)]
  }

  lemma OwnStep(es: seq<Event>, i: nat, own: map<string, (int, int)>)
    requires i < |es| && OwnOk(es[..i], own)
    ensures OwnOk(es[..i + 1], WithOwn(own, i, es[i]))
  {
    var e, next := es[i], es[..i + 1];
    assert next[..i] == es[..i];
    assert forall id, opening :: LastOwn(next, id, opening) == if OwnEvent(e, id, opening) then i else LastOwn(es[..i], id, opening);
  }

  /** Built once and only read afterwards. */
  class Index {
    const events: seq<Event>
    const prefix: seq<int>
    const own: map<string, (int, int)>
    const instants: map<int, InstantCounts>
    ghost const rows: seq<Joined>

    ghost predicate Valid() {
      && InOrder(events) && multiset(events) == multiset(Events(rows))
      && |prefix| == |events| + 1
      && (forall i :: 0 <= i <= |events| ==> prefix[i] == Sum(events[..i]))
      && OwnOk(events, own) && InstantsOk(rows, instants)
    }

    /** `BuildConcurrencyIndex`. */
    constructor Build(js: seq<Joined>)
      ensures Valid() && rows == js
    {
      var es, counts := CollectRows(js);
      var sorted := SortEvents(es);
      var pre, ow := FillPrefix(sorted);
      events := sorted;
      prefix := pre[..];
      own := ow;
      instants := counts;
      rows := js;
    }

    static method FillPrefix(es: seq<Event>) returns (prefix: array<int>, own: map<string, (int, int)>)
      ensures fresh(prefix) && prefix.Length == |es| + 1
      ensures forall i :: 0 <= i <= |es| ==> prefix[i] == Sum(es[..i])
      ensures OwnOk(es, own)
    {
      prefix := new int[|es| + 1];
      prefix[0] := 0;
      own := map[];
      for i := 0 to |es|
        invariant prefix.Length == |es| + 1
        invariant forall k :: 0 <= k <= i ==> prefix[k] == Sum(es[..k])
        invariant OwnOk(es[..i], own)
      {
        var e := es[i];
        assert es[..i + 1][..i] == es[..i];
        prefix[i + 1] := prefix[i] + e.delta;
        OwnStep(es, i, own);
        own := WithOwn(own, i, e);
      }
      assert es[..|es|] == es;
    }

    /** sort.Search: the number of events at or before t. */
    method CountThrough(t: int) returns (hi: nat)
      requires InOrder(events)
      ensures hi <= |events|
      ensures forall i :: 0 <= i < hi ==> events[i].at <= t
      ensures forall i :: hi <= i < |events| ==> events[i].at > t
    {
      var lo := 0;
      hi := |events|;
      while lo < hi
        invariant 0 <= lo <= hi <= |events|
        invariant forall i :: 0 <= i < lo ==> events[i].at <= t
        invariant forall i :: hi <= i < |events| ==> events[i].at > t
      {
        var mid := (lo + hi) / 2;
        if events[mid].at > t { hi := mid; } else { lo := mid + 1; }
      }
    }

    /** `At`: other connections in flight at t; the clamp at the end changes nothing. */
    method At(t: int, excludeConnID: string) returns (n: int)
      requires Valid()
      ensures n == Indexed(rows, t, excludeConnID) && n >= 0
      ensures excludeConnID == "" || AtMostOneTimed(rows, excludeConnID) ==> n == Naive(rows, t, excludeConnID)
    {
      var hi := CountThrough(t);
      n := prefix[hi];
      PrefixIsWeight(events, hi, t);
      WeightPermutes(events, Events(rows), t);
      WeightIsCover(rows, t);
      if excludeConnID != "" {
        OwnCounted(rows, events, excludeConnID, true, hi, t);
        OwnCounted(rows, events, excludeConnID, false, hi, t);
        OwnCorrection(rows, t, excludeConnID);
        if excludeConnID in own {
          var o := own[excludeConnID];
          if 0 <= o.0 < hi { n := n - 1; }
          if 0 <= o.1 < hi { n := n + 1; }
        }
      }
      assert n == CoverCount(rows, t) - One(OwnOpen(rows, t, excludeConnID));
      assert CountsAt(instants, t).total == InstantCount(rows, t);
      assert Get(CountsAt(instants, t).byConnID, excludeConnID) == InstantCountOf(rows, t, excludeConnID);
      if t in instants {
        n := n + instants[t].total;
        if excludeConnID != "" { n := n - Get(instants[t].byConnID, excludeConnID); }
      }
      ClampUnreachable(rows, t, excludeConnID);
      if excludeConnID == "" || AtMostOneTimed(rows, excludeConnID) { IndexedIsNaive(rows, t, excludeConnID); }
      if n < 0 { n := 0; }
    }
  }
}
