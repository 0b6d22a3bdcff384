/** Decision-log records, and the correlation of decisions with the flows that closed them. */
module Entries {
  import opened Options

  /**
   * One record. at is the parsed timestamp in nanoseconds since year 1, or None when it does not parse, and offset
   * the seconds its zone is ahead of UTC; only the fields the derived indexes read are kept.
   */
  datatype Entry = Entry(
    isFlow: bool,
    denied: bool,
    at: Option<int>,
    offset: int,
    connID: string,
    exe: string,
    comm: string,
    exeSHA256: string,
    teamID: string,
    host: string,
    bytesUp: int,
    bytesDown: int,
    durationMS: int,
    userActive: Option<bool>)

  /** A decision and, when its connection spliced and closed, its flow. */
  datatype Joined = Joined(decision: Entry, flow: Option<Entry>)

  /** The latest decision with this connection id, or |js| when there is none. */
  function LatestWith(js: seq<Joined>, id: string): (i: nat)
    ensures i <= |js|
    ensures i < |js| ==> js[i].decision.connID == id && forall k :: i < k < |js| ==> js[k].decision.connID != id
    ensures i == |js| ==> forall k :: 0 <= k < |js| ==> js[k].decision.connID != id
  {
    if js == [] then 0
    else if js[|js| - 1].decision.connID == id then |js| - 1
    else
      var i := LatestWith(js[..|js| - 1], id);
      if i == |js| - 1 then |js| else i
  }

  /** One more record: a decision opens a row, a flow closes the latest row of its connection, an orphan flow is dropped. */
  function JoinStep(js: seq<Joined>, e: Entry): seq<Joined> {
    if !e.isFlow then js + [Joined(e, None)]
    else
      var i := LatestWith(js, e.connID);
      if e.connID != "" && i < |js| then js[i := js[i].(flow := Some(e))] else js
  }

  function JoinFrom(js: seq<Joined>, entries: seq<Entry>): seq<Joined>
    decreases |entries|
  {
    if entries == [] then js else JoinFrom(JoinStep(js, entries[0]), entries[1..])
  }

  function Join(entries: seq<Entry>): seq<Joined> { JoinFrom([], entries) }

  lemma {:induction false} JoinConcat(js: seq<Joined>, a: seq<Entry>, b: seq<Entry>)
    ensures JoinFrom(js, a + b) == JoinFrom(JoinFrom(js, a), b)
    decreases |a|
  {
    if a == [] {
      assert a + b == b;
    } else {
      assert (a + b)[0] == a[0] && (a + b)[1..] == a[1..] + b;
      JoinConcat(JoinStep(js, a[0]), a[1..], b);
    }
  }

  function Decisions(entries: seq<Entry>): seq<Entry> {
    if entries == [] then [] else (if entries[0].isFlow then [] else [entries[0]]) + Decisions(entries[1..])
  }

  function DecisionsOf(js: seq<Joined>): (r: seq<Entry>)
    ensures |r| == |js| && forall i :: 0 <= i < |js| ==> r[i] == js[i].decision
  {
    seq(|js|, i requires 0 <= i < |js| => js[i].decision)
  }

  /** Joining keeps every decision, once each and in order. */
  lemma {:induction false} JoinKeepsDecisions(js: seq<Joined>, entries: seq<Entry>)
    ensures DecisionsOf(JoinFrom(js, entries)) == DecisionsOf(js) + Decisions(entries)
    decreases |entries|
  {
    if entries != [] {
      var next := JoinStep(js, entries[0]);
      JoinKeepsDecisions(next, entries[1..]);
      if entries[0].isFlow {
        assert DecisionsOf(next) == DecisionsOf(js);
      } else {
        assert DecisionsOf(next) == DecisionsOf(js) + [entries[0]];
      }
    }
  }

  /** A row: a decision, and at most a flow of the same named connection. */
  predicate Row(j: Joined) {
    !j.decision.isFlow
    && (j.flow.Some? ==> j.flow.value.isFlow && j.flow.value.connID == j.decision.connID && j.decision.connID != "")
  }

  predicate Rows(js: seq<Joined>) { forall i :: 0 <= i < |js| ==> Row(js[i]) }

  lemma {:induction false} JoinMakesRows(js: seq<Joined>, entries: seq<Entry>)
    requires Rows(js)
    ensures Rows(JoinFrom(js, entries))
    decreases |entries|
  {
    if entries != [] { JoinMakesRows(JoinStep(js, entries[0]), entries[1..]); }
  }

  /** The records of a row, as the calibration writes them out again: the decision, then its flow. */
  function RowRecords(j: Joined): seq<Entry> {
    [j.decision] + (if j.flow.Some? then [j.flow.value] else [])
  }

  function Flatten(js: seq<Joined>): seq<Entry> {
    if js == [] then [] else Flatten(js[..|js| - 1]) + RowRecords(js[|js| - 1])
  }

  lemma JoinRow(js: seq<Joined>, j: Joined)
    requires Row(j)
    ensures JoinFrom(js, RowRecords(j)) == js + [j]
  {
    var begun := js + [Joined(j.decision, None)];
    JoinOne(js, j.decision);
    assert JoinStep(js, j.decision) == begun;
    if j.flow.Some? {
      var f := j.flow.value;
      assert begun[|js|].decision.connID == f.connID;
      assert LatestWith(begun, f.connID) == |js|;
      assert JoinStep(begun, f) == js + [j];
      JoinOne(begun, f);
      JoinConcat(js, [j.decision], [f]);
    } else {
      assert j == Joined(j.decision, None);
      assert RowRecords(j) == [j.decision];
    }
  }

  lemma JoinOne(js: seq<Joined>, e: Entry)
    ensures JoinFrom(js, [e]) == JoinStep(js, e)
  {
    assert [e][1..] == [];
  }

  /** Flattening rows and joining them again gives the rows back. */
  lemma {:induction false} JoinInvertsFlatten(js: seq<Joined>)
    requires Rows(js)
    ensures Join(Flatten(js)) == js
    decreases |js|
  {
    if js != [] {
      var init, j := js[..|js| - 1], js[|js| - 1];
      JoinInvertsFlatten(init);
      JoinConcat([], Flatten(init), RowRecords(j));
      JoinRow(init, j);
      assert js == init + [j];
    }
  }

  /** Any prefix of a joined log, flattened and joined again, is that prefix: a training split loses nothing. */
  lemma PrefixRejoins(entries: seq<Entry>, cut: nat)
    requires cut <= |Join(entries)|
    ensures Join(Flatten(Join(entries)[..cut])) == Join(entries)[..cut]
  {
    JoinMakesRows([], entries);
    JoinInvertsFlatten(Join(entries)[..cut]);
  }

  /** index names the latest row of every named connection. */
  ghost predicate IndexOk(out: seq<Joined>, index: map<string, nat>) {
    forall id :: (id in index <==> id != "" && LatestWith(out, id) < |out|) && (id in index ==> index[id] == LatestWith(out, id))
  }

  lemma IndexOpens(out: seq<Joined>, index: map<string, nat>, e: Entry)
    requires IndexOk(out, index)
    ensures IndexOk(out + [Joined(e, None)], if e.connID != "" then index[e.connID := |out|] else index)
  {
    var next := out + [Joined(e, None)];
    assert next[..|out|] == out;
  }

  lemma IndexCloses(out: seq<Joined>, index: map<string, nat>, i: nat, e: Entry)
    requires IndexOk(out, index) && i < |out|
    ensures IndexOk(out[i := out[i].(flow := Some(e))], index)
  {
    forall id ensures LatestWith(out[i := out[i].(flow := Some(e))], id) == LatestWith(out, id) {
      LatestSame(out, out[i := out[i].(flow := Some(e))], id);
    }
  }

  /** The loop itself, with its index from connection id to row. */
  method JoinEntries(entries: seq<Entry>) returns (out: seq<Joined>)
    ensures out == Join(entries)
  {
    out := [];
    var index: map<string, nat> := map[];
    for n := 0 to |entries|
      invariant JoinFrom(out, entries[n..]) == Join(entries)
      invariant IndexOk(out, index)
    {
      var e := entries[n];
      assert entries[n..][0] == e && entries[n..][1..] == entries[n + 1..];
      if !e.isFlow {
        IndexOpens(out, index, e);
        out := out + [Joined(e, None)];
        if e.connID != "" { index := index[e.connID := |out| - 1]; }
      } else if e.connID != "" && e.connID in index {
        var i := index[e.connID];
        IndexCloses(out, index, i, e);
        out := out[i := out[i].(flow := Some(e))];
      }
    }
    assert entries[|entries|..] == [];
  }

  lemma LatestSame(a: seq<Joined>, b: seq<Joined>, id: string)
    requires |a| == |b| && forall i :: 0 <= i < |a| ==> a[i].decision == b[i].decision
    ensures LatestWith(a, id) == LatestWith(b, id)
  {
    var i, k := LatestWith(a, id), LatestWith(b, id);
  }
}
