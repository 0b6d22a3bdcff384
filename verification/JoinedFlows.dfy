/** Which flow each decision of a log is joined with. */
module JoinedFlows {
  import opened Options
  import opened Entries

  /** No decision among these opens the connection again. */
  predicate NotReopened(id: string, rest: seq<Entry>) { forall i :: 0 <= i < |rest| && !rest[i].isFlow ==> rest[i].connID != id }

  /** Position i holds a flow of the connection, before any decision that opens it again. */
  predicate Closes(id: string, rest: seq<Entry>, i: nat)
    requires i < |rest|
  {
    rest[i].isFlow && rest[i].connID == id && NotReopened(id, rest[..i])
  }

  lemma {:induction false} DecisionsMembers(es: seq<Entry>)
    ensures forall e :: e in Decisions(es) <==> e in es && !e.isFlow
    decreases |es|
  {
    if es != [] {
      DecisionsMembers(es[1..]);
      assert es == [es[0]] + es[1..];
    }
  }

  lemma {:induction false} DecisionsConcat(a: seq<Entry>, b: seq<Entry>)
    ensures Decisions(a + b) == Decisions(a) + Decisions(b)
    decreases |a|
  {
    if a == [] {
      assert a + b == b;
    } else {
      assert (a + b)[1..] == a[1..] + b;
      DecisionsConcat(a[1..], b);
    }
  }

  /** The rows of a log around one of its decisions. */
  lemma RowsAround(a: seq<Entry>, d: Entry, rest: seq<Entry>)
    requires !d.isFlow
    ensures DecisionsOf(Join(a + [d] + rest)) == Decisions(a) + [d] + Decisions(rest)
  {
    JoinKeepsDecisions([], a + [d] + rest);
    DecisionsConcat(a + [d], rest);
    DecisionsConcat(a, [d]);
    assert DecisionsOf([]) == [] && Decisions([d]) == [d];
  }

  /** The row at n is the latest of a connection exactly when it is of it and no later row is. */
  lemma LatestIff(js: seq<Joined>, n: nat, id: string)
    requires n < |js|
    ensures LatestWith(js, id) == n <==> js[n].decision.connID == id && forall k :: n < k < |js| ==> js[k].decision.connID != id
  {
  }

  lemma RowsAfter(js: seq<Joined>, before: seq<Entry>, d: Entry, after: seq<Entry>, id: string)
    requires DecisionsOf(js) == before + [d] + after
    ensures |before| < |js| && js[|before|].decision == d
    ensures (forall k :: |before| < k < |js| ==> js[k].decision.connID != id) <==> forall e :: e in after ==> e.connID != id
  {
    var n := |before|;
    assert DecisionsOf(js)[n] == d;
    forall k | n < k < |js| ensures js[k].decision == after[k - n - 1] { assert DecisionsOf(js)[k] == after[k - n - 1]; }
    if forall k :: n < k < |js| ==> js[k].decision.connID != id {
      forall e | e in after ensures e.connID != id {
        var k :| 0 <= k < |after| && after[k] == e;
        assert js[n + 1 + k].decision == e;
      }
    }
  }

  /** The flow a decision has been joined with so far, one record later. */
  lemma FlowStep(a: seq<Entry>, d: Entry, rest: seq<Entry>, e: Entry)
    requires !d.isFlow
    ensures var js, next, n := Join(a + [d] + rest), Join(a + [d] + (rest + [e])), |Decisions(a)|;
      && n < |js| && n < |next| && next[n].decision == d
      && next[n].flow == if e.isFlow && d.connID != "" && e.connID == d.connID && NotReopened(d.connID, rest) then Some(e) else js[n].flow
  {
    var js, n := Join(a + [d] + rest), |Decisions(a)|;
    RowsAround(a, d, rest);
    RowsAround(a, d, rest + [e]);
    assert DecisionsOf(Join(a + [d] + (rest + [e])))[n] == d;
    assert a + [d] + (rest + [e]) == a + [d] + rest + [e];
    JoinConcat([], a + [d] + rest, [e]);
    JoinOne(js, e);
    RowsAfter(js, Decisions(a), d, Decisions(rest), e.connID);
    LatestIff(js, n, e.connID);
    ReopenedIff(e.connID, rest);
  }

  lemma ReopenedIff(id: string, rest: seq<Entry>)
    ensures NotReopened(id, rest) <==> forall e :: e in Decisions(rest) ==> e.connID != id
  {
    DecisionsMembers(rest);
    if forall e :: e in Decisions(rest) ==> e.connID != id {
      forall i | 0 <= i < |rest| && !rest[i].isFlow ensures rest[i].connID != id { assert rest[i] in rest; }
    }
  }

  /** flow is the last of the connection's flows in rest, None when there is none. */
  ghost predicate LastFlow(id: string, rest: seq<Entry>, flow: Option<Entry>) {
    if flow.None? then forall i :: 0 <= i < |rest| ==> !Closes(id, rest, i)
    else exists i :: 0 <= i < |rest| && Closes(id, rest, i) && flow.value == rest[i] && forall k :: i < k < |rest| ==> !Closes(id, rest, k)
  }

  lemma LastFlowSnoc(id: string, rest: seq<Entry>, e: Entry, flow: Option<Entry>)
    requires LastFlow(id, rest, flow)
    ensures LastFlow(id, rest + [e], if e.isFlow && e.connID == id && NotReopened(id, rest) then Some(e) else flow)
  {
    var all, n := rest + [e], |rest|;
    assert all[..n] == rest;
    forall i | 0 <= i < n ensures Closes(id, all, i) <==> Closes(id, rest, i) { assert all[..i] == rest[..i]; }
    if Closes(id, all, n) {
      assert all[n] == e;
    } else if flow.Some? {
      var i :| 0 <= i < n && Closes(id, rest, i) && flow.value == rest[i] && forall k :: i < k < n ==> !Closes(id, rest, k);
      assert Closes(id, all, i) && all[i] == rest[i];
    }
  }

  /**
   * Wherever a decision stands in a log, its row holds the last flow of its connection that follows it before another
   * decision opens the connection again, and none when there is none or the connection has no name.
   */
  lemma {:induction false} JoinedFlowIs(a: seq<Entry>, d: Entry, rest: seq<Entry>)
    requires !d.isFlow
    ensures var js, n := Join(a + [d] + rest), |Decisions(a)|;
      && n < |js| && js[n].decision == d
      && (if d.connID == "" then js[n].flow.None? else LastFlow(d.connID, rest, js[n].flow))
    decreases |rest|
  {
    if rest == [] {
      NewRow(a, d);
    } else {
      var m := |rest| - 1;
      assert rest == rest[..m] + [rest[m]];
      JoinedFlowIs(a, d, rest[..m]);
      FlowStep(a, d, rest[..m], rest[m]);
      if d.connID != "" { LastFlowSnoc(d.connID, rest[..m], rest[m], Join(a + [d] + rest[..m])[|Decisions(a)|].flow); }
    }
  }

  lemma NewRow(a: seq<Entry>, d: Entry)
    requires !d.isFlow
    ensures var js, n := Join(a + [d] + []), |Decisions(a)|; |js| == n + 1 && js[n] == Joined(d, None)
  {
    JoinConcat([], a, [d]);
    JoinOne(Join(a), d);
    JoinKeepsDecisions([], a);
    assert a + [d] + [] == a + [d];
    assert DecisionsOf([]) == [] && |DecisionsOf(Join(a))| == |Join(a)|;
  }
}
