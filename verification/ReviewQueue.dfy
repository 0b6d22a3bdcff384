/**
 * The maintainers' review queue: reports are counted per row, evidence and verdicts attached, and every change is
 * appended to a record log from which the queue is rebuilt.
 */
module ReviewQueue {
  import opened Permutations
  import opened Options
  import opened Text
  import opened Identities
  import C = Catalogs

  datatype Key = Key(identity: Identity, host: string, verdict: string)

  datatype Event = Event(uuid: string, seen: int)

  datatype Status = Queued | Approved | Rejected

  datatype Candidate = Candidate(
    count: nat,
    firstSeen: int,
    lastSeen: int,
    evidence: string,
    confidence: C.Confidence,
    status: Status,
    events: seq<Event>)

  datatype Report = Report(uuid: string, identity: Identity, host: string, verdict: string)

  datatype Record =
    | ReportRecord(ts: int, report: Report)
    | EvidenceRecord(ts: int, key: Key, evidence: string, confidence: C.Confidence)
    | ApproveRecord(ts: int, key: Key)
    | RejectRecord(ts: int, key: Key, reason: string)

  type Rows = map<Key, Candidate>

  function RowOf(r: Report): Key { Key(r.identity, r.host, r.verdict) }

  function KeyOf(rec: Record): Key { if rec.ReportRecord? then RowOf(rec.report) else rec.key }

  // ---------------------------------------------------------------- what a record does

  function Ingested(rows: Rows, r: Report, now: int): Rows {
    var key := RowOf(r);
    var c := if key in rows then rows[key] else Candidate(0, now, now, "", C.OtherConfidence, Queued, []);
    rows[key := c.(count := c.count + 1, lastSeen := now, events := c.events + [Event(r.uuid, now)])]
  }

  /** Records about rows that do not exist do nothing. */
  function Applied(rows: Rows, rec: Record): Rows {
    if rec.ReportRecord? then Ingested(rows, rec.report, rec.ts)
    else if rec.key !in rows then rows
    else match rec
      case EvidenceRecord(_, key, evidence, confidence) => rows[key := rows[key].(evidence := evidence, confidence := confidence)]
      case ApproveRecord(_, key) => rows[key := rows[key].(status := Approved)]
      case RejectRecord(_, key, _) => rows[key := rows[key].(status := Rejected)]
  }

  function Replay(recs: seq<Record>): Rows {
    if recs == [] then map[] else Applied(Replay(recs[..|recs| - 1]), recs[|recs| - 1])
  }

  function HiddenKey(k: Key): Key { k.(identity := Hidden(k.identity)) }

  function Stored(rec: Record): Record {
    if rec.ReportRecord? then rec.(report := rec.report.(identity := Hidden(rec.report.identity))) else rec.(key := HiddenKey(rec.key))
  }

  function StoredAll(recs: seq<Record>): (r: seq<Record>)
    ensures |r| == |recs|
  {
    if recs == [] then [] else StoredAll(recs[..|recs| - 1]) + [Stored(recs[|recs| - 1])]
  }

  predicate Plain(k: Key) { HiddenKey(k) == k }

  // ---------------------------------------------------------------- runs of the interface

  datatype Op =
    | Ingest(report: Report, now: int)
    | SetEvidence(key: Key, evidence: string, confidence: C.Confidence, now: int)
    | Approve(key: Key, now: int)
    | Reject(key: Key, reason: string, now: int)

  function EntryFor(key: Key, c: Candidate): C.Entry {
    C.Entry(C.CURRENT_SCHEMA_VERSION, key.identity,
            if key.verdict == "allow" then [C.Destination(key.host, c.evidence)] else [],
            if key.verdict == "allow" then [] else [key.host],
            "promoted from review queue: " + Pad(c.count, 1) + " reports", c.evidence, c.confidence, "baseline")
  }

  datatype QueueError = UnknownCandidate | EmptyEvidence | NoEvidence | BadConfidence | UnknownVerdict | BadEntry | AppendFailed

  /** Why a row cannot become a catalog entry, if it cannot. */
  function Objection(rows: Rows, key: Key): Option<QueueError> {
    if key !in rows then Some(UnknownCandidate)
    else if rows[key].evidence == "" then Some(NoEvidence)
    else if rows[key].confidence == C.OtherConfidence then Some(BadConfidence)
    else if key.verdict != "allow" && key.verdict != "deny" then Some(UnknownVerdict)
    else if C.Validate(EntryFor(key, rows[key]), false).Err? then Some(BadEntry)
    else None
  }

  /** The record an operation appends, if it succeeds. */
  function RecordOf(rows: Rows, op: Op): Option<Record> {
    match op
    case Ingest(report, now) => Some(ReportRecord(now, report))
    case SetEvidence(key, evidence, confidence, now) =>
      if key in rows && evidence != "" then Some(EvidenceRecord(now, key, evidence, confidence)) else None
    case Approve(key, now) => if Objection(rows, key).None? then Some(ApproveRecord(now, key)) else None
    case Reject(key, reason, now) => if key in rows then Some(RejectRecord(now, key, reason)) else None
  }

  /** The queue in memory, and the records appended so far before their text form hides anything. */
  datatype State = State(rows: Rows, log: seq<Record>)

  function Step(s: State, op: Op): State {
    var rec := RecordOf(s.rows, op);
    if rec.None? then s else State(Applied(s.rows, rec.value), s.log + [rec.value])
  }

  function Run(ops: seq<Op>): State {
    if ops == [] then State(map[], []) else Step(Run(ops[..|ops| - 1]), ops[|ops| - 1])
  }

  // ---------------------------------------------------------------- replay rebuilds the queue

  lemma ReplaySnoc(recs: seq<Record>, rec: Record)
    ensures Replay(recs + [rec]) == Applied(Replay(recs), rec)
  {
    assert (recs + [rec])[..|recs|] == recs;
  }

  lemma StepRebuilds(s: State, op: Op)
    requires Replay(s.log) == s.rows
    ensures Replay(Step(s, op).log) == Step(s, op).rows
  {
    var rec := RecordOf(s.rows, op);
    if rec.Some? { ReplaySnoc(s.log, rec.value); }
  }

  lemma {:induction false} LogRebuilds(ops: seq<Op>)
    ensures Replay(Run(ops).log) == Run(ops).rows
    decreases |ops|
  {
    if ops != [] {
      LogRebuilds(ops[..|ops| - 1]);
      StepRebuilds(Run(ops[..|ops| - 1]), ops[|ops| - 1]);
    }
  }

  /** Every record is about a row there is, and rows never go away. */
  lemma {:induction false} RecordsHaveRows(ops: seq<Op>)
    ensures forall i :: 0 <= i < |Run(ops).log| ==> KeyOf(Run(ops).log[i]) in Run(ops).rows
    decreases |ops|
  {
    if ops != [] {
      RecordsHaveRows(ops[..|ops| - 1]);
      var s, op := Run(ops[..|ops| - 1]), ops[|ops| - 1];
      var rec := RecordOf(s.rows, op);
      if rec.Some? {
        assert s.rows.Keys <= Applied(s.rows, rec.value).Keys;
        assert KeyOf(rec.value) in Applied(s.rows, rec.value);
      }
    }
  }

  lemma {:induction false} PlainRecordsSurvive(recs: seq<Record>)
    requires forall i :: 0 <= i < |recs| ==> Plain(KeyOf(recs[i]))
    ensures StoredAll(recs) == recs
    decreases |recs|
  {
    if recs != [] {
      var n := |recs| - 1;
      PlainRecordsSurvive(recs[..n]);
      assert Plain(KeyOf(recs[n]));
      assert recs == recs[..n] + [recs[n]];
    }
  }

  lemma {:induction false} StoredRowsArePlain(recs: seq<Record>)
    ensures forall k :: k in Replay(StoredAll(recs)) ==> Plain(k)
    decreases |recs|
  {
    if recs != [] {
      var n := |recs| - 1;
      StoredRowsArePlain(recs[..n]);
      assert StoredAll(recs)[..n] == StoredAll(recs[..n]);
      assert Plain(KeyOf(Stored(recs[n])));
    }
  }

  /**
   * Over every run of the interface, replaying the file rebuilds the live queue exactly when no row's identity has
   * a path or a hash.
   */
  lemma ReplayIsLiveIff(ops: seq<Op>)
    ensures Replay(StoredAll(Run(ops).log)) == Run(ops).rows <==> forall k :: k in Run(ops).rows ==> Plain(k)
  {
    var s := Run(ops);
    LogRebuilds(ops);
    StoredRowsArePlain(s.log);
    if forall k :: k in s.rows ==> Plain(k) {
      RecordsHaveRows(ops);
      PlainRecordsSurvive(s.log);
    }
  }

  /** An operation that alters nothing a row holds: a refused one, or one that says again what the row says. */
  predicate Repeats(rows: Rows, op: Op) {
    RecordOf(rows, op).Some? ==>
      match op
      case Ingest(_, _) => false
      case SetEvidence(key, evidence, confidence, _) => rows[key].evidence == evidence && rows[key].confidence == confidence
      case Approve(key, _) => rows[key].status == Approved
      case Reject(key, _, _) => rows[key].status == Rejected
  }

  lemma RepeatsIff(rows: Rows, op: Op)
    requires RecordOf(rows, op).Some?
    ensures Applied(rows, RecordOf(rows, op).value) == rows <==> Repeats(rows, op)
  {
    var next := Applied(rows, RecordOf(rows, op).value);
    if Repeats(rows, op) {
      assert next[op.key] == rows[op.key] && next.Keys == rows.Keys;
    } else if op.Ingest? && RowOf(op.report) in rows {
      assert next[RowOf(op.report)].count == rows[RowOf(op.report)].count + 1;
    } else if !op.Ingest? {
      assert next[op.key] != rows[op.key];
    }
  }

  /** Memory moves although the append failed: the log still rebuilds the rows exactly when the operation repeats. */
  lemma FailedAppendIff(ops: seq<Op>, op: Op)
    ensures Replay(Run(ops).log) == Run(ops + [op]).rows <==> Repeats(Run(ops).rows, op)
  {
    LogRebuilds(ops);
    assert (ops + [op])[..|ops|] == ops;
    if RecordOf(Run(ops).rows, op).Some? { RepeatsIff(Run(ops).rows, op); }
  }

  // ---------------------------------------------------------------- what the rows say

  /** The reports of one row, in order. */
  function EventsOf(ops: seq<Op>, key: Key): seq<Event> {
    if ops == [] then []
    else
      var op := ops[|ops| - 1];
      EventsOf(ops[..|ops| - 1], key)
      + (if op.Ingest? && RowOf(op.report) == key then [Event(op.report.uuid, op.now)] else [])
  }

  /** A row: its events are exactly its reports, its counters summarise them, and it is not approved without evidence. */
  ghost predicate RowHolds(ops: seq<Op>, key: Key) {
    var rows := Run(ops).rows;
    && (key in rows <==> EventsOf(ops, key) != [])
    && (key in rows ==>
          var c := rows[key];
          c.events == EventsOf(ops, key) && c.count == |c.events|
          && c.firstSeen == c.events[0].seen && c.lastSeen == c.events[|c.events| - 1].seen
          && (c.status == Approved ==> c.evidence != ""))
  }

  lemma {:induction false} RowsHold(ops: seq<Op>, key: Key)
    ensures RowHolds(ops, key)
    decreases |ops|
  {
    if ops != [] {
      RowsHold(ops[..|ops| - 1], key);
      StepHolds(ops, key);
    }
  }

  lemma StepHolds(ops: seq<Op>, key: Key)
    requires ops != [] && RowHolds(ops[..|ops| - 1], key)
    ensures RowHolds(ops, key)
  {
    var n := |ops| - 1;
    var s, op := Run(ops[..n]), ops[n];
    assert Run(ops) == Step(s, op);
    var rec := RecordOf(s.rows, op);
    if rec.Some? && KeyOf(rec.value) != key {
      OtherRowsStay(s.rows, rec.value, key);
    } else if rec.Some? {
      OwnRowMoves(s.rows, rec.value);
    }
  }

  lemma OtherRowsStay(rows: Rows, rec: Record, key: Key)
    requires KeyOf(rec) != key
    ensures (key in Applied(rows, rec) <==> key in rows) && (key in rows ==> Applied(rows, rec)[key] == rows[key])
  {
  }

  lemma OwnRowMoves(rows: Rows, rec: Record)
    ensures var key := KeyOf(rec);
      && (key in Applied(rows, rec) <==> key in rows || rec.ReportRecord?)
      && (key in rows && !rec.ReportRecord? ==>
            var c, d := rows[key], Applied(rows, rec)[key];
            d.count == c.count && d.firstSeen == c.firstSeen && d.lastSeen == c.lastSeen && d.events == c.events)
  {
  }

  // ---------------------------------------------------------------- evidence

  datatype Evidence = Evidence(text: string, confidence: C.Confidence)

  /** Evidence is accepted for a row that was reported before, when it says something; its confidence is not looked at. */
  predicate Accepted(before: seq<Op>, op: Op, key: Key) {
    op.SetEvidence? && op.key == key && op.evidence != "" && EventsOf(before, key) != []
  }

  /** The last evidence accepted for a row; a row starts with none. */
  function LastEvidence(ops: seq<Op>, key: Key): Evidence {
    if ops == [] then Evidence("", C.OtherConfidence)
    else
      var before, op := ops[..|ops| - 1], ops[|ops| - 1];
      if Accepted(before, op, key) then Evidence(op.evidence, op.confidence) else LastEvidence(before, key)
  }

  function EvidenceIn(rows: Rows, key: Key): Evidence {
    if key in rows then Evidence(rows[key].evidence, rows[key].confidence) else Evidence("", C.OtherConfidence)
  }

  lemma RecordEvidence(rows: Rows, rec: Record, key: Key)
    ensures EvidenceIn(Applied(rows, rec), key)
      == if rec.EvidenceRecord? && rec.key == key && key in rows then Evidence(rec.evidence, rec.confidence) else EvidenceIn(rows, key)
  {
  }

  lemma OpEvidence(rows: Rows, op: Op, key: Key)
    ensures var rec := RecordOf(rows, op);
      && (rec.Some? && rec.value.EvidenceRecord? ==> op.SetEvidence? && rec.value == EvidenceRecord(op.now, op.key, op.evidence, op.confidence))
      && (op.SetEvidence? ==> (rec.Some? <==> op.key in rows && op.evidence != ""))
  {
  }

  lemma StepEvidence(s: State, op: Op, key: Key)
    ensures EvidenceIn(Step(s, op).rows, key)
      == if op.SetEvidence? && op.key == key && op.evidence != "" && key in s.rows then Evidence(op.evidence, op.confidence)
         else EvidenceIn(s.rows, key)
  {
    OpEvidence(s.rows, op, key);
    var rec := RecordOf(s.rows, op);
    if rec.Some? { RecordEvidence(s.rows, rec.value, key); }
  }

  /** A row's evidence and confidence are always those of the last accepted call. */
  lemma {:induction false} RowEvidence(ops: seq<Op>, key: Key)
    ensures EvidenceIn(Run(ops).rows, key) == LastEvidence(ops, key)
    decreases |ops|
  {
    if ops != [] {
      var n := |ops| - 1;
      RowEvidence(ops[..n], key);
      RowsHold(ops[..n], key);
      StepEvidence(Run(ops[..n]), ops[n], key);
    }
  }

  predicate ValidConfidence(c: C.Confidence) { c == C.High || c == C.Medium }

  /**
   * An approved row always has evidence; its confidence is valid if and only if the last evidence accepted for it
   * carried a valid one, before the approval or after.
   */
  lemma ApprovedConfidenceIff(ops: seq<Op>, key: Key)
    requires key in Run(ops).rows && Run(ops).rows[key].status == Approved
    ensures LastEvidence(ops, key).text != ""
    ensures ValidConfidence(Run(ops).rows[key].confidence) <==> ValidConfidence(LastEvidence(ops, key).confidence)
  {
    RowsHold(ops, key);
    RowEvidence(ops, key);
  }

  /** One more call with an unknown confidence leaves any approved row approved without a valid one. */
  lemma ApprovedCanLoseConfidence(ops: seq<Op>, key: Key, text: string, now: int)
    requires key in Run(ops).rows && Run(ops).rows[key].status == Approved && text != ""
    ensures var after := Run(ops + [SetEvidence(key, text, C.OtherConfidence, now)]).rows;
      key in after && after[key].status == Approved && !ValidConfidence(after[key].confidence)
  {
    var more := ops + [SetEvidence(key, text, C.OtherConfidence, now)];
    assert more[..|ops|] == ops;
  }

  // ---------------------------------------------------------------- rulings

  /** The row can go into a catalog: reported, with good evidence, a verdict that is one, and an identity that is sound. */
  ghost predicate Approvable(before: seq<Op>, key: Key) {
    var e, id := LastEvidence(before, key), key.identity;
    && EventsOf(before, key) != [] && e.text != "" && e.confidence in {C.High, C.Medium} && key.verdict in {"allow", "deny"}
    && (id.exeSHA256 != "" || id.bundleID != "" || id.teamID != "" || id.exeBasename != "")
    && (e.confidence == C.High ==> id.teamID != "" || id.bundleID != "")
    && (id.exeSHA256 != "" <==> id.exePath != "")
    && (id.exeSHA256 != "" ==> |id.exeSHA256| == 64 && (forall c :: c in id.exeSHA256 ==> '0' <= c <= '9' || 'a' <= c <= 'f') && id.exePath[0] == '/')
  }

  lemma NoObjectionIff(ops: seq<Op>, key: Key)
    ensures Objection(Run(ops).rows, key).None? <==> Approvable(ops, key)
  {
    var rows := Run(ops).rows;
    RowsHold(ops, key);
    RowEvidence(ops, key);
    if key in rows {
      C.ValidIff(EntryFor(key, rows[key]), false);
      assert EntryFor(key, rows[key]).explanation != "";
    }
  }

  /** What stands in the way of an approval, the first of it. */
  lemma ObjectionIs(rows: Rows, key: Key)
    ensures Objection(rows, key) == Some(UnknownCandidate) <==> key !in rows
    ensures key in rows ==>
      && (Objection(rows, key) == Some(NoEvidence) <==> rows[key].evidence == "")
      && (Objection(rows, key) == Some(BadConfidence) <==> rows[key].evidence != "" && rows[key].confidence !in {C.High, C.Medium})
      && (Objection(rows, key) == Some(UnknownVerdict) <==>
            rows[key].evidence != "" && rows[key].confidence in {C.High, C.Medium} && key.verdict !in {"allow", "deny"})
  {
  }

  /** The last ruling on a row: approvals count when it was approvable, rejections once it was reported. */
  ghost function LastRuling(ops: seq<Op>, key: Key): Status {
    if ops == [] then Queued
    else
      var before, op := ops[..|ops| - 1], ops[|ops| - 1];
      if op.Approve? && op.key == key && Approvable(before, key) then Approved
      else if op.Reject? && op.key == key && EventsOf(before, key) != [] then Rejected
      else LastRuling(before, key)
  }

  /** Over every run a row's status is the last ruling on it. */
  lemma {:induction false} RowStatus(ops: seq<Op>, key: Key)
    ensures (if key in Run(ops).rows then Run(ops).rows[key].status else Queued) == LastRuling(ops, key)
    decreases |ops|
  {
    if ops != [] {
      var n := |ops| - 1;
      RowStatus(ops[..n], key);
      RowsHold(ops[..n], key);
      NoObjectionIff(ops[..n], key);
      StepStatus(Run(ops[..n]), ops[n], key);
    }
  }

  function StatusIn(rows: Rows, key: Key): Status { if key in rows then rows[key].status else Queued }

  lemma StepStatus(s: State, op: Op, key: Key)
    ensures StatusIn(Step(s, op).rows, key) ==
      if op.Approve? && op.key == key && Objection(s.rows, key).None? then Approved
      else if op.Reject? && op.key == key && key in s.rows then Rejected
      else StatusIn(s.rows, key)
  {
  }

  // ---------------------------------------------------------------- nothing is lost

  function CountIngests(ops: seq<Op>): nat {
    if ops == [] then 0 else CountIngests(ops[..|ops| - 1]) + (if ops[|ops| - 1].Ingest? then 1 else 0)
  }

  function CountIn(rows: Rows, k: Key): nat { if k in rows then rows[k].count else 0 }

  function SumCounts(rows: Rows, ks: seq<Key>): nat {
    if ks == [] then 0 else SumCounts(rows, ks[..|ks| - 1]) + CountIn(rows, ks[|ks| - 1])
  }

  lemma {:induction false} SumOfUpdate(rows: Rows, next: Rows, ks: seq<Key>, key: Key)
    requires Distinct(ks) && forall k :: k != key ==> CountIn(next, k) == CountIn(rows, k)
    ensures SumCounts(next, ks) == SumCounts(rows, ks) + (if key in ks then CountIn(next, key) - CountIn(rows, key) else 0)
    decreases |ks|
  {
    if ks != [] {
      var n := |ks| - 1;
      assert ks == ks[..n] + [ks[n]];
      SumOfUpdate(rows, next, ks[..n], key);
    }
  }

  lemma CountAfter(rows: Rows, rec: Record, k: Key)
    ensures CountIn(Applied(rows, rec), k) == CountIn(rows, k) + (if rec.ReportRecord? && RowOf(rec.report) == k then 1 else 0)
  {
  }

  /** The counts of the rows add up to the number of reports: each report is counted once, in one row. */
  lemma {:induction false} CountsAreReports(ops: seq<Op>, ks: seq<Key>)
    requires Distinct(ks) && forall k :: k in Run(ops).rows ==> k in ks
    ensures SumCounts(Run(ops).rows, ks) == CountIngests(ops)
    decreases |ops|
  {
    if ops == [] {
      NothingCounted(ks);
    } else {
      var s, op := Run(ops[..|ops| - 1]), ops[|ops| - 1];
      var rec := RecordOf(s.rows, op);
      if rec.Some? {
        var next := Applied(s.rows, rec.value);
        assert s.rows.Keys <= next.Keys;
        forall k ensures k != KeyOf(rec.value) ==> CountIn(next, k) == CountIn(s.rows, k) { CountAfter(s.rows, rec.value, k); }
        CountAfter(s.rows, rec.value, KeyOf(rec.value));
        SumOfUpdate(s.rows, next, ks, KeyOf(rec.value));
      }
      CountsAreReports(ops[..|ops| - 1], ks);
    }
  }

  lemma {:induction false} NothingCounted(ks: seq<Key>)
    ensures SumCounts(map[], ks) == 0
    decreases |ks|
  {
    if ks != [] { NothingCounted(ks[..|ks| - 1]); }
  }

  // ---------------------------------------------------------------- distinct installs

  function Uuids(events: seq<Event>): set<string> { set e | e in events :: e.uuid }

  /** `DistinctUUIDs`: a row is never credited with more installs than reports. */
  method DistinctUUIDs(c: Candidate) returns (n: nat)
    ensures n == |Uuids(c.events)| && n <= |c.events|
  {
    var seen: set<string> := {};
    for i := 0 to |c.events|
      invariant seen == Uuids(c.events[..i]) && |seen| <= i
    {
      assert c.events[..i + 1] == c.events[..i] + [c.events[i]];
      assert Uuids(c.events[..i + 1]) == Uuids(c.events[..i]) + {c.events[i].uuid};
      if c.events[i].uuid in seen { assert seen + {c.events[i].uuid} == seen; }
      seen := seen + {c.events[i].uuid};
    }
    assert c.events[..|c.events|] == c.events;
    n := |seen|;
  }

  // ---------------------------------------------------------------- the object

  /** A line of the file: a record, or one that does not parse. */
  datatype Line = Good(rec: Record) | Garbage

  function Records(lines: seq<Line>): seq<Record> {
    if lines == [] then []
    else Records(lines[..|lines| - 1]) + (if lines[|lines| - 1].Good? then [lines[|lines| - 1].rec] else [])
  }

  function CountGarbage(lines: seq<Line>): nat {
    if lines == [] then 0 else CountGarbage(lines[..|lines| - 1]) + (if lines[|lines| - 1].Good? then 0 else 1)
  }

  lemma LineSnoc(lines: seq<Line>, line: Line)
    ensures Replay(Records(lines + [line])) == if line.Good? then Applied(Replay(Records(lines)), line.rec) else Replay(Records(lines))
    ensures CountGarbage(lines + [line]) == CountGarbage(lines) + (if line.Good? then 0 else 1)
  {
    var more := lines + [line];
    assert more[..|lines|] == lines && more[|more| - 1] == line;
    assert Records(more) == Records(lines) + (if line.Good? then [line.rec] else []);
    if line.Good? {
      assert (Records(lines) + [line.rec])[..|Records(lines)|] == Records(lines);
    } else {
      assert Records(more) == Records(lines);
    }
  }

  /** The record log; when it is not writable an append changes nothing. */
  class File {
    var lines: seq<Line>
    var writable: bool

    constructor (lines: seq<Line>)
      ensures this.lines == lines && writable
    {
      this.lines, writable := lines, true;
    }
  }

  class Queue {
    const file: File
    var candidates: Rows
    var corruptRecords: nat

    /** Open the file and replay every record; lines that do not parse are counted and skipped. */
    constructor Open(file: File)
      ensures this.file == file
      ensures candidates == Replay(Records(file.lines)) && corruptRecords == CountGarbage(file.lines)
    {
      this.file := file;
      candidates, corruptRecords := map[], 0;
      new;
      for i := 0 to |file.lines|
        invariant this.file == file
        invariant candidates == Replay(Records(file.lines[..i])) && corruptRecords == CountGarbage(file.lines[..i])
      {
        ghost var done := file.lines[..i];
        assert file.lines[..i + 1] == done + [file.lines[i]];
        LineSnoc(done, file.lines[i]);
        match file.lines[i] {
          case Good(rec) => ReplayOne(rec);
          case Garbage => corruptRecords := corruptRecords + 1;
        }
      }
      assert file.lines[..|file.lines|] == file.lines;
    }

    method ReplayOne(rec: Record)
      modifies this`candidates
      ensures candidates == Applied(old(candidates), rec)
    {
      match rec {
        case ReportRecord(ts, report) => IngestLocked(report, ts);
        case EvidenceRecord(_, key, evidence, confidence) =>
          if key in candidates { candidates := candidates[key := candidates[key].(evidence := evidence, confidence := confidence)]; }
        case ApproveRecord(_, key) =>
          if key in candidates { candidates := candidates[key := candidates[key].(status := Approved)]; }
        case RejectRecord(_, key, _) =>
          if key in candidates { candidates := candidates[key := candidates[key].(status := Rejected)]; }
      }
    }

    method IngestLocked(r: Report, now: int)
      modifies this`candidates
      ensures candidates == Ingested(old(candidates), r, now)
    {
      var key := RowOf(r);
      var c := if key in candidates then candidates[key] else Candidate(0, now, now, "", C.OtherConfidence, Queued, []);
      c := c.(count := c.count + 1);
      c := c.(lastSeen := now);
      c := c.(events := c.events + [Event(r.uuid, now)]);
      candidates := candidates[key := c];
    }

    /** The record as the file will give it back. */
    method Append(rec: Record) returns (r: Result<(), QueueError>)
      modifies file`lines
      ensures r == if file.writable then Ok(()) else Err(AppendFailed)
      ensures file.lines == if file.writable then old(file.lines) + [Good(Stored(rec))] else old(file.lines)
    {
      if !file.writable { return Err(AppendFailed); }
      file.lines := file.lines + [Good(Stored(rec))];
      return Ok(());
    }

    method Ingest(r: Report, now: int) returns (res: Result<(), QueueError>)
      modifies this`candidates, file`lines
      ensures Did(old(candidates), old(file.lines), Op.Ingest(r, now))
      ensures res == if file.writable then Ok(()) else Err(AppendFailed)
    {
      IngestLocked(r, now);
      res := Append(ReportRecord(now, r));
    }

    /** Memory is as one operation of a run leaves it, and so is the file unless it cannot be written. */
    ghost predicate Did(rows: Rows, lines: seq<Line>, op: Op)
      reads this, file
    {
      match RecordOf(rows, op)
      case None => candidates == rows && file.lines == lines
      case Some(rec) => candidates == Applied(rows, rec) && file.lines == if file.writable then lines + [Good(Stored(rec))] else lines
    }

    method SetEvidence(key: Key, evidence: string, confidence: C.Confidence, now: int) returns (r: Result<(), QueueError>)
      modifies this`candidates, file`lines
      ensures Did(old(candidates), old(file.lines), Op.SetEvidence(key, evidence, confidence, now))
      ensures r == if key !in old(candidates) then Err(UnknownCandidate) else if evidence == "" then Err(EmptyEvidence)
        else if file.writable then Ok(()) else Err(AppendFailed)
    {
      if key !in candidates { return Err(UnknownCandidate); }
      if evidence == "" { return Err(EmptyEvidence); }
      candidates := candidates[key := candidates[key].(evidence := evidence, confidence := confidence)];
      r := Append(EvidenceRecord(now, key, evidence, confidence));
    }

    /**
     * The only way from the queue into a catalog: with evidence, and as exactly the fact that was reported. When only
     * the append fails, the fact is in the catalog all the same, and comes back beside the error.
     */
    method Approve(cat: C.Catalog, key: Key, now: int) returns (entry: Option<C.Entry>, r: Result<(), QueueError>)
      modifies this`candidates, file`lines, cat
      ensures Did(old(candidates), old(file.lines), Op.Approve(key, now))
      ensures var why := Objection(old(candidates), key);
        r == if why.Some? then Err(why.value) else if file.writable then Ok(()) else Err(AppendFailed)
      ensures entry == if Objection(old(candidates), key).Some? then None else Some(EntryFor(key, old(candidates)[key]))
      ensures cat.entries == old(cat.entries) + if entry.Some? then [entry.value] else []
    {
      if key !in candidates { return None, Err(UnknownCandidate); }
      var c := candidates[key];
      if c.evidence == "" { return None, Err(NoEvidence); }
      if c.confidence != C.High && c.confidence != C.Medium { return None, Err(BadConfidence); }
      if key.verdict != "allow" && key.verdict != "deny" { return None, Err(UnknownVerdict); }
      var promoted := EntryFor(key, c);
      var added := cat.Add(promoted);
      if added.Err? { return None, Err(BadEntry); }
      candidates := candidates[key := c.(status := Approved)];
      entry := Some(promoted);
      r := Append(ApproveRecord(now, key));
    }

    method Reject(key: Key, reason: string, now: int) returns (r: Result<(), QueueError>)
      modifies this`candidates, file`lines
      ensures Did(old(candidates), old(file.lines), Op.Reject(key, reason, now))
      ensures r == if key !in old(candidates) then Err(UnknownCandidate) else if file.writable then Ok(()) else Err(AppendFailed)
    {
      if key !in candidates { return Err(UnknownCandidate); }
      candidates := candidates[key := candidates[key].(status := Rejected)];
      r := Append(RejectRecord(now, key, reason));
    }
  }

  /** What an approved row puts into the catalog answers for the very identity and host that were reported. */
  lemma ApprovedFactAnswers(rows: Rows, key: Key)
    requires Objection(rows, key).None?
    ensures var e := EntryFor(key, rows[key]);
      e.identity == key.identity && e.evidence == rows[key].evidence && e.confidence == rows[key].confidence && e.layer == "baseline"
    ensures var e := EntryFor(key, rows[key]);
      if key.verdict == "deny" then C.Opinion(e, key.identity, key.host) == C.Never
      else C.Opinion(e, key.identity, key.host) == (if C.HasDecisionPin(key.identity) then C.Authorized else C.Explained)
  {
    var e := EntryFor(key, rows[key]);
    C.ValidEntryIsAlive(e, false);
    if key.verdict == "deny" {
      assert e.never[0] == key.host;
      assert C.Lists(e.never, key.host);
    } else {
      assert e.never == [] && e.expected[0].host == key.host;
      assert C.Expects(e, key.host);
    }
  }
}
