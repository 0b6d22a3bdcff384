/** Pairs the user has disowned. A rejection names the process without its path, and the host in any letter case. */
module Rejections {
  import opened Text
  import opened Options
  import opened Entries
  import opened Identities

  datatype RejectionKey = RejectionKey(exeBasename: string, exeSHA256: string, teamID: string, host: string)

  function Normalize(k: RejectionKey): RejectionKey { k.(host := ToLower(k.host)) }

  predicate Contains(rejected: set<RejectionKey>, k: RejectionKey) { Normalize(k) in rejected }

  function KeyOf(id: Identity, host: string): RejectionKey { RejectionKey(id.exeBasename, id.exeSHA256, id.teamID, host) }

  /** Nothing the entry is bucketed by holds the separator. */
  predicate Clean(e: Entry) { Separable(IdentityFromEntry(e)) }

  predicate Rejected(rejected: set<RejectionKey>, e: Entry) { Contains(rejected, KeyOf(IdentityFromEntry(e), e.host)) }

  /** A bucket is rejected as a whole: all its entries are, or none. */
  lemma BucketRejectedTogether(rejected: set<RejectionKey>, a: Entry, b: Entry)
    requires Clean(a) && Clean(b) && Bucket(a) == Bucket(b)
    ensures Rejected(rejected, a) <==> Rejected(rejected, b)
  {
    BucketsAreDistinct(IdentityFromEntry(a), IdentityFromEntry(b), a.host, b.host);
  }

  /** Disowning what one record shows disowns the same name, hash, team and host, wherever the executable lies. */
  lemma RejectsLike(d: Entry, e: Entry)
    ensures Rejected({Normalize(KeyOf(IdentityFromEntry(d), d.host))}, e) <==>
      var p, q := IdentityFromEntry(d), IdentityFromEntry(e);
      p.exeBasename == q.exeBasename && p.exeSHA256 == q.exeSHA256 && p.teamID == q.teamID && SameButCase(d.host, e.host)
  {
    ToLowerIff(d.host, e.host);
  }

  datatype Record = Record(key: RejectionKey, why: string, at: int)

  /** What a file of records says, the later record of a key winning. */
  function Replay(records: seq<Record>): map<RejectionKey, Record> {
    if records == [] then map[]
    else
      var rec := records[|records| - 1];
      var key := Normalize(rec.key);
      Replay(records[..|records| - 1])[key := Record(key, rec.why, rec.at)]
  }

  /** Whatever came before, the last record of a pair, in any spelling of its host, is the one that stands. */
  lemma LaterWins(records: seq<Record>, rec: Record)
    ensures var all := Replay(records + [rec]);
      && (forall k :: k in all <==> k in Replay(records) || k == rec.key.(host := ToLower(rec.key.host)))
      && all[rec.key.(host := ToLower(rec.key.host))] == Record(rec.key.(host := ToLower(rec.key.host)), rec.why, rec.at)
      && forall k :: k in Replay(records) && k != rec.key.(host := ToLower(rec.key.host)) ==> all[k] == Replay(records)[k]
  {
    assert (records + [rec])[..|records|] == records;
  }

  /** A line of the file: a record, or something that does not decode. */
  datatype Line = Good(rec: Record) | Garbage

  predicate Sound(lines: seq<Line>) { forall i :: 0 <= i < |lines| ==> lines[i].Good? }

  function Records(lines: seq<Line>): (r: seq<Record>)
    requires Sound(lines)
    ensures |r| == |lines| && forall i :: 0 <= i < |lines| ==> r[i] == lines[i].rec
  {
    seq(|lines|, i requires 0 <= i < |lines| => lines[i].rec)
  }

  /**
   * The rejection file, shared by every process that opens it; None while it does not exist. quarantine says whether a
   * corrupt one was once set aside.
   */
  class File {
    var lines: Option<seq<Line>>
    var quarantine: bool

    constructor (lines: Option<seq<Line>>, quarantine: bool)
      ensures this.lines == lines && this.quarantine == quarantine
    {
      this.lines, this.quarantine := lines, quarantine;
    }

    predicate Readable()
      reads this
    {
      lines.Some? ==> Sound(lines.value)
    }

    ghost function Stored(): map<RejectionKey, Record>
      requires Readable()
      reads this
    {
      if lines.Some? then Replay(Records(lines.value)) else map[]
    }
  }

  /** One process's view of the file: a copy that may be out of date until it is refreshed. */
  class Store {
    const file: File
    var records: map<RejectionKey, Record>
    var quarantined: bool

    ghost predicate Valid()
      reads this
    {
      forall k :: k in records ==> Normalize(k) == k && records[k].key == k
    }

    /** A corrupt file is set aside, and remembered: the store then starts empty. */
    constructor Open(file: File)
      modifies file
      ensures Valid() && this.file == file && file.Readable() && records == file.Stored() && quarantined == file.quarantine
      ensures old(file.Readable()) ==> file.lines == old(file.lines) && file.quarantine == old(file.quarantine)
      ensures !old(file.Readable()) ==> file.lines == None && file.quarantine
    {
      this.file := file;
      records := map[];
      quarantined := file.quarantine;
      new;
      var ok := Reload();
      if !ok {
        file.lines, file.quarantine := None, true;
        records, quarantined := map[], true;
      }
    }

    /** Read the file again; a corrupt one is an error and leaves the copy as it was. */
    method Reload() returns (ok: bool)
      requires Valid()
      modifies this`records
      ensures Valid() && ok == file.Readable()
      ensures records == if ok then file.Stored() else old(records)
    {
      if file.lines.None? {
        records := map[];
        return true;
      }
      var lines := file.lines.value;
      var read: map<RejectionKey, Record> := map[];
      for i := 0 to |lines|
        invariant records == old(records) && Sound(lines[..i]) && read == Replay(Records(lines[..i]))
        invariant forall k :: k in read ==> Normalize(k) == k && read[k].key == k
      {
        if lines[i].Garbage? { return false; }
        var rec := lines[i].rec;
        assert Records(lines[..i + 1])[..i] == Records(lines[..i]);
        var key := Normalize(rec.key);
        NormalizeTwice(rec.key);
        read := read[key := Record(key, rec.why, rec.at)];
      }
      assert lines[..|lines|] == lines;
      records := read;
      return true;
    }

    /** Write every record out, in some order of their keys. */
    method Flush()
      requires Valid()
      modifies file`lines
      ensures file.Readable() && file.Stored() == records
    {
      var left := records.Keys;
      var out: seq<Record> := [];
      var lines: seq<Line> := [];
      while left != {}
        invariant left <= records.Keys
        invariant Replay(out) == map k | k in records && k !in left :: records[k]
        invariant Sound(lines) && Records(lines) == out
        decreases left
      {
        var k :| k in left;
        left := left - {k};
        assert (out + [records[k]])[..|out|] == out;
        out := out + [records[k]];
        lines := lines + [Good(records[k])];
      }
      assert Replay(out) == records;
      file.lines := Some(lines);
    }

    /** Reject a pair: the file gains exactly that, even when this copy was out of date; a corrupt file is left alone. */
    method Reject(k: RejectionKey, why: string, now: int) returns (ok: bool)
      requires Valid()
      modifies this`records, file`lines
      ensures Valid() && ok == old(file.Readable())
      ensures ok ==> file.Readable() && records == file.Stored()
      ensures ok ==> file.Stored() == old(file.Stored())[Normalize(k) := Record(Normalize(k), why, now)]
      ensures !ok ==> records == old(records) && file.lines == old(file.lines)
    {
      ok := Reload();
      if !ok { return; }
      NormalizeTwice(k);
      records := records[Normalize(k) := Record(Normalize(k), why, now)];
      Flush();
    }

    /** Take a rejection back: every spelling of the host is gone, and nothing else. */
    method Restore(k: RejectionKey) returns (ok: bool)
      requires Valid()
      modifies this`records, file`lines
      ensures Valid() && ok == old(file.Readable())
      ensures ok ==> file.Readable() && records == file.Stored() && file.Stored() == old(file.Stored()) - {Normalize(k)}
      ensures !ok ==> records == old(records) && file.lines == old(file.lines)
    {
      ok := Reload();
      if !ok { return; }
      records := records - {Normalize(k)};
      Flush();
    }

    method Contains(k: RejectionKey) returns (r: bool)
      ensures r == (Normalize(k) in records)
    {
      return Normalize(k) in records;
    }
  }

  lemma NormalizeTwice(k: RejectionKey)
    ensures Normalize(Normalize(k)) == Normalize(k)
  {
    LowerTwice(k.host);
  }

  lemma LowerTwice(s: string)
    ensures ToLower(ToLower(s)) == ToLower(s)
  {
    forall i | 0 <= i < |s| ensures LowerChar(LowerChar(s[i])) == LowerChar(s[i]) {}
  }
}
