/** The decision log's own code, in place on its directory, refining the steps of the storage protocol. */
module LogWriter {
  import opened Permutations
  import opened Text
  import opened SegmentNames
  import opened Options
  import opened RotatingLog
  import opened RotatingLogSafety
  import opened RotatingLogBounds
  import opened SegmentLists
  import opened Pruning

  /** Names the directory may hold beside the log's own; the reader takes none of them for a segment. */
  ghost predicate WellNamed(base: string, dir: Dir) {
    forall n :: n in dir ==> match n
      case Live => true
      case Foreign(p) => SegmentKey(base, p) == None
      case _ => ValidStamp(n.key.stamp)
  }

  /** A name `findSegments` lists. */
  predicate Listed(n: Name) { (n.Plain? || n.Gz?) && Recognised(n.key) }

  lemma ListedIffKey(base: string, dir: Dir, n: Name)
    requires WellNamed(base, dir) && n in dir && !n.Live?
    ensures var key := SegmentKey(base, Render(base, n));
      (key.Some? <==> Listed(n)) && (Listed(n) ==> key.value == Suffix(n.key))
  {
    match n
    case Plain(k) => SegmentKeyInverts(base, k);
    case Gz(k) => SegmentKeyInverts(base, k);
    case GzTmp(k) => TemporaryIsNoSegment(base, k);
    case Foreign(_) =>
  }

  lemma SuffixInjective(a: Key, b: Key)
    requires ValidStamp(a.stamp) && ValidStamp(b.stamp) && Suffix(a) == Suffix(b)
    ensures a == b
  {
    assert Tail(Plain(a)) == Suffix(a) && Tail(Plain(b)) == Suffix(b);
    TailDetermines(Plain(a), Plain(b));
  }

  /** byKey groups the listed names of dir by key, preferring archives. */
  ghost predicate Groups(dir: Dir, seen: set<Name>, byKey: map<string, Name>) {
    && (forall s :: s in byKey ==> byKey[s] in seen && Listed(byKey[s]) && s == Suffix(byKey[s].key))
    && (forall n :: n in seen && Listed(n) ==> Suffix(n.key) in byKey && (n.Gz? ==> byKey[Suffix(n.key)].Gz?))
  }

  lemma GroupPrefers(base: string, dir: Dir, byKey: map<string, Name>, s: string)
    requires WellNamed(base, dir) && Groups(dir, dir.Keys, byKey) && s in byKey
    ensures byKey[s] == Preferred(dir, byKey[s].key) && byKey[s].key in SegmentKeys(dir)
  {
    var k := byKey[s].key;
    UsedIn(dir, k);
    if Gz(k) in dir { assert Listed(Gz(k)); }
  }

  lemma GroupCovers(base: string, dir: Dir, byKey: map<string, Name>, k: Key)
    requires WellNamed(base, dir) && Groups(dir, dir.Keys, byKey) && k in SegmentKeys(dir)
    ensures Suffix(k) in byKey && byKey[Suffix(k)].key == k
  {
    UsedIn(dir, k);
    var n := Preferred(dir, k);
    assert n in dir && Listed(n);
    SuffixInjective(k, byKey[Suffix(k)].key);
  }

  lemma OrderedNames(base: string, dir: Dir, byKey: map<string, Name>, sorted: seq<string>)
    requires WellNamed(base, dir) && Groups(dir, dir.Keys, byKey)
    requires SortedStrings(sorted) && multiset(sorted) == multiset(byKey.Keys)
    ensures |sorted| == |SegmentKeys(dir)|
    ensures forall i :: 0 <= i < |sorted| ==>
      sorted[i] in byKey && byKey[sorted[i]] == Preferred(dir, Sorted(SegmentKeys(dir))[i])
  {
    forall i | 0 <= i < |sorted| ensures sorted[i] in byKey { assert sorted[i] in multiset(sorted); }
    var q := seq(|sorted|, i requires 0 <= i < |sorted| => byKey[sorted[i]].key);
    forall i, j | 0 <= i < j < |q| ensures KeyLess(q[i], q[j]) {
      DistinctAt(sorted, byKey.Keys, i, j);
      SuffixOrder(q[i], q[j]);
    }
    forall k ensures k in q <==> k in SegmentKeys(dir) {
      if k in q {
        var i :| 0 <= i < |q| && q[i] == k;
        GroupPrefers(base, dir, byKey, sorted[i]);
      }
      if k in SegmentKeys(dir) {
        GroupCovers(base, dir, byKey, k);
        assert Suffix(k) in multiset(sorted);
        var i :| 0 <= i < |sorted| && sorted[i] == Suffix(k);
        assert q[i] == k;
      }
    }
    AscendingIsSorted(q, SegmentKeys(dir));
    forall i | 0 <= i < |sorted| ensures byKey[sorted[i]] == Preferred(dir, Sorted(SegmentKeys(dir))[i]) {
      GroupPrefers(base, dir, byKey, sorted[i]);
    }
  }

  lemma DistinctAt(q: seq<string>, s: set<string>, i: nat, j: nat)
    requires multiset(q) == multiset(s) && i < j < |q|
    ensures q[i] != q[j]
  {
    var a, b := q[..j], q[j..];
    assert q == a + b;
    assert multiset(q)[q[j]] == multiset(a)[q[j]] + multiset(b)[q[j]];
    assert b[0] == q[j] && q[j] in b;
    assert a[i] == q[i] && q[i] in a;
  }

  // ---------------------------------------------------------------- one Write

  lemma AfterWriteInv(maxBytes: int, s: State, line: string, stamp: string)
    requires Inv(s) && s.proc.Up? && s.proc.pc.Ready? && ValidStamp(stamp) && LessEq(s.now, stamp)
    ensures Inv(AfterWrite(maxBytes, s, line, stamp))
  {
    WriteIsRun(maxBytes, s, line, stamp);
    RunInv(maxBytes, s, WriteSteps(maxBytes, s.proc.size, line, stamp));
  }

  /** A completed Write leaves the record at the end of the live file, behind what was there or, when that is full, alone. */
  lemma AfterWriteIs(maxBytes: int, s: State, line: string, stamp: string)
    requires Inv(s) && s.proc.Up? && s.proc.pc.Ready?
    ensures var t, live := AfterWrite(maxBytes, s, line, stamp), LinesOf(s.dir, Live);
      if Overflows(maxBytes, live, line) then
        LinesOf(t.dir, Live) == [line] && t.dir == s.dir[Plain(Key(stamp, FirstFree(s.dir, stamp, 0))) := Lines(live)][Live := Lines([line])]
      else t.dir == s.dir[Live := Lines(live + [line])]
  {
    BytesPositive(LinesOf(s.dir, Live));
  }

  /** A Write hands the segment it rotates to a compression. */
  lemma AfterWriteScheduled(maxBytes: int, s: State, line: string, stamp: string)
    requires Inv(s) && Scheduled(s) && s.proc.Up? && s.proc.pc.Ready? && ValidStamp(stamp) && LessEq(s.now, stamp)
    ensures Scheduled(AfterWrite(maxBytes, s, line, stamp))
  {
    WriteIsRun(maxBytes, s, line, stamp);
    ScheduledRun(maxBytes, s, WriteSteps(maxBytes, s.proc.size, line, stamp));
  }

  /**
   * What can go wrong in a Write: the live file cannot be closed or renamed, and is or is not opened again; the new
   * live file cannot be opened; or nothing of the record reaches the file.
   */
  datatype Fault = NoFault | NoRename(reopened: bool) | NoReopen | NoAppend

  predicate Refuses(maxBytes: int, size: nat, line: string, fault: Fault) {
    fault.NoAppend? || (NeedsRotation(maxBytes, size, line) && !fault.NoFault?)
  }

  /** The steps of the protocol a refused Write has taken. */
  function RefusedSteps(maxBytes: int, size: nat, line: string, stamp: string, fault: Fault): seq<Step> {
    if !NeedsRotation(maxBytes, size, line) then []
    else match fault
      case NoFault => []
      case NoRename(reopened) => if reopened then [] else [RotateFails(line)] + []
      case NoReopen => [Rotate(line, stamp)] + ([ReopenFails] + [])
      case NoAppend => [Rotate(line, stamp)] + ([ReopenLive] + ([AppendFails] + []))
  }

  /** What it leaves: everything recorded stays where it was, or in the segment the live file has become. */
  function AfterRefused(maxBytes: int, s: State, line: string, stamp: string, fault: Fault): State
    requires s.proc.Up?
  {
    if !NeedsRotation(maxBytes, s.proc.size, line) then s
    else match fault
      case NoFault => s
      case NoRename(reopened) => if reopened then s else s.(proc := s.proc.(pc := Broken))
      case NoReopen => Rotated(s, line, stamp).(dir := Rotated(s, line, stamp).dir - {Live}, proc := s.proc.(pc := Broken))
      case NoAppend => var r := Rotated(s, line, stamp); r.(proc := r.proc.(pc := Ready))
  }

  lemma RefusedIsRun(maxBytes: int, s: State, line: string, stamp: string, fault: Fault)
    requires s.proc.Up? && s.proc.pc.Ready? && ValidStamp(stamp) && LessEq(s.now, stamp)
    ensures Legal(maxBytes, s, RefusedSteps(maxBytes, s.proc.size, line, stamp, fault))
    ensures Run(maxBytes, s, RefusedSteps(maxBytes, s.proc.size, line, stamp, fault)) == AfterRefused(maxBytes, s, line, stamp, fault)
  {
    if NeedsRotation(maxBytes, s.proc.size, line) {
      var t := Apply(maxBytes, s, Rotate(line, stamp));
      match fault {
        case NoFault =>
        case NoRename(reopened) => if !reopened { RunCons(maxBytes, s, RotateFails(line), []); }
        case NoReopen =>
          RunCons(maxBytes, t, ReopenFails, []);
          RunCons(maxBytes, s, Rotate(line, stamp), [ReopenFails] + []);
          assert Rotated(s, line, stamp).dir - {Live} == t.dir;
        case NoAppend =>
          var u := Apply(maxBytes, t, ReopenLive);
          assert u == Rotated(s, line, stamp);
          RunCons(maxBytes, u, AppendFails, []);
          RunCons(maxBytes, t, ReopenLive, [AppendFails] + []);
          RunCons(maxBytes, s, Rotate(line, stamp), [ReopenLive] + ([AppendFails] + []));
      }
    }
  }

  lemma AfterRefusedNames(maxBytes: int, base: string, s: State, line: string, stamp: string, fault: Fault)
    requires WellNamed(base, s.dir) && s.proc.Up? && ValidStamp(stamp)
    ensures WellNamed(base, AfterRefused(maxBytes, s, line, stamp, fault).dir)
  {
  }

  /** What a writer relies on; tidy says that no compression was given up. */
  ghost predicate InGoodOrder(base: string, s: State, tidy: bool) { Inv(s) && (tidy ==> Scheduled(s)) && WellNamed(base, s.dir) }

  lemma AfterRefusedInv(maxBytes: int, s: State, line: string, stamp: string, fault: Fault)
    requires Inv(s) && s.proc.Up? && s.proc.pc.Ready? && ValidStamp(stamp) && LessEq(s.now, stamp)
    ensures Inv(AfterRefused(maxBytes, s, line, stamp, fault))
  {
    RefusedIsRun(maxBytes, s, line, stamp, fault);
    RunInv(maxBytes, s, RefusedSteps(maxBytes, s.proc.size, line, stamp, fault));
  }

  lemma AfterRefusedScheduled(maxBytes: int, s: State, line: string, stamp: string, fault: Fault)
    requires Inv(s) && Scheduled(s) && s.proc.Up? && s.proc.pc.Ready? && ValidStamp(stamp) && LessEq(s.now, stamp) && !fault.NoReopen?
    ensures Scheduled(AfterRefused(maxBytes, s, line, stamp, fault))
  {
    RefusedIsRun(maxBytes, s, line, stamp, fault);
    ScheduledRun(maxBytes, s, RefusedSteps(maxBytes, s.proc.size, line, stamp, fault));
  }

  /** A refused Write keeps what the writer relies on, and strands no segment unless the new live file could not be opened. */
  lemma AfterRefusedKept(maxBytes: int, base: string, s: State, line: string, stamp: string, fault: Fault, tidy: bool)
    requires InGoodOrder(base, s, tidy) && s.proc.Up? && s.proc.pc.Ready? && ValidStamp(stamp) && LessEq(s.now, stamp)
    ensures InGoodOrder(base, AfterRefused(maxBytes, s, line, stamp, fault), tidy && !fault.NoReopen?)
  {
    AfterRefusedInv(maxBytes, s, line, stamp, fault);
    if tidy && !fault.NoReopen? { AfterRefusedScheduled(maxBytes, s, line, stamp, fault); }
    AfterRefusedNames(maxBytes, base, s, line, stamp, fault);
  }

  lemma AfterWriteKept(maxBytes: int, base: string, s: State, line: string, stamp: string, tidy: bool)
    requires InGoodOrder(base, s, tidy) && s.proc.Up? && s.proc.pc.Ready? && ValidStamp(stamp) && LessEq(s.now, stamp)
    ensures InGoodOrder(base, AfterWrite(maxBytes, s, line, stamp), tidy)
  {
    AfterWriteInv(maxBytes, s, line, stamp);
    if tidy { AfterWriteScheduled(maxBytes, s, line, stamp); }
    AfterWriteNames(base, maxBytes, s, line, stamp);
  }

  lemma AllArchived(dir: Dir, s: State)
    requires s.dir == dir && forall k :: k in SegmentKeys(dir) ==> Gz(k) in dir
    ensures Scheduled(s)
  {
    forall k ensures Plain(k) in dir && Recognised(k) ==> Gz(k) in dir { UsedIn(dir, k); }
  }

  // ---------------------------------------------------------------- background compression

  /** The next step of a compression. */
  function JobStep(k: Key, phase: Phase): Step {
    match phase
    case Start => JobCreate(k)
    case Created => JobFill(k)
    case Filled => JobRename(k)
    case Renamed => JobRemove(k)
  }

  /** What that step does to the files, and to the list of compressions. */
  function JobDir(dir: Dir, k: Key, phase: Phase): Dir
    requires phase.Filled? ==> GzTmp(k) in dir
  {
    match phase
    case Start => dir[GzTmp(k) := Partial]
    case Created => dir[GzTmp(k) := Zip(LinesOf(dir, Plain(k)))]
    case Filled => (dir - {GzTmp(k)})[Gz(k) := dir[GzTmp(k)]]
    case Renamed => dir - {Plain(k)}
  }

  function JobMap(jobs: map<Key, Phase>, k: Key): map<Key, Phase>
    requires k in jobs
  {
    match jobs[k]
    case Start => jobs[k := Created]
    case Created => jobs[k := Filled]
    case Filled => jobs[k := Renamed]
    case Renamed => jobs - {k}
  }

  lemma JobStepIs(maxBytes: int, s: State, k: Key)
    requires s.proc.Up? && k in s.proc.jobs && Enabled(maxBytes, s, JobStep(k, s.proc.jobs[k]))
    ensures Apply(maxBytes, s, JobStep(k, s.proc.jobs[k]))
      == s.(dir := JobDir(s.dir, k, s.proc.jobs[k]), proc := s.proc.(jobs := JobMap(s.proc.jobs, k)))
  {
  }

  lemma JobMapShrinks(jobs: map<Key, Phase>, k: Key)
    requires k in jobs
    ensures var next := JobMap(jobs, k);
      if jobs[k] == Renamed then next.Keys == jobs.Keys - {k} && k !in next
      else next.Keys == jobs.Keys && k in next && StepsLeft(next[k]) < StepsLeft(jobs[k])
  {
  }

  ghost function NextOf(maxBytes: int, base: string, s: State, k: Key, tidy: bool): (t: State)
    requires InGoodOrder(base, s, tidy) && s.proc.Up? && k in s.proc.jobs
    ensures Enabled(maxBytes, s, JobStep(k, s.proc.jobs[k])) && t == Apply(maxBytes, s, JobStep(k, s.proc.jobs[k]))
    ensures s.proc.jobs[k].Filled? ==> GzTmp(k) in s.dir
    ensures t == s.(dir := JobDir(s.dir, k, s.proc.jobs[k]), proc := s.proc.(jobs := JobMap(s.proc.jobs, k)))
    ensures InGoodOrder(base, t, tidy) && History(t.dir) == History(s.dir)
  {
    JobStepKeeps(maxBytes, base, s, k, tidy);
    JobStepIs(maxBytes, s, k);
    Apply(maxBytes, s, JobStep(k, s.proc.jobs[k]))
  }

  lemma FewerKeys(keys: set<Key>, jobs: map<Key, Phase>, k: Key)
    requires k in keys && jobs.Keys == keys - {k}
    ensures |jobs| < |keys|
  {
    assert |jobs| == |jobs.Keys|;
  }

  function StepsLeft(phase: Phase): nat {
    match phase case Start => 4 case Created => 3 case Filled => 2 case Renamed => 1
  }

  /** It can always be taken, and keeps what the writer relies on and what a reader sees. */
  lemma JobStepKeeps(maxBytes: int, base: string, s: State, k: Key, tidy: bool)
    requires InGoodOrder(base, s, tidy) && s.proc.Up? && k in s.proc.jobs
    ensures Enabled(maxBytes, s, JobStep(k, s.proc.jobs[k])) && (s.proc.jobs[k].Filled? ==> GzTmp(k) in s.dir)
    ensures var t := Apply(maxBytes, s, JobStep(k, s.proc.jobs[k]));
      InGoodOrder(base, t, tidy) && History(t.dir) == History(s.dir)
  {
    var step := JobStep(k, s.proc.jobs[k]);
    JobStepEnabled(maxBytes, base, s, k);
    StepInv(maxBytes, s, step);
    if tidy { ScheduledStep(maxBytes, s, step); }
    JobStepReads(maxBytes, s, step);
  }

  lemma JobStepReads(maxBytes: int, s: State, step: Step)
    requires Inv(s) && Enabled(maxBytes, s, step)
    requires step.JobCreate? || step.JobFill? || step.JobRename? || step.JobRemove? || step.JobFails?
    ensures History(Apply(maxBytes, s, step).dir) == History(s.dir)
  {
    JobTouches(maxBytes, s, step);
    TouchedReads(s.dir, Apply(maxBytes, s, step).dir, step.key);
  }

  /** Abandoning it keeps the same, but for the promise of an archive. */
  lemma JobFailureKeeps(maxBytes: int, base: string, s: State, k: Key, tidy: bool)
    requires InGoodOrder(base, s, tidy) && s.proc.Up? && k in s.proc.jobs
    ensures var t := Apply(maxBytes, s, JobFails(k));
      InGoodOrder(base, t, false) && History(t.dir) == History(s.dir)
  {
    StepInv(maxBytes, s, JobFails(k));
    JobStepReads(maxBytes, s, JobFails(k));
  }

  /** Closing strands nothing; once no compression runs, all is archived. */
  lemma CloseKeeps(maxBytes: int, base: string, s: State, tidy: bool)
    requires InGoodOrder(base, s, tidy) && s.proc.Up? && !s.proc.pc.Closed? && Enabled(maxBytes, s, RotatingLog.Close)
    ensures InGoodOrder(base, Apply(maxBytes, s, RotatingLog.Close), tidy)
  {
    StepInv(maxBytes, s, RotatingLog.Close);
    if tidy { ScheduledStep(maxBytes, s, RotatingLog.Close); }
  }

  lemma IdleIsArchived(base: string, s: State)
    requires InGoodOrder(base, s, true) && s.proc.Up? && s.proc.pc.Closed? && s.proc.jobs == map[]
    ensures forall k :: k in SegmentKeys(s.dir) ==> Gz(k) in s.dir
  {
    forall k | k in SegmentKeys(s.dir) ensures Gz(k) in s.dir { UsedIn(s.dir, k); }
  }

  lemma JobStepEnabled(maxBytes: int, base: string, s: State, k: Key)
    requires Inv(s) && WellNamed(base, s.dir) && s.proc.Up? && k in s.proc.jobs
    ensures Enabled(maxBytes, s, JobStep(k, s.proc.jobs[k]))
    ensures WellNamed(base, Apply(maxBytes, s, JobStep(k, s.proc.jobs[k])).dir)
  {
    assert JobOk(s.dir, k, s.proc.jobs[k]);
    assert ValidStamp(k.stamp) by { assert Plain(k) in s.dir; }
  }

  lemma TouchedReads(d: Dir, e: Dir, k: Key)
    requires (forall j :: SoundKey(d, j)) && OnlyTouches(d, e, k)
    ensures History(d) == History(e)
  {
    forall j ensures SoundKey(e, j) && (Used(d, j) <==> Used(e, j)) && Content(d, j) == Content(e, j) {
      assert SoundKey(d, j);
      UntouchedKey(d, e, k, j);
    }
    SameSegmentKeys(d, e);
  }

  lemma AfterWriteNames(base: string, maxBytes: int, s: State, line: string, stamp: string)
    requires WellNamed(base, s.dir) && s.proc.Up? && ValidStamp(stamp)
    ensures WellNamed(base, AfterWrite(maxBytes, s, line, stamp).dir)
  {
  }

  // ---------------------------------------------------------------- compression as one call

  /** The directory after an undisturbed `compressSegment`. */
  function Compressed(dir: Dir, k: Key): Dir {
    ((dir - {GzTmp(k)})[Gz(k) := Zip(LinesOf(dir, Plain(k)))]) - {Plain(k)}
  }

  /** Where `compressSegment` stops short. */
  datatype Trouble = NoTrouble | NoCreate | NoArchive | NoRemove

  /** The directory after `compressSegment`: a failure drops the temporary file, or leaves the archive beside its segment. */
  function Attempted(dir: Dir, k: Key, trouble: Trouble): Dir {
    match trouble
    case NoTrouble => Compressed(dir, k)
    case NoCreate => dir
    case NoArchive => dir - {GzTmp(k)}
    case NoRemove => (dir - {GzTmp(k)})[Gz(k) := Zip(LinesOf(dir, Plain(k)))]
  }

  /** Nothing a reader sees differs, and the files are still sound. */
  ghost predicate SameHistory(d: Dir, e: Dir) {
    && (forall k :: SoundKey(e, k) && (Used(d, k) <==> Used(e, k)) && Content(d, k) == Content(e, k))
    && (Live in d <==> Live in e) && (Live in d ==> d[Live] == e[Live])
  }

  lemma CompressedKeeps(d: Dir, k: Key)
    requires (forall j :: SoundKey(d, j)) && Plain(k) in d
    ensures SameHistory(d, Compressed(d, k))
  {
    var e := Compressed(d, k);
    assert Gz(k) in e && e[Gz(k)] == Zip(LinesOf(d, Plain(k))) && Plain(k) !in e && GzTmp(k) !in e;
    assert SoundKey(d, k);
    forall j ensures SoundKey(e, j) && (Used(d, j) <==> Used(e, j)) && Content(d, j) == Content(e, j) {
      assert SoundKey(d, j);
      if j != k { assert (Plain(j) in d <==> Plain(j) in e) && (Gz(j) in d <==> Gz(j) in e) && (GzTmp(j) in d <==> GzTmp(j) in e); }
    }
  }

  /** However far a compression gets, nothing a reader sees differs. */
  lemma AttemptedKeeps(d: Dir, k: Key, trouble: Trouble)
    requires (forall j :: SoundKey(d, j)) && Plain(k) in d
    ensures SameHistory(d, Attempted(d, k, trouble))
  {
    var e := Attempted(d, k, trouble);
    CompressedKeeps(d, k);
    assert SoundKey(d, k);
    forall j ensures SoundKey(e, j) && (Used(d, j) <==> Used(e, j)) && Content(d, j) == Content(e, j) {
      assert SoundKey(d, j);
      assert SoundKey(Compressed(d, k), j);
      if j != k { assert (Plain(j) in d <==> Plain(j) in e) && (Gz(j) in d <==> Gz(j) in e) && (GzTmp(j) in d <==> GzTmp(j) in e); }
    }
  }

  lemma CompressedOthers(d: Dir, keys: seq<Key>, i: nat)
    requires i < |keys| && Distinct(keys)
    ensures Gz(keys[i]) in Compressed(d, keys[i])
    ensures forall j :: 0 <= j < |keys| && j != i ==>
      (Gz(keys[j]) in Compressed(d, keys[i]) <==> Gz(keys[j]) in d)
      && Preferred(Compressed(d, keys[i]), keys[j]) == Preferred(d, keys[j])
  {
    forall j | 0 <= j < |keys| && j != i ensures keys[j] != keys[i] {}
  }

  lemma SameSegmentKeys(d: Dir, e: Dir)
    requires SameHistory(d, e)
    ensures SegmentKeys(d) == SegmentKeys(e) && UsedKeys(d) == UsedKeys(e) && History(d) == History(e)
  {
    forall k ensures (k in UsedKeys(d) <==> k in UsedKeys(e)) {
      UsedIn(d, k);
      UsedIn(e, k);
      assert Used(d, k) <==> Used(e, k);
    }
    assert UsedKeys(d) == UsedKeys(e);
    ArchiveFrame(d, e, SegmentKeys(d));
  }

  // ---------------------------------------------------------------- sort.Strings

  predicate SortedStrings(q: seq<string>) { forall i, j :: 0 <= i < j < |q| ==> LessEq(q[i], q[j]) }

  method SortStrings(q: seq<string>) returns (r: seq<string>)
    ensures SortedStrings(r) && multiset(r) == multiset(q)
  {
    r := [];
    for i := 0 to |q|
      invariant SortedStrings(r) && multiset(r) == multiset(q[..i])
    {
      var j := 0;
      while j < |r| && Less(r[j], q[i])
        invariant 0 <= j <= |r|
        invariant forall m :: 0 <= m < j ==> Less(r[m], q[i])
      {
        j := j + 1;
      }
      InsertKeepsSorted(r, j, q[i]);
      assert r == r[..j] + r[j..] && q[..i + 1] == q[..i] + [q[i]];
      r := r[..j] + [q[i]] + r[j..];
    }
    assert q[..|q|] == q;
  }

  lemma InsertKeepsSorted(r: seq<string>, j: nat, x: string)
    requires SortedStrings(r) && j <= |r|
    requires forall m :: 0 <= m < j ==> Less(r[m], x)
    requires j < |r| ==> !Less(r[j], x)
    ensures SortedStrings(r[..j] + [x] + r[j..])
  {
    forall m | j <= m < |r| ensures LessEq(x, r[m]) {
      LessTotal(x, r[j]);
      assert LessEq(x, r[j]);
      if m > j && Less(x, r[j]) && Less(r[j], r[m]) { LessTransitive(x, r[j], r[m]); }
    }
  }

  /** The keys of a map, in the order the runtime happens to walk it. */
  method ElementsOf(s: set<string>) returns (q: seq<string>)
    ensures multiset(q) == multiset(s)
  {
    q := [];
    var rest := s;
    while rest != {}
      invariant rest <= s && multiset(q) == multiset(s - rest)
      decreases rest
    {
      var x :| x in rest;
      assert s - (rest - {x}) == (s - rest) + {x};
      q := q + [x];
      rest := rest - {x};
    }
    assert s - {} == s;
  }

  // ---------------------------------------------------------------- the writer

  /** The writer's file: open for appending, already closed but still held, or none. */
  datatype Handle = Open | Stale | Nil

  class Writer {
    const base: string
    const maxBytes: int
    var dir: Dir
    var f: Handle
    var size: nat
    var jobs: map<Key, Phase> // compressions started by rotations, running in the background
    ghost var now: string
    ghost var written: seq<string>
    ghost var tidy: bool // no compression was given up

    /** The protocol state this writer is in. */
    ghost function View(): State
      reads this
    {
      State(dir, Up(match f case Open => Ready case Stale => Broken case Nil => Closed, size, jobs), now, written)
    }

    ghost predicate Valid()
      reads this
    {
      InGoodOrder(base, View(), tidy)
    }

    /**
     * `OpenWithOptions` on whatever an earlier process left behind, at any point of a crash; trouble tells which
     * compressions fail.
     */
    constructor OpenWithOptions(base: string, maxBytes: int, onDisk: Dir, trouble: Key -> Trouble, ghost now: string,
                                ghost written: seq<string>)
      requires Inv(State(onDisk, Down, now, written)) && WellNamed(base, onDisk)
      ensures Valid() && f.Open? && jobs == map[] && this.written == written && this.now == now
      ensures tidy <==> forall k :: k in PlainOnly(onDisk) ==> trouble(k).NoTrouble?
      ensures tidy ==> forall k :: k in SegmentKeys(dir) ==> Gz(k) in dir
    {
      this.base := base;
      this.maxBytes := maxBytes;
      this.now := now;
      this.written := written;
      dir := Reopened(onDisk);
      f := Handle.Open;
      size := Bytes(LinesOf(Reopened(onDisk), Live));
      jobs := map[];
      new;
      ReopenedSound(maxBytes, base, onDisk, now, written);
      var swept := SweepUncompressed(trouble);
      tidy := swept;
      SweptKept(maxBytes, base, onDisk, dir, now, written, size, swept);
    }

    method SegmentExists(k: Key) returns (occupied: bool)
      ensures occupied <==> Occupied(dir, k)
    {
      occupied := false;
      if Plain(k) in dir { return true; }
      if Gz(k) in dir { return true; }
      if GzTmp(k) in dir { return true; }
    }

    method NextSegmentName(stamp: string) returns (k: Key)
      ensures k == Key(stamp, FirstFree(dir, stamp, 0))
    {
      var seqNo := 0;
      var occupied := SegmentExists(Key(stamp, seqNo));
      while occupied
        invariant occupied <==> Occupied(dir, Key(stamp, seqNo))
        invariant FirstFree(dir, stamp, 0) == FirstFree(dir, stamp, seqNo)
        decreases |OccupiedFrom(dir, stamp, seqNo)|, occupied
      {
        OccupiedShrinks(dir, stamp, seqNo);
        seqNo := seqNo + 1;
        occupied := SegmentExists(Key(stamp, seqNo));
      }
      k := Key(stamp, seqNo);
    }

    /** Glob, and file each segment under its key, an archive in preference to the plain file. */
    method GroupByKey() returns (byKey: map<string, Name>)
      requires WellNamed(base, dir)
      ensures Groups(dir, dir.Keys, byKey)
    {
      byKey := map[];
      var left := dir.Keys;
      ghost var seen: set<Name> := {};
      while left != {}
        invariant left + seen == dir.Keys && left !! seen
        invariant Groups(dir, seen, byKey)
        decreases left
      {
        var n :| n in left;
        left := left - {n};
        // "base.*" matches every name but the live file
        var key := if n.Live? then None else SegmentKey(base, Render(base, n));
        if !n.Live? { ListedIffKey(base, dir, n); }
        if key.Some? && !(key.value in byKey && byKey[key.value].Gz?) {
          byKey := byKey[key.value := n];
        }
        seen := seen + {n};
      }
      assert seen == dir.Keys;
    }

    /** Group by key, sort the keys as strings, and list the chosen names: every recognised segment, oldest first. */
    method FindSegments() returns (out: seq<Name>)
      requires WellNamed(base, dir)
      ensures out == PreferredAll(dir, Sorted(SegmentKeys(dir)))
    {
      var byKey := GroupByKey();
      var keys := ElementsOf(byKey.Keys);
      var sorted := SortStrings(keys);
      OrderedNames(base, dir, byKey, sorted);
      out := ListInOrder(byKey, sorted, Sorted(SegmentKeys(dir)));
    }

    method ListInOrder(byKey: map<string, Name>, sorted: seq<string>, ghost keys: seq<Key>) returns (out: seq<Name>)
      requires |sorted| == |keys|
      requires forall i :: 0 <= i < |sorted| ==> sorted[i] in byKey && byKey[sorted[i]] == Preferred(dir, keys[i])
      ensures out == PreferredAll(dir, keys)
    {
      out := [];
      for i := 0 to |sorted|
        invariant |out| == i
        invariant forall j :: 0 <= j < i ==> out[j] == Preferred(dir, keys[j])
      {
        out := out + [byKey[sorted[i]]];
      }
    }

    method ReadSegment(n: Name) returns (lines: seq<string>)
      requires n in dir && (n.Plain? || n.Gz?) && n == Preferred(dir, n.key)
      ensures lines == Content(dir, n.key)
    {
      lines := [];
      if n.Gz? && dir[n].Zip? { lines := dir[n].lines; }
      if n.Plain? && dir[n].Lines? { lines := dir[n].lines; }
    }

    method ReadHistory() returns (r: Result<seq<string>, ReadError>)
      requires WellNamed(base, dir)
      ensures r == History(dir)
    {
      var segments := FindSegments();
      ghost var keys := Sorted(SegmentKeys(dir));
      SortedMembers(SegmentKeys(dir));
      var all: seq<string> := [];
      for i := 0 to |segments|
        invariant all == Flat(dir, keys[..i])
      {
        assert keys[i] in keys;
        UsedIn(dir, keys[i]);
        var lines := ReadSegment(segments[i]);
        assert keys[..i + 1][..i] == keys[..i];
        all := all + lines;
      }
      assert keys[..|keys|] == keys;
      ArchiveIsFlat(dir, SegmentKeys(dir));
      assert segments == [] <==> SegmentKeys(dir) == {} by { if SegmentKeys(dir) == {} { assert keys == []; } }
      if Live !in dir {
        return if segments != [] then Ok(all) else Err(NotExist);
      }
      return if dir[Live].Lines? then Ok(all + dir[Live].lines) else Err(Unreadable);
    }

    /** Close, rename the live file to a fresh segment name, reopen, and start compressing. */
    method RotateLocked(stamp: string, ghost line: string, fault: Fault) returns (ok: bool)
      requires !f.Nil? && (f.Open? ==> Live in dir && dir[Live].Lines? && NeedsRotation(maxBytes, size, line))
      modifies this
      ensures ok == (old(f).Open? && !fault.NoRename? && !fault.NoReopen?)
      ensures ok ==> f == old(f) && var r := Rotated(old(View()), line, stamp);
        dir == r.dir && size == 0 && jobs == r.proc.jobs && now == stamp && written == old(written)
      ensures !ok ==> View() == if old(f).Open? then AfterRefused(maxBytes, old(View()), line, stamp, fault) else old(View())
      ensures tidy == (old(tidy) && !(old(f).Open? && fault.NoReopen?))
    {
      var seg := NextSegmentName(stamp);
      if f.Stale? { return false; }
      if fault.NoRename? {
        if !fault.reopened { f := Stale; }
        return false;
      }
      var live := dir[Live];
      ghost var r := Rotated(View(), line, stamp);
      dir := (dir - {Live})[Plain(seg) := live];
      now := stamp;
      if fault.NoReopen? {
        f, tidy := Stale, false;
        assert dir == r.dir - {Live};
        return false;
      }
      dir := dir[Live := Lines([])];
      size := 0;
      jobs := jobs[seg := Start];
      return true;
    }

    /** One append, behind a rotation when the live file is full; without an open file, or when a step fails, it is refused. */
    method Write(line: string, stamp: string, fault: Fault) returns (ok: bool)
      requires Valid() && ValidStamp(stamp) && LessEq(now, stamp)
      modifies this
      ensures Valid() && ok == (old(f).Open? && !Refuses(maxBytes, old(size), line, fault))
      ensures View() == if ok then AfterWrite(maxBytes, old(View()), line, stamp)
                        else if old(f).Open? then AfterRefused(maxBytes, old(View()), line, stamp, fault) else old(View())
      ensures written == if ok then old(written) + [line] else old(written)
      ensures var live := LinesOf(old(dir), Live);
        ok ==> LinesOf(dir, Live) == if Overflows(maxBytes, live, line) then [line] else live + [line]
      ensures fault.NoReopen? || tidy == old(tidy)
    {
      if f.Nil? { return false; }
      if f.Open? { WriteKeeps(line, stamp, fault); }
      ok := AppendRotating(line, stamp, fault);
    }

    /** Either way a Write goes, what the writer relies on holds again. */
    lemma WriteKeeps(line: string, stamp: string, fault: Fault)
      requires Valid() && f.Open? && ValidStamp(stamp) && LessEq(now, stamp)
      ensures Live in dir && dir[Live].Lines?
      ensures InGoodOrder(base, AfterWrite(maxBytes, View(), line, stamp), tidy)
      ensures var live := LinesOf(dir, Live);
        LinesOf(AfterWrite(maxBytes, View(), line, stamp).dir, Live) == if Overflows(maxBytes, live, line) then [line] else live + [line]
      ensures InGoodOrder(base, AfterRefused(maxBytes, View(), line, stamp, fault), tidy && !fault.NoReopen?)
    {
      AfterWriteKept(maxBytes, base, View(), line, stamp, tidy);
      AfterWriteIs(maxBytes, View(), line, stamp);
      AfterRefusedKept(maxBytes, base, View(), line, stamp, fault, tidy);
    }

    method AppendRotating(line: string, stamp: string, fault: Fault) returns (ok: bool)
      requires !f.Nil? && (f.Open? ==> Live in dir && dir[Live].Lines?)
      modifies this
      ensures ok == (old(f).Open? && !Refuses(maxBytes, old(size), line, fault))
      ensures View() == if ok then AfterWrite(maxBytes, old(View()), line, stamp)
                        else if old(f).Open? then AfterRefused(maxBytes, old(View()), line, stamp, fault) else old(View())
      ensures tidy == (old(tidy) && !(old(f).Open? && NeedsRotation(maxBytes, old(size), line) && fault.NoReopen?))
    {
      if NeedsRotation(maxBytes, size, line) {
        ok := RotateLocked(stamp, line, fault);
        if !ok { return; }
      }
      if f.Stale? || fault.NoAppend? { return false; }
      Append(line);
      return true;
    }

    method Append(line: string)
      modifies this
      ensures dir == old(dir)[Live := Lines(LinesOf(old(dir), Live) + [line])]
      ensures size == old(size) + |line| + 1 && written == old(written) + [line]
      ensures jobs == old(jobs) && now == old(now) && f == old(f) && tidy == old(tidy)
    {
      dir := dir[Live := Lines(LinesOf(dir, Live) + [line])];
      size := size + |line| + 1;
      written := written + [line];
    }

    /** One file-system step of a background compression. */
    method Advance(k: Key)
      requires Valid() && k in jobs
      modifies this`dir, this`jobs
      ensures Valid() && View() == Apply(maxBytes, old(View()), JobStep(k, old(jobs[k])))
      ensures History(dir) == old(History(dir)) && jobs == JobMap(old(jobs), k)
    {
      ghost var t := NextOf(maxBytes, base, View(), k, tidy);
      StepFiles(k);
      assert View() == t;
    }

    /** A compression that fails drops its temporary file; the segment stays, and reads as before. */
    method Abandon(k: Key)
      requires Valid() && k in jobs
      modifies this`dir, this`jobs, this`tidy
      ensures Valid() && !tidy && View() == Apply(maxBytes, old(View()), JobFails(k))
      ensures History(dir) == old(History(dir)) && jobs == old(jobs) - {k}
    {
      JobFailureKeeps(maxBytes, base, View(), k, tidy);
      Drop(k);
    }

    method Drop(k: Key)
      requires k in jobs
      modifies this`dir, this`jobs, this`tidy
      ensures !tidy && View() == Apply(maxBytes, old(View()), JobFails(k)) && jobs == old(jobs) - {k}
    {
      tidy := false;
      if jobs[k].Created? || jobs[k].Filled? { dir := dir - {GzTmp(k)}; }
      jobs := jobs - {k};
    }

    method StepFiles(k: Key)
      requires k in jobs && (jobs[k].Filled? ==> GzTmp(k) in dir)
      modifies this`dir, this`jobs
      ensures dir == JobDir(old(dir), k, old(jobs[k])) && jobs == JobMap(old(jobs), k)
    {
      match jobs[k] {
        case Start => dir, jobs := dir[GzTmp(k) := Partial], jobs[k := Created];
        case Created => dir, jobs := dir[GzTmp(k) := Zip(LinesOf(dir, Plain(k)))], jobs[k := Filled];
        case Filled => dir, jobs := (dir - {GzTmp(k)})[Gz(k) := dir[GzTmp(k)]], jobs[k := Renamed];
        case Renamed => dir, jobs := dir - {Plain(k)}, jobs - {k};
      }
    }

    /**
     * Refuse further writes, then wait for the compressions, of which those of failing fail: what is left reads as
     * before, and is archived if none ever did.
     */
    method Close(failing: set<Key>)
      requires Valid()
      modifies this
      ensures Valid() && f.Nil? && written == old(written) && History(dir) == old(History(dir))
      ensures old(f).Nil? ==> View() == old(View()) && tidy == old(tidy)
      ensures !old(f).Nil? ==> jobs == map[] && (old(tidy) && failing !! old(jobs).Keys ==> tidy)
      ensures !old(f).Nil? && tidy ==> forall k :: k in SegmentKeys(dir) ==> Gz(k) in dir
    {
      if f.Nil? { return; }
      CloseKeeps(maxBytes, base, View(), tidy);
      f := Nil;
      AwaitAll(failing);
      if tidy { IdleIsArchived(base, View()); }
    }

    method AwaitAll(failing: set<Key>)
      requires Valid()
      modifies this`dir, this`jobs, this`tidy
      ensures Valid() && History(dir) == old(History(dir)) && jobs == map[]
      ensures old(tidy) && failing !! old(jobs).Keys ==> tidy
    {
      ghost var h, keys, clean := History(dir), jobs.Keys, tidy && failing !! jobs.Keys;
      while jobs != map[]
        invariant Valid() && History(dir) == h && jobs.Keys <= keys && (clean ==> tidy)
        decreases |jobs|
      {
        var k :| k in jobs;
        Await(k, k in failing);
      }
    }

    method Await(k: Key, fails: bool)
      requires Valid() && k in jobs
      modifies this`dir, this`jobs, this`tidy
      ensures Valid() && History(dir) == old(History(dir)) && tidy == (old(tidy) && !fails)
      ensures jobs.Keys == old(jobs).Keys - {k} && |jobs| < |old(jobs).Keys|
    {
      ghost var keys := jobs.Keys;
      if fails { Abandon(k); } else { Finish(k); }
      FewerKeys(keys, jobs, k);
    }

    method Finish(k: Key)
      requires Valid() && k in jobs
      modifies this`dir, this`jobs
      ensures Valid() && History(dir) == old(History(dir)) && jobs.Keys == old(jobs).Keys - {k}
    {
      ghost var keys, h := jobs.Keys, History(dir);
      while k in jobs
        invariant Valid() && History(dir) == h
        invariant jobs.Keys == if k in jobs then keys else keys - {k}
        decreases if k in jobs then StepsLeft(jobs[k]) else 0
      {
        JobMapShrinks(jobs, k);
        Advance(k);
      }
    }

    /** Write the archive beside the segment, move it into place, then drop the segment. */
    method CompressSegment(k: Key, trouble: Trouble) returns (ok: bool)
      requires Plain(k) in dir && (forall j :: SoundKey(dir, j)) && WellNamed(base, dir)
      modifies this`dir
      ensures dir == Attempted(old(dir), k, trouble) && WellNamed(base, dir) && ok == trouble.NoTrouble?
    {
      var content := LinesOf(dir, Plain(k));
      assert ValidStamp(k.stamp) by { assert Plain(k) in dir; }
      if trouble.NoCreate? { return false; }
      dir := dir[GzTmp(k) := Partial];
      if trouble.NoArchive? {
        dir := dir - {GzTmp(k)};
        return false;
      }
      dir := dir[GzTmp(k) := Zip(content)];
      dir := (dir - {GzTmp(k)})[Gz(k) := dir[GzTmp(k)]];
      if trouble.NoRemove? { return false; }
      dir := dir - {Plain(k)};
      return true;
    }

    /**
     * On reopening, compress what a crash left plain, up to the first failure: nothing read differs, and without a
     * failure only archives are listed.
     */
    method SweepUncompressed(trouble: Key -> Trouble) returns (ok: bool)
      requires (forall k :: SoundKey(dir, k)) && WellNamed(base, dir)
      modifies this`dir
      ensures SameHistory(old(dir), dir) && WellNamed(base, dir) && History(dir) == old(History(dir))
      ensures ok <==> forall k :: k in PlainOnly(old(dir)) ==> trouble(k).NoTrouble?
      ensures ok ==> forall k :: k in SegmentKeys(dir) ==> Gz(k) in dir
    {
      ghost var before := dir;
      var segs := FindSegments();
      ghost var keys := Sorted(SegmentKeys(dir));
      SortedDistinct(SegmentKeys(dir));
      SortedMembers(SegmentKeys(dir));
      ok := SweepListed(segs, trouble, before, keys);
      SameSegmentKeys(before, dir);
      SweptIff(before, segs, keys, trouble);
      forall k | ok && k in SegmentKeys(dir) ensures Gz(k) in dir { assert k in keys; }
    }

    method SweepListed(segs: seq<Name>, trouble: Key -> Trouble, ghost before: Dir, ghost keys: seq<Key>) returns (ok: bool)
      requires WellNamed(base, dir) && SweptTo(before, dir, segs, keys, 0)
      modifies this`dir
      ensures WellNamed(base, dir) && SameHistory(before, dir)
      ensures ok ==> SweptTo(before, dir, segs, keys, |segs|)
      ensures ok <==> forall i :: 0 <= i < |segs| && segs[i].Plain? ==> trouble(keys[i]).NoTrouble?
    {
      for i := 0 to |segs|
        invariant WellNamed(base, dir) && SweptTo(before, dir, segs, keys, i)
        invariant forall j :: 0 <= j < i && segs[j].Plain? ==> trouble(keys[j]).NoTrouble?
      {
        if segs[i].Gz? {
          SweepSkip(before, dir, segs, keys, i);
          continue;
        }
        SweepStep(before, dir, segs, keys, i, trouble(keys[i]));
        var done := CompressSegment(segs[i].key, trouble(segs[i].key));
        if !done { return false; }
      }
      return true;
    }

    /** Delete the oldest listed names until max remain; zero or less means keep everything. */
    method PruneSegments(max: int)
      requires WellNamed(base, dir)
      modifies this`dir
      ensures dir == Pruned(old(dir), max)
    {
      if max <= 0 { return; }
      var segs := FindSegments();
      if |segs| <= max { return; }
      var n := |segs| - max;
      DoomedNames(dir, SegmentKeys(dir), max);
      DropAll(segs[..n]);
    }

    method DropAll(names: seq<Name>)
      modifies this`dir
      ensures dir == old(dir) - Names(names)
    {
      ghost var before := dir;
      for i := 0 to |names|
        invariant dir == before - Names(names[..i])
      {
        assert names[..i + 1] == names[..i] + [names[i]];
        assert Names(names[..i + 1]) == Names(names[..i]) + {names[i]};
        dir := dir - {names[i]};
      }
      assert names[..|names|] == names;
    }
  }

  // ---------------------------------------------------------------- sweeping

  /** The directory once the live file has been opened for appending. */
  function Reopened(onDisk: Dir): Dir { if Live in onDisk then onDisk else onDisk[Live := Lines([])] }

  lemma ReopenedSound(maxBytes: int, base: string, onDisk: Dir, now: string, written: seq<string>)
    requires Inv(State(onDisk, Down, now, written)) && WellNamed(base, onDisk)
    ensures var d := Reopened(onDisk);
      (forall k :: SoundKey(d, k)) && WellNamed(base, d) && Live in d && d[Live].Lines? && Numbered(d, now)
    ensures Recorded(State(Reopened(onDisk), Down, now, written))
  {
    OpenInv(maxBytes, State(onDisk, Down, now, written));
  }

  /** Opening and sweeping, after any crash, restores the invariant of a writer ready to append. */
  lemma SweptInv(maxBytes: int, onDisk: Dir, dir: Dir, now: string, written: seq<string>)
    requires Inv(State(onDisk, Down, now, written)) && SameHistory(Reopened(onDisk), dir)
    ensures Live in dir && dir[Live].Lines?
    ensures Inv(State(dir, Up(Ready, Bytes(LinesOf(dir, Live)), map[]), now, written))
  {
    var d := Reopened(onDisk);
    OpenInv(maxBytes, State(onDisk, Down, now, written));
    forall k, i | Used(dir, k) && 0 <= i < k.seqNo ensures Used(dir, Key(k.stamp, i)) {
      assert Used(d, k) && Used(d, Key(k.stamp, i));
    }
    forall k | Used(dir, k) ensures ValidStamp(k.stamp) && LessEq(k.stamp, now) { assert Used(d, k); }
    var t := State(dir, Up(Ready, Bytes(LinesOf(dir, Live)), map[]), now, written);
    QuietStep(State(d, Down, now, written), t);
  }

  lemma SweptKept(maxBytes: int, base: string, onDisk: Dir, dir: Dir, now: string, written: seq<string>, size: nat, tidy: bool)
    requires Inv(State(onDisk, Down, now, written)) && SameHistory(Reopened(onDisk), dir) && WellNamed(base, onDisk) && WellNamed(base, dir)
    requires size == Bytes(LinesOf(Reopened(onDisk), Live))
    requires tidy ==> forall k :: k in SegmentKeys(dir) ==> Gz(k) in dir
    ensures InGoodOrder(base, State(dir, Up(Ready, size, map[]), now, written), tidy)
    ensures PlainOnly(Reopened(onDisk)) == PlainOnly(onDisk)
  {
    SweptInv(maxBytes, onDisk, dir, now, written);
    ReopenedSound(maxBytes, base, onDisk, now, written);
    SweptSize(Reopened(onDisk), dir);
    if tidy { AllArchived(dir, State(dir, Up(Ready, size, map[]), now, written)); }
    forall k ensures k in SegmentKeys(Reopened(onDisk)) <==> k in SegmentKeys(onDisk) {
      UsedIn(onDisk, k);
      UsedIn(Reopened(onDisk), k);
    }
  }

  lemma SweptSize(before: Dir, dir: Dir)
    requires SameHistory(before, dir) && Live in before && before[Live].Lines?
    ensures Bytes(LinesOf(dir, Live)) == Bytes(before[Live].lines)
  {
  }

  /** The first i listed segments are archives, the others still as listed. */
  ghost predicate SweptTo(before: Dir, dir: Dir, segs: seq<Name>, keys: seq<Key>, i: nat) {
    && SameHistory(before, dir)
    && (forall k :: k in keys <==> k in SegmentKeys(before)) && Distinct(keys) && |segs| == |keys|
    && (forall j :: 0 <= j < i && j < |keys| ==> Gz(keys[j]) in dir)
    && (forall j :: i <= j < |segs| ==> segs[j] == Preferred(dir, keys[j]))
  }

  lemma SweepSkip(before: Dir, dir: Dir, segs: seq<Name>, keys: seq<Key>, i: nat)
    requires SweptTo(before, dir, segs, keys, i) && i < |segs| && segs[i].Gz?
    ensures SweptTo(before, dir, segs, keys, i + 1)
  {
  }

  lemma SweepStep(before: Dir, dir: Dir, segs: seq<Name>, keys: seq<Key>, i: nat, trouble: Trouble)
    requires SweptTo(before, dir, segs, keys, i) && i < |segs| && !segs[i].Gz?
    ensures segs[i] == Plain(keys[i]) && Plain(keys[i]) in dir && forall j :: SoundKey(dir, j)
    ensures SameHistory(before, Attempted(dir, keys[i], trouble))
    ensures trouble.NoTrouble? ==> SweptTo(before, Attempted(dir, keys[i], trouble), segs, keys, i + 1)
  {
    assert keys[i] in keys;
    UsedIn(before, keys[i]);
    assert Used(before, keys[i]) <==> Used(dir, keys[i]);
    AttemptedKeeps(dir, keys[i], trouble);
    Compose(before, dir, Attempted(dir, keys[i], trouble));
    CompressedOthers(dir, keys, i);
  }

  /** The listed names that are plain are those of the segments without an archive. */
  lemma SweptIff(before: Dir, segs: seq<Name>, keys: seq<Key>, trouble: Key -> Trouble)
    requires SweptTo(before, before, segs, keys, 0)
    ensures (forall i :: 0 <= i < |segs| && segs[i].Plain? ==> trouble(keys[i]).NoTrouble?)
      <==> forall k :: k in PlainOnly(before) ==> trouble(k).NoTrouble?
  {
    forall i | 0 <= i < |segs| ensures keys[i] in PlainOnly(before) <==> segs[i].Plain? {
      assert keys[i] in keys;
      UsedIn(before, keys[i]);
    }
    forall k | k in PlainOnly(before) ensures exists i :: 0 <= i < |segs| && keys[i] == k {
      assert k in keys;
    }
  }

  lemma Compose(d: Dir, m: Dir, e: Dir)
    requires SameHistory(d, m) && SameHistory(m, e)
    ensures SameHistory(d, e)
  {
    forall k ensures SoundKey(e, k) && (Used(d, k) <==> Used(e, k)) && Content(d, k) == Content(e, k) {
      assert SoundKey(m, k) && (Used(d, k) <==> Used(m, k)) && Content(d, k) == Content(m, k);
      assert SoundKey(e, k) && (Used(m, k) <==> Used(e, k)) && Content(m, k) == Content(e, k);
    }
  }
}
