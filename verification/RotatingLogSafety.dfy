/**
 * What holds in every reachable state of the rotating log: each record whose append completed is read back
 * exactly once and in order, for as long as no second sees more than 10^6 rotations.
 */
module RotatingLogSafety {
  import opened Permutations
  import opened Text
  import opened SegmentNames
  import opened Options
  import opened RotatingLog

  predicate SoundKey(dir: Dir, k: Key) {
    && (GzTmp(k) in dir ==> Plain(k) in dir)
    && (Plain(k) in dir ==> dir[Plain(k)].Lines? && dir[Plain(k)].lines != [])
    && (Gz(k) in dir ==> dir[Gz(k)].Zip? && dir[Gz(k)].lines != [])
    && (Plain(k) in dir && Gz(k) in dir ==> dir[Gz(k)].lines == dir[Plain(k)].lines)
  }

  /** No second skips a sequence number, and no segment is stamped after the last clock reading used. */
  ghost predicate Numbered(dir: Dir, now: string) {
    && (forall k, i :: Used(dir, k) && 0 <= i < k.seqNo ==> Used(dir, Key(k.stamp, i)))
    && (forall k :: Used(dir, k) ==> ValidStamp(k.stamp) && LessEq(k.stamp, now))
  }

  predicate JobOk(dir: Dir, k: Key, phase: Phase) {
    && Plain(k) in dir
    && (phase.Created? ==> GzTmp(k) in dir)
    && (phase.Filled? ==> GzTmp(k) in dir && dir[GzTmp(k)] == Zip(LinesOf(dir, Plain(k))))
    && (phase.Renamed? ==> Gz(k) in dir && GzTmp(k) !in dir)
  }

  predicate LiveOk(dir: Dir, size: nat) {
    Live in dir && dir[Live].Lines? && size == Bytes(dir[Live].lines)
  }

  predicate PcOk(dir: Dir, pc: Pc, size: nat, jobs: map<Key, Phase>) {
    match pc
    case Sweep(todo) =>
      && LiveOk(dir, size) && Distinct(todo)
      && (forall k :: k in todo ==> Plain(k) in dir && k !in jobs)
    case Ready => LiveOk(dir, size)
    case Reopen(line, k) => Live !in dir && Plain(k) in dir && k !in jobs
    case Append(line) => LiveOk(dir, size) && size == 0
    case Broken => LiveOk(dir, size) || (Live !in dir && UsedKeys(dir) != {})
    case Closed => LiveOk(dir, size) || (Live !in dir && UsedKeys(dir) != {})
  }

  predicate ProcOk(dir: Dir, proc: Proc) {
    match proc
    case Down => (Live in dir ==> dir[Live].Lines?)
    case Up(pc, size, jobs) => PcOk(dir, pc, size, jobs) && forall k :: k in jobs ==> JobOk(dir, k, jobs[k])
  }

  /** Every completed append is on disk, once and in order, in segments or in the live file. */
  ghost predicate Recorded(s: State) {
    s.written == Archive(s.dir, UsedKeys(s.dir)) + LinesOf(s.dir, Live)
  }

  ghost predicate Inv(s: State) {
    && (forall k :: SoundKey(s.dir, k))
    && Numbered(s.dir, s.now)
    && ProcOk(s.dir, s.proc)
    && Recorded(s)
  }

  lemma UsedIn(dir: Dir, k: Key)
    ensures k in UsedKeys(dir) <==> Used(dir, k)
  {
    if Plain(k) in dir { assert Plain(k).Plain? && Plain(k).key == k; }
    if Gz(k) in dir { assert Gz(k).Gz? && Gz(k).key == k; }
  }

  lemma InitInv(s: State)
    requires Init(s)
    ensures Inv(s)
  {
    forall k ensures SoundKey(s.dir, k) && !Used(s.dir, k) && k !in UsedKeys(s.dir) {
      assert Plain(k) !in s.dir && Gz(k) !in s.dir && GzTmp(k) !in s.dir;
      UsedIn(s.dir, k);
    }
    assert UsedKeys(s.dir) == {};
    assert Live !in s.dir;
  }

  /** A step that keeps the set of segments, their contents and the live file keeps the record. */
  lemma QuietStep(s: State, t: State)
    requires Recorded(s) && s.written == t.written
    requires LinesOf(s.dir, Live) == LinesOf(t.dir, Live)
    requires forall k :: Used(s.dir, k) <==> Used(t.dir, k)
    requires forall k :: Used(s.dir, k) ==> Content(s.dir, k) == Content(t.dir, k)
    ensures Recorded(t)
  {
    forall k ensures k in UsedKeys(s.dir) <==> k in UsedKeys(t.dir) {
      UsedIn(s.dir, k);
      UsedIn(t.dir, k);
    }
    assert UsedKeys(s.dir) == UsedKeys(t.dir);
    forall k | k in UsedKeys(s.dir) ensures Content(s.dir, k) == Content(t.dir, k) { UsedIn(s.dir, k); }
    ArchiveFrame(s.dir, t.dir, UsedKeys(s.dir));
  }

  /** Only the live file differs. */
  ghost predicate SameSegments(d: Dir, e: Dir) {
    forall n :: n != Live ==> (n in d <==> n in e) && (n in d ==> d[n] == e[n])
  }

  lemma SegmentFrame(d: Dir, e: Dir, k: Key)
    requires SameSegments(d, e)
    ensures SoundKey(d, k) <==> SoundKey(e, k)
    ensures Used(d, k) <==> Used(e, k)
    ensures Content(d, k) == Content(e, k)
    ensures k in UsedKeys(d) <==> k in UsedKeys(e)
    ensures LinesOf(d, Plain(k)) == LinesOf(e, Plain(k))
    ensures forall phase :: JobOk(d, k, phase) <==> JobOk(e, k, phase)
  {
    UsedIn(d, k);
    UsedIn(e, k);
  }

  lemma LiveFrame(d: Dir, e: Dir, now: string)
    requires SameSegments(d, e) && (forall k :: SoundKey(d, k)) && Numbered(d, now)
    ensures (forall k :: SoundKey(e, k)) && Numbered(e, now)
    ensures UsedKeys(d) == UsedKeys(e) && Archive(d, UsedKeys(d)) == Archive(e, UsedKeys(e))
  {
    forall k ensures SoundKey(e, k) && (Used(d, k) <==> Used(e, k)) && Content(d, k) == Content(e, k)
      && (k in UsedKeys(d) <==> k in UsedKeys(e)) {
      assert SoundKey(d, k);
      SegmentFrame(d, e, k);
    }
    assert UsedKeys(d) == UsedKeys(e);
    ArchiveFrame(d, e, UsedKeys(d));
  }

  lemma OpenInv(maxBytes: int, s: State)
    requires Inv(s) && Enabled(maxBytes, s, Open)
    ensures Inv(Apply(maxBytes, s, Open))
  {
    var t := Apply(maxBytes, s, Open);
    LiveFrame(s.dir, t.dir, s.now);
    SortedDistinct(PlainOnly(t.dir));
    SortedMembers(PlainOnly(t.dir));
    forall k | k in t.proc.pc.todo ensures Plain(k) in t.dir { UsedIn(t.dir, k); }
  }

  lemma SweepNextInv(maxBytes: int, s: State)
    requires Inv(s) && Enabled(maxBytes, s, SweepNext)
    ensures Inv(Apply(maxBytes, s, SweepNext))
  {
    var todo := s.proc.pc.todo;
    forall k | k in todo[1..] ensures k in todo && k != todo[0] {}
  }

  lemma AppendInv(s: State, line: string)
    requires Inv(s) && s.proc.Up? && (s.proc.pc.Ready? || s.proc.pc.Append?)
    ensures Inv(AppendLine(s, line))
  {
    var t := AppendLine(s, line);
    LiveFrame(s.dir, t.dir, s.now);
    assert Archive(s.dir, UsedKeys(s.dir)) + (s.dir[Live].lines + [line])
        == Archive(s.dir, UsedKeys(s.dir)) + s.dir[Live].lines + [line];
    AppendProc(s, line);
  }

  lemma AppendProc(s: State, line: string)
    requires ProcOk(s.dir, s.proc) && s.proc.Up? && (s.proc.pc.Ready? || s.proc.pc.Append?)
    ensures ProcOk(AppendLine(s, line).dir, AppendLine(s, line).proc)
  {
    var lines := s.dir[Live].lines;
    AppendedOk(s.dir, lines, lines + [line], s.proc.jobs);
    BytesAppend(lines, line);
  }

  lemma AppendedOk(d: Dir, lines: seq<string>, more: seq<string>, jobs: map<Key, Phase>)
    requires Live in d && d[Live] == Lines(lines) && forall j :: j in jobs ==> JobOk(d, j, jobs[j])
    ensures ProcOk(d[Live := Lines(more)], Up(Ready, Bytes(more), jobs))
  {
    LiveJobs(d, d[Live := Lines(more)], jobs);
  }

  lemma LiveJobs(d: Dir, e: Dir, jobs: map<Key, Phase>)
    requires SameSegments(d, e) && forall j :: j in jobs ==> JobOk(d, j, jobs[j])
    ensures forall j :: j in jobs ==> JobOk(e, j, jobs[j])
  {
    forall k | k in jobs ensures JobOk(e, k, jobs[k]) {
      assert JobOk(d, k, jobs[k]);
      SegmentFrame(d, e, k);
    }
  }

  /** The name a rotation picks is newer than every segment there is. */
  lemma FreshIsNewest(dir: Dir, now: string, stamp: string)
    requires forall k :: SoundKey(dir, k)
    requires Numbered(dir, now) && LessEq(now, stamp)
    ensures var k := Key(stamp, FirstFree(dir, stamp, 0)); !Used(dir, k) && forall j :: Used(dir, j) ==> KeyLess(j, k)
    ensures forall i :: 0 <= i < FirstFree(dir, stamp, 0) ==> Used(dir, Key(stamp, i))
  {
    var r := FirstFree(dir, stamp, 0);
    forall i | 0 <= i < r ensures Used(dir, Key(stamp, i)) {
      assert Occupied(dir, Key(stamp, i)) && SoundKey(dir, Key(stamp, i));
    }
    forall j | Used(dir, j) ensures KeyLess(j, Key(stamp, r)) {
      assert LessEq(j.stamp, stamp) by {
        if Less(j.stamp, now) && Less(now, stamp) { LessTransitive(j.stamp, now, stamp); }
      }
      assert j == Key(j.stamp, j.seqNo);
      assert j.stamp == stamp && j.seqNo > r ==> Used(dir, Key(j.stamp, r));
    }
  }

  /** The live file became segment k. */
  ghost predicate Archived(d: Dir, e: Dir, k: Key) {
    Live in d && d[Live].Lines? && e == (d - {Live})[Plain(k) := d[Live]]
  }

  lemma ArchivedKey(d: Dir, e: Dir, k: Key, j: Key)
    requires Archived(d, e, k) && !Used(d, k) && SoundKey(d, k) && SoundKey(d, j)
    ensures d[Live].lines != [] ==> SoundKey(e, j)
    ensures Used(e, j) <==> Used(d, j) || j == k
    ensures Content(e, j) == if j == k then d[Live].lines else Content(d, j)
    ensures j in UsedKeys(e) <==> j in UsedKeys(d) + {k}
    ensures j in UsedKeys(d) <==> Used(d, j)
  {
    UsedIn(d, j);
    UsedIn(e, j);
  }

  lemma RotateRecorded(d: Dir, e: Dir, k: Key)
    requires Archived(d, e, k) && !Used(d, k) && forall j :: SoundKey(d, j)
    requires forall j :: Used(d, j) ==> KeyLess(j, k)
    ensures Archive(e, UsedKeys(e)) == Archive(d, UsedKeys(d)) + d[Live].lines
  {
    forall j ensures (j in UsedKeys(e) <==> j in UsedKeys(d) + {k}) && (j in UsedKeys(d) <==> Used(d, j)) {
      assert SoundKey(d, j) && SoundKey(d, k);
      ArchivedKey(d, e, k, j);
    }
    assert UsedKeys(e) == UsedKeys(d) + {k};
    forall j | j in UsedKeys(d) ensures Content(d, j) == Content(e, j) {
      assert SoundKey(d, j) && SoundKey(d, k);
      ArchivedKey(d, e, k, j);
    }
    ArchiveFrame(d, e, UsedKeys(d));
    ArchiveAppend(e, UsedKeys(d), k);
    assert SoundKey(d, k);
    ArchivedKey(d, e, k, k);
  }

  lemma RotateNumbered(d: Dir, e: Dir, k: Key, now: string)
    requires Archived(d, e, k) && !Used(d, k) && forall j :: SoundKey(d, j)
    requires Numbered(d, now) && LessEq(now, k.stamp) && ValidStamp(k.stamp)
    requires forall i :: 0 <= i < k.seqNo ==> Used(d, Key(k.stamp, i))
    ensures Numbered(e, k.stamp)
  {
    forall j, i | Used(e, j) && 0 <= i < j.seqNo ensures Used(e, Key(j.stamp, i)) {
      assert SoundKey(d, j) && SoundKey(d, k) && SoundKey(d, Key(j.stamp, i));
      ArchivedKey(d, e, k, j);
      ArchivedKey(d, e, k, Key(j.stamp, i));
    }
    forall j | Used(e, j) ensures ValidStamp(j.stamp) && LessEq(j.stamp, k.stamp) {
      assert SoundKey(d, j) && SoundKey(d, k);
      ArchivedKey(d, e, k, j);
      if j != k && Less(j.stamp, now) && Less(now, k.stamp) { LessTransitive(j.stamp, now, k.stamp); }
    }
  }

  lemma RotateInv(maxBytes: int, s: State, line: string, stamp: string)
    requires Inv(s) && Enabled(maxBytes, s, Rotate(line, stamp))
    ensures Inv(Apply(maxBytes, s, Rotate(line, stamp)))
  {
    var t := Apply(maxBytes, s, Rotate(line, stamp));
    var k := t.proc.pc.segment;
    FreshIsNewest(s.dir, s.now, stamp);
    assert Archived(s.dir, t.dir, k);
    RotateRecorded(s.dir, t.dir, k);
    RotateNumbered(s.dir, t.dir, k, s.now);
    RotateSound(s.dir, t.dir, k);
    RotateJobs(s.dir, t.dir, k, s.proc.jobs);
  }

  lemma RotateSound(d: Dir, e: Dir, k: Key)
    requires Archived(d, e, k) && !Used(d, k) && d[Live].lines != [] && forall j :: SoundKey(d, j)
    ensures forall j :: SoundKey(e, j)
  {
    forall j ensures SoundKey(e, j) {
      assert SoundKey(d, j) && SoundKey(d, k);
      ArchivedKey(d, e, k, j);
    }
  }

  lemma RotateJobs(d: Dir, e: Dir, k: Key, jobs: map<Key, Phase>)
    requires Archived(d, e, k) && !Used(d, k)
    requires forall j :: j in jobs ==> JobOk(d, j, jobs[j])
    ensures k !in jobs && forall j :: j in jobs ==> JobOk(e, j, jobs[j])
  {
    forall j | j in jobs ensures JobOk(e, j, jobs[j]) && j != k { assert JobOk(d, j, jobs[j]); }
  }

  lemma ReopenInv(maxBytes: int, s: State)
    requires Inv(s) && Enabled(maxBytes, s, ReopenLive)
    ensures Inv(Apply(maxBytes, s, ReopenLive))
  {
    var t := Apply(maxBytes, s, ReopenLive);
    LiveFrame(s.dir, t.dir, s.now);
    LiveJobs(s.dir, t.dir, s.proc.jobs);
  }

  /** A background step on k leaves every other segment's files alone, and k readable as before. */
  ghost predicate OnlyTouches(d: Dir, e: Dir, k: Key) {
    && (forall n :: n != Plain(k) && n != Gz(k) && n != GzTmp(k) ==> (n in d <==> n in e) && (n in d ==> d[n] == e[n]))
    && SoundKey(e, k) && Used(d, k) && Used(e, k) && Content(d, k) == Content(e, k)
  }

  lemma UntouchedKey(d: Dir, e: Dir, k: Key, j: Key)
    requires OnlyTouches(d, e, k) && SoundKey(d, j)
    ensures SoundKey(e, j) && (Used(d, j) <==> Used(e, j)) && Content(d, j) == Content(e, j)
    ensures j in UsedKeys(d) <==> j in UsedKeys(e)
    ensures j != k ==> (Plain(j) in d <==> Plain(j) in e) && forall phase :: JobOk(d, j, phase) <==> JobOk(e, j, phase)
  {
    UsedIn(d, j);
    UsedIn(e, j);
  }

  lemma TouchFrame(d: Dir, e: Dir, k: Key, now: string)
    requires OnlyTouches(d, e, k) && (forall j :: SoundKey(d, j)) && Numbered(d, now)
    ensures (forall j :: SoundKey(e, j)) && Numbered(e, now)
    ensures UsedKeys(d) == UsedKeys(e) && Archive(d, UsedKeys(d)) == Archive(e, UsedKeys(e))
  {
    forall j ensures SoundKey(e, j) && (Used(d, j) <==> Used(e, j)) && Content(d, j) == Content(e, j)
      && (j in UsedKeys(d) <==> j in UsedKeys(e)) {
      assert SoundKey(d, j);
      UntouchedKey(d, e, k, j);
    }
    assert UsedKeys(d) == UsedKeys(e);
    ArchiveFrame(d, e, UsedKeys(d));
  }

  lemma TouchProc(s: State, t: State, k: Key)
    requires Inv(s) && s.proc.Up? && k in s.proc.jobs && t.proc.Up? && OnlyTouches(s.dir, t.dir, k)
    requires t.proc.size == s.proc.size && (t.proc.pc == s.proc.pc || (t.proc.pc == Sweep([]) && s.proc.pc.Sweep?))
    requires forall j :: j in t.proc.jobs && j != k ==> j in s.proc.jobs && t.proc.jobs[j] == s.proc.jobs[j]
    requires k in t.proc.jobs ==> JobOk(t.dir, k, t.proc.jobs[k])
    ensures ProcOk(t.dir, t.proc)
  {
    forall j | j in t.proc.jobs ensures JobOk(t.dir, j, t.proc.jobs[j]) {
      if j != k {
        assert JobOk(s.dir, j, s.proc.jobs[j]) && SoundKey(s.dir, j);
        UntouchedKey(s.dir, t.dir, k, j);
      }
    }
    assert Live in s.dir <==> Live in t.dir;
    UsedIn(t.dir, k);
    match t.proc.pc
    case Sweep(todo) =>
      forall j | j in todo ensures Plain(j) in t.dir {
        assert SoundKey(s.dir, j);
        UntouchedKey(s.dir, t.dir, k, j);
      }
    case Reopen(line, j) =>
      assert SoundKey(s.dir, j);
      UntouchedKey(s.dir, t.dir, k, j);
    case _ =>
  }

  predicate IsJob(step: Step) {
    step.JobCreate? || step.JobFill? || step.JobRename? || step.JobRemove? || step.JobFails?
  }

  lemma TmpTouches(d: Dir, k: Key, f: File)
    requires SoundKey(d, k) && Plain(k) in d
    ensures OnlyTouches(d, d[GzTmp(k) := f], k)
  {
    var e := d[GzTmp(k) := f];
    assert (Plain(k) in e) && (Gz(k) in d <==> Gz(k) in e) && e[Plain(k)] == d[Plain(k)];
    assert Gz(k) in d ==> e[Gz(k)] == d[Gz(k)];
  }

  lemma RenameTouches(d: Dir, k: Key)
    requires SoundKey(d, k) && Plain(k) in d && GzTmp(k) in d && d[GzTmp(k)] == Zip(LinesOf(d, Plain(k)))
    ensures OnlyTouches(d, (d - {GzTmp(k)})[Gz(k) := d[GzTmp(k)]], k)
  {
    var e := (d - {GzTmp(k)})[Gz(k) := d[GzTmp(k)]];
    assert Plain(k) in e && e[Plain(k)] == d[Plain(k)] && GzTmp(k) !in e;
    assert Content(e, k) == d[Plain(k)].lines == Content(d, k);
  }

  lemma RemoveTouches(d: Dir, k: Key)
    requires SoundKey(d, k) && Plain(k) in d && Gz(k) in d && GzTmp(k) !in d
    ensures OnlyTouches(d, d - {Plain(k)}, k)
  {
    var e := d - {Plain(k)};
    assert Gz(k) in e && e[Gz(k)] == d[Gz(k)] && GzTmp(k) !in e && Plain(k) !in e;
  }

  lemma AbandonTouches(d: Dir, k: Key)
    requires SoundKey(d, k) && Plain(k) in d
    ensures OnlyTouches(d, d - {GzTmp(k)}, k) && OnlyTouches(d, d, k)
  {
    var e := d - {GzTmp(k)};
    assert Plain(k) in e && e[Plain(k)] == d[Plain(k)] && (Gz(k) in d <==> Gz(k) in e);
  }

  lemma JobTouches(maxBytes: int, s: State, step: Step)
    requires Inv(s) && Enabled(maxBytes, s, step) && IsJob(step)
    ensures OnlyTouches(s.dir, Apply(maxBytes, s, step).dir, step.key)
  {
    var k := step.key;
    assert JobOk(s.dir, k, s.proc.jobs[k]) && SoundKey(s.dir, k);
    match step
    case JobCreate(_) => TmpTouches(s.dir, k, Partial);
    case JobFill(_) => TmpTouches(s.dir, k, Zip(LinesOf(s.dir, Plain(k))));
    case JobRename(_) => RenameTouches(s.dir, k);
    case JobRemove(_) => RemoveTouches(s.dir, k);
    case JobFails(_) => AbandonTouches(s.dir, k);
  }

  lemma JobAdvances(maxBytes: int, s: State, step: Step)
    requires Inv(s) && Enabled(maxBytes, s, step) && IsJob(step)
    ensures var t := Apply(maxBytes, s, step);
      t.proc.Up? && (step.key in t.proc.jobs ==> JobOk(t.dir, step.key, t.proc.jobs[step.key]))
  {
    assert JobOk(s.dir, step.key, s.proc.jobs[step.key]);
  }

  lemma JobKeeps(maxBytes: int, s: State, step: Step)
    requires Enabled(maxBytes, s, step) && IsJob(step)
    ensures var t := Apply(maxBytes, s, step);
      && t.proc.Up? && t.now == s.now && t.written == s.written && t.proc.size == s.proc.size
      && (t.proc.pc == s.proc.pc || (t.proc.pc == Sweep([]) && s.proc.pc.Sweep?))
      && (forall j :: j in t.proc.jobs && j != step.key ==> j in s.proc.jobs && t.proc.jobs[j] == s.proc.jobs[j])
  {
  }

  lemma TouchInv(s: State, t: State, k: Key)
    requires Inv(s) && t.now == s.now && t.written == s.written
    requires OnlyTouches(s.dir, t.dir, k) && ProcOk(t.dir, t.proc)
    ensures Inv(t)
  {
    TouchFrame(s.dir, t.dir, k, s.now);
    assert LinesOf(s.dir, Live) == LinesOf(t.dir, Live) by { assert Live in s.dir <==> Live in t.dir; }
  }

  lemma JobInv(maxBytes: int, s: State, step: Step)
    requires Inv(s) && Enabled(maxBytes, s, step) && IsJob(step)
    ensures Inv(Apply(maxBytes, s, step))
  {
    var k, t := step.key, Apply(maxBytes, s, step);
    JobTouches(maxBytes, s, step);
    JobAdvances(maxBytes, s, step);
    JobKeeps(maxBytes, s, step);
    assert k in s.proc.jobs;
    TouchProc(s, t, k);
    TouchInv(s, t, k);
  }

  lemma StepInv(maxBytes: int, s: State, step: Step)
    requires Inv(s) && Enabled(maxBytes, s, step)
    ensures Inv(Apply(maxBytes, s, step))
  {
    match step
    case Open => OpenInv(maxBytes, s);
    case SweepNext => SweepNextInv(maxBytes, s);
    case Write(line) => AppendInv(s, line);
    case Rotate(line, stamp) => RotateInv(maxBytes, s, line, stamp);
    case ReopenLive => ReopenInv(maxBytes, s);
    case AppendRotated => AppendInv(s, s.proc.pc.line);
    case ReopenFails =>
      QuietStep(s, Apply(maxBytes, s, step));
      UsedIn(s.dir, s.proc.pc.segment);
    case SweepEnd => QuietStep(s, Apply(maxBytes, s, step));
    case RotateFails(_) => QuietStep(s, Apply(maxBytes, s, step));
    case AppendFails => QuietStep(s, Apply(maxBytes, s, step));
    case Close => QuietStep(s, Apply(maxBytes, s, step));
    case Exit => QuietStep(s, Apply(maxBytes, s, step));
    case Crash => QuietStep(s, Apply(maxBytes, s, step));
    case _ => JobInv(maxBytes, s, step);
  }

  lemma {:induction false} RunInv(maxBytes: int, s: State, steps: seq<Step>)
    requires Inv(s) && Legal(maxBytes, s, steps)
    ensures Inv(Run(maxBytes, s, steps))
    decreases |steps|
  {
    if steps != [] {
      StepInv(maxBytes, s, steps[0]);
      RunInv(maxBytes, Apply(maxBytes, s, steps[0]), steps[1..]);
    }
  }

  /** What a reader should see: the records written, or nothing on disk at all. */
  ghost function Expected(s: State): Result<seq<string>, ReadError> {
    if Live !in s.dir && UsedKeys(s.dir) == {} then Err(NotExist) else Ok(s.written)
  }

  /** No second saw more than 10^6 rotations. */
  predicate WithinLimit(dir: Dir) { forall n :: n in dir && (n.Plain? || n.Gz?) ==> n.key.seqNo < 1000000 }

  lemma WithinLimitKeys(dir: Dir)
    ensures WithinLimit(dir) <==> SegmentKeys(dir) == UsedKeys(dir)
  {
    if SegmentKeys(dir) == UsedKeys(dir) {
      forall n | n in dir && (n.Plain? || n.Gz?) ensures Recognised(n.key) { UsedIn(dir, n.key); }
    } else {
      var k :| k in UsedKeys(dir) && k !in SegmentKeys(dir);
      UsedIn(dir, k);
    }
  }

  /** Exactly-once, in-order history, in an invariant state, and exactly when no sequence number overflowed. */
  lemma HistoryIsWritten(s: State)
    requires Inv(s)
    ensures History(s.dir) == Expected(s) <==> WithinLimit(s.dir)
  {
    WithinLimitKeys(s.dir);
    var r, u := SegmentKeys(s.dir), UsedKeys(s.dir);
    assert r <= u;
    forall k | k in u ensures Content(s.dir, k) != [] {
      UsedIn(s.dir, k);
      assert SoundKey(s.dir, k);
    }
    if r != u {
      ArchiveShorter(s.dir, r, u);
      assert s.written == Archive(s.dir, u) + LinesOf(s.dir, Live);
    }
    assert Archive(s.dir, u) + [] == Archive(s.dir, u);
  }

  /**
   * The main result. After any interleaving of writes, rotations, single compression steps, failures of
   * background work, crashes and reopens, reading the history gives exactly the completed appends, once each
   * and in order: if and only if no second has seen more than 10^6 rotations.
   */
  lemma ExactlyOnceHistory(maxBytes: int, s: State, steps: seq<Step>)
    requires Init(s) && Legal(maxBytes, s, steps)
    ensures var t := Run(maxBytes, s, steps); History(t.dir) == Expected(t) <==> WithinLimit(t.dir)
  {
    InitInv(s);
    RunInv(maxBytes, s, steps);
    HistoryIsWritten(Run(maxBytes, s, steps));
  }
}
