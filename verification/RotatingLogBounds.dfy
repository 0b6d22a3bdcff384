/**
 * More of what the rotating log keeps over whole runs: the live file stays small, a clean shutdown leaves
 * only archives, the name probe cannot be fooled by a compression under way, pruning, and the clock.
 */
module RotatingLogBounds {
  import opened Permutations
  import opened Text
  import opened SegmentNames
  import opened Options
  import opened RotatingLog
  import opened RotatingLogSafety
  import opened SegmentLists

  // ---------------------------------------------------------------- size of the live file

  /** The live file is within the limit, or holds one record that alone exceeds it. */
  ghost predicate Bounded(maxBytes: int, dir: Dir) {
    Bytes(LinesOf(dir, Live)) <= maxBytes || |LinesOf(dir, Live)| <= 1
  }

  lemma BoundedStep(maxBytes: int, s: State, step: Step)
    requires maxBytes > 0 && Inv(s) && Bounded(maxBytes, s.dir) && Enabled(maxBytes, s, step)
    ensures Bounded(maxBytes, Apply(maxBytes, s, step).dir)
  {
    var t := Apply(maxBytes, s, step);
    match step
    case Write(line) => BytesAppend(LinesOf(s.dir, Live), line);
    case AppendRotated => BytesAppend(LinesOf(s.dir, Live), s.proc.pc.line);
    case Rotate(_, _) =>
    case ReopenLive =>
    case Open =>
    case _ => assert LinesOf(t.dir, Live) == LinesOf(s.dir, Live);
  }

  /** Rotation keeps the live file within MaxBytes over every run, unless a single record is larger. */
  lemma {:induction false} LiveFileBounded(maxBytes: int, s: State, steps: seq<Step>)
    requires maxBytes > 0 && Inv(s) && Bounded(maxBytes, s.dir) && Legal(maxBytes, s, steps)
    ensures Bounded(maxBytes, Run(maxBytes, s, steps).dir)
    decreases |steps|
  {
    if steps != [] {
      BoundedStep(maxBytes, s, steps[0]);
      StepInv(maxBytes, s, steps[0]);
      LiveFileBounded(maxBytes, Apply(maxBytes, s, steps[0]), steps[1..]);
    }
  }

  // ---------------------------------------------------------------- when a rotation happens

  /** The record and its newline no longer fit beside what the live file holds. */
  predicate Overflows(maxBytes: int, live: seq<string>, line: string) {
    maxBytes > 0 && live != [] && Bytes(live) + |line| + 1 > maxBytes
  }

  lemma {:induction false} BytesPositive(live: seq<string>)
    ensures live != [] <==> Bytes(live) > 0
  {
  }

  /** A record rotates the live file exactly when it would outgrow a positive limit there; otherwise it is appended. */
  lemma RotatesIff(maxBytes: int, s: State, line: string, stamp: string)
    requires Inv(s) && s.proc.Up? && s.proc.pc.Ready? && ValidStamp(stamp) && LessEq(s.now, stamp)
    ensures Enabled(maxBytes, s, Rotate(line, stamp)) <==> Overflows(maxBytes, LinesOf(s.dir, Live), line)
    ensures Enabled(maxBytes, s, Write(line)) <==> !Overflows(maxBytes, LinesOf(s.dir, Live), line)
  {
    BytesPositive(LinesOf(s.dir, Live));
  }

  /** One of the steps rotated this segment away, for a record that did not fit beside what the segment holds. */
  ghost predicate Displaced(maxBytes: int, dir: Dir, k: Key, steps: seq<Step>) {
    exists step :: step in steps && step.Rotate? && step.stamp == k.stamp && Overflows(maxBytes, Content(dir, k), step.line)
  }

  ghost predicate AllDisplaced(maxBytes: int, dir: Dir, steps: seq<Step>) { forall k :: Used(dir, k) ==> Displaced(maxBytes, dir, k, steps) }

  /** Only a rotation makes a segment, and no step changes what one holds. */
  lemma OldSegments(maxBytes: int, s: State, step: Step, k: Key)
    requires Inv(s) && Enabled(maxBytes, s, step) && (step.Rotate? ==> k != Key(step.stamp, FirstFree(s.dir, step.stamp, 0)))
    ensures var e := Apply(maxBytes, s, step).dir; (Used(e, k) <==> Used(s.dir, k)) && Content(e, k) == Content(s.dir, k)
  {
    var e := Apply(maxBytes, s, step).dir;
    if IsJob(step) {
      JobTouches(maxBytes, s, step);
      assert SoundKey(s.dir, k);
      UntouchedKey(s.dir, e, step.key, k);
    } else if !step.Rotate? {
      LiveStep(maxBytes, s, step);
      SegmentFrame(s.dir, e, k);
    }
  }

  lemma LiveStep(maxBytes: int, s: State, step: Step)
    requires Enabled(maxBytes, s, step) && !IsJob(step) && !step.Rotate?
    ensures SameSegments(s.dir, Apply(maxBytes, s, step).dir)
  {
  }

  lemma NewSegment(maxBytes: int, s: State, line: string, stamp: string)
    requires Inv(s) && Enabled(maxBytes, s, Rotate(line, stamp))
    ensures var k := Key(stamp, FirstFree(s.dir, stamp, 0));
      Overflows(maxBytes, Content(Apply(maxBytes, s, Rotate(line, stamp)).dir, k), line)
  {
    FreshIsNewest(s.dir, s.now, stamp);
    BytesPositive(LinesOf(s.dir, Live));
  }

  lemma DisplacedStep(maxBytes: int, s: State, step: Step, steps: seq<Step>)
    requires Inv(s) && AllDisplaced(maxBytes, s.dir, steps) && Enabled(maxBytes, s, step) && step in steps
    ensures AllDisplaced(maxBytes, Apply(maxBytes, s, step).dir, steps)
  {
    var e := Apply(maxBytes, s, step).dir;
    forall k | Used(e, k) ensures Displaced(maxBytes, e, k, steps) {
      if step.Rotate? && k == Key(step.stamp, FirstFree(s.dir, step.stamp, 0)) {
        NewSegment(maxBytes, s, step.line, step.stamp);
      } else {
        OldSegments(maxBytes, s, step, k);
        assert Displaced(maxBytes, s.dir, k, steps);
      }
    }
  }

  lemma {:induction false} DisplacedRun(maxBytes: int, s: State, rest: seq<Step>, steps: seq<Step>)
    requires Inv(s) && AllDisplaced(maxBytes, s.dir, steps) && Legal(maxBytes, s, rest)
    requires forall i :: 0 <= i < |rest| ==> rest[i] in steps
    ensures AllDisplaced(maxBytes, Run(maxBytes, s, rest).dir, steps)
    decreases |rest|
  {
    if rest != [] {
      DisplacedStep(maxBytes, s, rest[0], steps);
      StepInv(maxBytes, s, rest[0]);
      DisplacedRun(maxBytes, Apply(maxBytes, s, rest[0]), rest[1..], steps);
    }
  }

  /**
   * Over every run from a first start: each segment, together with the record whose rotation closed it, exceeds the limit;
   * so nothing ever rotates without a positive limit, nor earlier than it must.
   */
  lemma SegmentsAreFull(maxBytes: int, s: State, steps: seq<Step>)
    requires Init(s) && Legal(maxBytes, s, steps)
    ensures AllDisplaced(maxBytes, Run(maxBytes, s, steps).dir, steps)
    ensures maxBytes <= 0 ==> forall k :: !Used(Run(maxBytes, s, steps).dir, k)
  {
    InitInv(s);
    forall k ensures !Used(s.dir, k) {
      assert Plain(k) !in s.dir && Gz(k) !in s.dir;
    }
    DisplacedRun(maxBytes, s, steps, steps);
    var e := Run(maxBytes, s, steps).dir;
    forall k | Used(e, k) ensures maxBytes > 0 { assert Displaced(maxBytes, e, k, steps); }
  }

  // ---------------------------------------------------------------- clean shutdown

  predicate OnItsWay(proc: Proc, k: Key) {
    match proc
    case Down => true
    case Up(pc, _, jobs) =>
      k in jobs || (pc.Sweep? && k in pc.todo) || (pc.Reopen? && k == pc.segment)
  }

  /** Every listed segment is compressed, or some worker is going to compress it. */
  ghost predicate Scheduled(s: State) {
    forall k :: Plain(k) in s.dir && Gz(k) !in s.dir && Recognised(k) ==> OnItsWay(s.proc, k)
  }

  /** The steps that leave a segment without a compression. */
  predicate Strands(step: Step) { step.JobFails? || step.ReopenFails? }

  lemma ScheduledStep(maxBytes: int, s: State, step: Step)
    requires Inv(s) && Scheduled(s) && Enabled(maxBytes, s, step) && !Strands(step)
    ensures Scheduled(Apply(maxBytes, s, step))
  {
    var t := Apply(maxBytes, s, step);
    forall k | Plain(k) in t.dir && Gz(k) !in t.dir && Recognised(k) ensures OnItsWay(t.proc, k) {
      match step
      case Open =>
        UsedIn(t.dir, k);
        SortedMembers(PlainOnly(t.dir));
      case SweepNext =>
        var todo := s.proc.pc.todo;
        assert todo == [todo[0]] + todo[1..];
        assert k in todo ==> k == todo[0] || k in todo[1..];
      case Rotate(_, stamp) => if k != t.proc.pc.segment { assert Plain(k) in s.dir && Gz(k) !in s.dir; }
      case JobCreate(j) => assert Plain(k) in s.dir && Gz(k) !in s.dir;
      case JobFill(j) => assert Plain(k) in s.dir && Gz(k) !in s.dir;
      case JobRename(j) => assert Plain(k) in s.dir && Gz(k) !in s.dir && k != j;
      case JobRemove(j) => assert Plain(k) in s.dir && Gz(k) !in s.dir && JobOk(s.dir, j, s.proc.jobs[j]);
      case _ =>
    }
  }

  ghost predicate NoFailures(steps: seq<Step>) { forall i :: 0 <= i < |steps| ==> !Strands(steps[i]) }

  lemma {:induction false} ScheduledRun(maxBytes: int, s: State, steps: seq<Step>)
    requires Inv(s) && Scheduled(s) && Legal(maxBytes, s, steps) && NoFailures(steps)
    ensures Scheduled(Run(maxBytes, s, steps))
    decreases |steps|
  {
    if steps != [] {
      ScheduledStep(maxBytes, s, steps[0]);
      StepInv(maxBytes, s, steps[0]);
      assert forall i :: 0 <= i < |steps[1..]| ==> steps[1..][i] == steps[i + 1];
      ScheduledRun(maxBytes, Apply(maxBytes, s, steps[0]), steps[1..]);
    }
  }

  /** When Close returns, every segment the reader lists is an archive, whatever crashes came before. */
  lemma CloseWaitsForCompression(maxBytes: int, s: State, steps: seq<Step>)
    requires Init(s) && Legal(maxBytes, s, steps) && NoFailures(steps)
    requires var t := Run(maxBytes, s, steps); t.proc.Up? && t.proc.pc.Closed? && t.proc.jobs == map[]
    ensures forall k :: k in SegmentKeys(Run(maxBytes, s, steps).dir) ==> Gz(k) in Run(maxBytes, s, steps).dir
  {
    InitInv(s);
    ScheduledRun(maxBytes, s, steps);
    var t := Run(maxBytes, s, steps);
    forall k | k in SegmentKeys(t.dir) ensures Gz(k) in t.dir { UsedIn(t.dir, k); }
  }

  // ---------------------------------------------------------------- probing names while a compression runs

  lemma UsedStays(maxBytes: int, s: State, step: Step, k: Key)
    requires Inv(s) && Enabled(maxBytes, s, step) && Used(s.dir, k)
    ensures Used(Apply(maxBytes, s, step).dir, k)
    ensures Gz(k) in s.dir ==> Gz(k) in Apply(maxBytes, s, step).dir
  {
    match step
    case JobRemove(j) => assert JobOk(s.dir, j, s.proc.jobs[j]);
    case JobFails(j) => assert Plain(k) in s.dir ==> Plain(k) in Apply(maxBytes, s, step).dir;
    case JobRename(j) => assert Plain(k) in s.dir ==> Plain(k) in Apply(maxBytes, s, step).dir;
    case Rotate(_, _) => assert Plain(k) in s.dir ==> Plain(k) in Apply(maxBytes, s, step).dir;
    case _ =>
  }

  /**
   * `segmentExists` stats plain, archive and temporary one after the other while a compression may be moving the
   * segment from one to the next. If the plain file is already gone at the first stat, the archive is there at
   * any later one: a used name is never reported free.
   */
  lemma {:induction false} ProbeIsSafe(maxBytes: int, s: State, steps: seq<Step>, k: Key)
    requires Inv(s) && Legal(maxBytes, s, steps) && Used(s.dir, k)
    ensures Plain(k) in s.dir || Gz(k) in Run(maxBytes, s, steps).dir
    ensures Used(Run(maxBytes, s, steps).dir, k)
    decreases |steps|
  {
    if steps != [] {
      var t := Apply(maxBytes, s, steps[0]);
      StepInv(maxBytes, s, steps[0]);
      UsedStays(maxBytes, s, steps[0], k);
      ProbeIsSafe(maxBytes, t, steps[1..], k);
      if Gz(k) in s.dir { GzStays(maxBytes, t, steps[1..], k); }
    }
  }

  lemma {:induction false} GzStays(maxBytes: int, s: State, steps: seq<Step>, k: Key)
    requires Inv(s) && Legal(maxBytes, s, steps) && Gz(k) in s.dir
    ensures Gz(k) in Run(maxBytes, s, steps).dir
    decreases |steps|
  {
    if steps != [] {
      StepInv(maxBytes, s, steps[0]);
      UsedStays(maxBytes, s, steps[0], k);
      GzStays(maxBytes, Apply(maxBytes, s, steps[0]), steps[1..], k);
    }
  }

  // ---------------------------------------------------------------- the clock

  lemma ReorderedHistory(early: string, late: string, x: string, y: string, z: string)
    requires Less(early, late)
    ensures History(map[Live := Lines([z]), Plain(Key(late, 0)) := Lines([x]), Plain(Key(early, 0)) := Lines([y])]) == Ok([y, x, z])
  {
    var a, b := Key(early, 0), Key(late, 0);
    var dir := map[Live := Lines([z]), Plain(b) := Lines([x]), Plain(a) := Lines([y])];
    LessIrreflexive(early);
    forall k ensures k in SegmentKeys(dir) <==> k in {a, b} { UsedIn(dir, k); }
    assert SegmentKeys(dir) == {a, b};
    assert Content(dir, a) == [y] && Content(dir, b) == [x] && a != b;
    ArchiveOfTwo(dir, a, b);
    assert dir[Live] == Lines([z]);
    assert [y] + [x] + [z] == [y, x, z];
  }

  const EMPTY: State := State(map[], Down, "", [])

  /** A first start, then two records, the second behind a rotation. */
  function FirstRun(late: string, x: string, y: string): seq<Step> {
    [Open] + ([SweepEnd] + ([Write(x)] + WriteSteps(1, |x| + 1, y, late)))
  }

  function Started(): State { State(map[Live := Lines([])], Up(Ready, 0, map[]), "", []) }

  lemma StartLeads()
    ensures Init(EMPTY) && Enabled(1, EMPTY, Open) && Enabled(1, Apply(1, EMPTY, Open), SweepEnd)
    ensures Apply(1, Apply(1, EMPTY, Open), SweepEnd) == Started()
  {
    var s := Apply(1, EMPTY, Open);
    assert s.dir == map[Live := Lines([])];
    NothingToSweep(s.dir);
  }

  lemma NothingToSweep(dir: Dir)
    requires dir.Keys == {Live}
    ensures Sorted(PlainOnly(dir)) == [] && PlainOnly(dir) == {}
  {
    forall k ensures k !in SegmentKeys(dir) { UsedIn(dir, k); }
    assert PlainOnly(dir) == {};
  }

  lemma FirstRunLeads(late: string, x: string, y: string)
    requires ValidStamp(late)
    ensures Legal(1, EMPTY, FirstRun(late, x, y))
    ensures Run(1, EMPTY, FirstRun(late, x, y)) == AfterWrite(1, AfterWrite(1, Started(), x, late), y, late)
  {
    var one := AfterWrite(1, Started(), x, late);
    assert one.now == "" && one.proc == Up(Ready, |x| + 1, map[]) && LessEq("", late);
    var writes := WriteSteps(1, |x| + 1, y, late);
    StartLeads();
    assert Apply(1, Started(), Write(x)) == one;
    WriteIsRun(1, one, y, late);
    RunCons(1, Started(), Write(x), writes);
    RunCons(1, Apply(1, EMPTY, Open), SweepEnd, [Write(x)] + writes);
    RunCons(1, EMPTY, Open, [SweepEnd] + ([Write(x)] + writes));
  }

  /** A rotating write, seen from outside. */
  lemma RotatingWriteIs(s: State, line: string, stamp: string)
    requires s.proc.Up? && s.proc.size > 0 && Live in s.dir && Plain(Key(stamp, 0)) !in s.dir
    requires !Occupied(s.dir, Key(stamp, 0))
    ensures var t := AfterWrite(1, s, line, stamp);
      && t.dir == s.dir[Plain(Key(stamp, 0)) := Lines(LinesOf(s.dir, Live))][Live := Lines([line])]
      && t.written == s.written + [line] && t.now == stamp
      && t.proc.Up? && t.proc.pc == Ready && t.proc.size == |line| + 1
  {
    assert FirstFree(s.dir, stamp, 0) == 0;
    var none: seq<string> := [];
    assert none + [line] == [line];
    assert AfterWrite(1, s, line, stamp).dir == s.dir[Plain(Key(stamp, 0)) := Lines(LinesOf(s.dir, Live))][Live := Lines([line])];
  }

  lemma TwoRotations(early: string, late: string, x: string, y: string, z: string)
    requires early != late
    ensures var s := AfterWrite(1, AfterWrite(1, Started(), x, late), y, late);
      && s.proc.Up? && s.proc.pc.Ready? && s.now == late
      && var t := AfterWrite(1, s.(now := early), z, early);
         && t.written == [x, y, z]
         && t.dir == map[Live := Lines([z]), Plain(Key(late, 0)) := Lines([x]), Plain(Key(early, 0)) := Lines([y])]
  {
    var none: seq<string> := [];
    var one := AfterWrite(1, Started(), x, late);
    assert none + [x] == [x] && one == State(map[Live := Lines([x])], Up(Ready, |x| + 1, map[]), "", [x]);
    RotatingWriteIs(one, y, late);
    var two := AfterWrite(1, one, y, late);
    assert two.dir == map[Live := Lines([y]), Plain(Key(late, 0)) := Lines([x])];
    RotatingWriteIs(two.(now := early), z, early);
    assert [x] + [y] + [z] == [x, y, z];
  }

  /**
   * The clock has to run forward: after a first run from an empty directory, setting it back before the last rotation
   * and writing one more record makes a history that is not what was written.
   */
  lemma BackwardClockReorders(early: string, late: string, x: string, y: string, z: string)
    requires ValidStamp(early) && ValidStamp(late) && Less(early, late) && x != y
    ensures Init(EMPTY) && Legal(1, EMPTY, FirstRun(late, x, y))
    ensures var s := Run(1, EMPTY, FirstRun(late, x, y));
      && s.now == late && s.proc.Up?
      && Legal(1, s.(now := early), WriteSteps(1, s.proc.size, z, early))
      && var t := Run(1, s.(now := early), WriteSteps(1, s.proc.size, z, early));
         t.written == [x, y, z] && History(t.dir) == Ok([y, x, z]) && History(t.dir) != Ok(t.written)
  {
    LessIrreflexive(early);
    StartLeads();
    FirstRunLeads(late, x, y);
    TwoRotations(early, late, x, y, z);
    var s := AfterWrite(1, AfterWrite(1, Started(), x, late), y, late);
    WriteIsRun(1, s.(now := early), z, early);
    ReorderedHistory(early, late, x, y, z);
    assert [y, x, z][0] != [x, y, z][0];
  }
}
