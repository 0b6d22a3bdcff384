/**
 * The rotating decision log as a storage protocol. The directory is a map from names to contents; every
 * rename, create, write and remove is one step, and a crash, a background compression or the next append
 * may fall between any two of them.
 */
module RotatingLog {
  import opened Permutations
  import opened Text
  import opened SegmentNames
  import opened Options

  /** A log file holds whole records; an archive that is still being written is unreadable. */
  datatype File = Lines(lines: seq<string>) | Zip(lines: seq<string>) | Partial

  type Dir = map<Name, File>

  // ---------------------------------------------------------------- reading

  predicate Used(dir: Dir, k: Key) { Plain(k) in dir || Gz(k) in dir }

  function UsedKeys(dir: Dir): set<Key> {
    (set n | n in dir && n.Plain? :: n.key) + (set n | n in dir && n.Gz? :: n.key)
  }

  /** The segments `findSegments` lists: it skips names whose sequence number outgrew six digits. */
  function SegmentKeys(dir: Dir): set<Key> {
    set k | k in UsedKeys(dir) && Recognised(k)
  }

  /** What reading one segment yields: the archive wins over the plain file, an unreadable file yields nothing. */
  function Content(dir: Dir, k: Key): seq<string> {
    if Gz(k) in dir then (if dir[Gz(k)].Zip? then dir[Gz(k)].lines else [])
    else if Plain(k) in dir then (if dir[Plain(k)].Lines? then dir[Plain(k)].lines else [])
    else []
  }

  lemma KeyTotal(a: Key, b: Key)
    ensures a == b || KeyLess(a, b) || KeyLess(b, a)
  {
    LessTotal(a.stamp, b.stamp);
  }

  lemma KeyTransitive(a: Key, b: Key, c: Key)
    requires KeyLess(a, b) && KeyLess(b, c)
    ensures KeyLess(a, c)
  {
    if Less(a.stamp, b.stamp) && Less(b.stamp, c.stamp) { LessTransitive(a.stamp, b.stamp, c.stamp); }
  }

  lemma KeyIrreflexive(a: Key)
    ensures !KeyLess(a, a)
  {
    LessIrreflexive(a.stamp);
  }

  ghost predicate IsNewest(k: Key, s: set<Key>) {
    k in s && forall j :: j in s && j != k ==> KeyLess(j, k)
  }

  lemma {:induction false} NewestExists(s: set<Key>) returns (k: Key)
    requires s != {}
    ensures IsNewest(k, s)
    decreases |s|
  {
    k :| k in s;
    if s != {k} {
      var rest := s - {k};
      assert rest + {k} == s;
      var m := NewestExists(rest);
      KeyTotal(k, m);
      if KeyLess(k, m) {
        k := m;
      } else {
        forall j | j in s && j != k ensures KeyLess(j, k) {
          if j != m { KeyTransitive(j, m, k); }
        }
      }
    }
  }

  ghost function Newest(s: set<Key>): (k: Key)
    requires s != {}
    ensures IsNewest(k, s)
  {
    assert exists k :: IsNewest(k, s) by { var k := NewestExists(s); }
    var k :| IsNewest(k, s);
    k
  }

  lemma NewestUnique(s: set<Key>, k: Key)
    requires IsNewest(k, s)
    ensures Newest(s) == k
  {
    var m := Newest(s);
    if m != k {
      KeyTransitive(k, m, k);
      KeyIrreflexive(k);
    }
  }

  /** The segments of s, oldest first, one after the other. */
  ghost function Archive(dir: Dir, s: set<Key>): seq<string>
    decreases |s|
  {
    if s == {} then [] else
      var k := Newest(s);
      Archive(dir, s - {k}) + Content(dir, k)
  }

  datatype ReadError = NotExist | Unreadable

  /** `ReadHistory`: every segment oldest first, then the live file. */
  ghost function History(dir: Dir): Result<seq<string>, ReadError> {
    var archived := Archive(dir, SegmentKeys(dir));
    if Live in dir then
      if dir[Live].Lines? then Ok(archived + dir[Live].lines) else Err(Unreadable)
    else if SegmentKeys(dir) != {} then Ok(archived)
    else Err(NotExist)
  }

  lemma {:induction false} ArchiveFrame(d: Dir, e: Dir, s: set<Key>)
    requires forall k :: k in s ==> Content(d, k) == Content(e, k)
    ensures Archive(d, s) == Archive(e, s)
    decreases |s|
  {
    if s != {} {
      var k := Newest(s);
      ArchiveFrame(d, e, s - {k});
    }
  }

  lemma ArchiveAppend(dir: Dir, s: set<Key>, k: Key)
    requires forall j :: j in s ==> KeyLess(j, k)
    ensures Archive(dir, s + {k}) == Archive(dir, s) + Content(dir, k)
  {
    if k in s { KeyIrreflexive(k); }
    assert IsNewest(k, s + {k});
    NewestUnique(s + {k}, k);
    assert s + {k} - {k} == s;
  }

  /** Leaving one segment out shortens the archive by exactly that segment. */
  lemma {:induction false} ArchiveWithout(dir: Dir, s: set<Key>, x: Key)
    requires x in s
    ensures |Archive(dir, s)| == |Archive(dir, s - {x})| + |Content(dir, x)|
    decreases |s|
  {
    var k := Newest(s);
    if k != x {
      ArchiveWithout(dir, s - {k}, x);
      assert IsNewest(k, s - {x});
      NewestUnique(s - {x}, k);
      assert s - {x} - {k} == s - {k} - {x};
    }
  }

  lemma {:induction false} ArchiveShorter(dir: Dir, r: set<Key>, s: set<Key>)
    requires r < s
    requires forall k :: k in s ==> Content(dir, k) != []
    ensures |Archive(dir, r)| < |Archive(dir, s)|
    decreases |s|
  {
    var x :| x in s && x !in r;
    ArchiveWithout(dir, s, x);
    if r != s - {x} { ArchiveShorter(dir, r, s - {x}); }
  }

  // ---------------------------------------------------------------- the writer and its steps

  function Bytes(lines: seq<string>): nat {
    if lines == [] then 0 else Bytes(lines[..|lines| - 1]) + |lines[|lines| - 1]| + 1
  }

  lemma BytesAppend(lines: seq<string>, line: string)
    ensures Bytes(lines + [line]) == Bytes(lines) + |line| + 1
  {
    assert (lines + [line])[..|lines|] == lines;
  }

  /** How far one background compression has come. */
  datatype Phase = Start | Created | Filled | Renamed

  /**
   * Where the writer is. Sweep: reopening, with the plain segments still to compress in order. Reopen and
   * Append: inside a rotating Write, after the rename and after the reopen. Broken: the writer is left with a closed
   * file, so every later Write fails. Closed: Close waits for the compressions.
   */
  datatype Pc =
    | Sweep(todo: seq<Key>)
    | Ready
    | Reopen(line: string, segment: Key)
    | Append(line: string)
    | Broken
    | Closed

  datatype Proc = Down | Up(pc: Pc, size: nat, jobs: map<Key, Phase>)

  /** now: the stamp of the last clock reading a rotation used. written: every record whose append completed, in order. */
  datatype State = State(dir: Dir, proc: Proc, now: string, written: seq<string>)

  datatype Step =
    | Open
    | SweepNext
    | SweepEnd
    | Write(line: string)
    | Rotate(line: string, stamp: string)
    | RotateFails(line: string)
    | ReopenLive
    | ReopenFails
    | AppendRotated
    | AppendFails
    | Close
    | Exit
    | JobCreate(key: Key)
    | JobFill(key: Key)
    | JobRename(key: Key)
    | JobRemove(key: Key)
    | JobFails(key: Key)
    | Crash

  predicate NeedsRotation(maxBytes: int, size: nat, line: string) {
    maxBytes > 0 && size > 0 && size + |line| + 1 > maxBytes
  }

  /** `segmentExists`: plain, archive or half-written archive. */
  predicate Occupied(dir: Dir, k: Key) { Plain(k) in dir || Gz(k) in dir || GzTmp(k) in dir }

  function OccupiedFrom(dir: Dir, stamp: string, n: nat): set<nat> {
    set m | m in dir && (m.Plain? || m.Gz? || m.GzTmp?) && m.key.stamp == stamp && m.key.seqNo >= n :: m.key.seqNo
  }

  /** `nextSegmentName`: the first sequence number of this second that no file uses. */
  function FirstFree(dir: Dir, stamp: string, n: nat): (r: nat)
    ensures r >= n && !Occupied(dir, Key(stamp, r))
    ensures forall i :: n <= i < r ==> Occupied(dir, Key(stamp, i))
    decreases |OccupiedFrom(dir, stamp, n)|
  {
    if Occupied(dir, Key(stamp, n)) then
      OccupiedShrinks(dir, stamp, n);
      FirstFree(dir, stamp, n + 1)
    else n
  }

  lemma OccupiedShrinks(dir: Dir, stamp: string, n: nat)
    requires Occupied(dir, Key(stamp, n))
    ensures |OccupiedFrom(dir, stamp, n + 1)| < |OccupiedFrom(dir, stamp, n)|
  {
    var a, b := OccupiedFrom(dir, stamp, n + 1), OccupiedFrom(dir, stamp, n);
    var k := Key(stamp, n);
    var m := if Plain(k) in dir then Plain(k) else if Gz(k) in dir then Gz(k) else GzTmp(k);
    assert m in dir && m.key.seqNo == n;
    assert n in b && n !in a && a <= b;
    SubsetSize(a, b - {n});
    assert |b - {n}| == |b| - 1;
  }

  /** Keys oldest first. */
  ghost function Sorted(s: set<Key>): (r: seq<Key>)
    ensures |r| == |s|
    decreases |s|
  {
    if s == {} then [] else
      var k := Newest(s);
      Sorted(s - {k}) + [k]
  }

  lemma {:induction false} SortedMembers(s: set<Key>)
    ensures forall k :: k in Sorted(s) <==> k in s
    decreases |s|
  {
    if s != {} {
      var k := Newest(s);
      SortedMembers(s - {k});
      assert forall j :: j in Sorted(s) <==> j in Sorted(s - {k}) || j == k;
    }
  }

  lemma {:induction false} SortedDistinct(s: set<Key>)
    ensures Distinct(Sorted(s))
    decreases |s|
  {
    if s != {} {
      var k := Newest(s);
      SortedDistinct(s - {k});
      SortedMembers(s - {k});
      assert k !in Sorted(s - {k});
    }
  }

  /** The segments `sweepUncompressed` still has to compress: those `findSegments` lists as plain files. */
  function PlainOnly(dir: Dir): set<Key> {
    set k | k in SegmentKeys(dir) && Gz(k) !in dir
  }

  ghost predicate Enabled(maxBytes: int, s: State, step: Step) {
    match step
    case Open => s.proc.Down? && (Live in s.dir ==> s.dir[Live].Lines?)
    case Crash => s.proc.Up?
    case SweepNext => s.proc.Up? && s.proc.pc.Sweep? && s.proc.pc.todo != [] && s.proc.jobs == map[]
    case SweepEnd => s.proc.Up? && s.proc.pc.Sweep? && s.proc.pc.todo == [] && s.proc.jobs == map[]
    case Write(line) => s.proc.Up? && s.proc.pc.Ready? && !NeedsRotation(maxBytes, s.proc.size, line)
    case Rotate(line, stamp) =>
      s.proc.Up? && s.proc.pc.Ready? && NeedsRotation(maxBytes, s.proc.size, line)
      && ValidStamp(stamp) && LessEq(s.now, stamp)
    case RotateFails(line) => s.proc.Up? && s.proc.pc.Ready? && NeedsRotation(maxBytes, s.proc.size, line)
    case ReopenLive => s.proc.Up? && s.proc.pc.Reopen?
    case ReopenFails => s.proc.Up? && s.proc.pc.Reopen?
    case AppendRotated => s.proc.Up? && s.proc.pc.Append?
    case AppendFails => s.proc.Up? && s.proc.pc.Append?
    case Close => s.proc.Up? && (s.proc.pc.Ready? || s.proc.pc.Broken?)
    case Exit => s.proc.Up? && s.proc.pc.Closed? && s.proc.jobs == map[]
    case JobCreate(k) => s.proc.Up? && k in s.proc.jobs && s.proc.jobs[k].Start? && Plain(k) in s.dir
    case JobFill(k) => s.proc.Up? && k in s.proc.jobs && s.proc.jobs[k].Created?
    case JobRename(k) => s.proc.Up? && k in s.proc.jobs && s.proc.jobs[k].Filled? && GzTmp(k) in s.dir
    case JobRemove(k) => s.proc.Up? && k in s.proc.jobs && s.proc.jobs[k].Renamed?
    case JobFails(k) => s.proc.Up? && k in s.proc.jobs
  }

  function LinesOf(dir: Dir, n: Name): seq<string> {
    if n in dir && !dir[n].Partial? then dir[n].lines else []
  }

  function AppendLine(s: State, line: string): State
    requires s.proc.Up?
  {
    s.(dir := s.dir[Live := Lines(LinesOf(s.dir, Live) + [line])],
       proc := Up(Ready, s.proc.size + |line| + 1, s.proc.jobs),
       written := s.written + [line])
  }

  ghost function Apply(maxBytes: int, s: State, step: Step): State
    requires Enabled(maxBytes, s, step)
  {
    match step
    case Open =>
      var dir := if Live in s.dir then s.dir else s.dir[Live := Lines([])];
      s.(dir := dir, proc := Up(Sweep(Sorted(PlainOnly(dir))), Bytes(LinesOf(dir, Live)), map[]))
    case Crash => s.(proc := Down)
    case SweepNext =>
      s.(proc := s.proc.(pc := Sweep(s.proc.pc.todo[1..]), jobs := map[s.proc.pc.todo[0] := Start]))
    case SweepEnd => s.(proc := s.proc.(pc := Ready))
    case Write(line) => AppendLine(s, line)
    case Rotate(line, stamp) =>
      var k := Key(stamp, FirstFree(s.dir, stamp, 0));
      s.(dir := (s.dir - {Live})[Plain(k) := Lines(LinesOf(s.dir, Live))], proc := s.proc.(pc := Reopen(line, k)), now := stamp)
    case ReopenLive =>
      s.(dir := if Live in s.dir then s.dir else s.dir[Live := Lines([])],
         proc := Up(Append(s.proc.pc.line), 0, s.proc.jobs[s.proc.pc.segment := Start]))
    case RotateFails(_) => s.(proc := s.proc.(pc := Broken))
    case ReopenFails => s.(proc := s.proc.(pc := Broken))
    case AppendRotated => AppendLine(s, s.proc.pc.line)
    case AppendFails => s.(proc := s.proc.(pc := Ready))
    case Close => s.(proc := s.proc.(pc := Closed))
    case Exit => s.(proc := Down)
    case JobCreate(k) => s.(dir := s.dir[GzTmp(k) := Partial], proc := s.proc.(jobs := s.proc.jobs[k := Created]))
    case JobFill(k) => s.(dir := s.dir[GzTmp(k) := Zip(LinesOf(s.dir, Plain(k)))], proc := s.proc.(jobs := s.proc.jobs[k := Filled]))
    case JobRename(k) =>
      s.(dir := (s.dir - {GzTmp(k)})[Gz(k) := s.dir[GzTmp(k)]], proc := s.proc.(jobs := s.proc.jobs[k := Renamed]))
    case JobRemove(k) => s.(dir := s.dir - {Plain(k)}, proc := s.proc.(jobs := s.proc.jobs - {k}))
    case JobFails(k) =>
      var dir := if s.proc.jobs[k].Created? || s.proc.jobs[k].Filled? then s.dir - {GzTmp(k)} else s.dir;
      var pc := if s.proc.pc.Sweep? then Sweep([]) else s.proc.pc;
      s.(dir := dir, proc := Up(pc, s.proc.size, s.proc.jobs - {k}))
  }

  /** A first start: nothing of the log on disk yet. */
  ghost predicate Init(s: State) {
    (forall n :: n in s.dir ==> n.Foreign?) && s.proc.Down? && s.now == "" && s.written == []
  }

  ghost predicate Legal(maxBytes: int, s: State, steps: seq<Step>)
    decreases |steps|
  {
    steps == [] || (Enabled(maxBytes, s, steps[0]) && Legal(maxBytes, Apply(maxBytes, s, steps[0]), steps[1..]))
  }

  /** The state a run of steps leads to. */
  ghost function Run(maxBytes: int, s: State, steps: seq<Step>): State
    requires Legal(maxBytes, s, steps)
    decreases |steps|
  {
    if steps == [] then s else Run(maxBytes, Apply(maxBytes, s, steps[0]), steps[1..])
  }

  lemma RunCons(maxBytes: int, s: State, step: Step, rest: seq<Step>)
    requires Enabled(maxBytes, s, step) && Legal(maxBytes, Apply(maxBytes, s, step), rest)
    ensures Legal(maxBytes, s, [step] + rest)
    ensures Run(maxBytes, s, [step] + rest) == Run(maxBytes, Apply(maxBytes, s, step), rest)
  {
    assert ([step] + rest)[1..] == rest;
  }

  /** The steps one undisturbed Write takes. */
  function WriteSteps(maxBytes: int, size: nat, line: string, stamp: string): seq<Step> {
    if NeedsRotation(maxBytes, size, line) then [Rotate(line, stamp)] + ([ReopenLive] + ([AppendRotated] + []))
    else [Step.Write(line)] + []
  }

  /** What rotation leaves: the live file renamed to a fresh name, a new live file, one more compression under way. */
  function Rotated(s: State, line: string, stamp: string): State
    requires s.proc.Up?
  {
    var k := Key(stamp, FirstFree(s.dir, stamp, 0));
    State((s.dir - {Live})[Plain(k) := Lines(LinesOf(s.dir, Live))][Live := Lines([])],
          Up(Append(line), 0, s.proc.jobs[k := Start]), stamp, s.written)
  }

  function AfterWrite(maxBytes: int, s: State, line: string, stamp: string): State
    requires s.proc.Up?
  {
    AppendLine(if NeedsRotation(maxBytes, s.proc.size, line) then Rotated(s, line, stamp) else s, line)
  }

  /** An undisturbed Write is a legal run of the protocol, so it keeps the protocol's invariant. */
  lemma WriteIsRun(maxBytes: int, s: State, line: string, stamp: string)
    requires s.proc.Up? && s.proc.pc.Ready? && ValidStamp(stamp) && LessEq(s.now, stamp)
    ensures Legal(maxBytes, s, WriteSteps(maxBytes, s.proc.size, line, stamp))
    ensures Run(maxBytes, s, WriteSteps(maxBytes, s.proc.size, line, stamp)) == AfterWrite(maxBytes, s, line, stamp)
  {
    if NeedsRotation(maxBytes, s.proc.size, line) {
      var t := Apply(maxBytes, s, Rotate(line, stamp));
      var u := Apply(maxBytes, t, ReopenLive);
      assert u == Rotated(s, line, stamp);
      RunCons(maxBytes, u, AppendRotated, []);
      RunCons(maxBytes, t, ReopenLive, [AppendRotated] + []);
      RunCons(maxBytes, s, Rotate(line, stamp), [ReopenLive] + ([AppendRotated] + []));
    } else {
      RunCons(maxBytes, s, Step.Write(line), []);
    }
  }
}
