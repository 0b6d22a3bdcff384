/**
 * The file names of the rotated decision log: how a segment is named, how a name is recognised, and why
 * sorting names as strings is sorting segments by age.
 */
module SegmentNames {
  import opened Text
  import opened Options

  const STAMP_WIDTH := 16  // len("20060102T150405Z")
  const SEQ_WIDTH := 6
  const SEQ_LIMIT := 1000000
  const GZ := ".gz"
  const TMP := ".tmp"

  /** A UTC second, as the clock breaks it down. */
  datatype Civil = Civil(year: nat, month: nat, day: nat, hour: nat, minute: nat, second: nat)

  predicate LeapYear(y: nat) { y % 4 == 0 && (y % 100 != 0 || y % 400 == 0) }

  function DaysIn(y: nat, m: nat): nat {
    if m == 2 then (if LeapYear(y) then 29 else 28)
    else if m in {4, 6, 9, 11} then 30
    else 31
  }

  predicate ValidCivil(c: Civil) {
    c.year < 10000 && 1 <= c.month <= 12 && 1 <= c.day <= DaysIn(c.year, c.month)
    && c.hour < 24 && c.minute < 60 && c.second < 60
  }

  predicate CivilLess(a: Civil, b: Civil) {
    a.year < b.year || (a.year == b.year &&
    (a.month < b.month || (a.month == b.month &&
    (a.day < b.day || (a.day == b.day &&
    (a.hour < b.hour || (a.hour == b.hour &&
    (a.minute < b.minute || (a.minute == b.minute && a.second < b.second)))))))))
  }

  /** `t.UTC().Format("20060102T150405Z")`. */
  function Stamp(c: Civil): string {
    Pad(c.year, 4) + (Pad(c.month, 2) + (Pad(c.day, 2) + ("T" + (Pad(c.hour, 2) + (Pad(c.minute, 2) + (Pad(c.second, 2) + "Z"))))))
  }

  /** The second a 16-byte stamp denotes, when `time.Parse` accepts it. */
  function ParseStamp(s: string): Option<Civil> {
    if |s| == STAMP_WIDTH && s[8] == 'T' && s[15] == 'Z' && AllDigits(s[..8]) && AllDigits(s[9..15]) then
      assert forall i :: 0 <= i < 8 ==> s[i] == s[..8][i];
      assert forall i :: 9 <= i < 15 ==> s[i] == s[9..15][i - 9];
      var c := Civil(Value(s[..4]), Value(s[4..6]), Value(s[6..8]), Value(s[9..11]), Value(s[11..13]), Value(s[13..15]));
      if ValidCivil(c) then Some(c) else None
    else None
  }

  predicate ValidStamp(s: string) { ParseStamp(s).Some? }

  lemma Digits(n: nat, w: nat)
    requires n < Pow10(w)
    ensures |Pad(n, w)| == w && AllDigits(Pad(n, w)) && Value(Pad(n, w)) == n
  {
    PadIsValue(n, w);
    PadWidth(n, w);
  }

  lemma SmallPowers()
    ensures Pow10(2) == 100 && Pow10(4) == 10000 && Pow10(6) == 1000000
  {
    assert Pow10(0) == 1; assert Pow10(1) == 10; assert Pow10(2) == 100;
    assert Pow10(3) == 1000; assert Pow10(4) == 10000; assert Pow10(5) == 100000;
  }

  /** Two fields of width two behind a field of width w. */
  lemma ThreeFields(a: string, b: string, c: string)
    requires AllDigits(a) && AllDigits(b) && AllDigits(c) && |b| == 2 && |c| == 2
    ensures var (s, w) := (a + (b + c), |a|);
      |s| == w + 4 && AllDigits(s) && s[..w] == a && s[w..w + 2] == b && s[w + 2..w + 4] == c
  {
  }

  function DatePart(c: Civil): string { Pad(c.year, 4) + (Pad(c.month, 2) + Pad(c.day, 2)) }

  function TimePart(c: Civil): string { Pad(c.hour, 2) + (Pad(c.minute, 2) + Pad(c.second, 2)) }

  lemma StampFields(c: Civil)
    requires ValidCivil(c)
    ensures var s := Stamp(c);
      |s| == STAMP_WIDTH && s[8] == 'T' && s[15] == 'Z' && s[..8] == DatePart(c) && s[9..15] == TimePart(c)
  {
    StampDigits(c);
    ThreeFields(Pad(c.year, 4), Pad(c.month, 2), Pad(c.day, 2));
    ThreeFields(Pad(c.hour, 2), Pad(c.minute, 2), Pad(c.second, 2));
    StampParts(c);
    FourParts(DatePart(c), TimePart(c));
  }

  lemma FourParts(d: string, t: string)
    requires |d| == 8 && |t| == 6
    ensures var s := d + ("T" + (t + "Z"));
      |s| == STAMP_WIDTH && s[8] == 'T' && s[15] == 'Z' && s[..8] == d && s[9..15] == t
  {
  }

  lemma StampParts(c: Civil)
    ensures Stamp(c) == DatePart(c) + ("T" + (TimePart(c) + "Z"))
  {
    Regroup(Pad(c.year, 4), Pad(c.month, 2), Pad(c.day, 2), Pad(c.hour, 2), Pad(c.minute, 2), Pad(c.second, 2));
  }

  lemma Regroup(a: string, b: string, c: string, d: string, e: string, f: string)
    ensures a + (b + (c + ("T" + (d + (e + (f + "Z")))))) == (a + (b + c)) + ("T" + ((d + (e + f)) + "Z"))
  {
    assert d + (e + (f + "Z")) == (d + (e + f)) + "Z";
    var t := "T" + ((d + (e + f)) + "Z");
    assert a + (b + (c + t)) == (a + (b + c)) + t;
  }

  lemma StampDigits(c: Civil)
    requires ValidCivil(c)
    ensures |Pad(c.year, 4)| == 4 && AllDigits(Pad(c.year, 4)) && Value(Pad(c.year, 4)) == c.year
    ensures |Pad(c.month, 2)| == 2 && AllDigits(Pad(c.month, 2)) && Value(Pad(c.month, 2)) == c.month
    ensures |Pad(c.day, 2)| == 2 && AllDigits(Pad(c.day, 2)) && Value(Pad(c.day, 2)) == c.day
    ensures |Pad(c.hour, 2)| == 2 && AllDigits(Pad(c.hour, 2)) && Value(Pad(c.hour, 2)) == c.hour
    ensures |Pad(c.minute, 2)| == 2 && AllDigits(Pad(c.minute, 2)) && Value(Pad(c.minute, 2)) == c.minute
    ensures |Pad(c.second, 2)| == 2 && AllDigits(Pad(c.second, 2)) && Value(Pad(c.second, 2)) == c.second
  {
    SmallPowers();
    Digits(c.year, 4); Digits(c.month, 2); Digits(c.day, 2);
    Digits(c.hour, 2); Digits(c.minute, 2); Digits(c.second, 2);
  }

  /** Formatting then parsing a second gives it back. */
  lemma StampRoundTrip(c: Civil)
    requires ValidCivil(c)
    ensures ParseStamp(Stamp(c)) == Some(c)
  {
    var s := Stamp(c);
    StampFields(c);
    StampDigits(c);
    ThreeFields(Pad(c.year, 4), Pad(c.month, 2), Pad(c.day, 2));
    ThreeFields(Pad(c.hour, 2), Pad(c.minute, 2), Pad(c.second, 2));
    FieldSlices(s);
  }

  /** The sixteen characters of a stamp: the digits of the date, T, those of the time of day, Z. */
  lemma StampLayout(c: Civil)
    requires ValidCivil(c)
    ensures Stamp(c) == Pad(c.year, 4) + Pad(c.month, 2) + Pad(c.day, 2) + "T" + Pad(c.hour, 2) + Pad(c.minute, 2) + Pad(c.second, 2) + "Z"
    ensures |Stamp(c)| == 16
  {
    StampRoundTrip(c);
  }

  /** The dates and times a stamp can show: those of the Gregorian calendar, without leap seconds. */
  lemma CalendarIs(c: Civil)
    ensures ValidCivil(c) <==>
      && c.year <= 9999 && 1 <= c.month <= 12 && c.hour <= 23 && c.minute <= 59 && c.second <= 59
      && 1 <= c.day <= (if c.month in {1, 3, 5, 7, 8, 10, 12} then 31 else if c.month in {4, 6, 9, 11} then 30
                        else if (c.year % 4 == 0 && c.year % 100 != 0) || c.year % 400 == 0 then 29 else 28)
  {
  }

  lemma FieldSlices(s: string)
    requires |s| == STAMP_WIDTH
    ensures s[..4] == s[..8][..4] && s[4..6] == s[..8][4..6] && s[6..8] == s[..8][6..8]
    ensures s[9..11] == s[9..15][..2] && s[11..13] == s[9..15][2..4] && s[13..15] == s[9..15][4..6]
  {
    SubSlice(s, 0, 8, 0, 4); SubSlice(s, 0, 8, 4, 6); SubSlice(s, 0, 8, 6, 8);
    SubSlice(s, 9, 15, 0, 2); SubSlice(s, 9, 15, 2, 4); SubSlice(s, 9, 15, 4, 6);
  }

  lemma SubSlice(s: string, a: nat, b: nat, i: nat, j: nat)
    requires a <= b <= |s| && i <= j <= b - a
    ensures s[a..b][i..j] == s[a + i..a + j]
  {
    var x, y := s[a..b][i..j], s[a + i..a + j];
    assert |x| == |y| && forall k :: 0 <= k < |x| ==> x[k] == s[a + i + k] && y[k] == s[a + i + k];
    assert x == y;
  }

  /** A stamp that parses is the one the program would write for that second. */
  lemma ParseThenFormat(s: string)
    requires ValidStamp(s)
    ensures Stamp(ParseStamp(s).value) == s
  {
    var c := ParseStamp(s).value;
    FieldSlices(s);
    DateInverts(s[..8], c);
    TimeInverts(s[9..15], c);
    StampParts(c);
    Reassemble(s);
  }

  lemma Reassemble(s: string)
    requires |s| == STAMP_WIDTH && s[8] == 'T' && s[15] == 'Z'
    ensures s == s[..8] + ("T" + (s[9..15] + "Z"))
  {
  }

  lemma DateInverts(d: string, c: Civil)
    requires AllDigits(d) && |d| == 8
    requires c.year == Value(d[..4]) && c.month == Value(d[4..6]) && c.day == Value(d[6..8])
    ensures DatePart(c) == d
  {
    ValueInverse(d[..4]);
    ValueInverse(d[4..6]);
    ValueInverse(d[6..8]);
    assert d == d[..4] + (d[4..6] + d[6..8]);
  }

  lemma TimeInverts(t: string, c: Civil)
    requires AllDigits(t) && |t| == 6
    requires c.hour == Value(t[..2]) && c.minute == Value(t[2..4]) && c.second == Value(t[4..6])
    ensures TimePart(c) == t
  {
    ValueInverse(t[..2]);
    ValueInverse(t[2..4]);
    ValueInverse(t[4..6]);
    assert t == t[..2] + (t[2..4] + t[4..6]);
  }

  /** One two-or-four digit field, then the rest. */
  lemma FieldOrder(m: nat, n: nat, w: nat, x: string, y: string)
    requires m < Pow10(w) && n < Pow10(w)
    ensures Less(Pad(m, w) + x, Pad(n, w) + y) <==> m < n || (m == n && Less(x, y))
  {
    PadIsValue(m, w); PadWidth(m, w);
    PadIsValue(n, w); PadWidth(n, w);
    DigitOrder(Pad(m, w), Pad(n, w));
    LessByField(Pad(m, w), Pad(n, w), x, y);
  }

  function ClockPart(c: Civil): string {
    Pad(c.hour, 2) + (Pad(c.minute, 2) + (Pad(c.second, 2) + "Z"))
  }

  lemma ClockPartOrder(a: Civil, b: Civil)
    requires ValidCivil(a) && ValidCivil(b)
    ensures Less(ClockPart(a), ClockPart(b)) <==>
      a.hour < b.hour || (a.hour == b.hour && (a.minute < b.minute || (a.minute == b.minute && a.second < b.second)))
  {
    SmallPowers();
    FieldOrder(a.second, b.second, 2, "Z", "Z");
    LessIrreflexive("Z");
    FieldOrder(a.minute, b.minute, 2, Pad(a.second, 2) + "Z", Pad(b.second, 2) + "Z");
    FieldOrder(a.hour, b.hour, 2, Pad(a.minute, 2) + (Pad(a.second, 2) + "Z"), Pad(b.minute, 2) + (Pad(b.second, 2) + "Z"));
  }

  /** Stamps sort as the seconds they name: fixed-width UTC fields, most significant first. */
  lemma StampOrder(a: Civil, b: Civil)
    requires ValidCivil(a) && ValidCivil(b)
    ensures Less(Stamp(a), Stamp(b)) <==> CivilLess(a, b)
  {
    SmallPowers();
    ClockPartOrder(a, b);
    LessAfterPrefix("T", ClockPart(a), ClockPart(b));
    FieldOrder(a.day, b.day, 2, "T" + ClockPart(a), "T" + ClockPart(b));
    FieldOrder(a.month, b.month, 2, Pad(a.day, 2) + ("T" + ClockPart(a)), Pad(b.day, 2) + ("T" + ClockPart(b)));
    FieldOrder(a.year, b.year, 4, Pad(a.month, 2) + (Pad(a.day, 2) + ("T" + ClockPart(a))),
                                  Pad(b.month, 2) + (Pad(b.day, 2) + ("T" + ClockPart(b))));
  }

  /** One rotated segment: the second of its rotation and the sequence number within that second. */
  datatype Key = Key(stamp: string, seqNo: nat)

  predicate KeyLess(a: Key, b: Key) {
    Less(a.stamp, b.stamp) || (a.stamp == b.stamp && a.seqNo < b.seqNo)
  }

  /** What follows "base." in a plain segment's name. */
  function Suffix(k: Key): string {
    if k.seqNo == 0 then k.stamp else k.stamp + ("." + Pad(k.seqNo, SEQ_WIDTH))
  }

  /** The key a trimmed name stands for, if it is a segment's. */
  function KeyOfSuffix(suffix: string): Option<string> {
    if |suffix| > STAMP_WIDTH then
      if suffix[STAMP_WIDTH] != '.' then None
      else
        var seqPart := suffix[STAMP_WIDTH + 1..];
        if |seqPart| != SEQ_WIDTH || !AllDigits(seqPart) || !ValidStamp(suffix[..STAMP_WIDTH]) then None
        else Some(suffix)
    else if |suffix| != STAMP_WIDTH || !ValidStamp(suffix) then None
    else Some(suffix)
  }

  /** The key string `findSegments` files a path under, if the path is a segment of base. */
  function SegmentKey(base: string, path: string): Option<string> {
    KeyOfSuffix(TrimSuffix(TrimPrefix(path, base + "."), GZ))
  }

  /** The names one directory can hold, as far as the log is concerned. */
  datatype Name = Live | Plain(key: Key) | Gz(key: Key) | GzTmp(key: Key) | Foreign(path: string)

  function Render(base: string, n: Name): string {
    match n
    case Live => base
    case Plain(k) => base + "." + Suffix(k)
    case Gz(k) => base + "." + Suffix(k) + GZ
    case GzTmp(k) => base + "." + Suffix(k) + GZ + TMP
    case Foreign(p) => p
  }

  /** A segment name the reader will recognise as one. */
  predicate Recognised(k: Key) { k.seqNo < SEQ_LIMIT }

  lemma SeqWidth(n: nat)
    ensures AllDigits(Pad(n, SEQ_WIDTH)) && |Pad(n, SEQ_WIDTH)| >= SEQ_WIDTH
    ensures |Pad(n, SEQ_WIDTH)| == SEQ_WIDTH <==> n < SEQ_LIMIT
  {
    SmallPowers();
    PadIsValue(n, SEQ_WIDTH);
    PadWidth(n, SEQ_WIDTH);
  }

  lemma KeyOfSuffixInverts(k: Key)
    requires ValidStamp(k.stamp)
    ensures KeyOfSuffix(Suffix(k)) == (if k.seqNo < 1000000 then Some(Suffix(k)) else None)
  {
    SeqWidth(k.seqNo);
    if k.seqNo > 0 {
      var suffix, p := Suffix(k), Pad(k.seqNo, SEQ_WIDTH);
      assert suffix[STAMP_WIDTH] == '.' && suffix[STAMP_WIDTH + 1..] == p && suffix[..STAMP_WIDTH] == k.stamp;
    }
  }

  lemma SuffixLast(k: Key)
    requires ValidStamp(k.stamp)
    ensures Suffix(k) != "" && Suffix(k)[|Suffix(k)| - 1] != 'z'
  {
    SeqWidth(k.seqNo);
    if k.seqNo > 0 {
      var p := Pad(k.seqNo, SEQ_WIDTH);
      assert Suffix(k)[|Suffix(k)| - 1] == p[|p| - 1] && IsDigit(p[|p| - 1]);
    }
  }

  /** Segment keys, plain or compressed, are recognised exactly below 10^6 rotations in one second. */
  lemma SegmentKeyInverts(base: string, k: Key)
    requires ValidStamp(k.stamp)
    ensures SegmentKey(base, Render(base, Plain(k))) == (if k.seqNo < 1000000 then Some(Suffix(k)) else None)
    ensures SegmentKey(base, Render(base, Gz(k))) == (if k.seqNo < 1000000 then Some(Suffix(k)) else None)
  {
    var suffix := Suffix(k);
    KeyOfSuffixInverts(k);
    TrimConcat(base + ".", suffix);
    assert Render(base, Gz(k)) == (base + ".") + (suffix + GZ);
    TrimConcat(base + ".", suffix + GZ);
    TrimConcat(suffix, GZ);
    SuffixLast(k);
    SuffixKeepsLast(suffix, GZ);
  }

  /** A half-written archive is never taken for a segment. */
  lemma TemporaryIsNoSegment(base: string, k: Key)
    requires ValidStamp(k.stamp)
    ensures SegmentKey(base, Render(base, GzTmp(k))) == None
  {
    SeqWidth(k.seqNo);
    var full := Suffix(k) + GZ + TMP;
    assert Render(base, GzTmp(k)) == (base + ".") + full;
    TrimConcat(base + ".", full);
    SuffixKeepsLast(full, GZ);
    assert full[|full| - 1] == 'p';
    var seqPart := full[STAMP_WIDTH + 1..];
    assert seqPart[|seqPart| - 1] == 'p' && !IsDigit('p');
  }

  /** Different segments have different names, so no rename or create can hit another segment's file. */
  lemma NamesAreDistinct(base: string, a: Name, b: Name)
    requires !a.Foreign? && !b.Foreign?
    requires (a.Live? || ValidStamp(a.key.stamp)) && (b.Live? || ValidStamp(b.key.stamp))
    requires Render(base, a) == Render(base, b)
    ensures a == b
  {
    if !a.Live? && !b.Live? {
      var ta, tb := Tail(a), Tail(b);
      RenderByTail(base, a);
      RenderByTail(base, b);
      assert ta == Render(base, a)[|base| + 1..] == tb;
      TailDetermines(a, b);
    } else if a.Live? && !b.Live? {
      RenderByTail(base, b);
    } else if b.Live? && !a.Live? {
      RenderByTail(base, a);
    }
  }

  function Ending(n: Name): string {
    if n.Gz? then GZ else if n.GzTmp? then GZ + TMP else ""
  }

  function Tail(n: Name): string
    requires n.Plain? || n.Gz? || n.GzTmp?
  {
    Suffix(n.key) + Ending(n)
  }

  lemma RenderByTail(base: string, n: Name)
    requires n.Plain? || n.Gz? || n.GzTmp?
    ensures Render(base, n) == (base + ".") + Tail(n)
    ensures Render(base, n)[|base| + 1..] == Tail(n)
  {
    assert Render(base, n) == (base + ".") + Tail(n);
  }

  lemma TailParts(n: Name)
    requires n.Plain? || n.Gz? || n.GzTmp?
    requires ValidStamp(n.key.stamp)
    ensures Tail(n)[..STAMP_WIDTH] == n.key.stamp
    ensures Tail(n)[STAMP_WIDTH..] == SeqText(n.key) + Ending(n)
  {
    assert Tail(n) == n.key.stamp + (SeqText(n.key) + Ending(n));
  }

  lemma SeqTextDetermines(a: Key, b: Key)
    requires SeqText(a) == SeqText(b)
    ensures a.seqNo == b.seqNo
  {
    PadIsValue(a.seqNo, SEQ_WIDTH);
    PadIsValue(b.seqNo, SEQ_WIDTH);
    if a.seqNo > 0 && b.seqNo > 0 {
      assert SeqText(a)[1..] == Pad(a.seqNo, SEQ_WIDTH);
      assert SeqText(b)[1..] == Pad(b.seqNo, SEQ_WIDTH);
    }
  }

  lemma TailDetermines(a: Name, b: Name)
    requires (a.Plain? || a.Gz? || a.GzTmp?) && (b.Plain? || b.Gz? || b.GzTmp?)
    requires ValidStamp(a.key.stamp) && ValidStamp(b.key.stamp)
    requires Tail(a) == Tail(b)
    ensures a == b
  {
    TailParts(a);
    TailParts(b);
    // The last character tells plain, archive and temporary apart.
    LastOf(a);
    LastOf(b);
    assert Ending(a) == Ending(b);
    TrimConcat(SeqText(a.key), Ending(a));
    TrimConcat(SeqText(b.key), Ending(b));
    SeqTextDetermines(a.key, b.key);
  }

  function SeqText(k: Key): string {
    if k.seqNo == 0 then "" else "." + Pad(k.seqNo, SEQ_WIDTH)
  }

  lemma LastOf(n: Name)
    requires n.Plain? || n.Gz? || n.GzTmp?
    ensures var r := SeqText(n.key) + Ending(n);
      && (n.Plain? ==> r == "" || IsDigit(r[|r| - 1]))
      && (n.Gz? ==> r != "" && r[|r| - 1] == 'z')
      && (n.GzTmp? ==> r != "" && r[|r| - 1] == 'p')
  {
    SeqWidth(n.key.seqNo);
  }

  /** Sorting recognised segment names as strings puts them in rotation order. */
  lemma SuffixOrder(a: Key, b: Key)
    requires ValidStamp(a.stamp) && ValidStamp(b.stamp) && Recognised(a) && Recognised(b)
    ensures Less(Suffix(a), Suffix(b)) <==> KeyLess(a, b)
  {
    var x, y := SeqText(a), SeqText(b);
    assert Suffix(a) == a.stamp + x && Suffix(b) == b.stamp + y;
    LessByField(a.stamp, b.stamp, x, y);
    LessIrreflexive(x);
    if a.seqNo > 0 && b.seqNo > 0 {
      SeqWidth(a.seqNo);
      SeqWidth(b.seqNo);
      PadIsValue(a.seqNo, SEQ_WIDTH);
      PadIsValue(b.seqNo, SEQ_WIDTH);
      LessAfterPrefix(".", Pad(a.seqNo, SEQ_WIDTH), Pad(b.seqNo, SEQ_WIDTH));
      DigitOrder(Pad(a.seqNo, SEQ_WIDTH), Pad(b.seqNo, SEQ_WIDTH));
    }
  }
}
