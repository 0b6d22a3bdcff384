/** Byte strings as the program compares, pads and trims them. */
module Text {

  /** The order `sort.Strings` uses: lexicographic, a proper prefix first. */
  predicate Less(a: string, b: string) {
    b != "" && (a == "" || a[0] < b[0] || (a[0] == b[0] && Less(a[1..], b[1..])))
  }

  predicate LessEq(a: string, b: string) {
    a == b || Less(a, b)
  }

  lemma {:induction false} LessIrreflexive(a: string)
    ensures !Less(a, a)
  {
    if a != "" { LessIrreflexive(a[1..]); }
  }

  lemma {:induction false} LessTransitive(a: string, b: string, c: string)
    requires Less(a, b) && Less(b, c)
    ensures Less(a, c)
  {
    if a != "" && a[0] == b[0] && b[0] == c[0] { LessTransitive(a[1..], b[1..], c[1..]); }
  }

  lemma {:induction false} LessTotal(a: string, b: string)
    ensures a == b || Less(a, b) || Less(b, a)
  {
    if a != "" && b != "" && a[0] == b[0] {
      LessTotal(a[1..], b[1..]);
      assert a == [a[0]] + a[1..] && b == [b[0]] + b[1..];
    }
  }

  /** A common prefix does not matter. */
  lemma {:induction false} LessAfterPrefix(p: string, a: string, b: string)
    ensures Less(p + a, p + b) <==> Less(a, b)
  {
    if p == "" {
      assert p + a == a && p + b == b;
    } else {
      LessAfterPrefix(p[1..], a, b);
      assert (p + a)[1..] == p[1..] + a && (p + b)[1..] == p[1..] + b;
    }
  }

  /** Fields of one width are compared one after the other. */
  lemma {:induction false} LessByField(a: string, b: string, x: string, y: string)
    requires |a| == |b|
    ensures Less(a + x, b + y) <==> Less(a, b) || (a == b && Less(x, y))
  {
    if a == "" {
      assert a + x == x && b + y == y;
    } else {
      LessByField(a[1..], b[1..], x, y);
      assert (a + x)[1..] == a[1..] + x && (b + y)[1..] == b[1..] + y;
      assert a == [a[0]] + a[1..] && b == [b[0]] + b[1..];
    }
  }

  predicate IsDigit(c: char) { '0' <= c <= '9' }

  predicate AllDigits(s: string) { forall i :: 0 <= i < |s| ==> IsDigit(s[i]) }

  function DigitOf(d: nat): (c: char)
    requires d < 10
    ensures IsDigit(c)
  {
    '0' + d as char
  }

  function Pow10(w: nat): (p: nat)
    ensures p >= 1
  {
    if w == 0 then 1 else 10 * Pow10(w - 1)
  }

  /** `%0*d`: at least w digits, more when n does not fit. */
  function Pad(n: nat, w: nat): string
    decreases n + w
  {
    if w == 0 && n == 0 then ""
    else Pad(n / 10, if w == 0 then 0 else w - 1) + [DigitOf(n % 10)]
  }

  /** The number a digit string denotes. */
  function Value(s: string): nat
    requires AllDigits(s)
  {
    if s == "" then 0 else 10 * Value(s[..|s| - 1]) + (s[|s| - 1] - '0') as nat
  }

  lemma {:induction false} PadIsValue(n: nat, w: nat)
    ensures AllDigits(Pad(n, w)) && Value(Pad(n, w)) == n && |Pad(n, w)| >= w
    decreases n + w
  {
    if w != 0 || n != 0 {
      var q := if w == 0 then 0 else w - 1;
      PadIsValue(n / 10, q);
      var p := Pad(n / 10, q);
      assert Pad(n, w) == p + [DigitOf(n % 10)];
      assert Pad(n, w)[..|p|] == p;
    }
  }

  /** A number takes exactly w digits when it is below 10^w, and more when it is not. */
  lemma {:induction false} PadWidth(n: nat, w: nat)
    ensures |Pad(n, w)| == w <==> n < Pow10(w)
    decreases n + w
  {
    if w == 0 {
      if n != 0 { assert |Pad(n, 0)| > 0; }
    } else {
      PadWidth(n / 10, w - 1);
    }
  }

  lemma {:induction false} ValueInverse(s: string)
    requires AllDigits(s)
    ensures Pad(Value(s), |s|) == s
  {
    if s != "" {
      var p := s[..|s| - 1];
      ValueInverse(p);
      assert s == p + [s[|s| - 1]];
    }
  }

  /** Equally wide digit strings compare as the numbers do. */
  lemma {:induction false} DigitOrder(a: string, b: string)
    requires AllDigits(a) && AllDigits(b) && |a| == |b|
    ensures Less(a, b) <==> Value(a) < Value(b)
    ensures a == b <==> Value(a) == Value(b)
  {
    if a != "" {
      var n := |a| - 1;
      DigitOrder(a[..n], b[..n]);
      LessByField(a[..n], b[..n], a[n..], b[n..]);
      assert a == a[..n] + a[n..] && b == b[..n] + b[n..];
      assert a[n..][1..] == "" && b[n..][1..] == "";
    }
  }

  predicate HasPrefix(s: string, p: string) { |p| <= |s| && s[..|p|] == p }

  predicate HasSuffix(s: string, p: string) { |p| <= |s| && s[|s| - |p|..] == p }

  lemma SuffixKeepsLast(s: string, p: string)
    requires p != ""
    ensures HasSuffix(s, p) ==> s != "" && s[|s| - 1] == p[|p| - 1]
  {
    if HasSuffix(s, p) { assert s[|s| - |p|..][|p| - 1] == s[|s| - 1]; }
  }

  lemma TrimConcat(a: string, b: string)
    ensures TrimPrefix(a + b, a) == b
    ensures TrimSuffix(a + b, b) == a
  {
    assert (a + b)[..|a|] == a && (a + b)[|a|..] == b;
    assert (a + b)[|a + b| - |b|..] == b;
  }

  function TrimPrefix(s: string, p: string): string {
    if HasPrefix(s, p) then s[|p|..] else s
  }

  function TrimSuffix(s: string, p: string): string {
    if HasSuffix(s, p) then s[..|s| - |p|] else s
  }

  /** ASCII lower-casing of one character. */
  function LowerChar(c: char): char {
    if 'A' <= c <= 'Z' then c - 'A' + 'a' else c
  }

  function ToLower(s: string): (r: string)
    ensures |r| == |s| && forall i :: 0 <= i < |s| ==> r[i] == LowerChar(s[i])
  {
    if s == "" then "" else [LowerChar(s[0])] + ToLower(s[1..])
  }

  predicate IsSpace(c: char) { c == ' ' || c == '\t' || c == '\n' || c == '\r' || c == '\U{000B}' || c == '\U{000C}' }

  function TrimSpace(s: string): string
  {
    if s == "" then ""
    else if IsSpace(s[0]) then TrimSpace(s[1..])
    else if IsSpace(s[|s| - 1]) then TrimSpace(s[..|s| - 1])
    else s
  }

  /** Nothing but spaces and the control characters from tab to carriage return. */
  predicate Blank(s: string) { forall i :: 0 <= i < |s| ==> s[i] == ' ' || '\t' <= s[i] <= '\r' }

  predicate Trimmed(s: string) { s == "" || (!Blank(s[..1]) && !Blank(s[|s| - 1..])) }

  lemma BlankEnds(s: string)
    requires s != ""
    ensures Blank(s[..1]) <==> IsSpace(s[0])
    ensures Blank(s[|s| - 1..]) <==> IsSpace(s[|s| - 1])
  {
    assert s[..1][0] == s[0] && s[|s| - 1..][0] == s[|s| - 1];
  }

  /** A string between blanks is what trimming leaves. */
  lemma {:induction false} TrimSpaceIs(s: string, i: nat, j: nat)
    requires i <= j <= |s| && Trimmed(s[i..j]) && Blank(s[..i]) && Blank(s[j..])
    ensures TrimSpace(s) == s[i..j]
    decreases |s|
  {
    if i > 0 {
      TrimSpaceFront(s, i, j);
    } else if i == j && s != "" {
      assert s[j..][0] == s[0] && s[1..][0..] == s[j..][1..];
      TrimSpaceIs(s[1..], 0, 0);
    } else if j < |s| {
      TrimSpaceBack(s, j);
    } else {
      TrimSpaceNone(s);
    }
  }

  lemma TrimSpaceNone(s: string)
    requires Trimmed(s[0..|s|])
    ensures TrimSpace(s) == s[0..|s|]
  {
    assert s[0..|s|] == s;
    if s != "" { BlankEnds(s); }
  }

  lemma {:induction false} TrimSpaceFront(s: string, i: nat, j: nat)
    requires 0 < i <= j <= |s| && Trimmed(s[i..j]) && Blank(s[..i]) && Blank(s[j..])
    ensures TrimSpace(s) == s[i..j]
    decreases |s|, 0
  {
    var t := s[1..];
    assert t[i - 1..j - 1] == s[i..j] && t[..i - 1] == s[..i][1..] && t[j - 1..] == s[j..];
    assert s[..i][0] == s[0];
    TrimSpaceIs(t, i - 1, j - 1);
  }

  lemma {:induction false} TrimSpaceBack(s: string, j: nat)
    requires 0 < j < |s| && Trimmed(s[0..j]) && Blank(s[j..])
    ensures TrimSpace(s) == s[0..j]
    decreases |s|, 0
  {
    var n := |s| - 1;
    var t := s[..n];
    assert t[0..j] == s[0..j] && t[j..] == s[j..][..n - j] && t[..0] == "";
    assert s[j..][n - j] == s[n] && s[0..j][0] == s[0];
    BlankEnds(s[0..j]);
    TrimSpaceIs(t, 0, j);
  }

  /** What trimming leaves begins and ends with something, and only blanks are gone. */
  lemma TrimSpaceParts(s: string) returns (i: nat, j: nat)
    ensures i <= j <= |s| && TrimSpace(s) == s[i..j] && Trimmed(s[i..j]) && Blank(s[..i]) && Blank(s[j..])
  {
    i, j := 0, |s|;
    while i < |s| && IsSpace(s[i])
      invariant i <= |s| && Blank(s[..i])
    {
      i := i + 1;
    }
    while i < j && IsSpace(s[j - 1])
      invariant i <= j <= |s| && Blank(s[j..])
    {
      j := j - 1;
    }
    if i < j { BlankEnds(s[i..j]); }
    TrimSpaceIs(s, i, j);
  }

  predicate SameLetter(c: char, d: char) {
    || c == d
    || ('A' <= c <= 'Z' && d as int == c as int + 32)
    || ('A' <= d <= 'Z' && c as int == d as int + 32)
  }

  /** Equal up to the case of ASCII letters. */
  predicate SameButCase(a: string, b: string) { |a| == |b| && forall i :: 0 <= i < |a| ==> SameLetter(a[i], b[i]) }

  lemma ToLowerIff(a: string, b: string)
    ensures ToLower(a) == ToLower(b) <==> SameButCase(a, b)
  {
    if ToLower(a) == ToLower(b) {
      forall i | 0 <= i < |a| ensures SameLetter(a[i], b[i]) { assert ToLower(a)[i] == ToLower(b)[i]; }
    } else if |a| == |b| {
      var i :| 0 <= i < |a| && ToLower(a)[i] != ToLower(b)[i];
      assert !SameLetter(a[i], b[i]);
    }
  }

  lemma ToLowerConcat(a: string, b: string)
    ensures ToLower(a + b) == ToLower(a) + ToLower(b)
  {
  }

  function TrimSlashes(path: string): string {
    if path != "" && path[|path| - 1] == '/' then TrimSlashes(path[..|path| - 1]) else path
  }

  function AfterLastSlash(path: string): string {
    if path == "" || path[|path| - 1] == '/' then "" else AfterLastSlash(path[..|path| - 1]) + [path[|path| - 1]]
  }

  /** `filepath.Base` on a slash-separated path. */
  function Base(path: string): string {
    if path == "" then "."
    else if TrimSlashes(path) == "" then "/"
    else AfterLastSlash(TrimSlashes(path))
  }

  predicate OnlySlashes(s: string) { forall i :: 0 <= i < |s| ==> s[i] == '/' }

  predicate SlashFree(s: string) { forall i :: 0 <= i < |s| ==> s[i] != '/' }

  lemma {:induction false} TrimSlashesIs(path: string, j: nat)
    requires j <= |path| && OnlySlashes(path[j..]) && (j > 0 ==> path[j - 1] != '/')
    ensures TrimSlashes(path) == path[..j]
    decreases |path|
  {
    if j < |path| {
      var n := |path| - 1;
      assert path[j..][n - j] == path[n] && path[..n][j..] == path[j..][..n - j] && path[..n][..j] == path[..j];
      TrimSlashesIs(path[..n], j);
    } else {
      assert path[..j] == path;
    }
  }

  lemma {:induction false} AfterLastSlashIs(s: string, i: nat)
    requires i <= |s| && SlashFree(s[i..]) && (i > 0 ==> s[i - 1] == '/')
    ensures AfterLastSlash(s) == s[i..]
    decreases |s|
  {
    if i < |s| {
      var n := |s| - 1;
      assert s[i..][n - i] == s[n] && s[..n][i..] == s[i..][..n - i];
      AfterLastSlashIs(s[..n], i);
      assert s[i..] == s[i..][..n - i] + [s[n]];
    }
  }

  /** The base of a path is its last name, whatever directory and final slashes are around it. */
  lemma BaseIs(path: string, i: nat, j: nat)
    requires i < j <= |path| && SlashFree(path[i..j]) && OnlySlashes(path[j..]) && (i > 0 ==> path[i - 1] == '/')
    ensures Base(path) == path[i..j]
  {
    assert path[i..j][j - 1 - i] == path[j - 1];
    TrimSlashesIs(path, j);
    assert path[..j][i..] == path[i..j];
    AfterLastSlashIs(path[..j], i);
  }

  lemma BaseOfNone(path: string)
    requires OnlySlashes(path)
    ensures Base(path) == if path == "" then "." else "/"
  {
    assert path[0..] == path;
    TrimSlashesIs(path, 0);
  }

  predicate IsAbs(path: string) { |path| > 0 && path[0] == '/' }
}
