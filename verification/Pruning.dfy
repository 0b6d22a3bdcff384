/** Retention: deleting the oldest segments, and the one leftover that spoils it. */
module Pruning {
  import opened SegmentNames
  import opened RotatingLog
  import opened RotatingLogSafety
  import opened SegmentLists
  import opened Permutations
  import opened Options

  /** The keys of the segments a prune deletes: all but the newest max of those listed. */
  ghost function Doomed(s: set<Key>, max: int): seq<Key> {
    if 0 < max < |s| then Sorted(s)[..|s| - max] else []
  }

  function Names(q: seq<Name>): set<Name> { set n | n in q }

  ghost function Pruned(dir: Dir, max: int): Dir {
    dir - Names(PreferredAll(dir, Doomed(SegmentKeys(dir), max)))
  }

  lemma DoomedNames(dir: Dir, s: set<Key>, max: int)
    requires 0 < max < |s|
    ensures PreferredAll(dir, Sorted(s))[..|s| - max] == PreferredAll(dir, Doomed(s, max))
  {
  }

  /** The newest max keys. */
  ghost function Kept(s: set<Key>, max: int): set<Key> {
    set k | k in s && k !in Doomed(s, max)
  }

  lemma TailMembers(q: seq<Key>, n: nat)
    requires n <= |q| && Distinct(q)
    ensures forall k :: k in q[n..] <==> k in q && k !in q[..n]
  {
    assert forall i :: 0 <= i < n ==> q[i] == q[..n][i];
    assert forall i :: n <= i < |q| ==> q[i] == q[n..][i - n];
  }

  lemma KeptSize(q: seq<Key>, t: set<Key>)
    requires Sorted(t) == q
    ensures |t| == |q|
  {
  }

  lemma KeptPartition(s: set<Key>, max: int)
    requires 0 < max < |s|
    ensures Sorted(Kept(s, max)) == Sorted(s)[|s| - max..] && |Kept(s, max)| == max
    ensures forall k :: k in s <==> k in Kept(s, max) || k in Doomed(s, max)
  {
    KeptMembers(s, max);
    SplitKeys(s, |s| - max, Kept(s, max));
  }

  lemma KeptMembers(s: set<Key>, max: int)
    requires 0 < max < |s|
    ensures Doomed(s, max) == Sorted(s)[..|s| - max]
    ensures forall k :: k in Kept(s, max) <==> k in s && k !in Doomed(s, max)
  {
  }

  /** The keys that are not among the first n of the sorted ones are the others. */
  lemma SplitKeys(s: set<Key>, n: nat, t: set<Key>)
    requires n <= |s| && forall k :: k in t <==> k in s && k !in Sorted(s)[..n]
    ensures Sorted(t) == Sorted(s)[n..] && |t| == |s| - n
    ensures forall k :: k in s <==> k in t || k in Sorted(s)[..n]
  {
    var q := Sorted(s);
    SortedDistinct(s);
    SortedAscending(s);
    SortedMembers(s);
    TailMembers(q, n);
    forall k | k in q[..n] ensures k in s { assert k in q; }
    AscendingIsSorted(q[n..], t);
    KeptSize(q[n..], t);
  }

  lemma ArchiveSplits(dir: Dir, s: set<Key>, t: set<Key>, q: seq<Key>, n: nat)
    requires q == Sorted(s) && n <= |q| && Sorted(t) == q[n..]
    ensures Archive(dir, s) == Flat(dir, q[..n]) + Archive(dir, t)
  {
    FlatConcat(dir, q[..n], q[n..]);
    assert q[..n] + q[n..] == q;
    ArchiveIsFlat(dir, s);
    ArchiveIsFlat(dir, t);
  }

  /** An archive a crash left beside its plain file. */
  predicate Twin(dir: Dir, k: Key) { Plain(k) in dir && Gz(k) in dir }

  lemma DroppedNames(dir: Dir, q: seq<Key>, n: Name)
    ensures n in dir - Names(PreferredAll(dir, q)) <==> n in dir && !((n.Plain? || n.Gz?) && n.key in q && n == Preferred(dir, n.key))
  {
    var gone := PreferredAll(dir, q);
    if n in gone {
      var i :| 0 <= i < |gone| && gone[i] == n;
      assert q[i] in q;
    }
    if (n.Plain? || n.Gz?) && n.key in q && n == Preferred(dir, n.key) {
      var i :| 0 <= i < |q| && q[i] == n.key;
      assert gone[i] == n;
    }
  }

  lemma DroppedKeys(dir: Dir, q: seq<Key>, k: Key)
    ensures var e := dir - Names(PreferredAll(dir, q));
      && (k in SegmentKeys(e) <==> k in SegmentKeys(dir) && (k !in q || Twin(dir, k)))
      && (k !in q ==> Content(e, k) == Content(dir, k))
  {
    var e := dir - Names(PreferredAll(dir, q));
    UsedIn(dir, k);
    UsedIn(e, k);
    DroppedNames(dir, q, Plain(k));
    DroppedNames(dir, q, Gz(k));
  }

  /**
   * Pruning an oversized log keeps exactly the newest max segments if and only if none of the deleted archives still
   * has its plain file beside it: that file, left by a crash between the rename and the remove, would be listed again.
   */
  lemma PruneKeepsNewest(dir: Dir, max: int)
    requires 0 < max < |SegmentKeys(dir)|
    ensures |SegmentKeys(Pruned(dir, max))| == max <==> NoTwins(dir, Doomed(SegmentKeys(dir), max))
    ensures NoTwins(dir, Doomed(SegmentKeys(dir), max)) ==>
      Archive(dir, SegmentKeys(dir))
        == Flat(dir, Doomed(SegmentKeys(dir), max)) + Archive(Pruned(dir, max), SegmentKeys(Pruned(dir, max)))
  {
    var s := SegmentKeys(dir);
    PruneSet(dir, s, max);
  }

  lemma PruneSet(dir: Dir, s: set<Key>, max: int)
    requires s == SegmentKeys(dir) && 0 < max < |s|
    ensures var e := dir - Names(PreferredAll(dir, Doomed(s, max)));
      && (|SegmentKeys(e)| == max <==> NoTwins(dir, Doomed(s, max)))
      && (NoTwins(dir, Doomed(s, max)) ==> Archive(dir, s) == Flat(dir, Doomed(s, max)) + Archive(e, SegmentKeys(e)))
  {
    KeptPartition(s, max);
    ArchiveSplits(dir, s, Kept(s, max), Sorted(s), |s| - max);
    PruneCore(dir, Doomed(s, max), Kept(s, max));
  }

  ghost predicate NoTwins(dir: Dir, q: seq<Key>) { forall k :: k in q ==> !Twin(dir, k) }

  lemma PruneCore(dir: Dir, q: seq<Key>, kept: set<Key>)
    requires forall k :: k in SegmentKeys(dir) <==> k in kept || k in q
    requires forall k :: k in kept ==> k !in q
    ensures var e := dir - Names(PreferredAll(dir, q));
      && (|SegmentKeys(e)| == |kept| <==> NoTwins(dir, q))
      && (NoTwins(dir, q) ==> Archive(e, SegmentKeys(e)) == Archive(dir, kept))
  {
    var e := dir - Names(PreferredAll(dir, q));
    var left := SegmentKeys(e);
    forall k ensures (k in left <==> k in kept || (k in q && Twin(dir, k)))
      && (k in kept ==> Content(e, k) == Content(dir, k)) {
      DroppedKeys(dir, q, k);
    }
    PruneCases(dir, e, q, kept, left);
  }

  lemma PruneCases(dir: Dir, e: Dir, q: seq<Key>, kept: set<Key>, left: set<Key>)
    requires forall k :: k in left <==> k in kept || (k in q && Twin(dir, k))
    requires forall k :: k in kept ==> k !in q && Content(e, k) == Content(dir, k)
    ensures |left| == |kept| <==> forall k :: k in q ==> !Twin(dir, k)
    ensures (forall k :: k in q ==> !Twin(dir, k)) ==> Archive(e, left) == Archive(dir, kept)
  {
    if forall k :: k in q ==> !Twin(dir, k) {
      assert left == kept;
      ArchiveFrame(e, dir, kept);
    } else {
      var k :| k in q && Twin(dir, k);
      SubsetSize(kept + {k}, left);
      assert |kept + {k}| == |kept| + 1;
    }
  }

  /** The hole a twin makes: deleting two old archives brings the first one back and loses the second. */
  lemma TwinLeavesHole(dir: Dir, a: Key, b: Key, c: Key)
    requires Recognised(a) && Recognised(b) && Recognised(c) && KeyLess(a, b) && KeyLess(b, c)
    requires forall k :: k in SegmentKeys(dir) <==> k in {a, b, c}
    requires Twin(dir, a) && !Twin(dir, b) && !Twin(dir, c)
    ensures Archive(dir, SegmentKeys(dir)) == Content(dir, a) + Content(dir, b) + Content(dir, c)
    ensures var e := Pruned(dir, 1); Archive(e, SegmentKeys(e)) == Content(e, a) + Content(dir, c)
  {
    assert SegmentKeys(dir) == {a, b, c};
    ArchiveOfThree(dir, a, b, c);
    DoomedOfThree({a, b, c}, a, b, c);
    TwinReturns(dir, a, b, c);
  }

  lemma DoomedOfThree(s: set<Key>, a: Key, b: Key, c: Key)
    requires s == {a, b, c} && KeyLess(a, b) && KeyLess(b, c)
    ensures Doomed(s, 1) == [a, b] && KeyLess(a, c) && a != b && b != c && a != c
  {
    KeyTransitive(a, b, c);
    KeyIrreflexive(a);
    KeyIrreflexive(b);
    AscendingIsSorted([a, b, c], s);
  }

  lemma TwinReturns(dir: Dir, a: Key, b: Key, c: Key)
    requires KeyLess(a, c) && a != b && b != c && a != c
    requires forall k :: k in SegmentKeys(dir) <==> k in {a, b, c}
    requires Twin(dir, a) && !Twin(dir, b)
    ensures var e := dir - Names(PreferredAll(dir, [a, b])); Archive(e, SegmentKeys(e)) == Content(e, a) + Content(dir, c)
  {
    var e := dir - Names(PreferredAll(dir, [a, b]));
    forall k ensures k in SegmentKeys(e) <==> k in {a, c} { DroppedKeys(dir, [a, b], k); }
    assert SegmentKeys(e) == {a, c};
    DroppedKeys(dir, [a, b], c);
    ArchiveOfTwo(e, a, c);
  }

  // ---------------------------------------------------------------- when what is left is a suffix

  predicate IsSuffix<T(==)>(a: seq<T>, b: seq<T>) { |a| <= |b| && a == b[|b| - |a|..] }

  lemma SuffixBefore<T>(a: seq<T>, b: seq<T>, c: seq<T>)
    ensures IsSuffix(a + c, b + c) <==> IsSuffix(a, b)
  {
    if |a| <= |b| {
      var n := |b| - |a|;
      assert (b + c)[n..] == b[n..] + c;
      if a + c == b[n..] + c {
        assert a == (a + c)[..|a|] == (b[n..] + c)[..|a|] == b[n..];
      }
    }
  }

  lemma SuffixEndsAlike<T>(a: seq<T>, b: seq<T>)
    ensures IsSuffix(a, b) && a != [] ==> a[|a| - 1] == b[|b| - 1]
  {
  }

  lemma SuffixOfConcat<T>(a: seq<T>, b: seq<T>)
    ensures IsSuffix(b, a + b)
  {
  }

  function IsTwin(dir: Dir): Key -> bool { k => Twin(dir, k) }

  /** The deleted archives that come back, in order. */
  function Twins(dir: Dir, q: seq<Key>): seq<Key> { Filter(IsTwin(dir), q) }

  lemma TwinsSnoc(dir: Dir, q: seq<Key>, k: Key)
    ensures Twins(dir, q + [k]) == Twins(dir, q) + (if Twin(dir, k) then [k] else [])
    ensures forall j :: j in Twins(dir, q) <==> j in q && Twin(dir, j)
  {
    FilterMembers(IsTwin(dir), q);
    assert (q + [k])[..|q|] == q;
    assert IsTwin(dir)(k) == Twin(dir, k);
    assert forall j :: IsTwin(dir)(j) == Twin(dir, j);
  }

  /** No deleted archive with a twin is older than one without. */
  predicate TwinsLast(dir: Dir, q: seq<Key>) {
    forall i, j :: 0 <= i < j < |q| && Twin(dir, q[i]) ==> Twin(dir, q[j])
  }

  lemma TwinsLastSnoc(dir: Dir, q: seq<Key>, k: Key)
    ensures TwinsLast(dir, q + [k]) <==> TwinsLast(dir, q) && (Twin(dir, k) || Twins(dir, q) == [])
  {
    var g := q + [k];
    TwinsSnoc(dir, q, k);
    assert g[|q|] == k && forall i :: 0 <= i < |q| ==> g[i] == q[i];
    if TwinsLast(dir, g) {
      assert forall i, j :: 0 <= i < j < |q| && Twin(dir, q[i]) ==> g[j] == q[j] && Twin(dir, g[i]);
      if Twins(dir, q) != [] {
        assert Twins(dir, q)[0] in q;
        var i :| 0 <= i < |q| && q[i] == Twins(dir, q)[0];
        assert Twin(dir, g[i]);
      }
    }
    if TwinsLast(dir, q) && !Twin(dir, k) && Twins(dir, q) == [] {
      forall i | 0 <= i < |q| ensures !Twin(dir, q[i]) { assert q[i] in q; }
    }
  }

  /** The segments left are the newest of those there were exactly when the twins are the newest of the deleted. */
  lemma {:induction false} TwinsSuffixIff(dir: Dir, q: seq<Key>)
    ensures IsSuffix(Twins(dir, q), q) <==> TwinsLast(dir, q)
    decreases |q|
  {
    if q != [] {
      var init, k := q[..|q| - 1], q[|q| - 1];
      assert q == init + [k];
      TwinsSuffixIff(dir, init);
      TwinsLastSnoc(dir, init, k);
      TwinsSnoc(dir, init, k);
      var t := Twins(dir, init);
      if Twin(dir, k) {
        SuffixBefore(t, init, [k]);
      } else {
        assert Twins(dir, q) == t;
        SuffixEndsAlike(t, q);
        assert t != [] ==> t[|t| - 1] in t;
      }
    }
  }

  predicate NoRepeats(r: seq<string>) { forall i, j :: 0 <= i < j < |r| ==> r[i] != r[j] }

  /** Every deleted segment holds records, and its plain file, if it has both, the same ones. */
  predicate Agree(dir: Dir, q: seq<Key>) {
    forall k :: k in q ==>
      Content(dir, k) != [] && (Twin(dir, k) ==> dir[Plain(k)].Lines? && dir[Plain(k)].lines == Content(dir, k))
  }

  lemma {:induction false} TwinsFlatNotEmpty(dir: Dir, q: seq<Key>)
    requires forall k :: k in q ==> Content(dir, k) != []
    ensures forall x :: x in Flat(dir, Twins(dir, q)) ==> x in Flat(dir, q)
    ensures Flat(dir, Twins(dir, q)) == [] <==> Twins(dir, q) == []
    decreases |q|
  {
    if q != [] {
      var init, k := q[..|q| - 1], q[|q| - 1];
      assert q == init + [k];
      TwinsFlatNotEmpty(dir, init);
      TwinsSnoc(dir, init, k);
      FlatSnoc(dir, init, k);
      FlatSnoc(dir, Twins(dir, init), k);
      assert !Twin(dir, k) ==> Twins(dir, q) == Twins(dir, init);
    }
  }

  lemma {:induction false} TwinsFlatIff(dir: Dir, q: seq<Key>)
    requires (forall k :: k in q ==> Content(dir, k) != []) && NoRepeats(Flat(dir, q))
    ensures IsSuffix(Flat(dir, Twins(dir, q)), Flat(dir, q)) <==> TwinsLast(dir, q)
    decreases |q|
  {
    if q != [] {
      var init, k := q[..|q| - 1], q[|q| - 1];
      assert q == init + [k];
      var f, c := Flat(dir, init), Content(dir, k);
      FlatSnoc(dir, init, k);
      assert NoRepeats(f) by { assert forall i :: 0 <= i < |f| ==> f[i] == (f + c)[i]; }
      TwinsFlatIff(dir, init);
      TwinsLastSnoc(dir, init, k);
      TwinsSnoc(dir, init, k);
      TwinsFlatNotEmpty(dir, init);
      var t := Twins(dir, init);
      if Twin(dir, k) {
        FlatSnoc(dir, t, k);
        SuffixBefore(Flat(dir, t), f, c);
      } else {
        assert Twins(dir, q) == t;
        if t != [] { LastIsElsewhere(Flat(dir, t), f, c); }
      }
    }
  }

  /** Without repeats, what comes from before c does not end like c. */
  lemma LastIsElsewhere(t: seq<string>, f: seq<string>, c: seq<string>)
    requires t != [] && c != [] && NoRepeats(f + c) && forall x :: x in t ==> x in f
    ensures !IsSuffix(t, f + c)
  {
    var last := t[|t| - 1];
    assert last in t;
    var i :| 0 <= i < |f| && f[i] == last;
    var g := f + c;
    assert g[i] == last && g[|g| - 1] == c[|c| - 1];
    assert i < |g| - 1;
    SuffixEndsAlike(t, g);
  }

  lemma {:induction false} TwinsAscend(dir: Dir, q: seq<Key>)
    requires Ascending(q)
    ensures Ascending(Twins(dir, q)) && forall k :: k in Twins(dir, q) <==> k in q && Twin(dir, k)
    decreases |q|
  {
    if q != [] {
      var init, k := q[..|q| - 1], q[|q| - 1];
      assert q == init + [k];
      TwinsAscend(dir, init);
      TwinsSnoc(dir, init, k);
      forall j | j in init ensures KeyLess(j, k) {
        var i :| 0 <= i < |init| && init[i] == j;
        assert q[i] == j;
      }
    }
  }

  lemma {:induction false} FlatFrame(d: Dir, e: Dir, q: seq<Key>)
    requires forall k :: k in q ==> Content(d, k) == Content(e, k)
    ensures Flat(d, q) == Flat(e, q)
    decreases |q|
  {
    if q != [] {
      assert q == q[..|q| - 1] + [q[|q| - 1]];
      FlatFrame(d, e, q[..|q| - 1]);
    }
  }

  lemma AscendingApart(q: seq<Key>, r: seq<Key>)
    requires Ascending(q + r)
    ensures Ascending(q) && Ascending(r) && forall j, k :: j in q && k in r ==> KeyLess(j, k) && j != k
  {
    var g := q + r;
    assert forall i :: 0 <= i < |q| ==> g[i] == q[i];
    assert forall i :: 0 <= i < |r| ==> g[|q| + i] == r[i];
    forall j, k | j in q && k in r ensures KeyLess(j, k) && j != k {
      var i :| 0 <= i < |q| && q[i] == j;
      var m :| 0 <= m < |r| && r[m] == k;
      assert KeyLess(g[i], g[|q| + m]);
      KeyIrreflexive(j);
    }
  }

  /** After deleting the listed files of q, the twins of q are listed again, before the rest. */
  lemma LeftSorted(dir: Dir, q: seq<Key>, rest: seq<Key>, s: set<Key>)
    requires s == SegmentKeys(dir) && Ascending(q + rest) && forall k :: k in q + rest <==> k in s
    ensures Sorted(SegmentKeys(dir - Names(PreferredAll(dir, q)))) == Twins(dir, q) + rest
  {
    var e := dir - Names(PreferredAll(dir, q));
    var r := Twins(dir, q) + rest;
    AscendingApart(q, rest);
    TwinsAscend(dir, q);
    forall k ensures k in r <==> k in SegmentKeys(e) {
      DroppedKeys(dir, q, k);
      assert k in q + rest <==> k in q || k in rest;
    }
    AscendingIsSorted(r, SegmentKeys(e));
  }

  lemma LeftContents(dir: Dir, q: seq<Key>, k: Key)
    ensures var e := dir - Names(PreferredAll(dir, q));
      && (k !in q ==> Content(e, k) == Content(dir, k))
      && (k in q && Twin(dir, k) && Agree(dir, q) ==> Content(e, k) == Content(dir, k))
  {
    DroppedKeys(dir, q, k);
    DroppedNames(dir, q, Plain(k));
    DroppedNames(dir, q, Gz(k));
  }

  /** The listing before and after: the deleted segments, those of them that come back, and the kept ones. */
  lemma ListingSplits(dir: Dir, max: int)
    ensures var s := SegmentKeys(dir);
      && Sorted(s) == Doomed(s, max) + Sorted(Kept(s, max))
      && Sorted(SegmentKeys(Pruned(dir, max))) == Twins(dir, Doomed(s, max)) + Sorted(Kept(s, max))
  {
    var s := SegmentKeys(dir);
    var q, rest := Doomed(s, max), Sorted(Kept(s, max));
    KeptAfterDoomed(s, max);
    SortedMembers(s);
    SortedAscending(s);
    LeftSorted(dir, q, rest, s);
  }

  lemma KeptAfterDoomed(s: set<Key>, max: int)
    ensures Sorted(s) == Doomed(s, max) + Sorted(Kept(s, max))
  {
    if 0 < max < |s| {
      KeptPartition(s, max);
    } else {
      assert Kept(s, max) == s;
    }
  }

  /**
   * The segments listed after a prune are the newest of those listed before if and only if no deleted archive that
   * still has its plain file is older than a deleted one that has not.
   */
  lemma PrunedListingIsSuffixIff(dir: Dir, max: int)
    ensures IsSuffix(Sorted(SegmentKeys(Pruned(dir, max))), Sorted(SegmentKeys(dir)))
      <==> TwinsLast(dir, Doomed(SegmentKeys(dir), max))
  {
    var s := SegmentKeys(dir);
    ListingSplits(dir, max);
    TwinsSuffixIff(dir, Doomed(s, max));
    SuffixBefore(Twins(dir, Doomed(s, max)), Doomed(s, max), Sorted(Kept(s, max)));
  }

  /** What a reader gets, when the live file is readable. */
  ghost function Read(dir: Dir): seq<string> { Archive(dir, SegmentKeys(dir)) + LinesOf(dir, Live) }

  lemma ReadSplits(dir: Dir, q: seq<Key>, rest: seq<Key>)
    requires Sorted(SegmentKeys(dir)) == q + rest
    ensures Read(dir) == Flat(dir, q) + (Flat(dir, rest) + LinesOf(dir, Live))
  {
    ArchiveIsFlat(dir, SegmentKeys(dir));
    FlatConcat(dir, q, rest);
    Associative(Flat(dir, q), Flat(dir, rest), LinesOf(dir, Live));
  }

  lemma LeftReads(dir: Dir, q: seq<Key>, rest: seq<Key>)
    requires Ascending(q + rest) && Agree(dir, q)
    ensures var e := dir - Names(PreferredAll(dir, q));
      && Flat(e, Twins(dir, q)) == Flat(dir, Twins(dir, q)) && Flat(e, rest) == Flat(dir, rest)
      && LinesOf(e, Live) == LinesOf(dir, Live) && (Live in dir <==> Live in e) && (Live in dir ==> dir[Live] == e[Live])
  {
    var e := dir - Names(PreferredAll(dir, q));
    AscendingApart(q, rest);
    TwinsAscend(dir, q);
    forall k | k in Twins(dir, q) ensures Content(e, k) == Content(dir, k) { LeftContents(dir, q, k); }
    forall k | k in rest ensures Content(e, k) == Content(dir, k) { LeftContents(dir, q, k); }
    FlatFrame(e, dir, Twins(dir, q));
    FlatFrame(e, dir, rest);
    DroppedNames(dir, q, Live);
  }

  /**
   * The history read after a prune is a suffix of the one before if and only if no deleted archive with a plain twin
   * is older than a deleted one without: for segments a crash can leave, and records that differ from each other.
   */
  lemma PrunedHistoryIsSuffixIff(dir: Dir, max: int)
    requires var q := Doomed(SegmentKeys(dir), max); Agree(dir, q) && NoRepeats(Flat(dir, q))
    requires Live in dir && dir[Live].Lines?
    ensures History(dir) == Ok(Read(dir)) && History(Pruned(dir, max)) == Ok(Read(Pruned(dir, max)))
    ensures IsSuffix(Read(Pruned(dir, max)), Read(dir)) <==> TwinsLast(dir, Doomed(SegmentKeys(dir), max))
  {
    var q, rest := Doomed(SegmentKeys(dir), max), Sorted(Kept(SegmentKeys(dir), max));
    ListingSplits(dir, max);
    SortedAscending(SegmentKeys(dir));
    LeftReads(dir, q, rest);
    ReadSplits(dir, q, rest);
    ReadSplits(Pruned(dir, max), Twins(dir, q), rest);
    TwinsFlatIff(dir, q);
    SuffixBefore(Flat(dir, Twins(dir, q)), Flat(dir, q), Flat(dir, rest) + LinesOf(dir, Live));
  }

  /** Segments of an invariant state are as a crash can leave them. */
  lemma SoundSegmentsAgree(dir: Dir, max: int)
    requires forall k :: SoundKey(dir, k)
    ensures Agree(dir, Doomed(SegmentKeys(dir), max))
  {
    var s := SegmentKeys(dir);
    SortedMembers(s);
    forall k | k in Doomed(s, max)
      ensures Content(dir, k) != [] && (Twin(dir, k) ==> dir[Plain(k)].Lines? && dir[Plain(k)].lines == Content(dir, k))
    {
      assert k in Sorted(s);
      UsedIn(dir, k);
      assert SoundKey(dir, k);
    }
  }

  /** A record written twice can hide the hole: what comes back for the first then stands for the second. */
  lemma RepeatHidesHole(dir: Dir, a: Key, b: Key, c: Key, x: string)
    requires Recognised(a) && Recognised(b) && Recognised(c) && KeyLess(a, b) && KeyLess(b, c)
    requires forall k :: k in SegmentKeys(dir) <==> k in {a, b, c}
    requires Twin(dir, a) && !Twin(dir, b) && !Twin(dir, c) && Content(dir, a) == Content(dir, b) == [x]
    requires dir[Plain(a)] == Lines([x])
    ensures IsSuffix(Archive(Pruned(dir, 1), SegmentKeys(Pruned(dir, 1))), Archive(dir, SegmentKeys(dir)))
    ensures !TwinsLast(dir, Doomed(SegmentKeys(dir), 1))
  {
    TwinLeavesHole(dir, a, b, c);
    PrunedKeepsFirst(dir, a, b, c, x);
    PrunedReads(dir, Pruned(dir, 1), a, b, x, Content(dir, c));
  }

  lemma PrunedKeepsFirst(dir: Dir, a: Key, b: Key, c: Key, x: string)
    requires KeyLess(a, b) && KeyLess(b, c) && forall k :: k in SegmentKeys(dir) <==> k in {a, b, c}
    requires Twin(dir, a) && !Twin(dir, b) && Content(dir, a) == Content(dir, b) == [x] && dir[Plain(a)] == Lines([x])
    ensures Content(Pruned(dir, 1), a) == [x] && !TwinsLast(dir, Doomed(SegmentKeys(dir), 1))
  {
    assert SegmentKeys(dir) == {a, b, c};
    DoomedOfThree({a, b, c}, a, b, c);
    TwinReads(dir, a, b, x);
  }

  lemma PrunedReads(dir: Dir, e: Dir, a: Key, b: Key, x: string, rest: seq<string>)
    requires Archive(dir, SegmentKeys(dir)) == Content(dir, a) + Content(dir, b) + rest
    requires Archive(e, SegmentKeys(e)) == Content(e, a) + rest
    requires Content(dir, a) == [x] && Content(dir, b) == [x] && Content(e, a) == [x]
    ensures IsSuffix(Archive(e, SegmentKeys(e)), Archive(dir, SegmentKeys(dir)))
  {
    OneOfTwo(x, rest);
  }

  lemma TwinReads(dir: Dir, a: Key, b: Key, x: string)
    requires Twin(dir, a) && !Twin(dir, b) && Content(dir, a) == Content(dir, b) == [x] && dir[Plain(a)] == Lines([x])
    ensures Content(dir - Names(PreferredAll(dir, [a, b])), a) == [x] && !TwinsLast(dir, [a, b])
  {
    var q := [a, b];
    assert q[0] == a && q[1] == b && Agree(dir, q);
    LeftContents(dir, q, a);
  }

  lemma OneOfTwo(x: string, rest: seq<string>)
    ensures IsSuffix([x] + rest, [x] + [x] + rest)
  {
    assert ([x] + [x] + rest)[1..] == [x] + rest;
  }
}
