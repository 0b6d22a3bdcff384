/** Sorted lists of measurements: what sorting settles, whatever the order of equal elements. */
module OrderedReals {
  import opened Permutations

  predicate Ascending(s: seq<real>) { forall i, j :: 0 <= i < j < |s| ==> s[i] <= s[j] }

  /** Put x in front of the first element that is not smaller. */
  function Insert(s: seq<real>, x: real): seq<real> {
    if s == [] then [x]
    else if x <= s[0] then [x] + s
    else [s[0]] + Insert(s[1..], x)
  }

  function Sort(s: seq<real>): seq<real> {
    if s == [] then [] else Insert(Sort(s[..|s| - 1]), s[|s| - 1])
  }

  lemma {:induction false} InsertMembers(s: seq<real>, x: real)
    ensures multiset(Insert(s, x)) == multiset(s) + multiset{x}
    ensures |Insert(s, x)| == |s| + 1
  {
    if s == [] {
    } else if x <= s[0] {
      MultisetConcat([x], s);
    } else {
      InsertMembers(s[1..], x);
      assert s == [s[0]] + s[1..];
      MultisetConcat([s[0]], s[1..]);
      MultisetConcat([s[0]], Insert(s[1..], x));
    }
  }

  lemma {:induction false} InsertAscending(s: seq<real>, x: real)
    requires Ascending(s)
    ensures Ascending(Insert(s, x))
  {
    if s != [] && x > s[0] {
      var t := s[1..];
      InsertAscending(t, x);
      InsertMembers(t, x);
      var r := Insert(t, x);
      forall i | 0 <= i < |r| ensures s[0] <= r[i] {
        assert r[i] in multiset(r);
        assert r[i] == x || r[i] in t;
      }
    }
  }

  lemma {:induction false} InsertBelow(s: seq<real>, x: real)
    requires Ascending(s)
    ensures |Insert(s, x)| == |s| + 1 && forall i :: 0 <= i < |s| ==> Insert(s, x)[i] <= s[i]
  {
    if s != [] && x > s[0] { InsertBelow(s[1..], x); }
  }

  lemma {:induction false} SortFacts(s: seq<real>)
    ensures Ascending(Sort(s)) && multiset(Sort(s)) == multiset(s) && |Sort(s)| == |s|
    decreases |s|
  {
    if s != [] {
      var init, x := s[..|s| - 1], s[|s| - 1];
      SortFacts(init);
      InsertAscending(Sort(init), x);
      InsertMembers(Sort(init), x);
      assert s == init + [x];
      MultisetConcat(init, [x]);
    }
  }

  /** There is only one ascending arrangement of a collection of numbers. */
  lemma {:induction false} AscendingUnique(a: seq<real>, b: seq<real>)
    requires Ascending(a) && Ascending(b) && multiset(a) == multiset(b)
    ensures a == b
    decreases |a|
  {
    PermutationMembers(a, b);
    if a != [] {
      var n := |a| - 1;
      LastIsGreatest(a, b);
      LastIsGreatest(b, a);
      assert a[n] == b[n];
      assert a == a[..n] + [a[n]] && b == b[..n] + [b[n]];
      DropSame(a[..n], b[..n], a[n]);
      AscendingUnique(a[..n], b[..n]);
    }
  }

  lemma LastIsGreatest(a: seq<real>, b: seq<real>)
    requires Ascending(a) && a != [] && |a| == |b| && forall x :: x in a <==> x in b
    ensures b[|b| - 1] <= a[|a| - 1]
  {
    assert b[|b| - 1] in b;
    var i :| 0 <= i < |a| && a[i] == b[|b| - 1];
  }

  lemma SortPermutes(a: seq<real>, b: seq<real>)
    requires multiset(a) == multiset(b)
    ensures Sort(a) == Sort(b)
  {
    SortFacts(a);
    SortFacts(b);
    AscendingUnique(Sort(a), Sort(b));
  }

  /** More numbers can only push each place down. */
  lemma {:induction false} SortDominates(a: seq<real>, extra: seq<real>)
    ensures |Sort(a + extra)| == |a| + |extra| && |Sort(a)| == |a|
    ensures forall i :: 0 <= i < |a| ==> Sort(a + extra)[i] <= Sort(a)[i]
    decreases |extra|
  {
    SortFacts(a);
    if extra == [] {
      assert a + extra == a;
    } else {
      var init, x := extra[..|extra| - 1], extra[|extra| - 1];
      var shorter := a + init;
      assert a + extra == shorter + [x];
      SortDominates(a, init);
      SortSnoc(shorter, x);
      LowerStill(Sort(shorter + [x]), Sort(shorter), Sort(a));
    }
  }

  lemma LowerStill(u: seq<real>, v: seq<real>, w: seq<real>)
    requires |u| >= |v| >= |w|
    requires forall i :: 0 <= i < |v| ==> u[i] <= v[i]
    requires forall i :: 0 <= i < |w| ==> v[i] <= w[i]
    ensures forall i :: 0 <= i < |w| ==> u[i] <= w[i]
  {
  }

  lemma SortSnoc(s: seq<real>, x: real)
    ensures |Sort(s)| == |s| && |Sort(s + [x])| == |s| + 1
    ensures forall i :: 0 <= i < |s| ==> Sort(s + [x])[i] <= Sort(s)[i]
  {
    assert (s + [x])[..|s|] == s;
    SortFacts(s);
    InsertBelow(Sort(s), x);
  }

  // ---------------------------------------------------------------- counting

  function CountIn(s: seq<real>, lo: real, hi: real): nat {
    if s == [] then 0 else CountIn(s[..|s| - 1], lo, hi) + (if lo <= s[|s| - 1] <= hi then 1 else 0)
  }

  lemma {:induction false} CountConcat(a: seq<real>, b: seq<real>, lo: real, hi: real)
    ensures CountIn(a + b, lo, hi) == CountIn(a, lo, hi) + CountIn(b, lo, hi)
    decreases |b|
  {
    if b == [] {
      assert a + b == a;
    } else {
      CountConcat(a, b[..|b| - 1], lo, hi);
      assert (a + b)[..|a + b| - 1] == a + b[..|b| - 1];
    }
  }

  lemma {:induction false} CountPermutes(a: seq<real>, b: seq<real>, lo: real, hi: real)
    requires multiset(a) == multiset(b)
    ensures CountIn(a, lo, hi) == CountIn(b, lo, hi)
    decreases |a|
  {
    PermutationMembers(a, b);
    if a != [] {
      var init, e := a[..|a| - 1], a[|a| - 1];
      assert a == init + [e];
      var l, r := TakeOut(init, e, b);
      CountPermutes(init, l + r, lo, hi);
      CountConcat(l, [e] + r, lo, hi);
      CountConcat([e], r, lo, hi);
      CountConcat(l, r, lo, hi);
      CountConcat(init, [e], lo, hi);
    }
  }

  lemma {:induction false} CountAtMost(s: seq<real>, lo: real, hi: real)
    ensures CountIn(s, lo, hi) <= |s|
    ensures (forall i :: 0 <= i < |s| ==> !(lo <= s[i] <= hi)) ==> CountIn(s, lo, hi) == 0
    decreases |s|
  {
    if s != [] { CountAtMost(s[..|s| - 1], lo, hi); }
  }

  /** An element above the range leaves room for at most as many in range as precede it; below, as follow it. */
  lemma OutsideBoundsCount(s: seq<real>, i: nat, lo: real, hi: real)
    requires Ascending(s) && i < |s|
    ensures s[i] > hi ==> CountIn(s, lo, hi) <= i
    ensures s[i] < lo ==> CountIn(s, lo, hi) <= |s| - i - 1
  {
    assert s == s[..i] + s[i..] && s == s[..i + 1] + s[i + 1..];
    CountConcat(s[..i], s[i..], lo, hi);
    CountConcat(s[..i + 1], s[i + 1..], lo, hi);
    CountAtMost(s[..i], lo, hi);
    CountAtMost(s[i..], lo, hi);
    CountAtMost(s[..i + 1], lo, hi);
    CountAtMost(s[i + 1..], lo, hi);
  }

  // ---------------------------------------------------------------- the median

  function Median(values: seq<real>): real {
    if values == [] then 0.0 else
      var s := Sort(values);
      SortFacts(values);
      var mid := |s| / 2;
      if |s| % 2 == 1 then s[mid] else (s[mid - 1] + s[mid]) / 2.0
  }

  /** The median does not depend on the order of its arguments. */
  lemma MedianPermutes(a: seq<real>, b: seq<real>)
    requires multiset(a) == multiset(b)
    ensures Median(a) == Median(b)
  {
    PermutationMembers(a, b);
    SortPermutes(a, b);
  }

  /** Where more than half of the values lie, the median lies. */
  lemma MajorityHoldsMedian(values: seq<real>, lo: real, hi: real)
    requires 2 * CountIn(values, lo, hi) > |values|
    ensures lo <= Median(values) <= hi
  {
    var s := Sort(values);
    SortFacts(values);
    CountPermutes(s, values, lo, hi);
    CountAtMost(values, lo, hi);
    MiddleInside(s, lo, hi);
    MiddleOf(values);
  }

  lemma MiddleOf(values: seq<real>)
    requires values != []
    ensures |Sort(values)| == |values|
    ensures var s := Sort(values); Median(values) == if |s| % 2 == 1 then s[|s| / 2] else (s[|s| / 2 - 1] + s[|s| / 2]) / 2.0
  {
    SortFacts(values);
  }

  lemma MiddleInside(s: seq<real>, lo: real, hi: real)
    requires Ascending(s) && 2 * CountIn(s, lo, hi) > |s| > 0
    ensures lo <= s[|s| / 2] <= hi && (|s| % 2 == 0 ==> lo <= s[|s| / 2 - 1] <= hi)
  {
    var mid := |s| / 2;
    OutsideBoundsCount(s, mid, lo, hi);
    if |s| % 2 == 0 { OutsideBoundsCount(s, mid - 1, lo, hi); }
  }

  /** Half is too many: with one of two values replaced the median follows it anywhere. */
  lemma HalfMovesMedian(x: real)
    ensures Median([0.0, x]) == x / 2.0
  {
    assert [0.0, x][..1] == [0.0] && [0.0][..0] == [];
    assert Sort([0.0]) == Insert([], 0.0) == [0.0];
    assert Sort([0.0, x]) == Insert([0.0], x);
    if x > 0.0 { assert [0.0][1..] == []; }
  }

  // ---------------------------------------------------------------- sums of the smallest

  // ---------------------------------------------------------------- what makes it the median

  /** The values mirrored: each x becomes c - x. */
  function Reflected(values: seq<real>, c: real): (r: seq<real>)
    ensures |r| == |values| && forall i :: 0 <= i < |values| ==> r[i] == c - values[i]
  {
    seq(|values|, i requires 0 <= i < |values| => c - values[i])
  }

  function Reversed(s: seq<real>): (r: seq<real>)
    ensures |r| == |s| && forall i :: 0 <= i < |s| ==> r[i] == s[|s| - 1 - i]
  {
    if s == [] then [] else [s[|s| - 1]] + Reversed(s[..|s| - 1])
  }

  lemma {:induction false} ReversedPermutes(s: seq<real>)
    ensures multiset(Reversed(s)) == multiset(s)
    decreases |s|
  {
    if s != [] {
      ReversedPermutes(s[..|s| - 1]);
      assert s == s[..|s| - 1] + [s[|s| - 1]];
    }
  }

  lemma ReflectedPermutes(a: seq<real>, b: seq<real>, c: real)
    requires multiset(a) == multiset(b)
    ensures multiset(Reflected(a, c)) == multiset(Reflected(b, c))
  {
    var f := (x: real) => c - x;
    MapPermutes(f, a, b);
    assert Map(f, a) == Reflected(a, c) && Map(f, b) == Reflected(b, c);
  }

  lemma ReversedAscends(s: seq<real>, c: real)
    requires Ascending(s)
    ensures Ascending(Reversed(Reflected(s, c)))
  {
  }

  /** Sorting mirrored values gives the mirrored values the other way round. */
  lemma SortReflects(values: seq<real>, c: real)
    ensures Sort(Reflected(values, c)) == Reversed(Reflected(Sort(values), c))
  {
    var s, t := Sort(values), Sort(Reflected(values, c));
    SortFacts(values);
    SortFacts(Reflected(values, c));
    ReflectedPermutes(values, s, c);
    ReversedPermutes(Reflected(s, c));
    ReversedAscends(s, c);
    AscendingUnique(t, Reversed(Reflected(s, c)));
  }

  /** The median of mirrored values is the mirrored median: of two middle values it takes neither side. */
  lemma MedianReflects(values: seq<real>, c: real)
    requires values != []
    ensures Median(Reflected(values, c)) == c - Median(values)
  {
    SortReflects(values, c);
    SortFacts(values);
    SortFacts(Reflected(values, c));
    MirrorMiddle(Sort(values), c);
  }

  function Middle(s: seq<real>): real
    requires s != []
  {
    if |s| % 2 == 1 then s[|s| / 2] else (s[|s| / 2 - 1] + s[|s| / 2]) / 2.0
  }

  lemma MirrorMiddle(s: seq<real>, c: real)
    requires s != []
    ensures Middle(Reversed(Reflected(s, c))) == c - Middle(s)
  {
    var r, n := Reversed(Reflected(s, c)), |s|;
    assert r[n / 2] == c - s[n - 1 - n / 2];
    if n % 2 == 0 { assert r[n / 2 - 1] == c - s[n / 2]; }
  }

  function AtMost(m: real): real -> bool { (x: real) => x <= m }

  function AtLeast(m: real): real -> bool { (x: real) => x >= m }

  function CountIf(f: real -> bool, s: seq<real>): nat { |Filter(f, s)| }

  lemma {:induction false} CountPrefix(f: real -> bool, s: seq<real>, k: nat)
    requires k <= |s| && forall i :: 0 <= i < k ==> f(s[i])
    ensures CountIf(f, s) >= k
    decreases |s|
  {
    if s != [] { CountPrefix(f, s[..|s| - 1], if k < |s| then k else k - 1); }
  }

  lemma {:induction false} CountSuffix(f: real -> bool, s: seq<real>, k: nat)
    requires k <= |s| && forall i :: k <= i < |s| ==> f(s[i])
    ensures CountIf(f, s) >= |s| - k
    decreases |s|
  {
    if k < |s| { CountSuffix(f, s[..|s| - 1], k); }
  }

  lemma MiddleSplits(s: seq<real>, m: real)
    requires s != [] && Ascending(s) && m == Middle(s)
    ensures 2 * CountIf(AtMost(m), s) >= |s| && 2 * CountIf(AtLeast(m), s) >= |s|
  {
    CountPrefix(AtMost(m), s, (|s| + 1) / 2);
    CountSuffix(AtLeast(m), s, |s| / 2);
  }

  lemma CountIfPermutes(f: real -> bool, a: seq<real>, b: seq<real>)
    requires multiset(a) == multiset(b)
    ensures CountIf(f, a) == CountIf(f, b)
  {
    FilterPermutes(f, a, b);
    SameSize(Filter(f, a), Filter(f, b));
  }

  /** At least half of the values are no greater than the median, and at least half no smaller. */
  lemma MedianSplits(values: seq<real>)
    ensures 2 * CountIf(AtMost(Median(values)), values) >= |values|
    ensures 2 * CountIf(AtLeast(Median(values)), values) >= |values|
  {
    if values != [] {
      var m := Median(values);
      SortFacts(values);
      MiddleSplits(Sort(values), m);
      CountIfPermutes(AtMost(m), Sort(values), values);
      CountIfPermutes(AtLeast(m), Sort(values), values);
    }
  }

  lemma SameSize(a: seq<real>, b: seq<real>)
    requires multiset(a) == multiset(b)
    ensures |a| == |b|
  {
    assert |multiset(a)| == |a| && |multiset(b)| == |b|;
  }


  function SumOf(s: seq<real>): real {
    if s == [] then 0.0 else SumOf(s[..|s| - 1]) + s[|s| - 1]
  }

  lemma {:induction false} SumOrder(a: seq<real>, b: seq<real>)
    requires |a| == |b| && forall i :: 0 <= i < |a| ==> a[i] <= b[i]
    ensures SumOf(a) <= SumOf(b)
    decreases |a|
  {
    if a != [] { SumOrder(a[..|a| - 1], b[..|b| - 1]); }
  }

  lemma {:induction false} SumConcat(a: seq<real>, b: seq<real>)
    ensures SumOf(a + b) == SumOf(a) + SumOf(b)
    decreases |b|
  {
    if b == [] {
      assert a + b == a;
    } else {
      SumConcat(a, b[..|b| - 1]);
      assert (a + b)[..|a + b| - 1] == a + b[..|b| - 1];
    }
  }

  lemma {:induction false} SumPermutes(a: seq<real>, b: seq<real>)
    requires multiset(a) == multiset(b)
    ensures SumOf(a) == SumOf(b)
    decreases |a|
  {
    PermutationMembers(a, b);
    if a != [] {
      var init, e := a[..|a| - 1], a[|a| - 1];
      assert a == init + [e];
      var l, r := TakeOut(init, e, b);
      SumPermutes(init, l + r);
      SumConcat(l, [e] + r);
      SumConcat([e], r);
      SumConcat(l, r);
      SumConcat(init, [e]);
    }
  }

  /** The first n of the sorted list have the least sum among any n of the numbers. */
  lemma SmallestSum(chosen: seq<real>, rest: seq<real>, all: seq<real>)
    requires multiset(all) == multiset(chosen + rest)
    ensures |chosen| <= |Sort(all)| && SumOf(Sort(all)[..|chosen|]) <= SumOf(chosen)
  {
    SortPermutes(all, chosen + rest);
    SortDominates(chosen, rest);
    SortFacts(chosen);
    SumOrder(Sort(all)[..|chosen|], Sort(chosen));
    SumPermutes(Sort(chosen), chosen);
  }
}
