/** Sequences and sets in general: regrouping, rearranging one element at a time, mapping and filtering. */
module Permutations {

  predicate Distinct<T(==)>(s: seq<T>) { forall i, j :: 0 <= i < j < |s| ==> s[i] != s[j] }

  lemma SubsetSize<T>(a: set<T>, b: set<T>)
    requires a <= b
    ensures |a| <= |b|
  {
    assert b == a + (b - a);
  }

  lemma Associative<T>(a: seq<T>, b: seq<T>, c: seq<T>)
    ensures a + b + c == a + (b + c)
  {
  }

  /** Appending to the last of three parts. */
  lemma PushIn<T>(a: seq<T>, b: seq<T>, c: seq<T>, t: seq<T>)
    ensures (a + (b + c)) + t == a + (b + (c + t))
  {
  }

  lemma MultisetConcat<T>(a: seq<T>, b: seq<T>)
    ensures multiset(a + b) == multiset(a) + multiset(b)
  {
  }

  /** Taking the last element off one sequence takes it out of the middle of any permutation of it. */
  lemma TakeOut<T>(init: seq<T>, e: T, b: seq<T>) returns (l: seq<T>, r: seq<T>)
    requires multiset(init + [e]) == multiset(b)
    ensures b == l + ([e] + r) && multiset(init) == multiset(l + r)
  {
    MultisetConcat(init, [e]);
    assert e in multiset(b);
    var i :| 0 <= i < |b| && b[i] == e;
    l, r := b[..i], b[i + 1..];
    assert b == l + ([e] + r);
    MoveToEnd(l, e, r);
    DropSame(init, l + r, e);
  }

  lemma MoveToEnd<T>(l: seq<T>, e: T, r: seq<T>)
    ensures multiset(l + ([e] + r)) == multiset((l + r) + [e])
  {
    MultisetConcat(l, [e] + r);
    MultisetConcat([e], r);
    MultisetConcat(l, r);
    MultisetConcat(l + r, [e]);
  }

  lemma InsertAt<T>(s: seq<T>, j: nat, e: T)
    requires j <= |s|
    ensures multiset(s[..j] + [e] + s[j..]) == multiset(s + [e])
  {
    var l, r := s[..j], s[j..];
    assert s == l + r;
    MoveToEnd(l, e, r);
    assert l + [e] + r == l + ([e] + r);
  }

  lemma PermutationMembers<T>(a: seq<T>, b: seq<T>)
    requires multiset(a) == multiset(b)
    ensures |a| == |b| && forall x :: x in a <==> x in b
  {
    assert |multiset(a)| == |multiset(b)|;
    forall x ensures x in a <==> x in b {
      assert x in a <==> x in multiset(a);
      assert x in b <==> x in multiset(b);
    }
  }

  lemma DropSame<T>(a: seq<T>, b: seq<T>, e: T)
    requires multiset(a + [e]) == multiset(b + [e])
    ensures multiset(a) == multiset(b)
  {
    MultisetConcat(a, [e]);
    MultisetConcat(b, [e]);
    assert multiset(a) == multiset(a) + multiset{e} - multiset{e};
    assert multiset(b) == multiset(b) + multiset{e} - multiset{e};
  }

  function Map<S, T>(f: S -> T, s: seq<S>): (r: seq<T>)
    ensures |r| == |s| && forall i :: 0 <= i < |s| ==> r[i] == f(s[i])
  {
    seq(|s|, i requires 0 <= i < |s| => f(s[i]))
  }

  lemma MapConcat<S, T>(f: S -> T, a: seq<S>, b: seq<S>)
    ensures Map(f, a + b) == Map(f, a) + Map(f, b)
  {
  }

  lemma PutBack<T>(init: seq<T>, e: T, l: seq<T>, r: seq<T>)
    requires multiset(init) == multiset(l + r)
    ensures multiset(init + [e]) == multiset(l + ([e] + r))
  {
    MultisetConcat(init, [e]);
    MultisetConcat(l, [e] + r);
    MultisetConcat([e], r);
    MultisetConcat(l, r);
  }

  lemma {:induction false} MapPermutes<S, T>(f: S -> T, a: seq<S>, b: seq<S>)
    requires multiset(a) == multiset(b)
    ensures multiset(Map(f, a)) == multiset(Map(f, b))
    decreases |a|
  {
    PermutationMembers(a, b);
    if a != [] {
      var init, e := a[..|a| - 1], a[|a| - 1];
      assert a == init + [e];
      var l, r := TakeOut(init, e, b);
      MapPermutes(f, init, l + r);
      MapConcat(f, init, [e]);
      MapConcat(f, l, [e] + r);
      MapConcat(f, [e], r);
      MapConcat(f, l, r);
      assert Map(f, [e]) == [f(e)];
      PutBack(Map(f, init), f(e), Map(f, l), Map(f, r));
    }
  }

  function Filter<T>(f: T -> bool, s: seq<T>): seq<T> {
    if s == [] then [] else Filter(f, s[..|s| - 1]) + (if f(s[|s| - 1]) then [s[|s| - 1]] else [])
  }

  lemma {:induction false} FilterMembers<T>(f: T -> bool, s: seq<T>)
    ensures forall x :: x in Filter(f, s) <==> x in s && f(x)
    decreases |s|
  {
    if s != [] {
      var n := |s| - 1;
      FilterMembers(f, s[..n]);
      assert s == s[..n] + [s[n]];
    }
  }

  lemma {:induction false} FilterConcat<T>(f: T -> bool, a: seq<T>, b: seq<T>)
    ensures Filter(f, a + b) == Filter(f, a) + Filter(f, b)
    decreases |b|
  {
    if b == [] {
      assert a + b == a;
    } else {
      FilterConcat(f, a, b[..|b| - 1]);
      assert (a + b)[..|a + b| - 1] == a + b[..|b| - 1];
    }
  }

  lemma {:induction false} FilterNone<T>(f: T -> bool, s: seq<T>)
    requires forall x :: x in s ==> !f(x)
    ensures Filter(f, s) == []
    decreases |s|
  {
    if s != [] { FilterNone(f, s[..|s| - 1]); }
  }

  lemma {:induction false} FilterPermutes<T>(f: T -> bool, a: seq<T>, b: seq<T>)
    requires multiset(a) == multiset(b)
    ensures multiset(Filter(f, a)) == multiset(Filter(f, b))
    decreases |a|
  {
    PermutationMembers(a, b);
    if a != [] {
      var init, e := a[..|a| - 1], a[|a| - 1];
      assert a == init + [e];
      var l, r := TakeOut(init, e, b);
      FilterPermutes(f, init, l + r);
      FilterConcat(f, l, [e] + r);
      FilterConcat(f, [e], r);
      FilterConcat(f, l, r);
      FilterOne(f, e);
      if f(e) { PutBack(Filter(f, init), e, Filter(f, l), Filter(f, r)); }
    }
  }

  lemma FilterOne<T>(f: T -> bool, e: T)
    ensures Filter(f, [e]) == if f(e) then [e] else []
  {
    assert [e][..0] == [];
  }
}
