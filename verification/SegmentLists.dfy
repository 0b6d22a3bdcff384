/** Segments in a list: what sorting a set of keys means, and what reading the list yields. */
module SegmentLists {
  import opened Permutations
  import opened SegmentNames
  import opened RotatingLog

  predicate Ascending(q: seq<Key>) { forall i, j :: 0 <= i < j < |q| ==> KeyLess(q[i], q[j]) }

  function Members(q: seq<Key>): set<Key> { set k | k in q }

  /** An ascending list is the sorted list of its members. */
  lemma {:induction false} SortedOfMembers(q: seq<Key>)
    requires Ascending(q)
    ensures Sorted(Members(q)) == q
    decreases |q|
  {
    if q == [] {
      assert Members(q) == {};
    } else {
      var n := |q| - 1;
      LastIsNewest(q);
      DropNewest(q);
      SortedOfMembers(q[..n]);
      SortedSnoc(Members(q), q[..n], q[n]);
      assert q == q[..n] + [q[n]];
    }
  }

  lemma AscendingIsSorted(q: seq<Key>, s: set<Key>)
    requires Ascending(q) && forall k :: k in q <==> k in s
    ensures Sorted(s) == q
  {
    assert s == Members(q);
    SortedOfMembers(q);
  }

  lemma SortedSnoc(s: set<Key>, q: seq<Key>, k: Key)
    requires s != {} && Newest(s) == k && Sorted(s - {k}) == q
    ensures Sorted(s) == q + [k]
  {
  }

  lemma LastIsNewest(q: seq<Key>)
    requires q != [] && Ascending(q)
    ensures Members(q) != {} && Newest(Members(q)) == q[|q| - 1]
  {
    var k := q[|q| - 1];
    forall j | j in q && j != k ensures KeyLess(j, k) {
      var i :| 0 <= i < |q| && q[i] == j;
    }
    assert IsNewest(k, Members(q));
    NewestUnique(Members(q), k);
  }

  lemma DropNewest(q: seq<Key>)
    requires q != [] && Ascending(q)
    ensures var n := |q| - 1; Ascending(q[..n]) && Members(q) - {q[n]} == Members(q[..n])
  {
    var n := |q| - 1;
    forall j ensures j in q[..n] <==> j in q && j != q[n] {
      KeyIrreflexive(q[n]);
      if j in q && j != q[n] {
        var i :| 0 <= i < |q| && q[i] == j;
        assert q[..n][i] == j;
      }
    }
  }

  lemma {:induction false} SortedAscending(s: set<Key>)
    ensures Ascending(Sorted(s))
    decreases |s|
  {
    if s != {} {
      var k := Newest(s);
      var q := Sorted(s - {k});
      SortedAscending(s - {k});
      SortedMembers(s - {k});
      forall i | 0 <= i < |q| ensures KeyLess(q[i], k) { assert q[i] in q; }
      assert Sorted(s) == q + [k];
    }
  }

  function Flat(dir: Dir, q: seq<Key>): seq<string> {
    if q == [] then [] else Flat(dir, q[..|q| - 1]) + Content(dir, q[|q| - 1])
  }

  lemma {:induction false} ArchiveIsFlat(dir: Dir, s: set<Key>)
    ensures Archive(dir, s) == Flat(dir, Sorted(s))
    decreases |s|
  {
    if s != {} {
      var k := Newest(s);
      ArchiveIsFlat(dir, s - {k});
      assert Sorted(s)[..|Sorted(s)| - 1] == Sorted(s - {k});
    }
  }

  /** The name `findSegments` lists for a key: the archive when there is one. */
  function Preferred(dir: Dir, k: Key): Name { if Gz(k) in dir then Gz(k) else Plain(k) }

  function PreferredAll(dir: Dir, q: seq<Key>): (r: seq<Name>)
    ensures |r| == |q| && forall i :: 0 <= i < |q| ==> r[i] == Preferred(dir, q[i])
  {
    seq(|q|, i requires 0 <= i < |q| => Preferred(dir, q[i]))
  }

  lemma {:induction false} FlatConcat(dir: Dir, a: seq<Key>, b: seq<Key>)
    ensures Flat(dir, a + b) == Flat(dir, a) + Flat(dir, b)
    decreases |b|
  {
    if b == [] {
      assert a + b == a;
    } else {
      var c, k := b[..|b| - 1], b[|b| - 1];
      assert b == c + [k];
      calc {
        Flat(dir, a + b);
        { Associative(a, c, [k]); }
        Flat(dir, a + c + [k]);
        { FlatSnoc(dir, a + c, k); }
        Flat(dir, a + c) + Content(dir, k);
        { FlatConcat(dir, a, c); }
        Flat(dir, a) + Flat(dir, c) + Content(dir, k);
        { Associative(Flat(dir, a), Flat(dir, c), Content(dir, k)); }
        Flat(dir, a) + (Flat(dir, c) + Content(dir, k));
        { FlatSnoc(dir, c, k); }
        Flat(dir, a) + Flat(dir, b);
      }
    }
  }

  lemma FlatSnoc(dir: Dir, q: seq<Key>, k: Key)
    ensures Flat(dir, q + [k]) == Flat(dir, q) + Content(dir, k)
  {
    assert (q + [k])[..|q|] == q;
  }

  lemma ArchiveOfTwo(dir: Dir, a: Key, b: Key)
    requires KeyLess(a, b)
    ensures Archive(dir, {a, b}) == Content(dir, a) + Content(dir, b)
  {
    AscendingIsSorted([a, b], {a, b});
    ArchiveIsFlat(dir, {a, b});
    assert [a, b][..1] == [a] && [a][..0] == [];
    assert Flat(dir, [a]) == Content(dir, a);
  }

  lemma ArchiveOfThree(dir: Dir, a: Key, b: Key, c: Key)
    requires KeyLess(a, b) && KeyLess(b, c)
    ensures Archive(dir, {a, b, c}) == Content(dir, a) + Content(dir, b) + Content(dir, c)
  {
    KeyTransitive(a, b, c);
    ArchiveOfTwo(dir, a, b);
    ArchiveAppend(dir, {a, b}, c);
    assert {a, b} + {c} == {a, b, c};
  }
}
