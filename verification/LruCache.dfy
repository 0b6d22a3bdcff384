/**
 * The least-recently-used cache behind signature checks and executable hashes: a list in order of use and an index
 * into it, with the expensive computation done outside the lock.
 */
module LruCache {
  import opened Options
  import opened Permutations

  // ---------------------------------------------------------------- order of use

  /** q without k. */
  function Without(q: seq<string>, k: string): seq<string> {
    if q == [] then [] else if q[0] == k then q[1..] else [q[0]] + Without(q[1..], k)
  }

  /** The distinct keys of a history of uses, latest use first. */
  function Recent(uses: seq<string>): seq<string> {
    if uses == [] then [] else [uses[|uses| - 1]] + Without(Recent(uses[..|uses| - 1]), uses[|uses| - 1])
  }

  function Bound(max: int): nat { if max < 0 then 0 else max }

  /** The first n elements, or all if there are fewer. */
  function Prefix<T>(q: seq<T>, n: nat): (r: seq<T>)
    ensures |r| == if n < |q| then n else |q|
  {
    if n == 0 || q == [] then [] else [q[0]] + Prefix(q[1..], n - 1)
  }

  lemma {:induction false} PrefixIs<T>(q: seq<T>, n: nat)
    ensures Prefix(q, n) == if n < |q| then q[..n] else q
  {
    if n > 0 && q != [] {
      PrefixIs(q[1..], n - 1);
      assert q == [q[0]] + q[1..];
      assert n < |q| ==> q[..n] == [q[0]] + q[1..][..n - 1];
    }
  }

  /** Using k: to the front if it is there; otherwise in at the front, and the last out if that is one too many. */
  function Use(q: seq<string>, k: string, max: int): seq<string> {
    if k in q then [k] + Without(q, k) else Prefix([k] + q, Bound(max))
  }

  lemma {:induction false} WithoutFacts(q: seq<string>, k: string)
    ensures k !in q ==> Without(q, k) == q
    ensures forall x :: x in Without(q, k) ==> x in q
    ensures forall x :: x in q && x != k ==> x in Without(q, k)
  {
    if q != [] {
      assert q == [q[0]] + q[1..];
      if q[0] != k { WithoutFacts(q[1..], k); }
    }
  }

  lemma {:induction false} WithoutDistinct(q: seq<string>, k: string)
    requires Distinct(q)
    ensures Distinct(Without(q, k)) && k !in Without(q, k)
  {
    if q != [] {
      if q[0] == k {
        assert forall i :: 0 <= i < |q[1..]| ==> q[1..][i] == q[i + 1];
      } else {
        WithoutDistinct(q[1..], k);
        WithoutFacts(q[1..], k);
        assert q[0] !in q[1..];
      }
    }
  }

  lemma {:induction false} RecentDistinct(uses: seq<string>)
    ensures Distinct(Recent(uses)) && forall k :: k in Recent(uses) <==> k in uses
    decreases |uses|
  {
    if uses != [] {
      var n := |uses| - 1;
      RecentDistinct(uses[..n]);
      WithoutFacts(Recent(uses[..n]), uses[n]);
      WithoutDistinct(Recent(uses[..n]), uses[n]);
      assert uses == uses[..n] + [uses[n]];
    }
  }

  lemma PrefixStep<T>(x: T, q: seq<T>, n: nat)
    requires n > 0
    ensures Prefix([x] + q, n) == [x] + Prefix(q, n - 1)
  {
    assert ([x] + q)[1..] == q;
  }

  /** Taking a key out of a list and cutting it commute when the key is before the cut. */
  lemma {:induction false} WithoutBeforeCut(q: seq<string>, k: string, n: nat)
    requires k in Prefix(q, n)
    ensures n > 0 && Prefix(Without(q, k), n - 1) == Without(Prefix(q, n), k)
  {
    assert q == [q[0]] + q[1..];
    PrefixStep(q[0], q[1..], n);
    if q[0] == k {
      assert Prefix(q, n)[1..] == Prefix(q[1..], n - 1);
    } else {
      WithoutBeforeCut(q[1..], k, n - 1);
      PrefixStep(q[0], Without(q[1..], k), n - 1);
      assert Prefix(q, n)[1..] == Prefix(q[1..], n - 1);
    }
  }

  /** Behind the cut, taking a key out changes nothing before it. */
  lemma {:induction false} WithoutBehindCut(q: seq<string>, k: string, n: nat)
    requires k !in Prefix(q, n) && n > 0
    ensures Prefix(Without(q, k), n - 1) == Prefix(q, n - 1)
  {
    if q != [] && n > 1 {
      assert q == [q[0]] + q[1..];
      PrefixStep(q[0], q[1..], n);
      PrefixStep(q[0], q[1..], n - 1);
      WithoutBehindCut(q[1..], k, n - 1);
      PrefixStep(q[0], Without(q[1..], k), n - 1);
    }
  }

  lemma {:induction false} PrefixTwice<T>(q: seq<T>, n: nat, m: nat)
    requires m <= n
    ensures Prefix(Prefix(q, n), m) == Prefix(q, m)
  {
    if m > 0 && q != [] {
      PrefixTwice(q[1..], n - 1, m - 1);
      assert Prefix(q, n)[1..] == Prefix(q[1..], n - 1);
    }
  }

  /** One more use keeps the cache the front of the recency order. */
  lemma UseKeepsRecent(q: seq<string>, uses: seq<string>, k: string, max: int)
    requires q == Prefix(Recent(uses), Bound(max))
    ensures Use(q, k, max) == Prefix(Recent(uses + [k]), Bound(max))
  {
    var r, n := Recent(uses), Bound(max);
    assert (uses + [k])[..|uses|] == uses;
    assert Recent(uses + [k]) == [k] + Without(r, k);
    if k in q {
      WithoutBeforeCut(r, k, n);
      PrefixStep(k, Without(r, k), n);
    } else if n > 0 {
      WithoutBehindCut(r, k, n);
      PrefixStep(k, Without(r, k), n);
      PrefixStep(k, q, n);
      PrefixTwice(r, n, n - 1);
    }
  }

  // ---------------------------------------------------------------- goroutines

  /** One cached result. */
  datatype Entry<V> = Entry(key: string, value: V)

  /**
   * The two locked sections of a request: looking a key up, and filling it in after the computation. Between them
   * the lock is free, so any number of other sections may come in between, for the same key too.
   */
  datatype Section<V> = Look(key: string) | Fill(key: string, computed: V)

  function Keys<V>(q: seq<Entry<V>>): (r: seq<string>)
    ensures |r| == |q| && forall i :: 0 <= i < |q| ==> r[i] == q[i].key
  {
    seq(|q|, i requires 0 <= i < |q| => q[i].key)
  }

  function Holding<V>(q: seq<Entry<V>>, key: string): Option<V> {
    if q == [] then None else if q[0].key == key then Some(q[0].value) else Holding(q[1..], key)
  }

  lemma {:induction false} HoldingIff<V>(q: seq<Entry<V>>, key: string)
    ensures Holding(q, key).Some? <==> key in Keys(q)
    ensures Holding(q, key).Some? ==> Entry(key, Holding(q, key).value) in q
  {
    if q != [] {
      HoldingIff(q[1..], key);
      assert Keys(q) == [q[0].key] + Keys(q[1..]);
      assert q == [q[0]] + q[1..];
    }
  }

  function Dropped<V>(q: seq<Entry<V>>, key: string): (r: seq<Entry<V>>) {
    if q == [] then [] else if q[0].key == key then q[1..] else [q[0]] + Dropped(q[1..], key)
  }

  /** The list after a section, and what the section answers: nothing for a miss. */
  function Act<V>(q: seq<Entry<V>>, max: int, s: Section<V>): (seq<Entry<V>>, Option<V>) {
    var held := Holding(q, s.key);
    if held.Some? then ([Entry(s.key, held.value)] + Dropped(q, s.key), held)
    else match s
      case Look(_) => (q, None)
      case Fill(key, computed) => (Prefix([Entry(key, computed)] + q, Bound(max)), Some(computed))
  }

  function Run<V>(max: int, sections: seq<Section<V>>): seq<Entry<V>> {
    if sections == [] then [] else Act(Run(max, sections[..|sections| - 1]), max, sections[|sections| - 1]).0
  }

  /** The uses of a run: every section except a lookup that misses. */
  function Uses<V>(max: int, sections: seq<Section<V>>): seq<string> {
    if sections == [] then []
    else
      var n := |sections| - 1;
      var s := sections[n];
      Uses(max, sections[..n]) + (if s.Fill? || Holding(Run(max, sections[..n]), s.key).Some? then [s.key] else [])
  }

  lemma {:induction false} DroppedKeys<V>(q: seq<Entry<V>>, key: string)
    ensures Keys(Dropped(q, key)) == Without(Keys(q), key)
    ensures forall e :: e in Dropped(q, key) ==> e in q
  {
    if q != [] {
      assert Keys(q)[1..] == Keys(q[1..]);
      if q[0].key != key {
        DroppedKeys(q[1..], key);
        assert Keys(Dropped(q, key)) == [q[0].key] + Keys(Dropped(q[1..], key));
      }
    }
  }

  lemma PrefixKeys<V>(q: seq<Entry<V>>, n: nat)
    ensures Keys(Prefix(q, n)) == Prefix(Keys(q), n)
  {
    PrefixIs(q, n);
    PrefixIs(Keys(q), n);
  }

  lemma KeysCons<V>(e: Entry<V>, q: seq<Entry<V>>)
    ensures Keys([e] + q) == [e.key] + Keys(q)
  {
  }

  /** A section uses its key, unless it is a lookup that misses. */
  lemma ActUses<V>(q: seq<Entry<V>>, max: int, s: Section<V>)
    ensures Keys(Act(q, max, s).0) == if s.Fill? || Holding(q, s.key).Some? then Use(Keys(q), s.key, max) else Keys(q)
  {
    HoldingIff(q, s.key);
    var held := Holding(q, s.key);
    if held.Some? {
      DroppedKeys(q, s.key);
      KeysCons(Entry(s.key, held.value), Dropped(q, s.key));
    } else if s.Fill? {
      PrefixKeys([Entry(s.key, s.computed)] + q, Bound(max));
      KeysCons(Entry(s.key, s.computed), q);
    }
  }

  /**
   * After any interleaving of sections the list holds exactly the most recently used keys, as many as fit, in order
   * of last use.
   */
  lemma {:induction false} CacheIsRecent<V>(max: int, sections: seq<Section<V>>)
    ensures Keys(Run(max, sections)) == Prefix(Recent(Uses(max, sections)), Bound(max))
    decreases |sections|
  {
    if sections != [] {
      var n := |sections| - 1;
      var q, s, before := Run(max, sections[..n]), sections[n], Uses(max, sections[..n]);
      CacheIsRecent(max, sections[..n]);
      ActUses(q, max, s);
      UseKeepsRecent(Keys(q), before, s.key, max);
      assert before + [] == before;
    }
  }

  /** So it never holds a key twice, nor more than fit. */
  lemma CacheIsBounded<V>(max: int, sections: seq<Section<V>>)
    ensures Distinct(Keys(Run(max, sections))) && |Run(max, sections)| <= (if max < 0 then 0 else max)
  {
    CacheIsRecent(max, sections);
    RecentDistinct(Uses(max, sections));
    PrefixIs(Recent(Uses(max, sections)), Bound(max));
  }

  ghost predicate Truthful<V(!new)>(truth: string -> V, q: seq<Entry<V>>) {
    forall e :: e in q ==> e.value == truth(e.key)
  }

  /**
   * When the computation is determined by the key, every section that answers, whoever filled the entry and however
   * the sections interleave, answers what the computation would.
   */
  lemma {:induction false} AnswersAreTrue<V(!new)>(truth: string -> V, max: int, sections: seq<Section<V>>)
    requires forall i :: 0 <= i < |sections| && sections[i].Fill? ==> sections[i].computed == truth(sections[i].key)
    ensures Truthful(truth, Run(max, sections))
    ensures sections != [] ==>
      var n := |sections| - 1;
      var answer := Act(Run(max, sections[..n]), max, sections[n]).1;
      (answer.Some? ==> answer.value == truth(sections[n].key)) && (sections[n].Fill? ==> answer.Some?)
    decreases |sections|
  {
    if sections != [] {
      var n := |sections| - 1;
      var q, s := Run(max, sections[..n]), sections[n];
      AnswersAreTrue(truth, max, sections[..n]);
      DroppedKeys(q, s.key);
      ActTruthful(truth, q, max, s);
    }
  }

  lemma ActTruthful<V(!new)>(truth: string -> V, q: seq<Entry<V>>, max: int, s: Section<V>)
    requires Truthful(truth, q) && (s.Fill? ==> s.computed == truth(s.key))
    ensures Truthful(truth, Act(q, max, s).0)
    ensures Act(q, max, s).1.Some? ==> Act(q, max, s).1.value == truth(s.key)
  {
    DroppedKeys(q, s.key);
    HoldingIff(q, s.key);
    var held := Holding(q, s.key);
    if held.None? && s.Fill? { PrefixMembers([Entry(s.key, s.computed)] + q, Bound(max)); }
    forall e | e in Act(q, max, s).0 ensures e.value == truth(e.key) {
      if held.Some? {
        assert e == Entry(s.key, held.value) || e in Dropped(q, s.key);
      } else if s.Fill? {
        assert e == Entry(s.key, s.computed) || e in q;
      }
    }
  }

  lemma {:induction false} PrefixMembers<T>(q: seq<T>, n: nat)
    ensures forall x :: x in Prefix(q, n) ==> x in q
  {
    PrefixIs(q, n);
  }

  // ---------------------------------------------------------------- the list and its index

  /** A list element, which the index refers to. */
  class Element<V> {
    const key: string
    const value: V

    constructor (key: string, value: V)
      ensures this.key == key && this.value == value
    {
      this.key, this.value := key, value;
    }
  }

  function EntriesOf<V>(lru: seq<Element<V>>): (r: seq<Entry<V>>)
    ensures |r| == |lru| && forall i :: 0 <= i < |lru| ==> r[i] == Entry(lru[i].key, lru[i].value)
  {
    seq(|lru|, i requires 0 <= i < |lru| => Entry(lru[i].key, lru[i].value))
  }

  /** The index names every element of the list by its key, and nothing else; no key occurs twice. */
  ghost predicate Indexed<V>(lru: seq<Element<V>>, index: map<string, Element<V>>) {
    && (forall i, j :: 0 <= i < j < |lru| ==> lru[i].key != lru[j].key)
    && (forall i :: 0 <= i < |lru| ==> lru[i].key in index && index[lru[i].key] == lru[i])
    && (forall k :: k in index ==> index[k] in lru && index[k].key == k)
  }

  lemma {:induction false} HeldAt<V>(q: seq<Entry<V>>, i: nat)
    requires i < |q| && forall j :: 0 <= j < i ==> q[j].key != q[i].key
    ensures Holding(q, q[i].key) == Some(q[i].value)
  {
    if i > 0 {
      assert forall j :: 0 <= j < i ==> q[1..][j] == q[j + 1];
      HeldAt(q[1..], i - 1);
    }
  }

  lemma {:induction false} DroppedAt<V>(q: seq<Entry<V>>, i: nat)
    requires i < |q| && forall j :: 0 <= j < i ==> q[j].key != q[i].key
    ensures Dropped(q, q[i].key) == q[..i] + q[i + 1..]
  {
    if i > 0 {
      var r := q[1..];
      assert forall j :: 0 <= j < i ==> r[j] == q[j + 1];
      DroppedAt(r, i - 1);
      assert q[..i] == [q[0]] + r[..i - 1] && q[i + 1..] == r[i..];
      assert q[..i] + q[i + 1..] == [q[0]] + (r[..i - 1] + r[i..]);
    } else {
      assert q[..0] + q[1..] == q[1..];
    }
  }

  lemma HeldIsIndexed<V>(lru: seq<Element<V>>, index: map<string, Element<V>>, key: string)
    requires Indexed(lru, index)
    ensures Holding(EntriesOf(lru), key) == if key in index then Some(index[key].value) else None
  {
    var q := EntriesOf(lru);
    HoldingIff(q, key);
    assert forall i :: 0 <= i < |lru| ==> Keys(q)[i] == lru[i].key;
    if key in index {
      var i :| 0 <= i < |lru| && lru[i] == index[key];
      HeldAt(q, i);
    }
  }

  function Fronted<T>(s: seq<T>, i: nat): (r: seq<T>)
    requires i < |s|
    ensures |r| == |s| && forall j :: 0 <= j < |s| ==> r[j] == s[if j == 0 then i else if j <= i then j - 1 else j]
  {
    [s[i]] + (s[..i] + s[i + 1..])
  }

  lemma FrontedMembers<T>(s: seq<T>, i: nat)
    requires i < |s|
    ensures forall x :: x in s ==> x in Fronted(s, i)
  {
    forall x | x in s ensures x in Fronted(s, i) {
      var j :| 0 <= j < |s| && s[j] == x;
      assert Fronted(s, i)[if j == i then 0 else if j < i then j + 1 else j] == s[j];
    }
  }

  lemma FrontKeeps<V>(lru: seq<Element<V>>, i: nat, index: map<string, Element<V>>)
    requires Indexed(lru, index) && i < |lru|
    ensures Indexed(Fronted(lru, i), index)
  {
    FrontedMembers(lru, i);
  }

  lemma FrontedEntries<V>(lru: seq<Element<V>>, i: nat)
    requires i < |lru| && forall j :: 0 <= j < i ==> lru[j].key != lru[i].key
    ensures EntriesOf(Fronted(lru, i)) == [Entry(lru[i].key, lru[i].value)] + Dropped(EntriesOf(lru), lru[i].key)
  {
    var q := EntriesOf(lru);
    DroppedAt(q, i);
    assert EntriesOf(Fronted(lru, i)) == Fronted(q, i);
  }

  lemma AddKeeps<V>(lru: seq<Element<V>>, index: map<string, Element<V>>, elem: Element<V>)
    requires Indexed(lru, index) && elem.key !in index
    ensures Indexed([elem] + lru, index[elem.key := elem])
  {
    var next := [elem] + lru;
    assert forall j :: 0 < j < |next| ==> next[j] == lru[j - 1];
    assert next[0] == elem;
    forall k | k in index ensures index[k] in next {
      var j :| 0 <= j < |lru| && lru[j] == index[k];
      assert next[j + 1] == lru[j];
    }
  }

  lemma EvictKeeps<V>(lru: seq<Element<V>>, index: map<string, Element<V>>)
    requires Indexed(lru, index) && lru != []
    ensures Indexed(lru[..|lru| - 1], index - {lru[|lru| - 1].key})
  {
    var n := |lru| - 1;
    forall k | k in index && k != lru[n].key ensures index[k] in lru[..n] {
      var j :| 0 <= j < |lru| && lru[j] == index[k];
      assert lru[..n][j] == lru[j];
    }
  }

  lemma CutIsPrefix<T>(grown: seq<T>, max: int)
    requires 0 < |grown| <= Bound(max) + 1
    ensures Prefix(grown, Bound(max)) == if |grown| > max then grown[..|grown| - 1] else grown
  {
    PrefixIs(grown, Bound(max));
  }

  class Cache<V> {
    const max: int
    var lru: seq<Element<V>>
    var index: map<string, Element<V>>

    ghost predicate Valid()
      reads this
    {
      |lru| <= Bound(max) && Indexed(lru, index)
    }

    ghost function Contents(): seq<Entry<V>>
      reads this
    {
      EntriesOf(lru)
    }

    constructor (max: int)
      ensures Valid() && Contents() == [] && this.max == max
    {
      this.max := max;
      lru, index := [], map[];
    }

    method MoveToFront(elem: Element<V>)
      requires Valid() && elem in lru
      modifies this`lru
      ensures Valid()
      ensures Contents() == [Entry(elem.key, elem.value)] + Dropped(old(Contents()), elem.key)
    {
      var i := Position(elem);
      FrontKeeps(lru, i, index);
      FrontedEntries(lru, i);
      lru := [elem] + (lru[..i] + lru[i + 1..]);
    }

    method Position(elem: Element<V>) returns (i: nat)
      requires elem in lru
      ensures i < |lru| && lru[i] == elem
    {
      i := 0;
      while lru[i] != elem
        invariant i < |lru| && exists j :: i <= j < |lru| && lru[j] == elem
        decreases |lru| - i
      {
        i := i + 1;
      }
    }

    /** The first locked section: on a hit the entry becomes the most recently used. */
    method Find(key: string) returns (r: Option<V>)
      requires Valid()
      modifies this`lru
      ensures Valid() && (Contents(), r) == Act(old(Contents()), max, Look(key))
    {
      HeldIsIndexed(lru, index, key);
      if key in index {
        var elem := index[key];
        MoveToFront(elem);
        return Some(elem.value);
      }
      return None;
    }

    /** The second: whoever came first wins; a new entry may push the oldest out. */
    method Store(key: string, value: V) returns (r: V)
      requires Valid()
      modifies this
      ensures Valid() && (Contents(), Some(r)) == Act(old(Contents()), max, Fill(key, value))
    {
      HeldIsIndexed(lru, index, key);
      if key in index {
        var elem := index[key];
        MoveToFront(elem);
        return elem.value;
      }
      Insert(key, value);
      return value;
    }

    method Insert(key: string, value: V)
      requires Valid() && key !in index
      modifies this
      ensures Valid() && Contents() == Prefix([Entry(key, value)] + old(Contents()), Bound(max))
    {
      ghost var grown := [Entry(key, value)] + Contents();
      CutIsPrefix(grown, max);
      PushFront(key, value);
      if |lru| > max { RemoveOldest(); }
    }

    method PushFront(key: string, value: V)
      requires Indexed(lru, index) && key !in index
      modifies this
      ensures Indexed(lru, index) && EntriesOf(lru) == [Entry(key, value)] + EntriesOf(old(lru))
    {
      var elem := new Element(key, value);
      AddKeeps(lru, index, elem);
      lru := [elem] + lru;
      index := index[key := elem];
    }

    method RemoveOldest()
      requires lru != [] && Indexed(lru, index)
      modifies this
      ensures Indexed(lru, index) && |lru| == |old(lru)| - 1
      ensures EntriesOf(lru) == EntriesOf(old(lru))[..|lru|]
    {
      var oldest := lru[|lru| - 1];
      EvictKeeps(lru, index);
      lru := lru[..|lru| - 1];
      index := index - {oldest.key};
    }
  }
}
