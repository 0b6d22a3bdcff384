/**
 * The daemon's bounded memory of when each pair last connected, against the unbounded running maximum it
 * stands in for.
 */
module LastSeen {
  import opened Options
  import opened Entries
  import opened Identities

  /** One call of advance. */
  datatype Sighting = Sighting(key: string, at: int)

  predicate Sighted(h: seq<Sighting>, key: string) { exists i :: 0 <= i < |h| && h[i].key == key }

  /** No sighting of this key is later than at. */
  predicate NoneAfter(h: seq<Sighting>, key: string, at: int) {
    forall i :: 0 <= i < |h| && h[i].key == key ==> h[i].at <= at
  }

  /** at is the latest this key was ever sighted. */
  predicate IsLatest(h: seq<Sighting>, key: string, at: int) { Sighting(key, at) in h && NoneAfter(h, key, at) }

  /**
   * The bounded map keeps the newest pairs: every value it holds is the true maximum, and a pair it dropped was
   * never sighted later than any pair it holds. Dropping only happens when full.
   */
  ghost predicate Refines(when: map<string, int>, max: nat, h: seq<Sighting>) {
    && |when| <= max
    && (forall k :: k in when ==> k != "" && IsLatest(h, k, when[k]))
    && (forall k, r :: Sighted(h, k) && k !in when && r in when ==> NoneAfter(h, k, when[r]))
    && (forall k :: Sighted(h, k) && k !in when ==> |when| == max)
  }

  predicate Oldest(when: map<string, int>, k: string) { k in when && forall r :: r in when ==> when[k] <= when[r] }

  /** What advance does to the map, ties between oldest pairs falling either way. */
  ghost predicate Advanced(when: map<string, int>, max: nat, key: string, at: int, next: map<string, int>) {
    if key in when && at <= when[key] then next == when
    else
      var grown := when[key := at];
      if |grown| <= max then next == grown
      else exists k :: Oldest(grown, k) && next == grown - {k}
  }

  lemma SightedSnoc(h: seq<Sighting>, s: Sighting, k: string)
    ensures Sighted(h + [s], k) <==> Sighted(h, k) || s.key == k
    ensures forall at :: NoneAfter(h + [s], k, at) <==> NoneAfter(h, k, at) && (s.key == k ==> s.at <= at)
    ensures forall at :: IsLatest(h, k, at) && (s.key == k ==> s.at <= at) ==> IsLatest(h + [s], k, at)
  {
    var g := h + [s];
    assert g[|h|] == s;
    assert forall i :: 0 <= i < |h| ==> g[i] == h[i];
  }

  lemma GrownSize(when: map<string, int>, key: string, at: int)
    ensures |when[key := at]| == if key in when then |when| else |when| + 1
  {
    var grown := when[key := at];
    assert grown.Keys == when.Keys + {key};
    if key in when { assert grown.Keys == when.Keys; }
  }

  /** An advance to a key that stays keeps the refinement. */
  lemma KeptRefines(when: map<string, int>, max: nat, h: seq<Sighting>, key: string, at: int)
    requires Refines(when, max, h) && key in when && key != ""
    ensures at <= when[key] ==> Refines(when, max, h + [Sighting(key, at)])
    ensures at > when[key] ==> Refines(when[key := at], max, h + [Sighting(key, at)])
  {
    var s := Sighting(key, at);
    var next := if at <= when[key] then when else when[key := at];
    GrownSize(when, key, at);
    forall k ensures k in next ==> k != "" && IsLatest(h + [s], k, next[k]) {
      SightedSnoc(h, s, k);
      if k == key && at > when[key] {
        assert (h + [s])[|h|] == s;
        assert NoneAfter(h, k, at);
      }
    }
    forall k, r | Sighted(h + [s], k) && k !in next && r in next ensures NoneAfter(h + [s], k, next[r]) && |when| == max {
      SightedSnoc(h, s, k);
      assert Sighted(h, k) && k !in when && NoneAfter(h, k, when[r]);
    }
    forall k | Sighted(h + [s], k) && k !in next ensures |next| == max { SightedSnoc(h, s, k); }
  }

  /** Inserting a key while there is room. */
  lemma RoomRefines(when: map<string, int>, max: nat, h: seq<Sighting>, key: string, at: int)
    requires Refines(when, max, h) && key !in when && key != "" && |when| < max
    ensures Refines(when[key := at], max, h + [Sighting(key, at)])
  {
    var s := Sighting(key, at);
    var next := when[key := at];
    GrownSize(when, key, at);
    assert !Sighted(h, key);
    forall k ensures k in next ==> k != "" && IsLatest(h + [s], k, next[k]) {
      SightedSnoc(h, s, k);
      assert (h + [s])[|h|] == s;
    }
    forall k ensures Sighted(h + [s], k) ==> k in next { SightedSnoc(h, s, k); }
  }

  /**
   * Inserting a key into a full map and evicting an oldest one. If the key comes back after an eviction it is
   * kept only when its new time is its true maximum.
   */
  lemma EvictRefines(when: map<string, int>, max: nat, h: seq<Sighting>, key: string, at: int, out: string)
    requires Refines(when, max, h) && key !in when && key != "" && |when| == max >= 1
    requires Oldest(when[key := at], out)
    ensures Refines(when[key := at] - {out}, max, h + [Sighting(key, at)])
  {
    var s := Sighting(key, at);
    var grown := when[key := at];
    var next := grown - {out};
    GrownSize(when, key, at);
    assert next.Keys == grown.Keys - {out};
    // Whatever was sighted before and is not held is no later than the pair going out.
    forall k | Sighted(h, k) && k !in when ensures out in when ==> NoneAfter(h, k, grown[out]) {}
    forall k | k in next ensures k != "" && IsLatest(h + [s], k, next[k]) {
      SightedSnoc(h, s, k);
      if k == key {
        assert (h + [s])[|h|] == s;
        assert out in when;
        assert Sighted(h, key) ==> NoneAfter(h, key, grown[out]);
        assert NoneAfter(h, key, at);
      }
    }
    forall k, r | Sighted(h + [s], k) && k !in next && r in next ensures NoneAfter(h + [s], k, next[r]) {
      SightedSnoc(h, s, k);
      assert grown[out] <= next[r];
      DroppedBefore(when, max, h, key, at, out, k, r);
    }
  }

  lemma DroppedBefore(when: map<string, int>, max: nat, h: seq<Sighting>, key: string, at: int, out: string, k: string, r: string)
    requires Refines(when, max, h) && key !in when && |when| == max >= 1 && Oldest(when[key := at], out)
    requires (Sighted(h, k) || k == key) && (k !in when[key := at] || k == out) && r in when[key := at] && r != out
    ensures NoneAfter(h, k, when[key := at][r]) && (key == k ==> at <= when[key := at][r])
  {
    var grown := when[key := at];
    if k == out {
      if k == key {
        assert r in when && Sighted(h, k) ==> NoneAfter(h, k, when[r]);
      } else {
        assert IsLatest(h, k, when[k]);
      }
    } else {
      assert Sighted(h, k) && k !in when;
      if r != key {
        assert NoneAfter(h, k, when[r]);
      } else {
        assert out in when && NoneAfter(h, k, when[out]) && when[out] <= at;
      }
    }
  }

  /** One advance, evicting any of the oldest pairs, keeps the refinement. */
  lemma AdvanceRefines(when: map<string, int>, max: nat, h: seq<Sighting>, key: string, at: int, next: map<string, int>)
    requires max >= 1 && key != "" && Refines(when, max, h) && Advanced(when, max, key, at, next)
    ensures Refines(next, max, h + [Sighting(key, at)])
  {
    GrownSize(when, key, at);
    if key in when {
      KeptRefines(when, max, h, key, at);
    } else if |when| < max {
      RoomRefines(when, max, h, key, at);
    } else {
      var k :| Oldest(when[key := at], k) && next == when[key := at] - {k};
      EvictRefines(when, max, h, key, at, k);
    }
  }

  ghost predicate Evolves(max: nat, h: seq<Sighting>, states: seq<map<string, int>>) {
    && |states| == |h| + 1 && states[0] == map[]
    && forall i :: 0 <= i < |h| ==> h[i].key != "" && Advanced(states[i], max, h[i].key, h[i].at, states[i + 1])
  }

  /** After any sequence of advances the bounded map refines the running maximum. */
  lemma {:induction false} RunRefines(max: nat, h: seq<Sighting>, states: seq<map<string, int>>)
    requires max >= 1 && Evolves(max, h, states)
    ensures Refines(states[|h|], max, h)
    decreases |h|
  {
    if h != [] {
      var n := |h| - 1;
      RunRefines(max, h[..n], states[..n + 1]);
      AdvanceRefines(states[n], max, h[..n], h[n].key, h[n].at, states[n + 1]);
      assert h[..n] + [Sighting(h[n].key, h[n].at)] == h;
    }
  }

  /** The pairs held answer as the unbounded memory would; for the others every held pair is at least as recent. */
  lemma HeldAnswersAgree(when: map<string, int>, max: nat, h: seq<Sighting>, key: string, truth: int)
    requires Refines(when, max, h) && IsLatest(h, key, truth)
    ensures key in when ==> when[key] == truth
    ensures key !in when ==> |when| == max && forall r :: r in when ==> when[r] >= truth
  {
    var i :| 0 <= i < |h| && h[i] == Sighting(key, truth);
    assert Sighted(h, key);
    if key in when {
      var k :| 0 <= k < |h| && h[k] == Sighting(key, when[key]);
    }
  }

  class LastSeen {
    const max: nat
    var when: map<string, int>
    ghost var seen: seq<Sighting>

    ghost predicate Valid()
      reads this
    {
      max >= 1 && Refines(when, max, seen)
    }

    constructor (max: int)
      ensures Valid() && seen == [] && this.max == if max < 1 then 1 else max
    {
      this.max := if max < 1 then 1 else max;
      when := map[];
      seen := [];
    }

    /** The last time of a pair, or the zero time. */
    function At(key: string): int
      reads this
    {
      if key in when then when[key] else 0
    }

    method Advance(key: string, at: int)
      requires Valid() && key != ""
      modifies this
      ensures Valid() && seen == old(seen) + [Sighting(key, at)]
      ensures Advanced(old(when), max, key, at, when)
    {
      if key in when && at <= when[key] {
        seen := seen + [Sighting(key, at)];
      } else {
        GrownSize(when, key, at);
        when := when[key := at];
        EvictLocked();
        seen := seen + [Sighting(key, at)];
      }
      AdvanceRefines(old(when), max, old(seen), key, at, when);
    }

    /** Delete an oldest pair while there are too many; the walk over the map may start anywhere. */
    method EvictLocked()
      requires max >= 1 && |when| <= max + 1 && "" !in when
      modifies this`when
      ensures |old(when)| <= max ==> when == old(when)
      ensures |old(when)| > max ==> exists k :: Oldest(old(when), k) && when == old(when) - {k}
    {
      while |when| > max
        invariant |when| > max ==> when == old(when)
        invariant |old(when)| <= max ==> when == old(when)
        invariant |when| <= max && |old(when)| > max ==> exists k :: Oldest(old(when), k) && when == old(when) - {k}
        decreases |when|
      {
        var oldestKey := "";
        var oldest := 0;
        var left := when.Keys;
        while left != {}
          invariant left <= when.Keys
          invariant oldestKey == "" <==> left == when.Keys
          invariant oldestKey != "" ==> oldestKey in when && when[oldestKey] == oldest
          invariant oldestKey != "" ==> forall k :: k in when && k !in left ==> oldest <= when[k]
          decreases left
        {
          var key :| key in left;
          left := left - {key};
          if oldestKey == "" || when[key] < oldest {
            oldestKey, oldest := key, when[key];
          }
        }
        assert Oldest(when, oldestKey) by { assert |when.Keys| > 0; }
        assert (when - {oldestKey}).Keys == when.Keys - {oldestKey};
        when := when - {oldestKey};
      }
    }

    /** Advance for an entry the baseline learns from; anything else leaves no trace. */
    method AdvanceEntry(e: Entry)
      requires Valid()
      modifies this
      ensures Valid()
      ensures seen == if FoldsIntoBaseline(e) && e.at.Some? then old(seen) + [Sighting(Bucket(e), e.at.value)] else old(seen)
      ensures !(FoldsIntoBaseline(e) && e.at.Some?) ==> when == old(when)
    {
      if !FoldsIntoBaseline(e) { return; }
      if e.at.None? { return; }
      BucketNotEmpty(IdentityFromEntry(e), e.host);
      Advance(Bucket(e), e.at.value);
    }

    /** Fold in a rebuilt snapshot's pairs; a pair without a time is skipped, and nothing moves backwards. */
    method Seed(pairs: seq<Sighting>)
      requires Valid() && forall i :: 0 <= i < |pairs| ==> pairs[i].key != ""
      modifies this
      ensures Valid() && seen == old(seen) + Timed(pairs)
    {
      for i := 0 to |pairs|
        invariant Valid() && seen == old(seen) + Timed(pairs[..i])
      {
        assert pairs[..i + 1][..i] == pairs[..i];
        if pairs[i].at != 0 { Advance(pairs[i].key, pairs[i].at); }
      }
      assert pairs[..|pairs|] == pairs;
    }
  }

  function Timed(pairs: seq<Sighting>): seq<Sighting> {
    if pairs == [] then []
    else Timed(pairs[..|pairs| - 1]) + (if pairs[|pairs| - 1].at != 0 then [pairs[|pairs| - 1]] else [])
  }

  /** Pairs whose time is unknown are not seeded. */
  lemma {:induction false} TimedIs(pairs: seq<Sighting>)
    ensures forall p :: p in Timed(pairs) <==> p in pairs && p.at != 0
    decreases |pairs|
  {
    if pairs != [] {
      var n := |pairs| - 1;
      TimedIs(pairs[..n]);
      assert pairs == pairs[..n] + [pairs[n]];
    }
  }
}
