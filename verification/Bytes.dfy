/** Big-endian numbers and length-prefixed byte strings. */
module Bytes {
  import opened Options

  type byte = b: int | 0 <= b < 256

  type bytes = seq<byte>

  function Pow256(w: nat): (p: nat)
    ensures p >= 1
  {
    if w == 0 then 1 else 256 * Pow256(w - 1)
  }

  /** The number a byte string denotes, most significant byte first. */
  function Number(s: bytes): nat {
    if s == [] then 0 else 256 * Number(s[..|s| - 1]) + s[|s| - 1]
  }

  /** The low w bytes of a number, most significant first. */
  function BigEndian(w: nat, n: nat): (r: bytes)
    ensures |r| == w
  {
    if w == 0 then [] else BigEndian(w - 1, n / 256) + [n % 256]
  }

  lemma {:induction false} NumberOfBigEndian(w: nat, n: nat)
    ensures n < Pow256(w) ==> Number(BigEndian(w, n)) == n
  {
    if w > 0 {
      NumberOfBigEndian(w - 1, n / 256);
      assert BigEndian(w, n)[..w - 1] == BigEndian(w - 1, n / 256);
    }
  }

  lemma {:induction false} BigEndianOfNumber(s: bytes)
    ensures BigEndian(|s|, Number(s)) == s && Number(s) < Pow256(|s|)
  {
    if s != [] {
      BigEndianOfNumber(s[..|s| - 1]);
      assert s == s[..|s| - 1] + [s[|s| - 1]];
    }
  }

  lemma SmallNumbers(s: bytes)
    ensures |s| == 1 ==> Number(s) == s[0]
    ensures |s| == 2 ==> Number(s) == 256 * s[0] as int + s[1] as int
    ensures |s| == 3 ==> Number(s) == 65536 * s[0] as int + 256 * s[1] as int + s[2] as int
  {
    if |s| == 1 {
      assert s[..0] == [];
    } else if |s| == 2 {
      assert s[..1][..0] == [];
      assert Number(s[..1]) == s[0];
    } else if |s| == 3 {
      assert s[..2][..1] == [s[0]] && [s[0]][..0] == [];
      assert Number([s[0]]) == s[0] && Number(s[..2]) == 256 * s[0] as int + s[1] as int;
    }
  }

  /** A byte string behind its length in w bytes. */
  function Vec(w: nat, s: bytes): bytes { BigEndian(w, |s|) + s }

  /** Read one length-prefixed byte string; the rest follows. */
  function Take(w: nat, p: bytes): (r: Option<(bytes, bytes)>)
    ensures r.Some? <==> w <= |p| && w + Number(p[..w]) <= |p|
    ensures r.Some? ==> |r.value.0| == Number(p[..w]) && |p| == w + |r.value.0| + |r.value.1|
  {
    if |p| < w || w + Number(p[..w]) > |p| then None
    else Some((p[w..w + Number(p[..w])], p[w + Number(p[..w])..]))
  }

  lemma TakeParts(w: nat, p: bytes)
    requires w <= |p|
    ensures var n := Number(p[..w]); Take(w, p) == if n <= |p[w..]| then Some((p[w..][..n], p[w..][n..])) else None
  {
    var n := Number(p[..w]);
    if n <= |p[w..]| { assert p[w..w + n] == p[w..][..n] && p[w + n..] == p[w..][n..]; }
  }

  /** Reading gives back what was written, whatever follows. */
  lemma TakeVec(w: nat, s: bytes, rest: bytes)
    requires |s| < Pow256(w)
    ensures Take(w, Vec(w, s) + rest) == Some((s, rest))
  {
    var p := Vec(w, s) + rest;
    NumberOfBigEndian(w, |s|);
    assert p[..w] == BigEndian(w, |s|);
    assert p[w..w + |s|] == s && p[w + |s|..] == rest;
  }

  /** Whatever can be read was written like that. */
  lemma VecTake(w: nat, p: bytes)
    requires Take(w, p).Some?
    ensures var (s, rest) := Take(w, p).value; p == Vec(w, s) + rest && |s| < Pow256(w)
  {
    BigEndianOfNumber(p[..w]);
  }

  lemma Powers()
    ensures Pow256(1) == 256 && Pow256(2) == 65536 && Pow256(3) == 16777216
  {
    assert Pow256(0) == 1;
    assert Pow256(1) == 256 * Pow256(0);
    assert Pow256(2) == 256 * Pow256(1);
  }

  lemma SplitBack<T>(a: seq<T>, b: seq<T>)
    ensures (a + b)[..|a|] == a && (a + b)[|a|..] == b
  {
  }

  lemma SplitAt<T>(s: seq<T>, n: nat)
    requires n <= |s|
    ensures s == s[..n] + s[n..]
  {
  }

  /** The most significant byte comes first. */
  lemma TwoBytes(n: nat)
    requires n < 65536
    ensures BigEndian(2, n) == [n / 256, n % 256]
  {
    assert BigEndian(0, n / 256 / 256) == [];
    assert BigEndian(1, n / 256) == [n / 256];
  }

  lemma OneByte(n: nat)
    requires n < 256
    ensures BigEndian(1, n) == [n]
  {
    assert BigEndian(0, n / 256) == [];
  }

  lemma ThreeBytes(n: nat)
    requires n < 16777216
    ensures BigEndian(3, n) == [n / 65536, n / 256 % 256, n % 256]
  {
    TwoBytes(n / 256);
    assert n / 256 / 256 == n / 65536;
  }
}
