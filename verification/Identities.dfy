/** Who is connecting: process identities, and the bucket of a process and host that the baseline learns under. */
module Identities {
  import opened Permutations
  import opened Text
  import opened Options
  import opened Entries

  datatype Identity = Identity(
    exeBasename: string,
    exePath: string,
    exeSHA256: string,
    teamID: string,
    bundleID: string,
    signedRequired: bool)

  /** What the text form of an identity keeps: it leaves out the path and the hash. */
  function Hidden(id: Identity): Identity { id.(exePath := "", exeSHA256 := "") }

  const NUL: string := "\0"

  /** Accepted and observed decisions teach the baseline; flows and denials do not. */
  predicate FoldsIntoBaseline(e: Entry) { !e.isFlow && !e.denied }

  function IdentityFromEntry(e: Entry): Identity {
    var base := Base(e.exe);
    var name := if |base| == 0 || base == "." then e.comm else base;
    Identity(name, if |e.exeSHA256| > 0 && IsAbs(e.exe) then e.exe else "", e.exeSHA256, e.teamID, "", false)
  }

  function IdentityKey(id: Identity): string {
    id.exePath + (NUL + (id.exeSHA256 + (NUL + (id.teamID + (NUL + id.exeBasename)))))
  }

  function HostKey(host: string): string { ToLower(host) }

  function PairKey(idKey: string, host: string): string { idKey + (NUL + host) }

  /** The bucket of an identity and a host; hosts differ only beyond letter case. */
  function BucketOf(id: Identity, host: string): string { PairKey(IdentityKey(id), HostKey(host)) }

  function Bucket(e: Entry): string { BucketOf(IdentityFromEntry(e), e.host) }

  predicate NulFree(s: string) { forall i :: 0 <= i < |s| ==> s[i] != '\0' }

  function FirstNul(s: string): nat {
    if s == "" || s[0] == '\0' then 0 else 1 + FirstNul(s[1..])
  }

  lemma {:induction false} FirstNulAfter(a: string, x: string)
    requires NulFree(a)
    ensures FirstNul(a + (NUL + x)) == |a|
  {
    if a != "" {
      FirstNulAfter(a[1..], x);
      assert (a + (NUL + x))[1..] == a[1..] + (NUL + x);
    } else {
      assert a + (NUL + x) == NUL + x;
    }
  }

  /** A NUL-free field in front can be read back. */
  lemma FieldDetermined(a: string, b: string, x: string, y: string)
    requires NulFree(a) && NulFree(b) && a + (NUL + x) == b + (NUL + y)
    ensures a == b && x == y
  {
    var s, t := a + (NUL + x), b + (NUL + y);
    FirstNulAfter(a, x);
    FirstNulAfter(b, y);
    assert a == s[..|a|] && b == t[..|a|];
    assert x == s[|a| + 1..] && y == t[|a| + 1..];
  }

  /** Different identities or hosts get different buckets, whatever bytes the host holds. */
  lemma BucketsAreDistinct(a: Identity, b: Identity, g: string, h: string)
    requires NulFree(a.exePath) && NulFree(a.exeSHA256) && NulFree(a.teamID) && NulFree(a.exeBasename)
    requires NulFree(b.exePath) && NulFree(b.exeSHA256) && NulFree(b.teamID) && NulFree(b.exeBasename)
    requires BucketOf(a, g) == BucketOf(b, h)
    ensures a.exePath == b.exePath && a.exeSHA256 == b.exeSHA256 && a.teamID == b.teamID && a.exeBasename == b.exeBasename
    ensures ToLower(g) == ToLower(h)
  {
    var u, v := ToLower(g), ToLower(h);
    var a3, b3 := a.exeBasename + (NUL + u), b.exeBasename + (NUL + v);
    var a2, b2 := a.teamID + (NUL + a3), b.teamID + (NUL + b3);
    var a1, b1 := a.exeSHA256 + (NUL + a2), b.exeSHA256 + (NUL + b2);
    BucketRegroups(a, g);
    BucketRegroups(b, h);
    FieldDetermined(a.exePath, b.exePath, a1, b1);
    FieldDetermined(a.exeSHA256, b.exeSHA256, a2, b2);
    FieldDetermined(a.teamID, b.teamID, a3, b3);
    FieldDetermined(a.exeBasename, b.exeBasename, u, v);
  }

  predicate Separable(id: Identity) {
    NulFree(id.exePath) && NulFree(id.exeSHA256) && NulFree(id.teamID) && NulFree(id.exeBasename)
  }

  /** What the baseline tells processes apart by; the bundle and the signing requirement are not part of it. */
  predicate SameProcess(a: Identity, b: Identity) {
    a.exePath == b.exePath && a.exeSHA256 == b.exeSHA256 && a.teamID == b.teamID && a.exeBasename == b.exeBasename
  }

  /** One bucket is one process and one host in any letter case. */
  lemma SameBucketIff(a: Identity, b: Identity, g: string, h: string)
    requires Separable(a) && Separable(b)
    ensures BucketOf(a, g) == BucketOf(b, h) <==> SameProcess(a, b) && SameButCase(g, h)
  {
    ToLowerIff(g, h);
    if BucketOf(a, g) == BucketOf(b, h) { BucketsAreDistinct(a, b, g, h); }
  }

  lemma SameKeyIff(a: Identity, b: Identity)
    requires Separable(a) && Separable(b)
    ensures IdentityKey(a) == IdentityKey(b) <==> SameProcess(a, b)
  {
    if IdentityKey(a) == IdentityKey(b) { BucketsAreDistinct(a, b, "", ""); }
  }

  /** A record is learned under the last name of its executable's path, which itself counts only with a hash. */
  lemma LearnedAs(e: Entry, i: nat, j: nat)
    requires i < j <= |e.exe| && SlashFree(e.exe[i..j]) && OnlySlashes(e.exe[j..]) && (i > 0 ==> e.exe[i - 1] == '/')
    requires e.exe[i..j] != "."
    ensures IdentityFromEntry(e)
      == Identity(e.exe[i..j], if e.exeSHA256 != "" && e.exe[0] == '/' then e.exe else "", e.exeSHA256, e.teamID, "", false)
  {
    BaseIs(e.exe, i, j);
  }

  /** Without a path a record is learned under the process's short name. */
  lemma LearnedByName(e: Entry)
    requires e.exe == ""
    ensures IdentityFromEntry(e) == Identity(e.comm, "", e.exeSHA256, e.teamID, "", false)
  {
  }

  lemma BucketRegroups(a: Identity, g: string)
    ensures BucketOf(a, g)
      == a.exePath + (NUL + (a.exeSHA256 + (NUL + (a.teamID + (NUL + (a.exeBasename + (NUL + ToLower(g))))))))
  {
    var h := NUL + ToLower(g);
    PushIn(a.teamID, NUL, a.exeBasename, h);
    PushIn(a.exeSHA256, NUL, a.teamID + (NUL + a.exeBasename), h);
    PushIn(a.exePath, NUL, a.exeSHA256 + (NUL + (a.teamID + (NUL + a.exeBasename))), h);
  }

  lemma BucketNotEmpty(id: Identity, host: string)
    ensures BucketOf(id, host) != ""
  {
    assert |BucketOf(id, host)| >= 1;
  }
}
