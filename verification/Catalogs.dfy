/**
 * Catalog facts: which processes may, or must never, reach which hosts. The verdict of a lookup is defined by
 * what entries the catalog holds; the scan that computes it stops early and keeps the first or the first
 * authoritative match.
 */
module Catalogs {
  import opened Text
  import opened Options
  import opened Identities
  import opened Permutations

  datatype Confidence = High | Medium | OtherConfidence

  datatype Destination = Destination(host: string, why: string)

  datatype Entry = Entry(
    schemaVersion: int,
    identity: Identity,
    expected: seq<Destination>,
    never: seq<string>,
    explanation: string,
    evidence: string,
    confidence: Confidence,
    layer: string)

  const CURRENT_SCHEMA_VERSION := 1

  datatype Match = Match(found: bool, entry: Option<Entry>, neverHit: bool, authoritative: bool, staleBinary: bool)

  const NO_MATCH := Match(false, None, false, false, false)

  // ---------------------------------------------------------------- what one entry says

  function NormalizeHost(h: string): string { TrimSuffix(ToLower(TrimSpace(h)), ".") }

  predicate EmptyIdentity(id: Identity) {
    id.exeSHA256 == "" && id.bundleID == "" && id.teamID == "" && id.exeBasename == ""
  }

  /** A path counts only together with the hash of what was there. */
  predicate IdentityDescribes(want: Identity, got: Identity) {
    && !EmptyIdentity(want)
    && (if want.exePath != "" then
          got.exeSHA256 != "" && got.exePath == want.exePath && got.exeSHA256 == want.exeSHA256
        else want.exeSHA256 != "" ==> got.exeSHA256 == want.exeSHA256)
    && (want.bundleID != "" ==> want.bundleID == got.bundleID)
    && (want.teamID != "" ==> want.teamID == got.teamID)
    && (want.exeBasename != "" ==> want.exeBasename == got.exeBasename)
  }

  /** Only an entry pinned to a hashed path or a signature decides without asking. */
  predicate HasDecisionPin(id: Identity) { (id.exePath != "" && id.exeSHA256 != "") || id.teamID != "" || id.bundleID != "" }

  /** The entry's executable is at its path, but its contents changed. */
  predicate StaleBinary(want: Identity, got: Identity) {
    && want.exePath != "" && want.exeSHA256 != "" && got.exePath == want.exePath
    && got.exeSHA256 != "" && got.exeSHA256 != want.exeSHA256
  }

  predicate Lists(hosts: seq<string>, host: string) {
    exists i :: 0 <= i < |hosts| && NormalizeHost(hosts[i]) == NormalizeHost(host)
  }

  predicate Expects(e: Entry, host: string) {
    exists i :: 0 <= i < |e.expected| && NormalizeHost(e.expected[i].host) == NormalizeHost(host)
  }

  predicate Forbids(e: Entry, id: Identity, host: string) {
    (StaleBinary(e.identity, id) || IdentityDescribes(e.identity, id)) && Lists(e.never, host)
  }

  predicate Explains(e: Entry, id: Identity, host: string) { IdentityDescribes(e.identity, id) && Expects(e, host) }

  predicate Decides(e: Entry, id: Identity, host: string) { Explains(e, id, host) && HasDecisionPin(e.identity) }

  predicate Graces(e: Entry, id: Identity, host: string) { StaleBinary(e.identity, id) && Expects(e, host) }

  // ---------------------------------------------------------------- what the spelling of a host does not matter to

  /** h is core between blanks, with one more final dot or none. */
  ghost predicate Spells(h: string, core: string) {
    exists i: nat, j: nat :: i <= j <= |h| && Between(h, i, j) && WithDot(h[i..j], core)
  }

  predicate Between(h: string, i: nat, j: nat)
    requires i <= j <= |h|
  {
    Blank(h[..i]) && Blank(h[j..]) && Trimmed(h[i..j])
  }

  predicate WithDot(m: string, core: string) { m == core + "." || (m == core && (core == "" || core[|core| - 1] != '.')) }

  lemma NormalizeSpelled(h: string, core: string)
    requires Spells(h, core)
    ensures NormalizeHost(h) == ToLower(core)
  {
    var i: nat, j: nat :| i <= j <= |h| && Between(h, i, j) && WithDot(h[i..j], core);
    TrimSpaceIs(h, i, j);
    DotGoes(h[i..j], core);
  }

  lemma DotGoes(m: string, core: string)
    requires WithDot(m, core)
    ensures TrimSuffix(ToLower(m), ".") == ToLower(core)
  {
    if m == core + "." {
      ToLowerConcat(core, ".");
      assert ToLower(".") == ".";
      TrimConcat(ToLower(core), ".");
    } else {
      SuffixKeepsLast(ToLower(core), ".");
    }
  }

  /** Every string spells some host. */
  lemma SpellsSome(h: string) returns (core: string)
    ensures Spells(h, core)
  {
    var i, j := TrimSpaceParts(h);
    var m := h[i..j];
    core := if m != "" && m[|m| - 1] == '.' then m[..|m| - 1] else m;
    assert Between(h, i, j) && WithDot(m, core);
  }

  /** Normalizing forgets the blanks around a host, one final dot and the case of letters, and nothing else. */
  lemma SameHostIff(g: string, h: string, x: string, y: string)
    requires Spells(g, x) && Spells(h, y)
    ensures NormalizeHost(g) == NormalizeHost(h) <==> SameButCase(x, y)
  {
    NormalizeSpelled(g, x);
    NormalizeSpelled(h, y);
    ToLowerIff(x, y);
  }

  // ---------------------------------------------------------------- what a set of entries says

  /** From weakest to strongest; the strongest opinion of any entry wins. */
  datatype Verdict = Unknown | Grace | Explained | Authorized | Never

  function Strength(v: Verdict): nat {
    match v case Unknown => 0 case Grace => 1 case Explained => 2 case Authorized => 3 case Never => 4
  }

  function Stronger(v: Verdict, w: Verdict): Verdict { if Strength(v) < Strength(w) then w else v }

  function Opinion(e: Entry, id: Identity, host: string): Verdict {
    if Forbids(e, id, host) then Never
    else if Decides(e, id, host) then Authorized
    else if Explains(e, id, host) then Explained
    else if Graces(e, id, host) then Grace
    else Unknown
  }

  function Strongest(vs: seq<Verdict>): Verdict {
    if vs == [] then Unknown else Stronger(Strongest(vs[..|vs| - 1]), vs[|vs| - 1])
  }

  function OpinionOn(id: Identity, host: string): Entry -> Verdict { e => Opinion(e, id, host) }

  function VerdictOf(es: seq<Entry>, id: Identity, host: string): Verdict { Strongest(Map(OpinionOn(id, host), es)) }

  lemma {:induction false} StrongestIsGreatest(vs: seq<Verdict>)
    ensures forall v :: v in vs ==> Strength(v) <= Strength(Strongest(vs))
    ensures Strongest(vs) == Unknown || Strongest(vs) in vs
    decreases |vs|
  {
    if vs != [] { StrongestIsGreatest(vs[..|vs| - 1]); }
  }

  lemma {:induction false} StrongestConcat(u: seq<Verdict>, v: seq<Verdict>)
    ensures Strongest(u + v) == Stronger(Strongest(u), Strongest(v))
    decreases |v|
  {
    if v == [] {
      assert u + v == u;
    } else {
      StrongestConcat(u, v[..|v| - 1]);
      assert (u + v)[..|u + v| - 1] == u + v[..|v| - 1];
    }
  }

  /** The verdict is the greatest opinion held: at least every entry's, and some entry's unless none has any. */
  lemma VerdictIsGreatest(es: seq<Entry>, id: Identity, host: string)
    ensures forall e :: e in es ==> Strength(Opinion(e, id, host)) <= Strength(VerdictOf(es, id, host))
    ensures VerdictOf(es, id, host) == Unknown || exists e :: e in es && Opinion(e, id, host) == VerdictOf(es, id, host)
  {
    var vs := Map(OpinionOn(id, host), es);
    StrongestIsGreatest(vs);
    forall e | e in es ensures Opinion(e, id, host) in vs {
      var i :| 0 <= i < |es| && es[i] == e;
      assert vs[i] in vs;
    }
    if Strongest(vs) in vs {
      var i :| 0 <= i < |vs| && vs[i] == Strongest(vs);
      assert es[i] in es;
    }
  }

  /** Which entries there are settles the verdict; their order and repetition do not. */
  lemma VerdictOfMembers(a: seq<Entry>, b: seq<Entry>, id: Identity, host: string)
    requires forall e :: e in a <==> e in b
    ensures VerdictOf(a, id, host) == VerdictOf(b, id, host)
  {
    VerdictIsGreatest(a, id, host);
    VerdictIsGreatest(b, id, host);
  }

  /** Merging catalogs takes the stronger verdict; so the order of merging does not matter either. */
  lemma VerdictOfMerge(a: seq<Entry>, b: seq<Entry>, id: Identity, host: string)
    ensures VerdictOf(a + b, id, host) == Stronger(VerdictOf(a, id, host), VerdictOf(b, id, host))
  {
    var f := OpinionOn(id, host);
    MapConcat(f, a, b);
    StrongestConcat(Map(f, a), Map(f, b));
  }

  lemma VerdictSnoc(es: seq<Entry>, e: Entry, id: Identity, host: string)
    ensures VerdictOf(es + [e], id, host) == Stronger(VerdictOf(es, id, host), Opinion(e, id, host))
  {
    var f := OpinionOn(id, host);
    MapConcat(f, es, [e]);
    assert Map(f, [e]) == [f(e)];
    assert (Map(f, es) + [f(e)])[..|es|] == Map(f, es);
  }

  /** Letter case, surrounding blanks and a final dot do not change the answer. */
  lemma VerdictNormalizes(es: seq<Entry>, id: Identity, g: string, h: string)
    requires NormalizeHost(g) == NormalizeHost(h)
    ensures VerdictOf(es, id, g) == VerdictOf(es, id, h)
  {
    var a, b := Map(OpinionOn(id, g), es), Map(OpinionOn(id, h), es);
    forall i | 0 <= i < |es| ensures a[i] == b[i] { OpinionNormalizes(es[i], id, g, h); }
    assert a == b;
  }

  lemma OpinionNormalizes(e: Entry, id: Identity, g: string, h: string)
    requires NormalizeHost(g) == NormalizeHost(h)
    ensures OpinionOn(id, g)(e) == OpinionOn(id, h)(e)
  {
    assert Lists(e.never, g) == Lists(e.never, h);
    assert Expects(e, g) == Expects(e, h);
  }

  // ---------------------------------------------------------------- which entries speak about a process

  predicate Lacking(want: string, got: string) { want != "" && want != got }

  /** The entry names something the process does not have. */
  predicate Contradicts(want: Identity, got: Identity) {
    || Lacking(want.exePath, got.exePath) || Lacking(want.exeSHA256, got.exeSHA256) || Lacking(want.exeBasename, got.exeBasename)
    || Lacking(want.teamID, got.teamID) || Lacking(want.bundleID, got.bundleID)
  }

  /** The entry names something to be known by, a path only beside a hash, and all it names is the process's. */
  predicate Identifies(want: Identity, got: Identity) {
    && !Contradicts(want, got)
    && (if want.exePath != "" then want.exeSHA256 != ""
        else want.exeSHA256 != "" || want.exeBasename != "" || want.teamID != "" || want.bundleID != "")
  }

  /** The process runs from the entry's path with other contents. */
  predicate Rebuilt(want: Identity, got: Identity) {
    want.exePath != "" && want.exePath == got.exePath && want.exeSHA256 != "" && got.exeSHA256 != "" && want.exeSHA256 != got.exeSHA256
  }

  ghost predicate Denying(e: Entry, id: Identity, host: string) {
    (Identifies(e.identity, id) || Rebuilt(e.identity, id)) && exists h :: h in e.never && NormalizeHost(h) == NormalizeHost(host)
  }

  ghost predicate Expecting(e: Entry, host: string) { exists d :: d in e.expected && NormalizeHost(d.host) == NormalizeHost(host) }

  /** The entry names a signature, or the contents of a path. */
  predicate Pinned(id: Identity) { id.teamID != "" || id.bundleID != "" || (id.exePath != "" && id.exeSHA256 != "") }

  ghost predicate Deny(es: seq<Entry>, id: Identity, host: string) { exists e :: e in es && Denying(e, id, host) }

  ghost predicate Authorize(es: seq<Entry>, id: Identity, host: string) {
    exists e :: e in es && Identifies(e.identity, id) && Expecting(e, host) && Pinned(e.identity)
  }

  ghost predicate Explain(es: seq<Entry>, id: Identity, host: string) {
    exists e :: e in es && Identifies(e.identity, id) && Expecting(e, host)
  }

  ghost predicate Tolerate(es: seq<Entry>, id: Identity, host: string) {
    exists e :: e in es && Rebuilt(e.identity, id) && Expecting(e, host)
  }

  lemma ListsIff(hosts: seq<string>, host: string)
    ensures Lists(hosts, host) <==> exists h :: h in hosts && NormalizeHost(h) == NormalizeHost(host)
  {
    if h :| h in hosts && NormalizeHost(h) == NormalizeHost(host) { var i :| 0 <= i < |hosts| && hosts[i] == h; }
    if i :| 0 <= i < |hosts| && NormalizeHost(hosts[i]) == NormalizeHost(host) { assert hosts[i] in hosts; }
  }

  lemma ExpectsIff(e: Entry, host: string)
    ensures Expects(e, host) <==> Expecting(e, host)
  {
    if d :| d in e.expected && NormalizeHost(d.host) == NormalizeHost(host) { var i :| 0 <= i < |e.expected| && e.expected[i] == d; }
    if i :| 0 <= i < |e.expected| && NormalizeHost(e.expected[i].host) == NormalizeHost(host) { assert e.expected[i] in e.expected; }
  }

  lemma DescribesIff(want: Identity, got: Identity)
    ensures IdentityDescribes(want, got) <==> Identifies(want, got)
    ensures StaleBinary(want, got) <==> Rebuilt(want, got)
    ensures HasDecisionPin(want) <==> Pinned(want)
    ensures Rebuilt(want, got) ==> !Identifies(want, got)
  {
  }

  /** What one entry says of a process and a host, field by field. */
  lemma OpinionIs(e: Entry, id: Identity, host: string)
    ensures Opinion(e, id, host) ==
      if Denying(e, id, host) then Never
      else if !Expecting(e, host) then Unknown
      else if Identifies(e.identity, id) then (if Pinned(e.identity) then Authorized else Explained)
      else if Rebuilt(e.identity, id) then Grace
      else Unknown
  {
    DescribesIff(e.identity, id);
    ListsIff(e.never, host);
    ExpectsIff(e, host);
    OpinionCases(e, id, host, Denying(e, id, host), Expecting(e, host));
  }

  lemma OpinionCases(e: Entry, id: Identity, host: string, denied: bool, expected: bool)
    requires denied <==> Forbids(e, id, host)
    requires expected <==> Expects(e, host)
    ensures Opinion(e, id, host) ==
      if denied then Never
      else if !expected then Unknown
      else if IdentityDescribes(e.identity, id) then (if HasDecisionPin(e.identity) then Authorized else Explained)
      else if StaleBinary(e.identity, id) then Grace
      else Unknown
  {
  }

  lemma VerdictFrom(es: seq<Entry>, id: Identity, host: string)
    ensures match VerdictOf(es, id, host)
      case Never => Deny(es, id, host)
      case Authorized => Authorize(es, id, host)
      case Explained => Explain(es, id, host)
      case Grace => Tolerate(es, id, host)
      case Unknown => true
  {
    VerdictIsGreatest(es, id, host);
    if VerdictOf(es, id, host) != Unknown {
      var e :| e in es && Opinion(e, id, host) == VerdictOf(es, id, host);
      OpinionIs(e, id, host);
    }
  }

  lemma VerdictAtLeast(es: seq<Entry>, e: Entry, id: Identity, host: string)
    requires e in es
    ensures Denying(e, id, host) ==> Strength(VerdictOf(es, id, host)) >= 4
    ensures Identifies(e.identity, id) && Expecting(e, host) ==> Strength(VerdictOf(es, id, host)) >= if Pinned(e.identity) then 3 else 2
    ensures Rebuilt(e.identity, id) && Expecting(e, host) ==> Strength(VerdictOf(es, id, host)) >= 1
  {
    OpinionIs(e, id, host);
    OpinionBelow(es, e, id, host);
  }

  lemma OpinionBelow(es: seq<Entry>, e: Entry, id: Identity, host: string)
    requires e in es
    ensures Strength(Opinion(e, id, host)) <= Strength(VerdictOf(es, id, host))
  {
    VerdictIsGreatest(es, id, host);
  }

  lemma VerdictOver(es: seq<Entry>, id: Identity, host: string)
    ensures Deny(es, id, host) ==> Strength(VerdictOf(es, id, host)) >= 4
    ensures Authorize(es, id, host) ==> Strength(VerdictOf(es, id, host)) >= 3
    ensures Explain(es, id, host) ==> Strength(VerdictOf(es, id, host)) >= 2
    ensures Tolerate(es, id, host) ==> Strength(VerdictOf(es, id, host)) >= 1
  {
    forall e | e in es
      ensures Denying(e, id, host) ==> Strength(VerdictOf(es, id, host)) >= 4
      ensures Identifies(e.identity, id) && Expecting(e, host) ==> Strength(VerdictOf(es, id, host)) >= if Pinned(e.identity) then 3 else 2
      ensures Rebuilt(e.identity, id) && Expecting(e, host) ==> Strength(VerdictOf(es, id, host)) >= 1
    {
      VerdictAtLeast(es, e, id, host);
    }
  }

  /** The verdict of a catalog: denials first, then pinned expectations, then any, then the grace of a changed binary. */
  lemma VerdictIs(es: seq<Entry>, id: Identity, host: string)
    ensures VerdictOf(es, id, host) ==
      if Deny(es, id, host) then Never
      else if Authorize(es, id, host) then Authorized
      else if Explain(es, id, host) then Explained
      else if Tolerate(es, id, host) then Grace
      else Unknown
  {
    VerdictFrom(es, id, host);
    VerdictOver(es, id, host);
    AuthorizeExplains(es, id, host);
  }

  /** An entry that speaks about a process and lists some host. */
  predicate Speaks(e: Entry, id: Identity) {
    (Identifies(e.identity, id) || Rebuilt(e.identity, id)) && (e.never != [] || e.expected != [])
  }

  lemma QuietOpinion(e: Entry, id: Identity, host: string)
    requires !Speaks(e, id)
    ensures Opinion(e, id, host) == Unknown
  {
    OpinionIs(e, id, host);
  }

  lemma LoudOpinion(e: Entry, id: Identity) returns (host: string)
    requires Speaks(e, id)
    ensures Opinion(e, id, host) != Unknown
  {
    if e.never != [] {
      host := e.never[0];
      assert e.never[0] in e.never && Denying(e, id, host);
    } else {
      host := e.expected[0].host;
      assert e.expected[0] in e.expected && Expecting(e, host);
    }
    OpinionIs(e, id, host);
  }

  /** An entry changes some verdict on a process exactly when it identifies it, or is of its changed binary, and lists a host. */
  lemma SpeaksIff(e: Entry, id: Identity)
    ensures (forall a, b, host :: VerdictOf(a + [e] + b, id, host) == VerdictOf(a + b, id, host)) <==> !Speaks(e, id)
  {
    if Speaks(e, id) {
      var host := LoudOpinion(e, id);
      VerdictInside([], e, [], id, host);
      assert VerdictOf([] + [e] + [], id, host) != VerdictOf([] + [], id, host);
    } else {
      forall a, b, host ensures VerdictOf(a + [e] + b, id, host) == VerdictOf(a + b, id, host) {
        QuietOpinion(e, id, host);
        VerdictInside(a, e, b, id, host);
      }
    }
  }

  lemma VerdictInside(a: seq<Entry>, e: Entry, b: seq<Entry>, id: Identity, host: string)
    ensures VerdictOf(a + [e] + b, id, host) == Stronger(VerdictOf(a + b, id, host), Opinion(e, id, host))
  {
    VerdictOfMerge(a + [e], b, id, host);
    VerdictSnoc(a, e, id, host);
    VerdictOfMerge(a, b, id, host);
  }

  /** A process that lacks something the entry names, and is not the entry's changed binary, is judged as without the entry. */
  lemma StrangerUnaffected(a: seq<Entry>, e: Entry, b: seq<Entry>, id: Identity, host: string)
    requires Contradicts(e.identity, id) && !Rebuilt(e.identity, id)
    ensures VerdictOf(a + [e] + b, id, host) == VerdictOf(a + b, id, host)
  {
    OpinionIs(e, id, host);
    VerdictInside(a, e, b, id, host);
  }

  lemma StrengthIs(v: Verdict, w: Verdict)
    ensures Strength(w) <= Strength(Stronger(v, w))
    ensures Strength(v) >= 4 ==> v == Never
    ensures Strength(v) >= 3 ==> v == Never || v == Authorized
    ensures Strength(v) >= 2 ==> v == Never || v == Authorized || v == Explained
  {
  }

  /** A process that has all the entry names is judged at least as the entry says. */
  lemma KindredAffected(a: seq<Entry>, e: Entry, b: seq<Entry>, id: Identity, host: string)
    requires Identifies(e.identity, id)
    ensures (exists h :: h in e.never && NormalizeHost(h) == NormalizeHost(host)) ==> VerdictOf(a + [e] + b, id, host) == Never
    ensures Expecting(e, host) ==> VerdictOf(a + [e] + b, id, host) in {Never, Authorized, Explained}
    ensures Expecting(e, host) && Pinned(e.identity) ==> VerdictOf(a + [e] + b, id, host) in {Never, Authorized}
  {
    VerdictAtLeast(a + [e] + b, e, id, host);
    StrengthIs(VerdictOf(a + [e] + b, id, host), Unknown);
  }

  function Layers(layers: seq<seq<Entry>>): seq<Entry> {
    if layers == [] then [] else Layers(layers[..|layers| - 1]) + layers[|layers| - 1]
  }

  ghost predicate SomeLayerDenies(layers: seq<seq<Entry>>, id: Identity, host: string) {
    exists i :: 0 <= i < |layers| && VerdictOf(layers[i], id, host) == Never
  }

  lemma SomeLayerSnoc(layers: seq<seq<Entry>>, last: seq<Entry>, id: Identity, host: string)
    ensures SomeLayerDenies(layers + [last], id, host) <==> SomeLayerDenies(layers, id, host) || VerdictOf(last, id, host) == Never
  {
    var all := layers + [last];
    assert all[|layers|] == last;
    if i :| 0 <= i < |layers| && VerdictOf(layers[i], id, host) == Never { assert all[i] == layers[i]; }
  }

  lemma NeverWins(v: Verdict, w: Verdict)
    ensures Stronger(v, w) == Never <==> v == Never || w == Never
  {
  }

  /** A host is denied by merged layers exactly when some layer denies it. */
  lemma {:induction false} MergedNever(layers: seq<seq<Entry>>, id: Identity, host: string)
    ensures VerdictOf(Layers(layers), id, host) == Never <==> SomeLayerDenies(layers, id, host)
    decreases |layers|
  {
    if layers != [] {
      var n := |layers| - 1;
      MergedNever(layers[..n], id, host);
      VerdictOfMerge(Layers(layers[..n]), layers[n], id, host);
      NeverWins(VerdictOf(Layers(layers[..n]), id, host), VerdictOf(layers[n], id, host));
      SomeLayerSnoc(layers[..n], layers[n], id, host);
      assert layers == layers[..n] + [layers[n]];
    }
  }

  // ---------------------------------------------------------------- adding what is already there

  /** Every destination of b is one of a's, and there are as many; the comparison is not symmetric. */
  predicate SameExpected(a: seq<Destination>, b: seq<Destination>) {
    |a| == |b| && forall j :: 0 <= j < |b| ==> exists i :: 0 <= i < |a| && NormalizeHost(a[i].host) == NormalizeHost(b[j].host)
  }

  predicate SameHosts(a: seq<string>, b: seq<string>) {
    |a| == |b| && forall j :: 0 <= j < |b| ==> exists i :: 0 <= i < |a| && NormalizeHost(a[i]) == NormalizeHost(b[j])
  }

  predicate SameFact(a: Entry, b: Entry) {
    a.identity == b.identity && SameExpected(a.expected, b.expected) && SameHosts(a.never, b.never)
  }

  /** The compared lists may list one host twice: then a says more than b, but never less. */
  lemma SameFactIsAsStrong(a: Entry, b: Entry, id: Identity, host: string)
    requires SameFact(a, b)
    ensures Strength(Opinion(b, id, host)) <= Strength(Opinion(a, id, host))
  {
    NeverCarriesOver(a.never, b.never, host);
    ExpectsCarriesOver(a, b, host);
    MoreIsAsStrong(a, b, id, host);
  }

  lemma MoreIsAsStrong(a: Entry, b: Entry, id: Identity, host: string)
    requires a.identity == b.identity
    requires Lists(b.never, host) ==> Lists(a.never, host)
    requires Expects(b, host) ==> Expects(a, host)
    ensures Strength(Opinion(b, id, host)) <= Strength(Opinion(a, id, host))
  {
  }

  lemma NeverCarriesOver(a: seq<string>, b: seq<string>, host: string)
    requires SameHosts(a, b)
    ensures Lists(b, host) ==> Lists(a, host)
  {
    if j :| 0 <= j < |b| && NormalizeHost(b[j]) == NormalizeHost(host) {
      var i :| 0 <= i < |a| && NormalizeHost(a[i]) == NormalizeHost(b[j]);
    }
  }

  lemma ExpectsCarriesOver(a: Entry, b: Entry, host: string)
    requires SameExpected(a.expected, b.expected)
    ensures Expects(b, host) ==> Expects(a, host)
  {
    if j :| 0 <= j < |b.expected| && NormalizeHost(b.expected[j].host) == NormalizeHost(host) {
      var i :| 0 <= i < |a.expected| && NormalizeHost(a.expected[i].host) == NormalizeHost(b.expected[j].host);
    }
  }

  /** Declining an entry changes no answer: every query is answered as if it had been added. */
  lemma DecliningLosesNothing(es: seq<Entry>, e: Entry, id: Identity, host: string)
    requires exists x :: x in es && SameFact(x, e)
    ensures VerdictOf(es + [e], id, host) == VerdictOf(es, id, host)
  {
    var x :| x in es && SameFact(x, e);
    SameFactIsAsStrong(x, e, id, host);
    VerdictIsGreatest(es, id, host);
    VerdictSnoc(es, e, id, host);
  }

  /** The comparison accepts a repeated host against two different ones, but not the other way round. */
  lemma SameHostsIsNotSymmetric(x: string, y: string)
    requires NormalizeHost(x) != NormalizeHost(y)
    ensures SameHosts([x, y], [x, x]) && !SameHosts([x, x], [x, y])
  {
    var a, b := [x, y], [x, x];
    assert a[0] == x;
    assert forall i :: 0 <= i < 2 ==> NormalizeHost(b[i]) != NormalizeHost(a[1]);
  }

  // ---------------------------------------------------------------- validation

  datatype Invalid =
    | EmptyIdentityError | MissingEvidence | MissingExplanation | BadConfidence | HighNeedsAnchor
    | BadHash | HashNeedsPath | PathNeedsHash | PathNotAbsolute | BadLayer | BadSchema

  predicate IsHex64(s: string) { |s| == 64 && forall i :: 0 <= i < |s| ==> '0' <= s[i] <= '9' || 'a' <= s[i] <= 'f' }

  predicate ValidLayer(l: string) { l == "baseline" || l == "pro" || l == "user" }

  function Validate(e: Entry, allowLegacyUserHash: bool): Result<(), Invalid> {
    if EmptyIdentity(e.identity) then Err(EmptyIdentityError)
    else if e.evidence == "" then Err(MissingEvidence)
    else if e.explanation == "" then Err(MissingExplanation)
    else if e.confidence == OtherConfidence then Err(BadConfidence)
    else if e.confidence == High && e.identity.teamID == "" && e.identity.bundleID == "" then Err(HighNeedsAnchor)
    else if e.identity.exeSHA256 != "" && !IsHex64(e.identity.exeSHA256) then Err(BadHash)
    else if e.identity.exeSHA256 != "" && e.identity.exePath == "" && !(allowLegacyUserHash && e.layer == "user") then Err(HashNeedsPath)
    else if e.identity.exePath != "" && e.identity.exeSHA256 == "" then Err(PathNeedsHash)
    else if e.identity.exePath != "" && !IsAbs(e.identity.exePath) then Err(PathNotAbsolute)
    else if !ValidLayer(e.layer) then Err(BadLayer)
    else if e.schemaVersion != CURRENT_SCHEMA_VERSION then Err(BadSchema)
    else Ok(())
  }

  /** An entry is valid exactly when it names a process, says why, claims no more than it pins, and is of a layer that loads. */
  lemma ValidIff(e: Entry, legacy: bool)
    ensures Validate(e, legacy).Ok? <==>
      var id := e.identity;
      && (id.exeSHA256 != "" || id.bundleID != "" || id.teamID != "" || id.exeBasename != "")
      && e.evidence != "" && e.explanation != "" && e.confidence in {High, Medium}
      && (e.confidence == High ==> id.teamID != "" || id.bundleID != "")
      && (id.exeSHA256 != "" ==> |id.exeSHA256| == 64 && forall c :: c in id.exeSHA256 ==> '0' <= c <= '9' || 'a' <= c <= 'f')
      && (id.exeSHA256 != "" ==> id.exePath != "" || (legacy && e.layer == "user"))
      && (id.exePath != "" ==> id.exeSHA256 != "" && id.exePath[0] == '/')
      && e.layer in {"baseline", "pro", "user"} && e.schemaVersion == 1
  {
    var hash := e.identity.exeSHA256;
    assert (forall i :: 0 <= i < |hash| ==> hash[i] in hash);
  }

  /**
   * No valid entry is dead: it describes the very process it names, and one that claims high confidence decides.
   * An entry may be added only if it could also be loaded back.
   */
  lemma ValidEntryIsAlive(e: Entry, legacy: bool)
    requires Validate(e, legacy).Ok?
    ensures IdentityDescribes(e.identity, e.identity)
    ensures e.confidence == High ==> HasDecisionPin(e.identity)
    ensures e.identity.exePath != "" ==> HasDecisionPin(e.identity)
    ensures Validate(e, true).Ok?
  {
  }

  // ---------------------------------------------------------------- the catalog object

  /** What a match says, leaving out which entry said it. */
  function Said(m: Match): Verdict {
    if m.neverHit then Never
    else if m.found then if m.authoritative then Authorized else Explained
    else if m.staleBinary then Grace
    else Unknown
  }

  /** A match names an entry of the catalog that holds the winning opinion. */
  ghost predicate Witnessed(es: seq<Entry>, id: Identity, host: string, m: Match) {
    && (m.entry.Some? <==> Said(m) != Unknown)
    && (m.entry.Some? ==> m.entry.value in es && Opinion(m.entry.value, id, host) == Said(m))
    && (m.staleBinary && !m.neverHit ==> !m.found)
    && (m.neverHit ==> m.found && m.authoritative == HasDecisionPin(m.entry.value.identity))
    && (m.neverHit ==> m.staleBinary == StaleBinary(m.entry.value.identity, id))
  }

  /** The flags of a match, by what the entries name and list. */
  ghost predicate Answers(es: seq<Entry>, id: Identity, host: string, m: Match) {
    && (m.neverHit <==> Deny(es, id, host))
    && (!m.neverHit ==> (m.found <==> Explain(es, id, host)))
    && (!m.neverHit && m.found ==> (m.authoritative <==> Authorize(es, id, host)))
    && (!m.neverHit && !m.found ==> (m.staleBinary <==> Tolerate(es, id, host)))
  }

  lemma MatchIs(es: seq<Entry>, id: Identity, host: string, m: Match)
    requires Said(m) == VerdictOf(es, id, host)
    ensures Answers(es, id, host, m)
  {
    VerdictIs(es, id, host);
    AuthorizeExplains(es, id, host);
  }

  lemma AuthorizeExplains(es: seq<Entry>, id: Identity, host: string)
    ensures Authorize(es, id, host) ==> Explain(es, id, host)
  {
  }

  method HostInList(hosts: seq<string>, normalized: string) returns (r: bool)
    ensures r == exists i :: 0 <= i < |hosts| && NormalizeHost(hosts[i]) == normalized
  {
    for i := 0 to |hosts|
      invariant forall k :: 0 <= k < i ==> NormalizeHost(hosts[k]) != normalized
    {
      if NormalizeHost(hosts[i]) == normalized { return true; }
    }
    return false;
  }

  method HostInDestinations(destinations: seq<Destination>, normalized: string) returns (r: bool)
    ensures r == exists i :: 0 <= i < |destinations| && NormalizeHost(destinations[i].host) == normalized
  {
    for i := 0 to |destinations|
      invariant forall k :: 0 <= k < i ==> NormalizeHost(destinations[k].host) != normalized
    {
      if NormalizeHost(destinations[i].host) == normalized { return true; }
    }
    return false;
  }

  /** The state of the scan: the first match, upgraded once to an authoritative one, and the first stale entry. */
  ghost predicate Scanned(es: seq<Entry>, id: Identity, host: string, expected: Match, stale: Match) {
    && VerdictOf(es, id, host) != Never
    && (expected == NO_MATCH || (expected.found && !expected.neverHit && !expected.staleBinary))
    && (stale == NO_MATCH || Said(stale) == Grace)
    && Said(if expected.found then expected else stale) == VerdictOf(es, id, host)
    && Witnessed(es, id, host, expected) && Witnessed(es, id, host, stale)
  }

  function StaleMatch(e: Entry): Match { Match(false, Some(e), false, false, true) }

  /** Keep the first match, but let the first authoritative one replace a match that is not. */
  function Improved(m: Match, e: Entry): Match {
    if !m.found || (!m.authoritative && HasDecisionPin(e.identity)) then Match(true, Some(e), false, HasDecisionPin(e.identity), false)
    else m
  }

  function NextExpected(expected: Match, e: Entry, id: Identity, host: string): Match {
    if Explains(e, id, host) then Improved(expected, e) else expected
  }

  function NextStale(stale: Match, e: Entry, id: Identity, host: string): Match {
    if Graces(e, id, host) && !stale.staleBinary then StaleMatch(e) else stale
  }

  /** An entry that does not deny moves the scan on. */
  lemma ScanStep(es: seq<Entry>, e: Entry, id: Identity, host: string, expected: Match, stale: Match)
    requires Scanned(es, id, host, expected, stale)
    ensures StaleBinary(e.identity, id) ==> !IdentityDescribes(e.identity, id)
    ensures !Forbids(e, id, host) ==> Scanned(es + [e], id, host, NextExpected(expected, e, id, host), NextStale(stale, e, id, host))
  {
    VerdictSnoc(es, e, id, host);
    assert e in es + [e];
  }

  lemma DeniedBy(es: seq<Entry>, e: Entry, id: Identity, host: string)
    requires e in es && Forbids(e, id, host)
    ensures VerdictOf(es, id, host) == Never && Opinion(e, id, host) == Never
  {
    assert Opinion(e, id, host) == Never;
    VerdictIsGreatest(es, id, host);
    NeverIsStrongest(VerdictOf(es, id, host));
  }

  lemma NeverIsStrongest(v: Verdict)
    ensures Strength(Never) <= Strength(v) <==> v == Never
  {
  }

  function DenialBy(e: Entry, id: Identity): Match {
    Match(true, Some(e), true, HasDecisionPin(e.identity), StaleBinary(e.identity, id))
  }

  /** What the scan does with one entry: stop with a denial, or keep a better match. */
  method Consider(e: Entry, id: Identity, host: string, expected: Match, stale: Match)
    returns (denial: Option<Match>, better: Match, graced: Match)
    ensures denial == if Forbids(e, id, host) then Some(DenialBy(e, id)) else None
    ensures denial.None? ==> better == NextExpected(expected, e, id, host) && graced == NextStale(stale, e, id, host)
  {
    denial, better, graced := None, expected, stale;
    var nh := NormalizeHost(host);
    if StaleBinary(e.identity, id) {
      var never := HostInList(e.never, nh);
      if never { return Some(Match(true, Some(e), true, HasDecisionPin(e.identity), true)), expected, stale; }
      var listed := HostInDestinations(e.expected, nh);
      if listed && !stale.staleBinary { graced := Match(false, Some(e), false, false, true); }
    }
    if !IdentityDescribes(e.identity, id) { return; }
    var authoritative := HasDecisionPin(e.identity);
    for j := 0 to |e.never|
      invariant forall k :: 0 <= k < j ==> NormalizeHost(e.never[k]) != nh
    {
      if NormalizeHost(e.never[j]) == nh { return Some(Match(true, Some(e), true, authoritative, false)), expected, stale; }
    }
    better := Improve(e, host, expected);
  }

  method Improve(e: Entry, host: string, expected: Match) returns (better: Match)
    ensures better == if Expects(e, host) then Improved(expected, e) else expected
  {
    var nh := NormalizeHost(host);
    var authoritative := HasDecisionPin(e.identity);
    ghost var improved := Improved(expected, e);
    ghost var seen := false;
    better := expected;
    for j := 0 to |e.expected|
      invariant seen ==> Expects(e, host)
      invariant !seen ==> forall k :: 0 <= k < j ==> NormalizeHost(e.expected[k].host) != nh
      invariant better == if seen then improved else expected
    {
      var listed := NormalizeHost(e.expected[j].host) == nh;
      if listed && (!better.found || (!better.authoritative && authoritative)) {
        better := Match(true, Some(e), false, authoritative, false);
      }
      seen := seen || listed;
    }
  }

  class Catalog {
    var issuedAt: string
    var entries: seq<Entry>

    constructor ()
      ensures entries == [] && issuedAt == ""
    {
      issuedAt, entries := "", [];
    }

    /** What the catalog says of a process and a host, and an entry that says it. */
    method Lookup(id: Identity, host: string) returns (m: Match)
      ensures Said(m) == VerdictOf(entries, id, host)
      ensures Witnessed(entries, id, host, m)
      ensures Answers(entries, id, host, m)
    {
      m := Scan(id, host);
      MatchIs(entries, id, host, m);
    }

    /** One pass over the entries, returning at the first denial. */
    method Scan(id: Identity, host: string) returns (m: Match)
      ensures Said(m) == VerdictOf(entries, id, host)
      ensures Witnessed(entries, id, host, m)
    {
      var expected, stale := NO_MATCH, NO_MATCH;
      for i := 0 to |entries|
        invariant Scanned(entries[..i], id, host, expected, stale)
      {
        assert entries[..i + 1] == entries[..i] + [entries[i]];
        ScanStep(entries[..i], entries[i], id, host, expected, stale);
        var denial;
        denial, expected, stale := Consider(entries[i], id, host, expected, stale);
        if denial.Some? {
          DeniedBy(entries, entries[i], id, host);
          return denial.value;
        }
      }
      assert entries[..|entries|] == entries;
      if expected.found { return expected; }
      if stale.staleBinary { return stale; }
      return expected;
    }

    /** Whether any entry names the host at all. */
    method HasHost(host: string) returns (r: bool)
      ensures r == exists e :: e in entries && (Lists(e.never, host) || Expects(e, host))
    {
      var nh := NormalizeHost(host);
      for i := 0 to |entries|
        invariant forall k :: 0 <= k < i ==> !Lists(entries[k].never, host) && !Expects(entries[k], host)
      {
        var never := HostInList(entries[i].never, nh);
        if never { return true; }
        var listed := HostInDestinations(entries[i].expected, nh);
        if listed { return true; }
      }
      return false;
    }

    method Add(e: Entry) returns (r: Result<(), Invalid>)
      modifies this
      ensures r == Validate(e, false)
      ensures entries == if r.Ok? then old(entries) + [e] else old(entries)
      ensures issuedAt == if r.Ok? then "" else old(issuedAt)
    {
      r := Validate(e, false);
      if r.Err? { return; }
      entries := entries + [e];
      issuedAt := "";
    }

    method AddIfAbsent(e: Entry) returns (r: Result<bool, Invalid>)
      modifies this
      ensures r.Err? <==> Validate(e, false).Err?
      ensures r.Err? ==> r.error == Validate(e, false).error && entries == old(entries)
      ensures r.Ok? ==> r.value == !exists x :: x in old(entries) && SameFact(x, e)
      ensures entries == if r == Ok(true) then old(entries) + [e] else old(entries)
      ensures issuedAt == if r == Ok(true) then "" else old(issuedAt)
      ensures r.Ok? ==> forall id, host :: VerdictOf(entries, id, host) == VerdictOf(old(entries) + [e], id, host)
    {
      var v := Validate(e, false);
      if v.Err? { return Err(v.error); }
      for i := 0 to |entries|
        invariant forall k :: 0 <= k < i ==> !SameFact(entries[k], e)
      {
        if SameFact(entries[i], e) {
          forall id, host ensures VerdictOf(entries, id, host) == VerdictOf(entries + [e], id, host) {
            DecliningLosesNothing(entries, e, id, host);
          }
          return Ok(false);
        }
      }
      entries := entries + [e];
      issuedAt := "";
      return Ok(true);
    }

    /** Appending another catalog's entries; a catalog may even be merged into itself. */
    method Merge(other: Catalog)
      modifies this
      ensures entries == old(entries) + old(other.entries)
      ensures issuedAt == if old(other.entries) == [] then old(issuedAt) else ""
      ensures forall id, host ::
        VerdictOf(entries, id, host) == Stronger(VerdictOf(old(entries), id, host), VerdictOf(old(other.entries), id, host))
    {
      var copied := other.entries;
      forall id, host ensures VerdictOf(entries + copied, id, host) == Stronger(VerdictOf(entries, id, host), VerdictOf(copied, id, host)) {
        VerdictOfMerge(entries, copied, id, host);
      }
      entries := entries + copied;
      if |copied| > 0 { issuedAt := ""; }
    }
  }

  // ---------------------------------------------------------------- loading

  datatype LoadError = NotExist | BadSourceLayer | BadEntry(index: nat, reason: Invalid) | WrongLayer(index: nat)

  predicate Loadable(es: seq<Entry>, layer: string) {
    ValidLayer(layer) && forall i :: 0 <= i < |es| ==> Validate(es[i], true).Ok? && es[i].layer == layer
  }

  /** Read one layer file, its encoding aside: None is a missing file, and every entry must be valid and of this layer. */
  method LoadLayerFile(layer: string, file: Option<seq<Entry>>) returns (r: Result<seq<Entry>, LoadError>)
    ensures file.None? ==> r == Err(NotExist)
    ensures file.Some? ==> (r.Ok? <==> Loadable(file.value, layer)) && r != Err(NotExist)
    ensures r.Ok? ==> layer in {"baseline", "pro", "user"} && forall e :: e in r.value ==> e.layer == layer && Validate(e, true).Ok?
    ensures r.Ok? ==> r.value == file.value
  {
    if file.None? { return Err(NotExist); }
    if !ValidLayer(layer) { return Err(BadSourceLayer); }
    var es := file.value;
    for i := 0 to |es|
      invariant forall k :: 0 <= k < i ==> Validate(es[k], true).Ok?
    {
      if Validate(es[i], true).Err? { return Err(BadEntry(i, Validate(es[i], true).error)); }
    }
    for i := 0 to |es|
      invariant forall k :: 0 <= k < i ==> es[k].layer == layer
    {
      if es[i].layer != layer { return Err(WrongLayer(i)); }
    }
    return Ok(es);
  }

  datatype LayerFile = LayerFile(name: string, file: Option<seq<Entry>>)

  function Present(layers: seq<LayerFile>): (r: seq<seq<Entry>>)
    ensures |r| == |layers|
  {
    seq(|layers|, i requires 0 <= i < |layers| => if layers[i].file.Some? then layers[i].file.value else [])
  }

  /** Merge the layers in order: missing files are empty, a malformed one stops the start. */
  method LoadLayers(layers: seq<LayerFile>) returns (r: Result<seq<Entry>, LoadError>)
    ensures r.Ok? <==> forall i :: 0 <= i < |layers| && layers[i].file.Some? ==> Loadable(layers[i].file.value, layers[i].name)
    ensures r.Ok? ==> r.value == Layers(Present(layers))
  {
    var live: seq<Entry> := [];
    for i := 0 to |layers|
      invariant forall k :: 0 <= k < i && layers[k].file.Some? ==> Loadable(layers[k].file.value, layers[k].name)
      invariant live == Layers(Present(layers)[..i])
    {
      assert Present(layers)[..i + 1][..i] == Present(layers)[..i];
      var loaded := LoadLayerFile(layers[i].name, layers[i].file);
      if loaded.Err? {
        if loaded.error == NotExist { continue; }
        return Err(loaded.error);
      }
      live := live + loaded.value;
    }
    assert Present(layers)[..|layers|] == Present(layers);
    return Ok(live);
  }
}
