/**
 * The decision loop over whole runs: a connection is decided from the catalog or by asking, an answer of "always"
 * is written into the catalog on disk and in memory, and the next decision reads it back.
 */
module Ratifying {
  import opened Options
  import opened Text
  import opened Entries
  import opened Identities
  import opened Actions
  import C = Catalogs

  // ---------------------------------------------------------------- who is asking

  const USER: string := "user"

  /** The identity decisions are made for: name, signature, and the hashed real path when hashing succeeded. */
  function IdentityFor(exe: string, comm: string, teamID: string, bundleID: string, hash: Option<(string, string)>): Identity {
    var base := if Base(exe) == "" || Base(exe) == "." then comm else Base(exe);
    if hash.Some? && exe != "" then Identity(base, hash.value.0, hash.value.1, teamID, bundleID, false)
    else Identity(base, "", "", teamID, bundleID, false)
  }

  /** The identity the drift classification reports, from the log record it builds. */
  function ClassifiedIdentity(exe: string, comm: string, id: Identity): Identity {
    var path := if id.exePath != "" then id.exePath else exe;
    var base := if Base(path) == "" || Base(path) == "." then comm else Base(path);
    Identity(base, if id.exeSHA256 != "" && IsAbs(path) then path else "", id.exeSHA256, id.teamID, "", false)
  }

  /** The identity the prompt shows and ratifies: the decision's own when it is pinned or there is no baseline. */
  function PromptedIdentity(exe: string, comm: string, id: Identity, baselineLoaded: bool): Identity {
    if !baselineLoaded || C.HasDecisionPin(id) then id else ClassifiedIdentity(exe, comm, id)
  }

  /** What gets ratified is exactly the identity that was decided, baseline or not. */
  lemma RatifiesWhoAsked(exe: string, comm: string, team: string, bundle: string, hash: Option<(string, string)>, loaded: bool)
    requires hash.Some? ==> hash.value.0 != "" && hash.value.1 != ""
    ensures var id := IdentityFor(exe, comm, team, bundle, hash); PromptedIdentity(exe, comm, id, loaded) == id
  {
  }

  // ---------------------------------------------------------------- what an answer becomes

  /** One prompt; now is the wording of the current time. */
  datatype Request = Request(identity: Identity, comm: string, host: string, regDom: string, now: string)

  function RatifiedHost(req: Request): string { if req.host != "" then req.host else req.regDom }

  function RatifiedConfidence(id: Identity): C.Confidence {
    if id.teamID == "" && id.bundleID == "" then C.Medium else C.High
  }

  function Explanation(req: Request, allow: bool): (r: string)
    ensures r != ""
  {
    var host := RatifiedHost(req);
    if !allow then req.comm + " must never reach " + host + " (ratified by user)"
    else if C.HasDecisionPin(req.identity) then req.comm + " is allowed to reach " + host + " (ratified by user)"
    else
      req.comm + " was allowed once to reach " + host
      + ", but no executable identity pin was available; this entry is context-only"
  }

  function Evidence(req: Request): (r: string)
    ensures r != ""
  {
    "ratified by user via drift prompt at " + req.now
  }

  function CatalogEntryFor(req: Request, allow: bool): C.Entry {
    var host := RatifiedHost(req);
    C.Entry(C.CURRENT_SCHEMA_VERSION, req.identity,
            if allow then [C.Destination(host, "user-ratified allow via drift prompt")] else [],
            if allow then [] else [host],
            Explanation(req, allow), Evidence(req), RatifiedConfidence(req.identity), USER)
  }

  /** A decision's identity: the last name of the path, the signature, and path and hash only together. */
  lemma DecidedAs(exe: string, comm: string, team: string, bundle: string, hash: Option<(string, string)>, i: nat, j: nat)
    requires i < j <= |exe| && SlashFree(exe[i..j]) && OnlySlashes(exe[j..]) && (i > 0 ==> exe[i - 1] == '/') && exe[i..j] !in {"", "."}
    ensures IdentityFor(exe, comm, team, bundle, hash)
      == if hash.None? then Identity(exe[i..j], "", "", team, bundle, false)
         else Identity(exe[i..j], hash.value.0, hash.value.1, team, bundle, false)
    ensures IdentityFor("", comm, team, bundle, hash) == Identity(comm, "", "", team, bundle, false)
  {
    BaseIs(exe, i, j);
  }

  /** The drift classification names a process as the baseline learns it. */
  lemma ClassifiedAsLearned(exe: string, comm: string, id: Identity, e: Entry)
    requires e.exe == (if id.exePath != "" then id.exePath else exe) && e.comm == comm
    requires e.exeSHA256 == id.exeSHA256 && e.teamID == id.teamID
    ensures ClassifiedIdentity(exe, comm, id) == IdentityFromEntry(e)
  {
  }

  /** The stored fact: this process and host, denied or expected, of the user's layer, and of high confidence only when signed. */
  lemma RatifiedFact(req: Request, allow: bool)
    ensures var e, host := CatalogEntryFor(req, allow), if req.host != "" then req.host else req.regDom;
      && e.identity == req.identity && e.layer == "user" && e.schemaVersion == 1
      && (if allow then e.never == [] && |e.expected| == 1 && e.expected[0].host == host else e.never == [host] && e.expected == [])
      && e.confidence == (if req.identity.teamID != "" || req.identity.bundleID != "" then C.High else C.Medium)
  {
  }

  /** An answer can be ratified exactly when its identity is sound; nothing else about the request matters. */
  lemma RatifiableIff(req: Request, allow: bool)
    ensures C.Validate(CatalogEntryFor(req, allow), false).Ok? <==>
      var id := req.identity;
      && !C.EmptyIdentity(id)
      && (id.exeSHA256 != "" <==> id.exePath != "")
      && (id.exeSHA256 != "" ==> C.IsHex64(id.exeSHA256) && IsAbs(id.exePath))
  {
    var e := CatalogEntryFor(req, allow);
    assert e.evidence != "" && e.explanation != "";
  }

  /** What the ratified entry says about the process it was asked for. */
  lemma RatifiedOpinion(req: Request, allow: bool)
    requires C.Validate(CatalogEntryFor(req, allow), false).Ok?
    ensures C.Opinion(CatalogEntryFor(req, allow), req.identity, RatifiedHost(req))
      == if !allow then C.Never else if C.HasDecisionPin(req.identity) then C.Authorized else C.Explained
  {
    var e := CatalogEntryFor(req, allow);
    C.ValidEntryIsAlive(e, false);
    if allow {
      assert e.never == [] && e.expected[0].host == RatifiedHost(req);
      OnlyExpects(e, RatifiedHost(req));
    } else {
      assert e.never[0] == RatifiedHost(req);
      assert C.Lists(e.never, RatifiedHost(req));
    }
  }

  lemma OnlyExpects(e: C.Entry, host: string)
    requires e.never == [] && e.expected != [] && e.expected[0].host == host && C.IdentityDescribes(e.identity, e.identity)
    ensures C.Opinion(e, e.identity, host) == if C.HasDecisionPin(e.identity) then C.Authorized else C.Explained
  {
    assert C.Expects(e, host);
  }

  // ---------------------------------------------------------------- state

  /** The catalog in memory, and the user layer on disk. */
  datatype State = State(live: seq<C.Entry>, disk: Option<seq<C.Entry>>)

  datatype RatifyError = BadDisk | BadFact(reason: C.Invalid) | WriteFailed

  predicate Known(es: seq<C.Entry>, e: C.Entry) { exists i :: 0 <= i < |es| && C.SameFact(es[i], e) }

  function WithFact(es: seq<C.Entry>, e: C.Entry): seq<C.Entry> { if Known(es, e) then es else es + [e] }

  function OnDisk(s: State): seq<C.Entry> { if s.disk.Some? then s.disk.value else [] }

  predicate DiskSound(s: State) { C.Loadable(OnDisk(s), USER) }

  /** Record a fact on disk and then in memory; writable says whether the file can be replaced. */
  function Ratify(s: State, e: C.Entry, writable: bool): Result<State, RatifyError> {
    if !DiskSound(s) then Err(BadDisk)
    else if C.Validate(e, false).Err? then Err(BadFact(C.Validate(e, false).error))
    else if Known(OnDisk(s), e) then Ok(s.(live := WithFact(s.live, e)))
    else if !writable then Err(WriteFailed)
    else Ok(State(WithFact(s.live, e), Some(OnDisk(s) + [e])))
  }

  /**
   * A fact is stored exactly when the user's file is sound, the fact valid, and the file holds it already or can be
   * replaced; the file then gains it unless it was there, and so does the catalog in memory.
   */
  lemma RatifyIs(s: State, e: C.Entry, writable: bool)
    ensures var known := exists x :: x in OnDisk(s) && C.SameFact(x, e);
      && (Ratify(s, e, writable).Ok? <==> C.Loadable(OnDisk(s), "user") && C.Validate(e, false).Ok? && (known || writable))
      && (Ratify(s, e, writable).Ok? ==>
            var t := Ratify(s, e, writable).value;
            && t.disk == (if known then s.disk else Some(OnDisk(s) + [e]))
            && t.live == (if exists x :: x in s.live && C.SameFact(x, e) then s.live else s.live + [e]))
  {
    KnownIff(OnDisk(s), e);
    KnownIff(s.live, e);
  }

  lemma KnownIff(es: seq<C.Entry>, e: C.Entry)
    ensures Known(es, e) <==> exists x :: x in es && C.SameFact(x, e)
  {
    if x :| x in es && C.SameFact(x, e) { var i :| 0 <= i < |es| && es[i] == x; }
  }

  // ---------------------------------------------------------------- one decision

  datatype Listing = ListedAllow | ListedDeny | Unlisted

  /** What the check of a connection's address against its host answers: whether it matches, and whether it failed. */
  datatype DestMatch = DestMatch(ok: bool, failed: bool)

  /**
   * What the collaborators answer while one connection is decided: binder is None when none is configured, catalogued
   * says whether there is a catalog, notify is None on error or timeout.
   */
  datatype World = World(
    exempt: bool,
    listing: Listing,
    binder: Option<DestMatch>,
    catalogued: bool,
    graceLeft: bool,
    pendingStored: bool,
    prompting: bool,
    notify: Option<Action>,
    writable: bool)

  datatype Outcome = Exempted | Passed(reason: string) | Refused(reason: string)

  /** No address check is configured, or it succeeded. */
  predicate Bound(b: Option<DestMatch>) { b.None? || b.value == DestMatch(true, false) }

  /** Before a connection passes, its address must be shown to belong to its host. */
  function IfBound(b: Option<DestMatch>, o: Outcome): Outcome {
    if Bound(b) then o else if b.value.failed then Refused("sni_ip_unverifiable") else Refused("sni_ip_mismatch")
  }

  /** Without a catalog there is no opinion. */
  function Consulted(w: World, v: C.Verdict): C.Verdict { if w.catalogued then v else C.Unknown }

  /** A changed binary is let through once more, or refused for its address, without asking. */
  predicate GraceDecides(w: World, v: C.Verdict) {
    Consulted(w, v) == C.Grace && w.graceLeft && (!Bound(w.binder) || w.pendingStored)
  }

  /** Whether the user is asked. */
  predicate Asks(w: World, v: C.Verdict) {
    && !w.exempt && w.listing == Unlisted && w.prompting
    && Consulted(w, v) != C.Never && Consulted(w, v) != C.Authorized && !GraceDecides(w, v)
  }

  function Branch(w: World, v: C.Verdict): Outcome {
    if w.exempt then Exempted
    else match w.listing
      case ListedAllow => IfBound(w.binder, Passed(""))
      case ListedDeny => Refused("host_denylisted")
      case Unlisted =>
        if Consulted(w, v) == C.Never then Refused("catalog_never_hit")
        else if GraceDecides(w, v) then IfBound(w.binder, Passed("unratified_binary_grace"))
        else if Consulted(w, v) == C.Authorized then IfBound(w.binder, Passed("catalog_fact"))
        else if !w.prompting then Refused("host_unknown_no_prompt")
        else if w.notify.Some? && ActionToDecision(w.notify.value) == Allowed then IfBound(w.binder, Passed("user_allowed"))
        else Refused("user_denied_or_timeout")
  }

  /** A connection passes, other than by exemption, only with its address checked and somebody's leave. */
  lemma NothingPassesUnchecked(w: World, v: C.Verdict)
    ensures Branch(w, v).Passed? ==> Bound(w.binder) && !w.exempt && w.listing != ListedDeny
    ensures Branch(w, v).Passed? && w.listing == Unlisted ==>
      && Consulted(w, v) != C.Never
      && (Consulted(w, v) == C.Authorized || (Consulted(w, v) == C.Grace && w.pendingStored)
          || (w.notify.Some? && ActionToDecision(w.notify.value) == Allowed))
  {
  }

  /**
   * Off the lists a connection passes exactly when its address check allows it, no catalog entry denies it, and either
   * the catalog authorizes it, or a changed binary has its one more time recorded, or the user is there and allows it.
   */
  lemma PassesIff(w: World, v: C.Verdict)
    requires !w.exempt && w.listing == Unlisted
    ensures Branch(w, v).Passed? <==>
      && (w.binder.None? || (w.binder.value.ok && !w.binder.value.failed))
      && !(w.catalogued && v == C.Never)
      && (|| (w.catalogued && v == C.Authorized)
          || (w.catalogued && v == C.Grace && w.graceLeft && w.pendingStored)
          || (w.prompting && w.notify in {Some(Allow), Some(AllowOnce), Some(AllowAlways)}))
  {
  }

  /** The user is asked exactly when the answer matters: allowing and denying have different outcomes. */
  lemma AsksIff(w: World, v: C.Verdict)
    ensures Asks(w, v) <==> Branch(w.(notify := Some(Allow)), v) != Branch(w.(notify := Some(Deny)), v)
  {
  }

  /** While the user is asked, each answer passes or refuses this very connection, and only for the named reasons. */
  lemma AnswerDecides(w: World, v: C.Verdict)
    requires Asks(w, v)
    ensures w.notify in {Some(Allow), Some(AllowOnce), Some(AllowAlways)} ==>
      Branch(w, v) == (if w.binder.None? || w.binder.value == DestMatch(true, false) then Passed("user_allowed")
                       else Refused(if w.binder.value.failed then "sni_ip_unverifiable" else "sni_ip_mismatch"))
    ensures w.notify in {None, Some(Deny), Some(DenyAlways)} ==> Branch(w, v) == Refused("user_denied_or_timeout")
  {
  }

  /** What an answer leaves behind. */
  function Persist(s: State, req: Request, w: World): State {
    if w.notify == Some(AllowAlways) || w.notify == Some(DenyAlways) then
      var r := Ratify(s, CatalogEntryFor(req, w.notify == Some(AllowAlways)), w.writable);
      if r.Ok? then r.value else s
    else s
  }

  predicate Persisted(s: State, req: Request, w: World, allow: bool) {
    && w.notify == Some(if allow then AllowAlways else DenyAlways)
    && Ratify(s, CatalogEntryFor(req, allow), w.writable).Ok?
  }

  function VerdictFor(s: State, req: Request): C.Verdict { C.VerdictOf(s.live, req.identity, req.host) }

  // ---------------------------------------------------------------- runs

  datatype Step =
    | Connect(req: Request, w: World)
    | AddFact(e: C.Entry)
    | AddAbsent(e: C.Entry)
    | MergeIn(es: seq<C.Entry>)
    | RatifyFact(f: C.Entry, writable: bool)
    | Restart(system: seq<C.LayerFile>)

  /** The layers of a start: the shipped ones, then the user's. */
  function StartLayers(system: seq<C.LayerFile>, s: State): seq<C.LayerFile> { system + [C.LayerFile(USER, s.disk)] }

  predicate Starts(layers: seq<C.LayerFile>) {
    forall i :: 0 <= i < |layers| && layers[i].file.Some? ==> C.Loadable(layers[i].file.value, layers[i].name)
  }

  function Apply(s: State, step: Step): State {
    match step
    case Connect(req, w) => if Asks(w, VerdictFor(s, req)) then Persist(s, req, w) else s
    case AddFact(e) => if C.Validate(e, false).Ok? then s.(live := s.live + [e]) else s
    case AddAbsent(e) => if C.Validate(e, false).Ok? then s.(live := WithFact(s.live, e)) else s
    case MergeIn(es) => s.(live := s.live + es)
    case RatifyFact(f, writable) => var r := Ratify(s, f, writable); if r.Ok? then r.value else s
    case Restart(system) => s.(live := C.Layers(C.Present(StartLayers(system, s))))
  }

  function Run(s: State, steps: seq<Step>): State {
    if steps == [] then s else Apply(Run(s, steps[..|steps| - 1]), steps[|steps| - 1])
  }

  /** Adding an invalid fact changes nothing; a valid one is known from then on. */
  lemma AddedIsKnown(s: State, e: C.Entry)
    ensures C.Validate(e, false).Err? ==> Apply(s, AddFact(e)) == s && Apply(s, AddAbsent(e)) == s
    ensures C.Validate(e, false).Ok? ==> e in Apply(s, AddFact(e)).live && (e in Apply(s, AddAbsent(e)).live || Known(s.live, e))
  {
  }

  // ---------------------------------------------------------------- opinions only grow

  /** This identity and host have at least this verdict, in memory and in what a restart would load. */
  ghost predicate AtLeast(s: State, id: Identity, host: string, v: C.Verdict) {
    && C.Strength(v) <= C.Strength(C.VerdictOf(s.live, id, host))
    && C.Strength(v) <= C.Strength(C.VerdictOf(OnDisk(s), id, host))
    && DiskSound(s)
  }

  lemma WithFactVerdict(es: seq<C.Entry>, e: C.Entry, id: Identity, host: string)
    ensures C.VerdictOf(WithFact(es, e), id, host) == C.Stronger(C.VerdictOf(es, id, host), C.Opinion(e, id, host))
  {
    C.VerdictSnoc(es, e, id, host);
    if Known(es, e) {
      var i :| 0 <= i < |es| && C.SameFact(es[i], e);
      assert es[i] in es;
      C.DecliningLosesNothing(es, e, id, host);
    }
  }

  /** A successful ratification gives memory and disk at least the fact's opinion and takes nothing from either. */
  lemma RatifyVerdicts(s: State, e: C.Entry, writable: bool, id: Identity, host: string)
    requires Ratify(s, e, writable).Ok?
    ensures var t := Ratify(s, e, writable).value;
      && C.VerdictOf(t.live, id, host) == C.Stronger(C.VerdictOf(s.live, id, host), C.Opinion(e, id, host))
      && C.VerdictOf(OnDisk(t), id, host) == C.Stronger(C.VerdictOf(OnDisk(s), id, host), C.Opinion(e, id, host))
  {
    WithFactVerdict(s.live, e, id, host);
    WithFactVerdict(OnDisk(s), e, id, host);
  }

  lemma RatifyKeepsDisk(s: State, e: C.Entry, writable: bool)
    requires Ratify(s, e, writable).Ok? && e.layer == USER
    ensures DiskSound(Ratify(s, e, writable).value)
  {
    C.ValidEntryIsAlive(e, false);
  }

  lemma RestartVerdict(s: State, system: seq<C.LayerFile>, id: Identity, host: string)
    ensures var live := C.Layers(C.Present(StartLayers(system, s)));
      C.Strength(C.VerdictOf(OnDisk(s), id, host)) <= C.Strength(C.VerdictOf(live, id, host))
  {
    var all := C.Present(StartLayers(system, s));
    var n := |all| - 1;
    assert all[n] == OnDisk(s);
    C.VerdictOfMerge(C.Layers(all[..n]), all[n], id, host);
  }

  /** Whatever else ratifies facts writes them for the user layer, as the prompt does. */
  predicate UserFact(step: Step) { step.RatifyFact? ==> step.f.layer == USER }

  lemma RatifyKeeps(s: State, e: C.Entry, writable: bool, id: Identity, host: string, v: C.Verdict)
    requires AtLeast(s, id, host, v) && Ratify(s, e, writable).Ok? && e.layer == USER
    ensures AtLeast(Ratify(s, e, writable).value, id, host, v)
  {
    RatifyVerdicts(s, e, writable, id, host);
    RatifyKeepsDisk(s, e, writable);
  }

  lemma ConnectKeeps(s: State, req: Request, w: World, id: Identity, host: string, v: C.Verdict)
    requires AtLeast(s, id, host, v)
    ensures AtLeast(Persist(s, req, w), id, host, v)
  {
    var e := CatalogEntryFor(req, w.notify == Some(AllowAlways));
    if Ratify(s, e, w.writable).Ok? { RatifyKeeps(s, e, w.writable, id, host, v); }
  }

  lemma RatifyFactKeeps(s: State, f: C.Entry, writable: bool, id: Identity, host: string, v: C.Verdict)
    requires AtLeast(s, id, host, v) && f.layer == USER
    ensures var r := Ratify(s, f, writable); AtLeast(if r.Ok? then r.value else s, id, host, v)
  {
    if Ratify(s, f, writable).Ok? { RatifyKeeps(s, f, writable, id, host, v); }
  }

  /** Whatever replaces the catalog in memory by one that says as much. */
  lemma MemoryKeeps(s: State, es: seq<C.Entry>, id: Identity, host: string, v: C.Verdict)
    requires AtLeast(s, id, host, v) && C.Strength(v) <= C.Strength(C.VerdictOf(es, id, host))
    ensures AtLeast(s.(live := es), id, host, v)
  {
  }

  lemma AddKeeps(s: State, e: C.Entry, id: Identity, host: string, v: C.Verdict)
    requires AtLeast(s, id, host, v)
    ensures AtLeast(s.(live := s.live + [e]), id, host, v)
    ensures AtLeast(s.(live := WithFact(s.live, e)), id, host, v)
  {
    C.VerdictSnoc(s.live, e, id, host);
    WithFactVerdict(s.live, e, id, host);
    MemoryKeeps(s, s.live + [e], id, host, v);
    MemoryKeeps(s, WithFact(s.live, e), id, host, v);
  }

  lemma MergeKeeps(s: State, es: seq<C.Entry>, id: Identity, host: string, v: C.Verdict)
    requires AtLeast(s, id, host, v)
    ensures AtLeast(s.(live := s.live + es), id, host, v)
  {
    C.VerdictOfMerge(s.live, es, id, host);
    MemoryKeeps(s, s.live + es, id, host, v);
  }

  lemma RestartKeeps(s: State, system: seq<C.LayerFile>, id: Identity, host: string, v: C.Verdict)
    requires AtLeast(s, id, host, v)
    ensures AtLeast(s.(live := C.Layers(C.Present(StartLayers(system, s)))), id, host, v)
  {
    RestartVerdict(s, system, id, host);
    MemoryKeeps(s, C.Layers(C.Present(StartLayers(system, s))), id, host, v);
  }

  lemma StepKeeps(s: State, step: Step, id: Identity, host: string, v: C.Verdict)
    requires AtLeast(s, id, host, v) && UserFact(step)
    ensures AtLeast(Apply(s, step), id, host, v)
  {
    match step
    case Connect(req, w) => ConnectKeeps(s, req, w, id, host, v);
    case AddFact(e) => AddKeeps(s, e, id, host, v);
    case AddAbsent(e) => AddKeeps(s, e, id, host, v);
    case MergeIn(es) => MergeKeeps(s, es, id, host, v);
    case RatifyFact(f, writable) => RatifyFactKeeps(s, f, writable, id, host, v);
    case Restart(system) => RestartKeeps(s, system, id, host, v);
  }

  lemma {:induction false} RunKeeps(s: State, steps: seq<Step>, id: Identity, host: string, v: C.Verdict)
    requires AtLeast(s, id, host, v) && forall i :: 0 <= i < |steps| ==> UserFact(steps[i])
    ensures AtLeast(Run(s, steps), id, host, v)
    decreases |steps|
  {
    if steps != [] {
      var n := |steps| - 1;
      RunKeeps(s, steps[..n], id, host, v);
      StepKeeps(Run(s, steps[..n]), steps[n], id, host, v);
    }
  }

  // ---------------------------------------------------------------- the loop

  predicate UserFacts(steps: seq<Step>) { forall i :: 0 <= i < |steps| ==> UserFact(steps[i]) }

  /** Neither the exemptions nor the allowlist settle the connection first. */
  predicate ReachesCatalog(w: World) { !w.exempt && w.listing == Unlisted && w.catalogued }

  lemma StrongVerdictIsSilent(w: World, v: C.Verdict)
    requires ReachesCatalog(w)
    ensures C.Strength(C.Authorized) <= C.Strength(v) ==> !Asks(w, v)
    ensures v == C.Authorized ==> Branch(w, v) == IfBound(w.binder, Passed("catalog_fact"))
    ensures v == C.Never ==> Branch(w, v) == Refused("catalog_never_hit")
    ensures C.Strength(C.Never) <= C.Strength(v) ==> v == C.Never
  {
  }

  /** A ratified answer, from the moment it is given. */
  lemma AnswerTakesHold(s: State, req: Request, w: World, allow: bool)
    requires Asks(w, VerdictFor(s, req)) && Persisted(s, req, w, allow)
    ensures AtLeast(Apply(s, Connect(req, w)), req.identity, RatifiedHost(req),
              if !allow then C.Never else if C.HasDecisionPin(req.identity) then C.Authorized else C.Explained)
  {
    var e := CatalogEntryFor(req, allow);
    RatifyVerdicts(s, e, w.writable, req.identity, RatifiedHost(req));
    RatifyKeepsDisk(s, e, w.writable);
    RatifiedOpinion(req, allow);
  }

  /**
   * Denied for good: after a stored "deny always", whatever is added, merged, ratified or answered afterwards and
   * however often the daemon restarts, every later decision for that identity and host that reaches the catalog
   * refuses, without asking.
   */
  lemma DenialIsSticky(s: State, req: Request, w: World, steps: seq<Step>, again: Request, v: World)
    requires Asks(w, VerdictFor(s, req)) && Persisted(s, req, w, false)
    requires UserFacts(steps)
    requires again.identity == req.identity && C.NormalizeHost(again.host) == C.NormalizeHost(RatifiedHost(req))
    requires ReachesCatalog(v)
    ensures var t := Run(Apply(s, Connect(req, w)), steps);
      Branch(v, VerdictFor(t, again)) == Refused("catalog_never_hit") && !Asks(v, VerdictFor(t, again))
  {
    AnswerTakesHold(s, req, w, false);
    RunKeeps(Apply(s, Connect(req, w)), steps, req.identity, RatifiedHost(req), C.Never);
    var t := Run(Apply(s, Connect(req, w)), steps);
    C.VerdictNormalizes(t.live, req.identity, again.host, RatifiedHost(req));
    StrongVerdictIsSilent(v, VerdictFor(t, again));
  }

  lemma AllowedAfter(s: State, req: Request, w: World, steps: seq<Step>, host: string)
    requires Asks(w, VerdictFor(s, req)) && Persisted(s, req, w, true) && C.HasDecisionPin(req.identity) && UserFacts(steps)
    requires C.NormalizeHost(host) == C.NormalizeHost(RatifiedHost(req))
    ensures C.VerdictOf(Run(Apply(s, Connect(req, w)), steps).live, req.identity, host) in {C.Authorized, C.Never}
  {
    var t := Run(Apply(s, Connect(req, w)), steps);
    AnswerTakesHold(s, req, w, true);
    RunKeeps(Apply(s, Connect(req, w)), steps, req.identity, RatifiedHost(req), C.Authorized);
    C.VerdictNormalizes(t.live, req.identity, host, RatifiedHost(req));
    C.StrengthIs(C.VerdictOf(t.live, req.identity, host), C.Unknown);
  }

  /**
   * Allowed from now on: after a stored "allow always" for a pinned identity, every later decision for it and that
   * host that reaches the catalog is the silent fact, unless somebody has denied it since.
   */
  lemma AllowanceHolds(s: State, req: Request, w: World, steps: seq<Step>, again: Request, v: World)
    requires Asks(w, VerdictFor(s, req)) && Persisted(s, req, w, true) && C.HasDecisionPin(req.identity)
    requires UserFacts(steps)
    requires again.identity == req.identity && C.NormalizeHost(again.host) == C.NormalizeHost(RatifiedHost(req))
    requires ReachesCatalog(v)
    ensures var t := Run(Apply(s, Connect(req, w)), steps);
      && Branch(v, VerdictFor(t, again))
           == (if VerdictFor(t, again) == C.Never then Refused("catalog_never_hit") else IfBound(v.binder, Passed("catalog_fact")))
      && !Asks(v, VerdictFor(t, again))
  {
    AllowedAfter(s, req, w, steps, again.host);
    StrongVerdictIsSilent(v, VerdictFor(Run(Apply(s, Connect(req, w)), steps), again));
  }

  /** The very next connection is silent: asking at all means nobody had denied it. */
  lemma NextIsSilent(s: State, req: Request, w: World, again: Request, v: World)
    requires req.host != "" && w.catalogued && Asks(w, VerdictFor(s, req)) && Persisted(s, req, w, true) && C.HasDecisionPin(req.identity)
    requires again.identity == req.identity && again.host == req.host && ReachesCatalog(v)
    ensures var t := Apply(s, Connect(req, w)); Branch(v, VerdictFor(t, again)) == IfBound(v.binder, Passed("catalog_fact"))
  {
    AllowanceHolds(s, req, w, [], again, v);
    var e := CatalogEntryFor(req, true);
    RatifyVerdicts(s, e, w.writable, req.identity, req.host);
    RatifiedOpinion(req, true);
  }

  /**
   * The answer that is stored decides this connection as it decides the next: a stored denial refuses both, a stored
   * allowance of a pinned identity passes each exactly when its address check allows it.
   */
  lemma AnswerAndNextAgree(s: State, req: Request, w: World, allow: bool, again: Request, v: World)
    requires req.host != "" && w.catalogued && Asks(w, VerdictFor(s, req)) && Persisted(s, req, w, allow)
    requires again.identity == req.identity && again.host == req.host && ReachesCatalog(v)
    ensures var e, t := CatalogEntryFor(req, allow), Apply(s, Connect(req, w));
      && (C.Opinion(e, req.identity, req.host) == C.Never <==> !allow)
      && (!allow ==> Branch(w, VerdictFor(s, req)).Refused? && Branch(v, VerdictFor(t, again)).Refused?)
      && (allow ==> (Branch(w, VerdictFor(s, req)).Passed? <==> Bound(w.binder)))
      && (allow && C.HasDecisionPin(req.identity) ==> (Branch(v, VerdictFor(t, again)).Passed? <==> Bound(v.binder)))
  {
    RatifiedOpinion(req, allow);
    AnswerDecides(w, VerdictFor(s, req));
    if !allow {
      DenialIsSticky(s, req, w, [], again, v);
    } else if C.HasDecisionPin(req.identity) {
      NextIsSilent(s, req, w, again, v);
    }
  }

  /** Without a pin the answer is context only: it never makes any later decision silent. */
  lemma UnpinnedStillAsks(s: State, req: Request, w: World, id: Identity, host: string)
    requires Asks(w, VerdictFor(s, req)) && Persisted(s, req, w, true) && !C.HasDecisionPin(req.identity)
    ensures var t := Apply(s, Connect(req, w));
      C.VerdictOf(t.live, id, host) == C.Authorized <==> C.VerdictOf(s.live, id, host) == C.Authorized
  {
    RatifyVerdicts(s, CatalogEntryFor(req, true), w.writable, id, host);
  }

  /** Ratifying never keeps the daemon from starting again. */
  lemma {:induction false} DiskStaysSound(s: State, steps: seq<Step>)
    requires DiskSound(s) && UserFacts(steps)
    ensures DiskSound(Run(s, steps))
    decreases |steps|
  {
    if steps != [] {
      var n := |steps| - 1;
      DiskStaysSound(s, steps[..n]);
      var t := Run(s, steps[..n]);
      match steps[n] {
        case Connect(req, w) =>
          var e := CatalogEntryFor(req, w.notify == Some(AllowAlways));
          if Ratify(t, e, w.writable).Ok? { RatifyKeepsDisk(t, e, w.writable); }
        case RatifyFact(f, writable) =>
          assert UserFact(steps[n]);
          if Ratify(t, f, writable).Ok? { RatifyKeepsDisk(t, f, writable); }
        case _ =>
      }
    }
  }

  /** With a sound user layer only the shipped layers can stop a start. */
  lemma StartIffSystemSound(s: State, system: seq<C.LayerFile>)
    requires DiskSound(s)
    ensures Starts(StartLayers(system, s)) <==> Starts(system)
  {
    var all := StartLayers(system, s);
    assert all[|system|] == C.LayerFile(USER, s.disk);
    assert forall i :: 0 <= i < |system| ==> all[i] == system[i];
  }
}
