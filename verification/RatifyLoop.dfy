/** The objects of the decision loop, each method proved against the run it is a step of. */
module RatifyLoop {
  import opened Options
  import opened Identities
  import opened Actions
  import opened Ratifying
  import C = Catalogs

  /** The user's catalog file, its encoding aside. */
  class UserFile {
    var contents: Option<seq<C.Entry>>

    constructor (contents: Option<seq<C.Entry>>)
      ensures this.contents == contents
    {
      this.contents := contents;
    }
  }

  class RatifyWriter {
    const file: UserFile
    const cat: C.Catalog

    constructor (file: UserFile, cat: C.Catalog)
      ensures this.file == file && this.cat == cat
    {
      this.file, this.cat := file, cat;
    }

    ghost function State(): Ratifying.State
      reads file, cat
    {
      Ratifying.State(cat.entries, file.contents)
    }

    /** Load the user layer, add the fact, replace the file if that added anything, then tell the live catalog. */
    method Ratify(e: C.Entry, writable: bool) returns (r: Result<(), RatifyError>)
      modifies file, cat
      ensures r.Ok? <==> Ratifying.Ratify(old(State()), e, writable).Ok?
      ensures r.Ok? ==> State() == Ratifying.Ratify(old(State()), e, writable).value
      ensures r.Err? ==> State() == old(State()) && r.error == Ratifying.Ratify(old(State()), e, writable).error
    {
      var loaded := C.LoadLayerFile(USER, file.contents);
      var onDisk := new C.Catalog();
      if loaded.Err? {
        if loaded.error != C.NotExist { return Err(BadDisk); }
      } else {
        onDisk.entries := loaded.value;
      }
      KnownIff(onDisk.entries, e);
      var added := onDisk.AddIfAbsent(e);
      if added.Err? { return Err(BadFact(added.error)); }
      if added.value {
        if !writable { return Err(WriteFailed); }
        file.contents := Some(onDisk.entries);
      }
      KnownIff(cat.entries, e);
      var told := cat.AddIfAbsent(e);
      return Ok(());
    }
  }

  /** Asks, turns the answer into a verdict, and stores an answer of "always". */
  class CoreDecider {
    const writer: RatifyWriter

    constructor (writer: RatifyWriter)
      ensures this.writer == writer
    {
      this.writer := writer;
    }

    method Decide(req: Request, w: World) returns (d: Decision)
      modifies writer.file, writer.cat
      ensures d == Allowed <==> w.notify in {Some(Allow), Some(AllowOnce), Some(AllowAlways)}
      ensures writer.State() == Persist(old(writer.State()), req, w)
    {
      if w.notify.None? { return Denied; }
      d := ActionToDecision(w.notify.value);
      match w.notify.value {
        case AllowAlways => var r := writer.Ratify(CatalogEntryFor(req, true), w.writable);
        case DenyAlways => var r := writer.Ratify(CatalogEntryFor(req, false), w.writable);
        case _ =>
      }
    }
  }

  class Daemon {
    const decider: CoreDecider

    constructor (decider: CoreDecider)
      ensures this.decider == decider
    {
      this.decider := decider;
    }

    ghost function State(): Ratifying.State
      reads decider.writer.file, decider.writer.cat
    {
      decider.writer.State()
    }

    /** A refusal if and only if an address check is configured and it fails or finds no match. */
    method BindDest(b: Option<DestMatch>) returns (refusal: Option<Outcome>)
      ensures refusal.Some? <==> b.Some? && (b.value.failed || !b.value.ok)
      ensures refusal.Some? ==> refusal.value == Refused(if b.value.failed then "sni_ip_unverifiable" else "sni_ip_mismatch")
    {
      if b.None? { return None; }
      if b.value.failed { return Some(Refused("sni_ip_unverifiable")); }
      if !b.value.ok { return Some(Refused("sni_ip_mismatch")); }
      return None;
    }

    /** Decide one connection, in the order exemption, allowlist, catalog, prompt. */
    method DecideBranch(req: Request, w: World) returns (o: Outcome)
      modifies decider.writer.file, decider.writer.cat
      ensures o == Branch(w, VerdictFor(old(State()), req))
      ensures State() == Apply(old(State()), Connect(req, w))
    {
      if w.exempt { return Exempted; }
      var refusal := BindDest(w.binder);
      match w.listing {
        case ListedAllow =>
          return if refusal.Some? then refusal.value else Passed("");
        case ListedDeny =>
          return Refused("host_denylisted");
        case Unlisted =>
          o := DecideUnlisted(req, w, refusal);
      }
    }

    /** What the catalog says, and else what the user says. */
    method DecideUnlisted(req: Request, w: World, refusal: Option<Outcome>) returns (o: Outcome)
      requires !w.exempt && w.listing == Unlisted && (refusal.None? <==> Bound(w.binder))
      requires refusal.Some? ==> refusal.value == IfBound(w.binder, Passed(""))
      modifies decider.writer.file, decider.writer.cat
      ensures o == Branch(w, VerdictFor(old(State()), req))
      ensures State() == Apply(old(State()), Connect(req, w))
    {
      ghost var was := State();
      ghost var v := VerdictFor(was, req);
      var m := C.NO_MATCH;
      if w.catalogued { m := decider.writer.cat.Lookup(req.identity, req.host); }
      assert C.Said(m) == Consulted(w, v);
      if m.neverHit { return Refused("catalog_never_hit"); }
      if m.staleBinary && w.graceLeft {
        if refusal.Some? { return refusal.value; }
        if w.pendingStored { return Passed("unratified_binary_grace"); }
      }
      if m.found && m.authoritative {
        return if refusal.Some? then refusal.value else Passed("catalog_fact");
      }
      if !w.prompting { return Refused("host_unknown_no_prompt"); }
      assert Asks(w, v);
      var d := decider.Decide(req, w);
      assert State() == Persist(was, req, w);
      if d == Denied { return Refused("user_denied_or_timeout"); }
      return if refusal.Some? then refusal.value else Passed("user_allowed");
    }
  }
}
