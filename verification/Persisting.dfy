/**
 * The coalescer in front of the decider: requests share one prompt by registered domain, but each call that gets an
 * answer of "always" ratifies it for its own process and host.
 */
module Persisting {
  import opened Options
  import opened Actions
  import opened Identities
  import P = Coalescing
  import H = CoalescingHistory
  import R = Ratifying
  import C = Catalogs

  /** The full request behind each call; the coalescer itself looks only at process and domain. */
  type Asking = nat -> R.Request

  ghost predicate Behind(who: Asking, s: P.State) {
    forall t :: t in s.calls ==> who(t).host == s.calls[t].req.host && who(t).regDom == s.calls[t].req.regDom
  }

  /** The decider takes an error for no answer. */
  function Notified(ans: P.Answer): Option<Action> { if ans.failed then None else Some(ans.action) }

  /** A call that returned with an answer to be stored. */
  ghost predicate Stores(s: P.State, t: nat) {
    t in s.calls && s.calls[t].pc.Done? && Notified(s.calls[t].pc.ans).Some? && IsAlways(s.calls[t].pc.ans.action)
  }

  /** The fact a request's answer is stored as. */
  function FactOf(req: R.Request, a: Action): C.Entry { R.CatalogEntryFor(req, a == AllowAlways) }

  /** Two requests are stored as the same fact exactly when identity and normalized host agree. */
  lemma SameFactIff(x: R.Request, y: R.Request, a: Action)
    ensures C.SameFact(FactOf(x, a), FactOf(y, a)) <==>
      x.identity == y.identity && C.NormalizeHost(R.RatifiedHost(x)) == C.NormalizeHost(R.RatifiedHost(y))
  {
    var d, e := FactOf(x, a), FactOf(y, a);
    var g, h := R.RatifiedHost(x), R.RatifiedHost(y);
    if a == AllowAlways {
      assert d.never == [] && e.never == [] && |d.expected| == 1 && |e.expected| == 1;
      assert d.expected[0].host == g && e.expected[0].host == h;
      OneExpected(d.expected, e.expected);
      assert C.SameHosts(d.never, e.never);
    } else {
      assert d.expected == [] && e.expected == [] && |d.never| == 1 && |e.never| == 1;
      assert d.never[0] == g && e.never[0] == h;
      OneNever(d.never, e.never);
      assert C.SameExpected(d.expected, e.expected);
    }
  }

  lemma OneExpected(a: seq<C.Destination>, b: seq<C.Destination>)
    requires |a| == |b| == 1
    ensures C.SameExpected(a, b) <==> C.NormalizeHost(a[0].host) == C.NormalizeHost(b[0].host)
  {
  }

  lemma OneNever(a: seq<string>, b: seq<string>)
    requires |a| == |b| == 1
    ensures C.SameHosts(a, b) <==> C.NormalizeHost(a[0]) == C.NormalizeHost(b[0])
  {
  }

  /**
   * Over any interleaving: a call that stores an answer was answered in exactly one prompt, the one its group was
   * asked in, and what it stores is what that prompt was about if and only if its identity and host are the asker's.
   */
  lemma StoresWhatWasAskedIff(cfg: P.Config, steps: seq<P.Step>, who: Asking, t: nat) returns (i: nat)
    requires cfg.window >= 0 && P.Legal(cfg, P.Fresh, steps)
    requires Behind(who, P.Run(cfg, P.Fresh, steps)) && Stores(P.Run(cfg, P.Fresh, steps), t)
    ensures var s := P.Run(cfg, P.Fresh, steps);
      && s.calls[t].pc.source.FromGroup? && i < |s.prompts| && s.prompts[i].GroupPrompt?
      && s.prompts[i].gid == s.calls[t].pc.source.gid && s.prompts[i].answer == s.calls[t].pc.ans
      && (forall j :: 0 <= j < |s.prompts| && s.prompts[j].GroupPrompt? && s.prompts[j].gid == s.prompts[i].gid ==> j == i)
      && (var a, asker := s.calls[t].pc.ans.action, who(s.prompts[i].asker);
          C.SameFact(FactOf(who(t), a), FactOf(asker, a)) <==>
            who(t).identity == asker.identity && C.NormalizeHost(R.RatifiedHost(who(t))) == C.NormalizeHost(R.RatifiedHost(asker)))
  {
    var s := P.Reachable(cfg, steps);
    assert P.CallOk(s, s.calls[t]);
    i := H.GroupWasAsked(cfg, steps, t, s.calls[t].pc.source.gid);
    SameFactIff(who(t), who(s.prompts[i].asker), s.calls[t].pc.ans.action);
  }

  // ---------------------------------------------------------------- a waiter stores what nobody was asked

  /** Two calls for one domain: the first asks, the second waits, and the answer is "allow always" for both. */
  function SharedPrompt(x: P.Request, y: P.Request, now: int): seq<P.Step> {
    [P.Arrive(0, x, now)] + ([P.Arrive(1, y, now)] + ([P.Lock(0)] + ([P.Lock(1)]
      + ([P.GroupAnswered(0, P.Answer(AllowAlways, false))] + ([P.Wake(1)] + [])))))
  }

  lemma RunCons(cfg: P.Config, s: P.State, step: P.Step, rest: seq<P.Step>)
    requires P.Enabled(s, step) && P.Legal(cfg, P.Apply(cfg, s, step), rest)
    ensures P.Legal(cfg, s, [step] + rest) && P.Run(cfg, s, [step] + rest) == P.Run(cfg, P.Apply(cfg, s, step), rest)
  {
    assert ([step] + rest)[1..] == rest;
  }

  /** The first request of a process whose domain has no live prompt asks. */
  lemma FirstLeads(cfg: P.Config, s: P.Shared, req: P.Request, now: int)
    requires cfg.burst >= 1 && req.pid !in s.pidHistory && req.pid !in s.burstExpiry && req.regDom !in s.groupByDom
    ensures P.Enter(cfg, s, req, now) ==
      (s.(pidHistory := s.pidHistory[req.pid := [P.PidEntry(req.regDom, now)]],
          groups := s.groups + [P.Group(req.regDom, now, now + cfg.window, None)],
          groupByDom := s.groupByDom[req.regDom := |s.groups|]),
       P.Lead(|s.groups|))
  {
    OneDomain(req.regDom, now);
    assert P.Keep([], now, cfg.window) == [];
    assert [] + [P.PidEntry(req.regDom, now)] == [P.PidEntry(req.regDom, now)];
  }

  /** The first request of a process whose domain has a live prompt waits for it. */
  lemma FirstJoins(cfg: P.Config, s: P.Shared, req: P.Request, now: int)
    requires cfg.burst >= 1 && req.pid !in s.pidHistory && req.pid !in s.burstExpiry && req.regDom in s.groupByDom
    requires s.groupByDom[req.regDom] < |s.groups| && now < s.groups[s.groupByDom[req.regDom]].expiry
    ensures P.Enter(cfg, s, req, now) ==
      (s.(pidHistory := s.pidHistory[req.pid := [P.PidEntry(req.regDom, now)]]), P.Join(s.groupByDom[req.regDom]))
  {
    OneDomain(req.regDom, now);
    assert P.Keep([], now, cfg.window) == [];
    assert [] + [P.PidEntry(req.regDom, now)] == [P.PidEntry(req.regDom, now)];
  }

  lemma OneDomain(d: string, now: int)
    ensures P.Domains([P.PidEntry(d, now)]) == {d} && P.Domains([]) == {}
  {
    assert forall e :: e in [P.PidEntry(d, now)] <==> e == P.PidEntry(d, now);
  }

  /** Where that run ends: one prompt, about the first request, and both calls returned with its answer. */
  lemma SharedPromptRuns(cfg: P.Config, x: P.Request, y: P.Request, now: int)
    requires cfg.window > 0 && cfg.burst >= 1 && x.pid != y.pid && x.regDom == y.regDom
    ensures P.Legal(cfg, P.Fresh, SharedPrompt(x, y, now))
    ensures var s := P.Run(cfg, P.Fresh, SharedPrompt(x, y, now));
      var yes := P.Answer(AllowAlways, false);
      && s.calls == map[0 := P.Call(x, P.Done(yes, P.FromGroup(0))), 1 := P.Call(y, P.Done(yes, P.FromGroup(0)))]
      && s.prompts == [P.GroupPrompt(0, x, 0, yes)]
  {
    var yes := P.Answer(AllowAlways, false);
    var s1 := P.Apply(cfg, P.Fresh, P.Arrive(0, x, now));
    var s2 := P.Apply(cfg, s1, P.Arrive(1, y, now));
    FirstLeads(cfg, s2.shared, x, now);
    var s3 := P.Apply(cfg, s2, P.Lock(0));
    assert s3.shared.groups == [P.Group(x.regDom, now, now + cfg.window, None)] && s3.shared.groupByDom == map[x.regDom := 0];
    FirstJoins(cfg, s3.shared, y, now);
    var s4 := P.Apply(cfg, s3, P.Lock(1));
    assert s4.calls[0].pc == P.Leading(0) && s4.calls[1].pc == P.Waiting(0);
    var s5 := P.Apply(cfg, s4, P.GroupAnswered(0, yes));
    assert s5.shared.groups[0].answer == Some(yes);
    var s6 := P.Apply(cfg, s5, P.Wake(1));
    RunCons(cfg, s5, P.Wake(1), []);
    RunCons(cfg, s4, P.GroupAnswered(0, yes), [P.Wake(1)] + []);
    RunCons(cfg, s3, P.Lock(1), [P.GroupAnswered(0, yes)] + ([P.Wake(1)] + []));
    RunCons(cfg, s2, P.Lock(0), [P.Lock(1)] + ([P.GroupAnswered(0, yes)] + ([P.Wake(1)] + [])));
    RunCons(cfg, s1, P.Arrive(1, y, now), [P.Lock(0)] + ([P.Lock(1)] + ([P.GroupAnswered(0, yes)] + ([P.Wake(1)] + []))));
    RunCons(cfg, P.Fresh, P.Arrive(0, x, now),
            [P.Arrive(1, y, now)] + ([P.Lock(0)] + ([P.Lock(1)] + ([P.GroupAnswered(0, yes)] + ([P.Wake(1)] + [])))));
  }

  /**
   * It does happen: a process that only waited stores a lasting allowance for itself, though the one prompt the user
   * was shown was about another process; and what it stores decides its later connections.
   */
  lemma WaiterStoresUnasked(cfg: P.Config, x: R.Request, y: R.Request, p: int, q: int, now: int)
    requires cfg.window > 0 && cfg.burst >= 1 && p != q && x.regDom == y.regDom && x.identity != y.identity
    requires C.HasDecisionPin(y.identity) && C.Validate(FactOf(y, AllowAlways), false).Ok?
    ensures var steps := SharedPrompt(P.Request(p, x.host, x.regDom), P.Request(q, y.host, y.regDom), now);
      && P.Legal(cfg, P.Fresh, steps)
      && var s := P.Run(cfg, P.Fresh, steps);
         && |s.prompts| == 1 && s.prompts[0].asker == 0 && Stores(s, 1) && s.calls[1].pc.ans.action == AllowAlways
         && !C.SameFact(FactOf(y, AllowAlways), FactOf(x, AllowAlways))
         && C.Opinion(FactOf(y, AllowAlways), y.identity, R.RatifiedHost(y)) == C.Authorized
  {
    SharedPromptRuns(cfg, P.Request(p, x.host, x.regDom), P.Request(q, y.host, y.regDom), now);
    SameFactIff(y, x, AllowAlways);
    R.RatifiedOpinion(y, true);
  }
}
