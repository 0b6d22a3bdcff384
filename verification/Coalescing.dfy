/**
 * The prompt coalescer as a protocol between any number of goroutines: a critical section decides whether to
 * replay a burst answer, to ask about a burst, to wait for a prompt already open for the domain, or to open
 * one. The mutex is free while the user is being asked.
 */
module Coalescing {
  import opened Options
  import opened Actions

  function BurstSafe(a: Action): Action {
    match a
    case AllowAlways => AllowOnce
    case DenyAlways => Deny
    case _ => a
  }

  datatype Request = Request(pid: int, host: string, regDom: string)

  /** What a notifier returns: an action and whether there was an error. */
  datatype Answer = Answer(action: Action, failed: bool)

  datatype PidEntry = PidEntry(regDom: string, ts: int)

  /** One prompt shared by every request for its domain; answer is set when the channel closes. */
  datatype Group = Group(regDom: string, start: int, expiry: int, answer: Option<Answer>)

  /** The fields the mutex guards, and the groups they point to. */
  datatype Shared = Shared(
    groupByDom: map<string, nat>,
    pidHistory: map<int, seq<PidEntry>>,
    burstByPid: map<int, Action>,
    burstExpiry: map<int, int>,
    groups: seq<Group>)

  datatype Config = Config(window: int, burst: int)

  /** How the critical section sends a request on. */
  datatype Route = Replay(action: Action) | AskBurst | Join(gid: nat) | Lead(gid: nat)

  // ---------------------------------------------------------------- the critical section, as a function

  function Keep(hist: seq<PidEntry>, now: int, window: int): seq<PidEntry> {
    if hist == [] then []
    else (if now - hist[0].ts <= window then [hist[0]] else []) + Keep(hist[1..], now, window)
  }

  function Domains(hist: seq<PidEntry>): set<string> { set e | e in hist :: e.regDom }

  function HistoryOf(s: Shared, pid: int): seq<PidEntry> { if pid in s.pidHistory then s.pidHistory[pid] else [] }

  /** The process's recent domains with this request's added. */
  function Recent(cfg: Config, s: Shared, req: Request, now: int): seq<PidEntry> {
    var kept := Keep(HistoryOf(s, req.pid), now, cfg.window);
    if req.regDom in Domains(kept) then kept else kept + [PidEntry(req.regDom, now)]
  }

  predicate InBurst(s: Shared, pid: int, now: int) { pid in s.burstExpiry && now < s.burstExpiry[pid] }

  function CachedBurst(s: Shared, pid: int): Action { if pid in s.burstByPid then s.burstByPid[pid] else Deny }

  function Enter(cfg: Config, s: Shared, req: Request, now: int): (Shared, Route) {
    if InBurst(s, req.pid, now) then (s, Replay(CachedBurst(s, req.pid))) else
    var hist := Recent(cfg, s, req, now);
    var s1 := s.(pidHistory := s.pidHistory[req.pid := hist]);
    if |Domains(hist)| > cfg.burst then (s1, AskBurst)
    else if req.regDom in s.groupByDom && s.groupByDom[req.regDom] < |s.groups|
         && now < s.groups[s.groupByDom[req.regDom]].expiry then (s1, Join(s.groupByDom[req.regDom]))
    else (s1.(groups := s.groups + [Group(req.regDom, now, now + cfg.window, None)],
              groupByDom := s.groupByDom[req.regDom := |s.groups|]),
          Lead(|s.groups|))
  }

  function StoreBurst(cfg: Config, s: Shared, pid: int, now: int, safe: Action): Shared {
    s.(burstByPid := s.burstByPid[pid := safe], burstExpiry := s.burstExpiry[pid := now + cfg.window])
  }

  /** Set the group's answer and close its channel; only the first call does anything. */
  function Settle(s: Shared, gid: nat, ans: Answer): Shared {
    if gid < |s.groups| && s.groups[gid].answer == None
    then s.(groups := s.groups[gid := s.groups[gid].(answer := Some(ans))])
    else s
  }

  // ---------------------------------------------------------------- goroutines

  /** Where a call's answer came from: its own burst prompt, a burst answer replayed at now, or a group. */
  datatype Source = FromAsk | FromReplay(now: int) | FromGroup(gid: nat)

  /** Where one call of Notify has come. now is its one clock reading, taken before the lock. */
  datatype Pc =
    | Timed(now: int)
    | AskingBurst(now: int)
    | StoringBurst(now: int, ans: Answer)
    | Leading(gid: nat)
    | Waiting(gid: nat)
    | Done(ans: Answer, source: Source)

  datatype Call = Call(req: Request, pc: Pc)

  /** One question the user was shown, about the request of the call that asked, and the answer. */
  datatype Prompt =
    | BurstPrompt(asker: nat, req: Request, at: int, answer: Answer)
    | GroupPrompt(asker: nat, req: Request, gid: nat, answer: Answer)

  datatype State = State(shared: Shared, calls: map<nat, Call>, prompts: seq<Prompt>)

  datatype Step =
    | Arrive(t: nat, req: Request, now: int)
    | Lock(t: nat)
    | BurstAnswered(t: nat, ans: Answer)
    | Store(t: nat)
    | GroupAnswered(t: nat, ans: Answer)
    | Wake(t: nat)

  predicate Enabled(s: State, step: Step) {
    if step.Arrive? then step.t !in s.calls
    else step.t in s.calls && match step
      case Arrive(_, _, _) => false
      case Lock(t) => s.calls[t].pc.Timed?
      case BurstAnswered(t, _) => s.calls[t].pc.AskingBurst?
      case Store(t) => s.calls[t].pc.StoringBurst?
      case GroupAnswered(t, _) => s.calls[t].pc.Leading?
      case Wake(t) =>
        s.calls[t].pc.Waiting? && s.calls[t].pc.gid < |s.shared.groups| && s.shared.groups[s.calls[t].pc.gid].answer.Some?
  }

  function PcOf(route: Route, now: int): Pc {
    match route
    case Replay(a) => Done(Answer(a, false), FromReplay(now))
    case AskBurst => AskingBurst(now)
    case Join(gid) => Waiting(gid)
    case Lead(gid) => Leading(gid)
  }

  function Apply(cfg: Config, s: State, step: Step): State
    requires Enabled(s, step)
  {
    match step
    case Arrive(t, req, now) => s.(calls := s.calls[t := Call(req, Timed(now))])
    case Lock(t) =>
      var c := s.calls[t];
      var (shared, route) := Enter(cfg, s.shared, c.req, c.pc.now);
      s.(shared := shared, calls := s.calls[t := c.(pc := PcOf(route, c.pc.now))])
    case BurstAnswered(t, ans) =>
      var c := s.calls[t];
      s.(calls := s.calls[t := c.(pc := StoringBurst(c.pc.now, ans))], prompts := s.prompts + [BurstPrompt(t, c.req, c.pc.now, ans)])
    case Store(t) =>
      var c := s.calls[t];
      var safe := BurstSafe(c.pc.ans.action);
      s.(shared := StoreBurst(cfg, s.shared, c.req.pid, c.pc.now, safe),
         calls := s.calls[t := c.(pc := Done(Answer(safe, c.pc.ans.failed), FromAsk))])
    case GroupAnswered(t, ans) =>
      var c := s.calls[t];
      s.(shared := Settle(s.shared, c.pc.gid, ans),
         calls := s.calls[t := c.(pc := Done(ans, FromGroup(c.pc.gid)))],
         prompts := s.prompts + [GroupPrompt(t, c.req, c.pc.gid, ans)])
    case Wake(t) =>
      var c := s.calls[t];
      s.(calls := s.calls[t := c.(pc := Done(s.shared.groups[c.pc.gid].answer.value, FromGroup(c.pc.gid)))])
  }

  const Fresh: State := State(Shared(map[], map[], map[], map[], []), map[], [])

  ghost predicate Legal(cfg: Config, s: State, steps: seq<Step>)
    decreases |steps|
  {
    steps == [] || (Enabled(s, steps[0]) && Legal(cfg, Apply(cfg, s, steps[0]), steps[1..]))
  }

  ghost function Run(cfg: Config, s: State, steps: seq<Step>): State
    requires Legal(cfg, s, steps)
    decreases |steps|
  {
    if steps == [] then s else Run(cfg, Apply(cfg, s, steps[0]), steps[1..])
  }

  // ---------------------------------------------------------------- the invariant

  /** The user was shown this domain, and gave this answer. */
  ghost predicate Asked(prompts: seq<Prompt>, regDom: string, ans: Answer) {
    exists i :: 0 <= i < |prompts| && prompts[i].GroupPrompt? && prompts[i].req.regDom == regDom && prompts[i].answer == ans
  }

  /** A domain's groups start at least a window apart, and the table points at the latest. */
  ghost predicate GroupsOk(cfg: Config, s: Shared) {
    && (forall g :: 0 <= g < |s.groups| ==>
          s.groups[g].expiry == s.groups[g].start + cfg.window && s.groups[g].regDom in s.groupByDom)
    && (forall d :: d in s.groupByDom ==> s.groupByDom[d] < |s.groups| && s.groups[s.groupByDom[d]].regDom == d)
    && (forall g :: 0 <= g < |s.groups| ==> g <= s.groupByDom[s.groups[g].regDom])
    && (forall g, h :: 0 <= g < h < |s.groups| && s.groups[g].regDom == s.groups[h].regDom ==>
          s.groups[h].start >= s.groups[g].start + cfg.window)
  }

  /** Every cached burst answer is one that persists nothing. */
  predicate BurstsOk(s: Shared) {
    (forall p :: p in s.burstByPid ==> !IsAlways(s.burstByPid[p])) && s.burstExpiry.Keys == s.burstByPid.Keys
  }

  /** No domain twice in one process's history. */
  predicate DistinctDomains(hist: seq<PidEntry>) {
    forall i, j :: 0 <= i < j < |hist| ==> hist[i].regDom != hist[j].regDom
  }

  predicate HistoriesOk(s: Shared) { forall p :: p in s.pidHistory ==> DistinctDomains(s.pidHistory[p]) }

  predicate MemberOk(s: Shared, c: Call, gid: nat) { gid < |s.groups| && s.groups[gid].regDom == c.req.regDom }

  ghost predicate CallOk(s: State, c: Call) {
    match c.pc
    case Leading(gid) => MemberOk(s.shared, c, gid) && s.shared.groups[gid].answer == None
    case Waiting(gid) => MemberOk(s.shared, c, gid)
    case Done(ans, FromGroup(gid)) => MemberOk(s.shared, c, gid) && s.shared.groups[gid].answer == Some(ans)
    case Done(ans, _) => !IsAlways(ans.action)
    case _ => true
  }

  /** Each open group has exactly one call asking the user about it. */
  ghost predicate LedBy(s: State, gid: nat, t: nat) { t in s.calls && s.calls[t].pc == Leading(gid) }

  ghost predicate LeadersOk(s: State) {
    && (forall g :: 0 <= g < |s.shared.groups| && s.shared.groups[g].answer == None ==> exists t :: LedBy(s, g, t))
    && (forall t, u, g :: LedBy(s, g, t) && LedBy(s, g, u) ==> t == u)
  }

  ghost predicate AnswersOk(s: State) {
    forall g :: 0 <= g < |s.shared.groups| && s.shared.groups[g].answer.Some? ==>
      Asked(s.prompts, s.shared.groups[g].regDom, s.shared.groups[g].answer.value)
  }

  ghost predicate Inv(cfg: Config, s: State) {
    && GroupsOk(cfg, s.shared) && BurstsOk(s.shared) && HistoriesOk(s.shared)
    && (forall t :: t in s.calls ==> CallOk(s, s.calls[t]))
    && LeadersOk(s) && AnswersOk(s)
  }

  // ---------------------------------------------------------------- one step keeps it

  lemma {:induction false} KeepSubset(hist: seq<PidEntry>, now: int, window: int)
    requires DistinctDomains(hist)
    ensures DistinctDomains(Keep(hist, now, window))
    ensures forall e :: e in Keep(hist, now, window) <==> e in hist && now - e.ts <= window
  {
    if hist != [] {
      assert forall i, j :: 0 <= i < j < |hist[1..]| ==> hist[1..][i] == hist[i + 1] && hist[1..][j] == hist[j + 1];
      KeepSubset(hist[1..], now, window);
      var k := Keep(hist[1..], now, window);
      forall e | e in k ensures e.regDom != hist[0].regDom {
        var i :| 0 <= i < |hist[1..]| && hist[1..][i] == e;
        assert hist[i + 1] == e;
      }
      assert forall e :: e in hist <==> e == hist[0] || e in hist[1..];
    }
  }

  /** The history after a request: distinct domains, so its length is the number of domains seen in the window. */
  lemma RecentDistinct(cfg: Config, s: Shared, req: Request, now: int)
    requires HistoriesOk(s)
    ensures DistinctDomains(Recent(cfg, s, req, now)) && req.regDom in Domains(Recent(cfg, s, req, now))
  {
    var kept := Keep(HistoryOf(s, req.pid), now, cfg.window);
    KeepSubset(HistoryOf(s, req.pid), now, cfg.window);
    var r := Recent(cfg, s, req, now);
    if req.regDom !in Domains(kept) {
      assert r[|r| - 1] in r;
      forall i | 0 <= i < |kept| ensures kept[i].regDom != req.regDom { assert kept[i] in kept; }
    }
  }

  /** Every way through the critical section but leading leaves groups and table alone. */
  lemma EnterRoutes(cfg: Config, s: Shared, req: Request, now: int)
    requires GroupsOk(cfg, s) && BurstsOk(s) && HistoriesOk(s)
    ensures var (s', route) := Enter(cfg, s, req, now);
      && BurstsOk(s') && HistoriesOk(s')
      && (route.Replay? ==> !IsAlways(route.action))
      && (route.Join? ==> route.gid < |s.groups| && s.groups[route.gid].regDom == req.regDom)
      && (!route.Lead? ==> s'.groups == s.groups && s'.groupByDom == s.groupByDom)
      && (route.Lead? ==> (
            && route.gid == |s.groups|
            && s'.groups == s.groups + [Group(req.regDom, now, now + cfg.window, None)]
            && s'.groupByDom == s.groupByDom[req.regDom := |s.groups|]
            && (req.regDom in s.groupByDom ==> now >= s.groups[s.groupByDom[req.regDom]].expiry)))
  {
    RecentDistinct(cfg, s, req, now);
  }

  /** A new group for a domain is opened only once the previous one has expired. */
  lemma LeadSpaced(cfg: Config, s: Shared, s': Shared, d: string, now: int)
    requires cfg.window >= 0 && GroupsOk(cfg, s)
    requires s'.groups == s.groups + [Group(d, now, now + cfg.window, None)] && s'.groupByDom == s.groupByDom[d := |s.groups|]
    requires d in s.groupByDom ==> now >= s.groups[s.groupByDom[d]].expiry
    ensures GroupsOk(cfg, s')
  {
    forall g | 0 <= g < |s.groups| && s.groups[g].regDom == d ensures now >= s.groups[g].start + cfg.window {
      var latest := s.groupByDom[d];
      assert g < latest ==> s.groups[latest].start >= s.groups[g].start + cfg.window;
    }
    forall g, h | 0 <= g < h < |s'.groups| && s'.groups[g].regDom == s'.groups[h].regDom
      ensures s'.groups[h].start >= s'.groups[g].start + cfg.window
    {
      assert s'.groups[g] == s.groups[g];
    }
  }

  lemma SettleShared(cfg: Config, s: Shared, gid: nat, ans: Answer)
    requires GroupsOk(cfg, s) && BurstsOk(s) && HistoriesOk(s)
    ensures GroupsOk(cfg, Settle(s, gid, ans)) && BurstsOk(Settle(s, gid, ans)) && HistoriesOk(Settle(s, gid, ans))
  {
    var s' := Settle(s, gid, ans);
    assert forall g :: 0 <= g < |s.groups| ==>
      s'.groups[g].regDom == s.groups[g].regDom && s'.groups[g].start == s.groups[g].start && s'.groups[g].expiry == s.groups[g].expiry;
  }

  lemma LockInv(cfg: Config, s: State, t: nat)
    requires cfg.window >= 0 && Inv(cfg, s) && Enabled(s, Lock(t))
    ensures Inv(cfg, Apply(cfg, s, Lock(t)))
  {
    var c, s' := s.calls[t], Apply(cfg, s, Lock(t));
    EnterRoutes(cfg, s.shared, c.req, c.pc.now);
    if Enter(cfg, s.shared, c.req, c.pc.now).1.Lead? { LockLeads(cfg, s, t); } else { LocalInv(cfg, s, s', t); }
  }

  lemma LockLeads(cfg: Config, s: State, t: nat)
    requires cfg.window >= 0 && Inv(cfg, s) && Enabled(s, Lock(t)) && Enter(cfg, s.shared, s.calls[t].req, s.calls[t].pc.now).1.Lead?
    ensures Inv(cfg, Apply(cfg, s, Lock(t)))
  {
    var c, s' := s.calls[t], Apply(cfg, s, Lock(t));
    EnterRoutes(cfg, s.shared, c.req, c.pc.now);
    LeadSpaced(cfg, s.shared, s'.shared, c.req.regDom, c.pc.now);
    LeadInv(cfg, s, s', t);
  }

  /** One more group, led by this call. */
  ghost predicate Led(s: State, s': State, t: nat) {
    var n := |s.shared.groups|;
    && t in s.calls && s.calls[t].pc.Timed?
    && |s'.shared.groups| == n + 1 && s.shared.groups <= s'.shared.groups
    && s'.shared.groups[n].answer == None && s'.shared.groups[n].regDom == s.calls[t].req.regDom
    && s'.calls == s.calls[t := s.calls[t].(pc := Leading(n))]
  }

  lemma LeadInv(cfg: Config, s: State, s': State, t: nat)
    requires Inv(cfg, s) && Led(s, s', t)
    requires GroupsOk(cfg, s'.shared) && BurstsOk(s'.shared) && HistoriesOk(s'.shared) && s'.prompts == s.prompts
    ensures Inv(cfg, s')
  {
    LeadCalls(s, s', t);
    LeadLeaders(s, s', t);
    LeadAnswers(s, s', t);
  }

  lemma LeadCalls(s: State, s': State, t: nat)
    requires Led(s, s', t) && forall u :: u in s.calls ==> CallOk(s, s.calls[u])
    ensures forall u :: u in s'.calls ==> CallOk(s', s'.calls[u])
  {
    forall u | u in s'.calls ensures CallOk(s', s'.calls[u]) {
      if u != t { assert CallOk(s, s.calls[u]); }
    }
  }

  lemma LeadAnswers(s: State, s': State, t: nat)
    requires Led(s, s', t) && AnswersOk(s) && s'.prompts == s.prompts
    ensures AnswersOk(s')
  {
    forall g | 0 <= g < |s'.shared.groups| && s'.shared.groups[g].answer.Some?
      ensures Asked(s'.prompts, s'.shared.groups[g].regDom, s'.shared.groups[g].answer.value)
    {
      assert s'.shared.groups[g] == s.shared.groups[g];
    }
  }

  lemma LeadLeaders(s: State, s': State, t: nat)
    requires LeadersOk(s) && Led(s, s', t) && forall u :: u in s.calls ==> CallOk(s, s.calls[u])
    ensures LeadersOk(s')
  {
    var n := |s.shared.groups|;
    forall g | 0 <= g <= n && s'.shared.groups[g].answer == None ensures exists u :: LedBy(s', g, u) {
      if g < n {
        assert s'.shared.groups[g] == s.shared.groups[g];
        var u :| LedBy(s, g, u);
        assert LedBy(s', g, u);
      } else {
        assert LedBy(s', g, t);
      }
    }
    forall u, v, g | LedBy(s', g, u) && LedBy(s', g, v) ensures u == v {
      if u != t { assert LedBy(s, g, u) && CallOk(s, s.calls[u]); }
      if v != t { assert LedBy(s, g, v) && CallOk(s, s.calls[v]); }
    }
  }

  lemma GroupAnsweredInv(cfg: Config, s: State, t: nat, ans: Answer)
    requires Inv(cfg, s) && Enabled(s, GroupAnswered(t, ans))
    ensures Inv(cfg, Apply(cfg, s, GroupAnswered(t, ans)))
  {
    var c, s' := s.calls[t], Apply(cfg, s, GroupAnswered(t, ans));
    var gid := c.pc.gid;
    assert CallOk(s, c) && LedBy(s, gid, t);
    SettleShared(cfg, s.shared, gid, ans);
    assert forall g :: 0 <= g < |s.shared.groups| && g != gid ==> s'.shared.groups[g] == s.shared.groups[g];
    SettledCalls(cfg, s, s', t, ans);
    forall g | 0 <= g < |s'.shared.groups| && s'.shared.groups[g].answer.Some?
      ensures Asked(s'.prompts, s'.shared.groups[g].regDom, s'.shared.groups[g].answer.value)
    {
      if g == gid {
        assert s'.prompts[|s.prompts|] == GroupPrompt(t, c.req, gid, ans);
      } else {
        AskedStays(s.prompts, s'.prompts, s.shared.groups[g].regDom, s.shared.groups[g].answer.value);
      }
    }
  }

  lemma SettledCalls(cfg: Config, s: State, s': State, t: nat, ans: Answer)
    requires Inv(cfg, s) && Enabled(s, GroupAnswered(t, ans))
    requires s'.shared == Settle(s.shared, s.calls[t].pc.gid, ans)
    requires s'.calls == s.calls[t := s.calls[t].(pc := Done(ans, FromGroup(s.calls[t].pc.gid)))]
    ensures LeadersOk(s') && forall u :: u in s'.calls ==> CallOk(s', s'.calls[u])
  {
    var gid := s.calls[t].pc.gid;
    assert CallOk(s, s.calls[t]) && LedBy(s, gid, t);
    forall u | u in s'.calls ensures CallOk(s', s'.calls[u]) {
      if u != t {
        assert CallOk(s, s.calls[u]);
        assert s.calls[u].pc == Leading(gid) ==> LedBy(s, gid, u);
      }
    }
    forall g | 0 <= g < |s'.shared.groups| && s'.shared.groups[g].answer == None ensures exists u :: LedBy(s', g, u) {
      var u :| LedBy(s, g, u);
      assert LedBy(s', g, u);
    }
    forall u, v, g | LedBy(s', g, u) && LedBy(s', g, v) ensures u == v { assert LedBy(s, g, u) && LedBy(s, g, v); }
  }

  lemma AskedStays(p: seq<Prompt>, q: seq<Prompt>, regDom: string, ans: Answer)
    requires p <= q && Asked(p, regDom, ans)
    ensures Asked(q, regDom, ans)
  {
    var i :| 0 <= i < |p| && p[i].GroupPrompt? && p[i].req.regDom == regDom && p[i].answer == ans;
    assert q[i] == p[i];
  }

  /** A step that touches one call, opens no group and answers none. */
  lemma LocalInv(cfg: Config, s: State, s': State, t: nat)
    requires Inv(cfg, s) && s'.shared.groups == s.shared.groups && s'.shared.groupByDom == s.shared.groupByDom
    requires BurstsOk(s'.shared) && HistoriesOk(s'.shared) && s.prompts <= s'.prompts
    requires t in s.calls ==> !s.calls[t].pc.Leading?
    requires t in s'.calls && !s'.calls[t].pc.Leading? && CallOk(s', s'.calls[t])
    requires forall u :: u != t ==> (u in s.calls <==> u in s'.calls) && (u in s.calls ==> s'.calls[u] == s.calls[u])
    ensures Inv(cfg, s')
  {
    forall u | u in s'.calls ensures CallOk(s', s'.calls[u]) {
      if u != t { assert CallOk(s, s.calls[u]); }
    }
    forall g, u ensures LedBy(s', g, u) <==> LedBy(s, g, u) {}
    forall g | 0 <= g < |s.shared.groups| && s.shared.groups[g].answer == None ensures exists u :: LedBy(s', g, u) {
      var u :| LedBy(s, g, u);
      assert LedBy(s', g, u);
    }
    forall g | 0 <= g < |s.shared.groups| && s.shared.groups[g].answer.Some?
      ensures Asked(s'.prompts, s.shared.groups[g].regDom, s.shared.groups[g].answer.value)
    {
      AskedStays(s.prompts, s'.prompts, s.shared.groups[g].regDom, s.shared.groups[g].answer.value);
    }
  }

  lemma StepInv(cfg: Config, s: State, step: Step)
    requires cfg.window >= 0 && Inv(cfg, s) && Enabled(s, step)
    ensures Inv(cfg, Apply(cfg, s, step))
  {
    match step
    case Lock(t) => LockInv(cfg, s, t);
    case GroupAnswered(t, ans) => GroupAnsweredInv(cfg, s, t, ans);
    case Wake(t) =>
      assert CallOk(s, s.calls[t]);
      LocalInv(cfg, s, Apply(cfg, s, step), t);
    case _ => LocalInv(cfg, s, Apply(cfg, s, step), step.t);
  }

  lemma {:induction false} RunInv(cfg: Config, s: State, steps: seq<Step>)
    requires cfg.window >= 0 && Inv(cfg, s) && Legal(cfg, s, steps)
    ensures Inv(cfg, Run(cfg, s, steps))
    decreases |steps|
  {
    if steps != [] {
      StepInv(cfg, s, steps[0]);
      RunInv(cfg, Apply(cfg, s, steps[0]), steps[1..]);
    }
  }

  lemma Reachable(cfg: Config, steps: seq<Step>) returns (s: State)
    requires cfg.window >= 0 && Legal(cfg, Fresh, steps)
    ensures s == Run(cfg, Fresh, steps) && Inv(cfg, s)
  {
    s := Run(cfg, Fresh, steps);
    RunInv(cfg, Fresh, steps);
  }

  // ---------------------------------------------------------------- what callers may rely on

  /**
   * Whatever the interleaving, a call returns an Always action only if the user was shown a prompt naming that
   * very domain and gave exactly that answer: no burst answer is ever made permanent.
   */
  lemma AlwaysWasAsked(cfg: Config, steps: seq<Step>, t: nat)
    requires cfg.window >= 0 && Legal(cfg, Fresh, steps)
    requires t in Run(cfg, Fresh, steps).calls && Run(cfg, Fresh, steps).calls[t].pc.Done?
    requires IsAlways(Run(cfg, Fresh, steps).calls[t].pc.ans.action)
    ensures var s := Run(cfg, Fresh, steps); Asked(s.prompts, s.calls[t].req.regDom, s.calls[t].pc.ans)
  {
    var s := Reachable(cfg, steps);
    assert CallOk(s, s.calls[t]);
  }

  /** Call t returned from group gid. */
  predicate Member(s: State, t: nat, gid: nat) {
    t in s.calls && s.calls[t].pc.Done? && s.calls[t].pc.source == FromGroup(gid)
  }

  /** All members of one group asked about one domain and return one answer, action and error alike. */
  lemma GroupAgrees(cfg: Config, steps: seq<Step>, t: nat, u: nat, gid: nat)
    requires cfg.window >= 0 && Legal(cfg, Fresh, steps)
    requires Member(Run(cfg, Fresh, steps), t, gid) && Member(Run(cfg, Fresh, steps), u, gid)
    ensures var s := Run(cfg, Fresh, steps);
      s.calls[t].pc.ans == s.calls[u].pc.ans && s.calls[t].req.regDom == s.calls[u].req.regDom
  {
    var s := Reachable(cfg, steps);
    assert CallOk(s, s.calls[t]) && CallOk(s, s.calls[u]);
  }

  /** Two group prompts for one domain start at least a window apart, even when clock readings reach the lock out of order. */
  lemma PromptsSpaced(cfg: Config, steps: seq<Step>, g: nat, h: nat)
    requires cfg.window >= 0 && Legal(cfg, Fresh, steps)
    requires g < h < |Run(cfg, Fresh, steps).shared.groups|
    requires Run(cfg, Fresh, steps).shared.groups[g].regDom == Run(cfg, Fresh, steps).shared.groups[h].regDom
    ensures Run(cfg, Fresh, steps).shared.groups[h].start >= Run(cfg, Fresh, steps).shared.groups[g].start + cfg.window
  {
    var s := Reachable(cfg, steps);
  }

  /** A waiter is never stranded: its group has an answer, or exactly one call is still asking for it. */
  lemma NoStrandedWaiter(cfg: Config, steps: seq<Step>, t: nat)
    requires cfg.window >= 0 && Legal(cfg, Fresh, steps)
    requires t in Run(cfg, Fresh, steps).calls && Run(cfg, Fresh, steps).calls[t].pc.Waiting?
    ensures var s := Run(cfg, Fresh, steps);
      Enabled(s, Wake(t)) || exists u :: LedBy(s, s.calls[t].pc.gid, u)
    ensures var s := Run(cfg, Fresh, steps);
      forall u, v :: LedBy(s, s.calls[t].pc.gid, u) && LedBy(s, s.calls[t].pc.gid, v) ==> u == v
  {
    var s := Reachable(cfg, steps);
    assert CallOk(s, s.calls[t]);
    if !Enabled(s, Wake(t)) {
      var u :| LedBy(s, s.calls[t].pc.gid, u);
    }
  }

  /** The domains a process has asked for within the window ending now, with the one it asks for now. */
  ghost predicate InWindow(cfg: Config, s: Shared, req: Request, now: int, d: string) {
    d == req.regDom || exists e :: e in HistoryOf(s, req.pid) && e.regDom == d && now - e.ts <= cfg.window
  }

  /** The user is asked about a burst exactly when a process not already in one has more than `burst` domains in the window. */
  lemma BurstTrigger(cfg: Config, s: Shared, req: Request, now: int, window: set<string>)
    requires HistoriesOk(s) && forall d :: d in window <==> InWindow(cfg, s, req, now, d)
    ensures Enter(cfg, s, req, now).1 == AskBurst <==> !InBurst(s, req.pid, now) && |window| > cfg.burst
  {
    var kept := Keep(HistoryOf(s, req.pid), now, cfg.window);
    KeepSubset(HistoryOf(s, req.pid), now, cfg.window);
    var r := Recent(cfg, s, req, now);
    assert forall e :: e in r <==> e in kept || (e == PidEntry(req.regDom, now) && req.regDom !in Domains(kept));
    forall d ensures d in window <==> d in Domains(r) {
      if d in window && d != req.regDom {
        var e :| e in HistoryOf(s, req.pid) && e.regDom == d && now - e.ts <= cfg.window;
        assert e in r;
      }
      RecentDistinct(cfg, s, req, now);
    }
    assert window == Domains(r);
  }

  /** A call that asks for no burst joins a group exactly when one for its domain started less than a window ago, and else opens one. */
  lemma JoinsIff(cfg: Config, s: Shared, req: Request, now: int)
    requires cfg.window >= 0 && GroupsOk(cfg, s)
    ensures var (t, route) := Enter(cfg, s, req, now);
      && (route.Join? || route.Lead? ==>
            (route.Join? <==> exists g :: 0 <= g < |s.groups| && s.groups[g].regDom == req.regDom && now < s.groups[g].start + cfg.window))
      && (route.Join? ==> route.gid < |s.groups| && s.groups[route.gid].regDom == req.regDom
                          && now < s.groups[route.gid].start + cfg.window && t.groups == s.groups)
      && (route.Lead? ==> route.gid == |s.groups| && t.groups == s.groups + [Group(req.regDom, now, now + cfg.window, None)])
  {
    if g :| 0 <= g < |s.groups| && s.groups[g].regDom == req.regDom && now < s.groups[g].start + cfg.window {
      var newest := s.groupByDom[req.regDom];
      assert g < newest ==> s.groups[newest].start >= s.groups[g].start + cfg.window;
    }
  }
}
