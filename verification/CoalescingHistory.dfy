/** What every answer the coalescer gives goes back to: the prompt it was given in, over whole runs. */
module CoalescingHistory {
  import opened Options
  import opened Actions
  import opened Coalescing

  /** How the daemon takes an answer: an error is a refusal whatever action comes with it. */
  predicate Allows(ans: Answer) { !ans.failed && ActionToDecision(ans.action) == Allowed }

  // ---------------------------------------------------------------- what holds of the prompts

  /** Prompt i was a burst prompt of this process whose call has stored its burst-safe answer until expiry, and returned. */
  ghost predicate StoredBy(cfg: Config, s: State, i: nat, pid: int, expiry: int, safe: Action) {
    && i < |s.prompts| && s.prompts[i].BurstPrompt? && s.prompts[i].req.pid == pid
    && expiry == s.prompts[i].at + cfg.window && safe == BurstSafe(s.prompts[i].answer.action)
    && s.prompts[i].asker in s.calls
    && s.calls[s.prompts[i].asker].pc == Done(Answer(safe, s.prompts[i].answer.failed), FromAsk)
  }

  ghost predicate Stored(cfg: Config, s: State, pid: int, expiry: int, safe: Action) {
    exists i: nat :: StoredBy(cfg, s, i, pid, expiry, safe)
  }

  ghost predicate StoredBefore(cfg: Config, s: State, pid: int, now: int, safe: Action) {
    exists expiry :: now < expiry && Stored(cfg, s, pid, expiry, safe)
  }

  /** Where a call stands is explained by a prompt. */
  ghost predicate CallTold(cfg: Config, s: State, t: nat, c: Call) {
    match c.pc
    case StoringBurst(now, ans) => exists i :: 0 <= i < |s.prompts| && s.prompts[i] == BurstPrompt(t, c.req, now, ans)
    case Done(ans, FromReplay(now)) => !ans.failed && StoredBefore(cfg, s, c.req.pid, now, ans.action)
    case Done(ans, FromGroup(gid)) => GroupTold(s.prompts, gid, ans)
    case _ => true
  }

  ghost predicate GroupTold(prompts: seq<Prompt>, gid: nat, ans: Answer) {
    exists i :: 0 <= i < |prompts| && prompts[i].GroupPrompt? && prompts[i].gid == gid && prompts[i].answer == ans
  }

  /** A group prompt's asker has returned its answer, and no group is asked about twice. */
  ghost predicate PromptsOk(s: State) {
    && (forall i :: 0 <= i < |s.prompts| ==> s.prompts[i].asker in s.calls && s.calls[s.prompts[i].asker].req == s.prompts[i].req)
    && (forall i :: 0 <= i < |s.prompts| && s.prompts[i].GroupPrompt? ==>
          s.calls[s.prompts[i].asker].pc == Done(s.prompts[i].answer, FromGroup(s.prompts[i].gid)))
    && (forall i, j :: 0 <= i < j < |s.prompts| && s.prompts[i].GroupPrompt? && s.prompts[j].GroupPrompt? ==>
          s.prompts[i].gid != s.prompts[j].gid)
  }

  ghost predicate Told(cfg: Config, s: State) {
    && PromptsOk(s)
    && (forall t :: t in s.calls ==> CallTold(cfg, s, t, s.calls[t]))
    && (forall p :: p in s.shared.burstByPid && p in s.shared.burstExpiry ==>
          Stored(cfg, s, p, s.shared.burstExpiry[p], s.shared.burstByPid[p]))
    && (forall g :: 0 <= g < |s.shared.groups| && s.shared.groups[g].answer.Some? ==>
          GroupTold(s.prompts, g, s.shared.groups[g].answer.value))
  }

  // ---------------------------------------------------------------- steps only add to it

  /** Prompts are only added, requests never change, and a call that returned stays as it returned. */
  ghost predicate Grows(s: State, s': State) {
    && s.prompts <= s'.prompts
    && (forall t :: t in s.calls ==> t in s'.calls && s'.calls[t].req == s.calls[t].req)
    && (forall t :: t in s.calls && s.calls[t].pc.Done? ==> s'.calls[t] == s.calls[t])
  }

  lemma StepGrows(cfg: Config, s: State, step: Step)
    requires Enabled(s, step)
    ensures Grows(s, Apply(cfg, s, step))
  {
  }

  lemma StoredStays(cfg: Config, s: State, s': State, pid: int, expiry: int, safe: Action)
    requires Grows(s, s') && Stored(cfg, s, pid, expiry, safe)
    ensures Stored(cfg, s', pid, expiry, safe)
  {
    var i: nat :| StoredBy(cfg, s, i, pid, expiry, safe);
    assert s'.prompts[i] == s.prompts[i];
    assert StoredBy(cfg, s', i, pid, expiry, safe);
  }

  lemma StoredBeforeStays(cfg: Config, s: State, s': State, pid: int, now: int, safe: Action)
    requires Grows(s, s') && StoredBefore(cfg, s, pid, now, safe)
    ensures StoredBefore(cfg, s', pid, now, safe)
  {
    var expiry :| now < expiry && Stored(cfg, s, pid, expiry, safe);
    StoredStays(cfg, s, s', pid, expiry, safe);
  }

  lemma GroupToldStays(p: seq<Prompt>, q: seq<Prompt>, gid: nat, ans: Answer)
    requires p <= q && GroupTold(p, gid, ans)
    ensures GroupTold(q, gid, ans)
  {
    var i :| 0 <= i < |p| && p[i].GroupPrompt? && p[i].gid == gid && p[i].answer == ans;
    assert q[i] == p[i];
  }

  lemma CallToldStays(cfg: Config, s: State, s': State, t: nat, c: Call)
    requires Grows(s, s') && CallTold(cfg, s, t, c)
    ensures CallTold(cfg, s', t, c)
  {
    match c.pc
    case StoringBurst(now, ans) =>
      var i :| 0 <= i < |s.prompts| && s.prompts[i] == BurstPrompt(t, c.req, now, ans);
      assert s'.prompts[i] == s.prompts[i];
    case Done(ans, FromReplay(now)) => StoredBeforeStays(cfg, s, s', c.req.pid, now, ans.action);
    case Done(ans, FromGroup(gid)) => GroupToldStays(s.prompts, s'.prompts, gid, ans);
    case _ =>
  }

  /** What a step must show beyond what it leaves alone: about the call it moves, and the tables it writes. */
  lemma ToldStep(cfg: Config, s: State, s': State, t: nat)
    requires Told(cfg, s) && Grows(s, s') && PromptsOk(s')
    requires t in s'.calls && CallTold(cfg, s', t, s'.calls[t])
    requires forall u :: u in s'.calls && u != t ==> u in s.calls && s'.calls[u] == s.calls[u]
    requires forall p :: p in s'.shared.burstByPid && p in s'.shared.burstExpiry ==>
      (p in s.shared.burstByPid && p in s.shared.burstExpiry && s'.shared.burstByPid[p] == s.shared.burstByPid[p]
       && s'.shared.burstExpiry[p] == s.shared.burstExpiry[p])
      || Stored(cfg, s', p, s'.shared.burstExpiry[p], s'.shared.burstByPid[p])
    requires forall g :: 0 <= g < |s'.shared.groups| && s'.shared.groups[g].answer.Some? ==>
      (g < |s.shared.groups| && s'.shared.groups[g].answer == s.shared.groups[g].answer)
      || GroupTold(s'.prompts, g, s'.shared.groups[g].answer.value)
    ensures Told(cfg, s')
  {
    forall u | u in s'.calls ensures CallTold(cfg, s', u, s'.calls[u]) {
      if u != t { CallToldStays(cfg, s, s', u, s.calls[u]); }
    }
    forall p | p in s'.shared.burstByPid && p in s'.shared.burstExpiry
      ensures Stored(cfg, s', p, s'.shared.burstExpiry[p], s'.shared.burstByPid[p])
    {
      if !Stored(cfg, s', p, s'.shared.burstExpiry[p], s'.shared.burstByPid[p]) {
        StoredStays(cfg, s, s', p, s.shared.burstExpiry[p], s.shared.burstByPid[p]);
      }
    }
    forall g | 0 <= g < |s'.shared.groups| && s'.shared.groups[g].answer.Some?
      ensures GroupTold(s'.prompts, g, s'.shared.groups[g].answer.value)
    {
      if !GroupTold(s'.prompts, g, s'.shared.groups[g].answer.value) {
        GroupToldStays(s.prompts, s'.prompts, g, s.shared.groups[g].answer.value);
      }
    }
  }

  lemma SamePromptsOk(s: State, s': State)
    requires PromptsOk(s) && Grows(s, s') && s'.prompts == s.prompts
    ensures PromptsOk(s')
  {
  }

  lemma ArriveTold(cfg: Config, s: State, t: nat, req: Request, now: int)
    requires Told(cfg, s) && Enabled(s, Arrive(t, req, now))
    ensures Told(cfg, Apply(cfg, s, Arrive(t, req, now)))
  {
    var s' := Apply(cfg, s, Arrive(t, req, now));
    StepGrows(cfg, s, Arrive(t, req, now));
    SamePromptsOk(s, s');
    ToldStep(cfg, s, s', t);
  }

  lemma LockTold(cfg: Config, s: State, t: nat)
    requires Inv(cfg, s) && Told(cfg, s) && Enabled(s, Lock(t))
    ensures Told(cfg, Apply(cfg, s, Lock(t)))
  {
    var c, s' := s.calls[t], Apply(cfg, s, Lock(t));
    var (shared, route) := Enter(cfg, s.shared, c.req, c.pc.now);
    EnterRoutes(cfg, s.shared, c.req, c.pc.now);
    StepGrows(cfg, s, Lock(t));
    SamePromptsOk(s, s');
    if route.Replay? {
      var p := c.req.pid;
      assert p in s.shared.burstExpiry && p in s.shared.burstByPid;
      StoredStays(cfg, s, s', p, s.shared.burstExpiry[p], s.shared.burstByPid[p]);
      assert StoredBefore(cfg, s', p, c.pc.now, route.action);
    }
    ToldStep(cfg, s, s', t);
  }

  lemma BurstAnsweredTold(cfg: Config, s: State, t: nat, ans: Answer)
    requires Told(cfg, s) && Enabled(s, BurstAnswered(t, ans))
    ensures Told(cfg, Apply(cfg, s, BurstAnswered(t, ans)))
  {
    var s' := Apply(cfg, s, BurstAnswered(t, ans));
    StepGrows(cfg, s, BurstAnswered(t, ans));
    assert s'.prompts[|s.prompts|] == BurstPrompt(t, s.calls[t].req, s.calls[t].pc.now, ans);
    assert forall i :: 0 <= i < |s.prompts| ==> s'.prompts[i] == s.prompts[i];
    ToldStep(cfg, s, s', t);
  }

  lemma StoreTold(cfg: Config, s: State, t: nat)
    requires Told(cfg, s) && Enabled(s, Store(t))
    ensures Told(cfg, Apply(cfg, s, Store(t)))
  {
    var c, s' := s.calls[t], Apply(cfg, s, Store(t));
    StepGrows(cfg, s, Store(t));
    SamePromptsOk(s, s');
    assert CallTold(cfg, s, t, c);
    var i :| 0 <= i < |s.prompts| && s.prompts[i] == BurstPrompt(t, c.req, c.pc.now, c.pc.ans);
    assert StoredBy(cfg, s', i, c.req.pid, c.pc.now + cfg.window, BurstSafe(c.pc.ans.action));
    ToldStep(cfg, s, s', t);
  }

  lemma GroupAnsweredTold(cfg: Config, s: State, t: nat, ans: Answer)
    requires Inv(cfg, s) && Told(cfg, s) && Enabled(s, GroupAnswered(t, ans))
    ensures Told(cfg, Apply(cfg, s, GroupAnswered(t, ans)))
  {
    var c, s' := s.calls[t], Apply(cfg, s, GroupAnswered(t, ans));
    var gid := c.pc.gid;
    StepGrows(cfg, s, GroupAnswered(t, ans));
    AnsweredPromptsOk(cfg, s, t, ans);
    assert s'.prompts[|s.prompts|] == GroupPrompt(t, c.req, gid, ans);
    assert GroupTold(s'.prompts, gid, ans);
    ToldStep(cfg, s, s', t);
  }

  /** The group just answered was open, so no earlier prompt was about it. */
  lemma AnsweredPromptsOk(cfg: Config, s: State, t: nat, ans: Answer)
    requires Inv(cfg, s) && PromptsOk(s) && Enabled(s, GroupAnswered(t, ans))
    ensures PromptsOk(Apply(cfg, s, GroupAnswered(t, ans)))
  {
    var c, s' := s.calls[t], Apply(cfg, s, GroupAnswered(t, ans));
    assert CallOk(s, c);
    assert s'.prompts[|s.prompts|] == GroupPrompt(t, c.req, c.pc.gid, ans);
    assert forall i :: 0 <= i < |s.prompts| ==> s'.prompts[i] == s.prompts[i];
    forall i | 0 <= i < |s.prompts| && s.prompts[i].GroupPrompt? ensures s.prompts[i].gid != c.pc.gid {
      assert CallOk(s, s.calls[s.prompts[i].asker]);
    }
  }

  lemma WakeTold(cfg: Config, s: State, t: nat)
    requires Told(cfg, s) && Enabled(s, Wake(t))
    ensures Told(cfg, Apply(cfg, s, Wake(t)))
  {
    var s' := Apply(cfg, s, Wake(t));
    StepGrows(cfg, s, Wake(t));
    SamePromptsOk(s, s');
    ToldStep(cfg, s, s', t);
  }

  lemma StepTold(cfg: Config, s: State, step: Step)
    requires Inv(cfg, s) && Told(cfg, s) && Enabled(s, step)
    ensures Told(cfg, Apply(cfg, s, step))
  {
    match step
    case Arrive(t, req, now) => ArriveTold(cfg, s, t, req, now);
    case Lock(t) => LockTold(cfg, s, t);
    case BurstAnswered(t, ans) => BurstAnsweredTold(cfg, s, t, ans);
    case Store(t) => StoreTold(cfg, s, t);
    case GroupAnswered(t, ans) => GroupAnsweredTold(cfg, s, t, ans);
    case Wake(t) => WakeTold(cfg, s, t);
  }

  lemma {:induction false} RunTold(cfg: Config, s: State, steps: seq<Step>)
    requires cfg.window >= 0 && Inv(cfg, s) && Told(cfg, s) && Legal(cfg, s, steps)
    ensures Told(cfg, Run(cfg, s, steps))
    decreases |steps|
  {
    if steps != [] {
      StepInv(cfg, s, steps[0]);
      StepTold(cfg, s, steps[0]);
      RunTold(cfg, Apply(cfg, s, steps[0]), steps[1..]);
    }
  }

  // ---------------------------------------------------------------- what callers may rely on

  /**
   * Whatever the interleaving, a replayed burst answer was given to a burst prompt of the same process, by a call that
   * has returned, less than a window before; and the replay decides as that call did if and only if the notifier did
   * not fail while naming an allowing action, for the replay drops the failure.
   */
  lemma ReplayWasAsked(cfg: Config, steps: seq<Step>, t: nat, now: int) returns (i: nat)
    requires cfg.window >= 0 && Legal(cfg, Fresh, steps)
    requires t in Run(cfg, Fresh, steps).calls && Run(cfg, Fresh, steps).calls[t].pc.Done?
    requires Run(cfg, Fresh, steps).calls[t].pc.source == FromReplay(now)
    ensures var s := Run(cfg, Fresh, steps);
      && i < |s.prompts| && s.prompts[i].BurstPrompt? && s.prompts[i].req.pid == s.calls[t].req.pid
      && now < s.prompts[i].at + cfg.window
      && s.prompts[i].asker in s.calls && s.calls[s.prompts[i].asker].pc.Done?
      && s.calls[s.prompts[i].asker].pc.ans == Answer(BurstSafe(s.prompts[i].answer.action), s.prompts[i].answer.failed)
      && s.calls[t].pc.ans == Answer(BurstSafe(s.prompts[i].answer.action), false)
      && (Allows(s.calls[t].pc.ans) == Allows(s.calls[s.prompts[i].asker].pc.ans)
          <==> !(s.prompts[i].answer.failed && ActionToDecision(s.prompts[i].answer.action) == Allowed))
  {
    var s := Reachable(cfg, steps);
    RunTold(cfg, Fresh, steps);
    var c := s.calls[t];
    assert CallTold(cfg, s, t, c);
    var expiry :| now < expiry && Stored(cfg, s, c.req.pid, expiry, c.pc.ans.action);
    i :| StoredBy(cfg, s, i, c.req.pid, expiry, c.pc.ans.action);
  }

  /** Whoever returns from a group was answered in its one prompt, which was about the request of the call that asked. */
  lemma GroupWasAsked(cfg: Config, steps: seq<Step>, t: nat, gid: nat) returns (i: nat)
    requires cfg.window >= 0 && Legal(cfg, Fresh, steps)
    requires Member(Run(cfg, Fresh, steps), t, gid)
    ensures var s := Run(cfg, Fresh, steps);
      && i < |s.prompts| && s.prompts[i].GroupPrompt? && s.prompts[i].gid == gid && s.prompts[i].answer == s.calls[t].pc.ans
      && (forall j :: 0 <= j < |s.prompts| && s.prompts[j].GroupPrompt? && s.prompts[j].gid == gid ==> j == i)
      && s.prompts[i].asker in s.calls && s.calls[s.prompts[i].asker].req == s.prompts[i].req
      && s.prompts[i].req.regDom == s.calls[t].req.regDom
  {
    var s := Reachable(cfg, steps);
    RunTold(cfg, Fresh, steps);
    assert CallTold(cfg, s, t, s.calls[t]);
    i :| 0 <= i < |s.prompts| && s.prompts[i].GroupPrompt? && s.prompts[i].gid == gid && s.prompts[i].answer == s.calls[t].pc.ans;
    assert CallOk(s, s.calls[t]) && CallOk(s, s.calls[s.prompts[i].asker]);
  }

  // ---------------------------------------------------------------- when a burst answer is replayed

  /** A burst answer stored for a process, and the time of the call that stored it. */
  datatype Held = Held(now: int, action: Action)

  /** The burst answer a run stored last for a process; last is what there was before. */
  ghost function StoredLast(cfg: Config, s: State, steps: seq<Step>, pid: int, last: Option<Held>): Option<Held>
    requires Legal(cfg, s, steps)
    decreases |steps|
  {
    if steps == [] then last else StoredLast(cfg, Apply(cfg, s, steps[0]), steps[1..], pid, HeldAfter(s, steps[0], pid, last))
  }

  ghost function HeldAfter(s: State, step: Step, pid: int, last: Option<Held>): Option<Held>
    requires Enabled(s, step)
  {
    if step.Store? && s.calls[step.t].req.pid == pid then Some(Held(s.calls[step.t].pc.now, s.calls[step.t].pc.ans.action)) else last
  }

  /** A lasting answer is held as its single form. */
  function Softened(a: Action): Action { if a == AllowAlways then AllowOnce else if a == DenyAlways then Deny else a }

  predicate Holds(cfg: Config, s: Shared, pid: int, last: Option<Held>) {
    if last.None? then pid !in s.burstExpiry
    else
      && pid in s.burstExpiry && s.burstExpiry[pid] == last.value.now + cfg.window
      && pid in s.burstByPid && s.burstByPid[pid] == Softened(last.value.action)
  }

  lemma HoldsStep(cfg: Config, s: State, step: Step, pid: int, last: Option<Held>)
    requires Enabled(s, step) && Holds(cfg, s.shared, pid, last)
    ensures Holds(cfg, Apply(cfg, s, step).shared, pid, HeldAfter(s, step, pid, last))
  {
  }

  lemma {:induction false} HoldsRun(cfg: Config, s: State, steps: seq<Step>, pid: int, last: Option<Held>)
    requires Legal(cfg, s, steps) && Holds(cfg, s.shared, pid, last)
    ensures Holds(cfg, Run(cfg, s, steps).shared, pid, StoredLast(cfg, s, steps, pid, last))
    decreases |steps|
  {
    if steps != [] {
      HoldsStep(cfg, s, steps[0], pid, last);
      HoldsRun(cfg, Apply(cfg, s, steps[0]), steps[1..], pid, HeldAfter(s, steps[0], pid, last));
    }
  }

  /**
   * Over every run: a call is answered by a replay exactly when the burst answer stored last for its process is less than
   * a window old, and then by that answer, in its single form and without asking.
   */
  lemma ReplayedIff(cfg: Config, steps: seq<Step>, t: nat)
    requires Legal(cfg, Fresh, steps) && Enabled(Run(cfg, Fresh, steps), Lock(t))
    ensures var s := Run(cfg, Fresh, steps);
      var c := s.calls[t];
      var last := StoredLast(cfg, Fresh, steps, c.req.pid, None);
      var after := Apply(cfg, s, Lock(t));
      if last.Some? && c.pc.now < last.value.now + cfg.window
      then after.calls[t].pc == Done(Answer(Softened(last.value.action), false), FromReplay(c.pc.now)) && after.prompts == s.prompts
      else !after.calls[t].pc.Done?
  {
    HoldsRun(cfg, Fresh, steps, Run(cfg, Fresh, steps).calls[t].req.pid, None);
  }
}
