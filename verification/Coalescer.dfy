/** The coalescer's own critical sections, updating its tables in place. */
module Coalescer {
  import opened Options
  import opened Actions
  import opened Coalescing

  class Coalescer {
    const window: int
    const burst: int
    var groupByDom: map<string, nat>
    var pidHistory: map<int, seq<PidEntry>>
    var burstByPid: map<int, Action>
    var burstExpiry: map<int, int>
    var groups: seq<Group>

    ghost function View(): Shared
      reads this
    {
      Shared(groupByDom, pidHistory, burstByPid, burstExpiry, groups)
    }

    ghost function Cfg(): Config { Config(window, burst) }

    constructor (window: int, burst: int)
      ensures View() == Fresh.shared && Cfg() == Config(window, burst)
    {
      this.window := window;
      this.burst := burst;
      groupByDom := map[];
      pidHistory := map[];
      burstByPid := map[];
      burstExpiry := map[];
      groups := [];
    }

    method InBurstNow(pid: int, now: int) returns (yes: bool)
      ensures yes <==> InBurst(View(), pid, now)
    {
      yes := pid in burstExpiry && now < burstExpiry[pid];
    }

    /** Drop what left the window, in place order kept. */
    method DropOld(hist: seq<PidEntry>, now: int) returns (keep: seq<PidEntry>)
      ensures keep == Keep(hist, now, window)
    {
      keep := [];
      for i := 0 to |hist|
        invariant keep + Keep(hist[i..], now, window) == Keep(hist, now, window)
      {
        assert hist[i..][1..] == hist[i + 1..];
        ghost var before := keep;
        if now - hist[i].ts <= window { keep := keep + [hist[i]]; }
        assert keep + Keep(hist[i + 1..], now, window) == before + Keep(hist[i..], now, window);
      }
      assert hist[|hist|..] == [] && keep + [] == keep;
    }

    method DomainsSeen(hist: seq<PidEntry>) returns (seen: set<string>)
      ensures seen == Domains(hist)
    {
      seen := {};
      for i := 0 to |hist|
        invariant seen == Domains(hist[..i])
      {
        assert hist[..i + 1] == hist[..i] + [hist[i]];
        DomainsGrow(hist[..i], hist[i]);
        seen := seen + {hist[i].regDom};
      }
      assert hist[..|hist|] == hist;
    }

    /** Bring the process's history up to date and count its recent domains. */
    method UpdateHistory(req: Request, now: int) returns (distinct: nat)
      modifies this`pidHistory
      ensures pidHistory == old(pidHistory)[req.pid := Recent(Cfg(), old(View()), req, now)]
      ensures distinct == |Domains(Recent(Cfg(), old(View()), req, now))|
    {
      var hist := if req.pid in pidHistory then pidHistory[req.pid] else [];
      hist := DropOld(hist, now);
      var seen := DomainsSeen(hist);
      if req.regDom !in seen {
        DomainsGrow(hist, PidEntry(req.regDom, now));
        hist := hist + [PidEntry(req.regDom, now)];
        seen := seen + {req.regDom};
      }
      pidHistory := pidHistory[req.pid := hist];
      distinct := |seen|;
    }

    /** The critical section at the head of Notify. */
    method EnterSection(req: Request, now: int) returns (route: Route)
      requires req.regDom in groupByDom ==> groupByDom[req.regDom] < |groups|
      modifies this
      ensures (View(), route) == Enter(Cfg(), old(View()), req, now)
    {
      if req.pid in burstExpiry && now < burstExpiry[req.pid] {
        return Replay(if req.pid in burstByPid then burstByPid[req.pid] else Deny);
      }
      var distinct := UpdateHistory(req, now);
      if distinct > burst { return AskBurst; }
      if req.regDom in groupByDom {
        var g := groupByDom[req.regDom];
        if now < groups[g].expiry { return Join(g); }
      }
      route := Lead(|groups|);
      groupByDom := groupByDom[req.regDom := |groups|];
      groups := groups + [Group(req.regDom, now, now + window, None)];
    }

    /** After a burst prompt: cache the burst-safe answer for the window. */
    method StoreSection(pid: int, now: int, action: Action) returns (safe: Action)
      modifies this
      ensures safe == BurstSafe(action) && !IsAlways(safe)
      ensures View() == Coalescing.StoreBurst(Cfg(), old(View()), pid, now, safe)
    {
      safe := BurstSafe(action);
      burstByPid := burstByPid[pid := safe];
      burstExpiry := burstExpiry[pid := now + window];
    }

    /** The leader publishes its answer and closes the channel, once. */
    method Publish(gid: nat, ans: Answer)
      requires gid < |groups|
      modifies this`groups
      ensures View() == Settle(old(View()), gid, ans)
      ensures groups[gid].answer.Some?
    {
      if groups[gid].answer == None {
        groups := groups[gid := groups[gid].(answer := Some(ans))];
      }
    }
  }

  lemma DomainsGrow(hist: seq<PidEntry>, e: PidEntry)
    ensures Domains(hist + [e]) == Domains(hist) + {e.regDom}
  {
    assert forall x :: x in hist + [e] <==> x in hist || x == e;
  }
}
