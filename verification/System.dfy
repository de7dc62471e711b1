/** Any number of requests in flight over one database. The scheduler picks who moves next; nothing
    else is atomic. Finished requests stay in the table, so a state also records its own history. */
module System {
  import opened Domain
  import opened Tables
  import opened Protocol

  type ReqId = nat

  /** `lineage` is history: for each refresh token, the rotations that led to it, from the token a
      login, a code or Google issued up to the token itself. */
  datatype Sys = Sys(db: Db, clock: Time, reqs: map<ReqId, Req>, lineage: map<Id, seq<Id>>)

  datatype Event =
    | Arrive(r: ReqId, input: Input)
    | Advance(r: ReqId, tick: Tick)

  function Init(clock: Time): Sys {
    Sys(EMPTY, clock, map[], map[])
  }

  function Max(a: Time, b: Time): Time {
    if a < b then b else a
  }

  /** The rotations behind the row an issued request has just stored. */
  function LineageOf(s: Sys, grant: Grant, row: RefreshToken): seq<Id> {
    if grant.ByRefresh? && grant.stored.id in s.lineage then s.lineage[grant.stored.id] + [row.id] else [row.id]
  }

  /** One event. The clock never runs backwards; an event that names no runnable request is void. */
  ghost function Apply(cfg: Config, s: Sys, ev: Event): Sys {
    match ev
    case Arrive(r, input) =>
      if r in s.reqs then s else s.(reqs := s.reqs[r := NewRequest(input)])
    case Advance(r, tick) =>
      if r !in s.reqs || s.reqs[r].Terminal() then s
      else
        var now := Max(s.clock, tick.now);
        var m := Step(cfg, s.db, s.reqs[r], tick.(now := now));
        Sys(m.db, now, s.reqs[r := m.req],
            if m.req.pc.Issued?
            then s.lineage[m.req.pc.row.id := LineageOf(s, m.req.pc.grant, m.req.pc.row)]
            else s.lineage)
  }

  ghost function Run(cfg: Config, s: Sys, evs: seq<Event>): Sys
    decreases |evs|
  {
    if evs == [] then s else Run(cfg, Apply(cfg, s, evs[0]), evs[1..])
  }

  ghost predicate Reachable(cfg: Config, s: Sys) {
    exists clock, evs :: s == Run(cfg, Init(clock), evs)
  }

  // ---------------------------------------------------------------- concurrency

  ghost function RefreshesInFlight(s: Sys): set<ReqId> {
    set r | r in s.reqs && !s.reqs[r].Terminal() && s.reqs[r].input.Refresh?
  }

  ghost function VerifiesInFlight(s: Sys): set<ReqId> {
    set r | r in s.reqs && !s.reqs[r].Terminal() && s.reqs[r].input.VerifyCode?
  }

  /** At no moment of the run are more than `k` of the counted requests unfinished. */
  ghost predicate Within(cfg: Config, s: Sys, evs: seq<Event>, k: nat, inFlight: Sys -> set<ReqId>)
    decreases |evs|
  {
    && |inFlight(s)| <= k
    && (evs == [] || Within(cfg, Apply(cfg, s, evs[0]), evs[1..], k, inFlight))
  }

  lemma RunAppend(cfg: Config, s: Sys, a: seq<Event>, b: seq<Event>)
    ensures Run(cfg, s, a + b) == Run(cfg, Run(cfg, s, a), b)
    decreases |a|
  {
    if a == [] {
      assert a + b == b;
    } else {
      assert (a + b)[0] == a[0] && (a + b)[1..] == a[1..] + b;
      RunAppend(cfg, Apply(cfg, s, a[0]), a[1..], b);
    }
  }

  lemma RunShort(cfg: Config, s: Sys, a: Event, b: Event)
    ensures Run(cfg, s, [a]) == Apply(cfg, s, a)
    ensures Run(cfg, s, [a, b]) == Apply(cfg, Apply(cfg, s, a), b)
  {
    assert [a][1..] == [] && [b][1..] == [];
    assert [a, b][1..] == [b];
    assert Run(cfg, Apply(cfg, s, a), [b]) == Apply(cfg, Apply(cfg, s, a), b);
  }

  lemma ReachableExtends(cfg: Config, s: Sys, evs: seq<Event>)
    requires Reachable(cfg, s)
    ensures Reachable(cfg, Run(cfg, s, evs))
  {
    var clock, before :| s == Run(cfg, Init(clock), before);
    RunAppend(cfg, Init(clock), before, evs);
    assert Run(cfg, s, evs) == Run(cfg, Init(clock), before + evs);
  }

  lemma ReachableStep(cfg: Config, s: Sys, ev: Event)
    requires Reachable(cfg, s)
    ensures Reachable(cfg, Apply(cfg, s, ev))
  {
    ReachableExtends(cfg, s, [ev]);
    assert Run(cfg, s, [ev]) == Apply(cfg, s, ev);
  }

  // ---------------------------------------------------------------- requests end

  /** How often request `r` is given a turn. */
  function TurnsOf(evs: seq<Event>, r: ReqId): nat {
    if evs == [] then 0 else (if evs[0].Advance? && evs[0].r == r then 1 else 0) + TurnsOf(evs[1..], r)
  }

  lemma {:induction false} EndsInTime(cfg: Config, s: Sys, evs: seq<Event>, r: ReqId)
    requires r in s.reqs && Rank(s.reqs[r].pc) <= TurnsOf(evs, r)
    ensures r in Run(cfg, s, evs).reqs && Run(cfg, s, evs).reqs[r].Terminal()
    decreases |evs|
  {
    if evs != [] {
      if evs[0].Advance? && evs[0].r == r {
        StepUsesRank(cfg, s.db, s.reqs[r], evs[0].tick.(now := Max(s.clock, evs[0].tick.now)));
      }
      EndsInTime(cfg, Apply(cfg, s, evs[0]), evs[1..], r);
    }
  }

  lemma {:induction false} TerminalStays(cfg: Config, s: Sys, evs: seq<Event>, r: ReqId)
    requires r in s.reqs && s.reqs[r].Terminal()
    ensures r in Run(cfg, s, evs).reqs && Run(cfg, s, evs).reqs[r] == s.reqs[r]
    decreases |evs|
  {
    if evs != [] {
      TerminalStays(cfg, Apply(cfg, s, evs[0]), evs[1..], r);
    }
  }

  /** However requests are interleaved and whatever fails, a request that has had seven turns has
      ended, and no later event changes it. */
  lemma SevenTurnsSuffice(cfg: Config, s: Sys, evs: seq<Event>, later: seq<Event>, r: ReqId)
    requires r in s.reqs && TurnsOf(evs, r) >= 7
    ensures var s' := Run(cfg, s, evs);
            && r in s'.reqs && s'.reqs[r].Terminal()
            && r in Run(cfg, s', later).reqs && Run(cfg, s', later).reqs[r] == s'.reqs[r]
  {
    EndsInTime(cfg, s, evs, r);
    TerminalStays(cfg, Run(cfg, s, evs), later, r);
  }
}
