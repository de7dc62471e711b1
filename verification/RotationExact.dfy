/** How many successors a refresh token really gets: after its first revocation, as many as there are
    refreshes still holding it, no more and no fewer. "One successor" is exact for one holder only. */
module RotationExact {
  import opened Domain
  import opened Tables
  import opened Protocol
  import opened System
  import opened Serial
  import opened Schedules
  import opened Issuing
  import opened Invariants
  import opened Reachability
  import opened Rotation
  import opened Lifecycles
  import opened Sets

  /** The only new row is the one of this tick. */
  ghost predicate AddsOnly(cfg: Config, a: Db, b: Db, t: Tick) {
    forall i | i in b.tokens ::
      || (i in a.tokens && b.tokens[i].tokenHash == a.tokens[i].tokenHash)
      || (i == t.id && b.tokens[i].tokenHash == cfg.digest(t.value))
  }

  ghost predicate Replaced(q: Req, x: Id) {
    q.pc.Issued? && Rotates(q.pc.grant, x)
  }

  // ---------------------------------------------------------------- one holder runs to its end

  lemma MintReplaces(cfg: Config, db: Db, q: Req, t: Tick, k: nat, x: Id)
    requires q.pc.Mint? && Rotates(q.pc.grant, x) && q.pc.user.id in db.users && Fresh(cfg, db, t)
    ensures var m := RunAlone(cfg, db, q, Always(t), k);
            Replaced(m.req, x) && AddsOnly(cfg, db, m.db, t)
  {
    MintAlone(cfg, db, q, Always(t), k);
  }

  lemma RevokeAlone(cfg: Config, db: Db, q: Req, t: Tick, k: nat, x: Id)
    requires q.pc.RevokeUsed? && q.pc.stored.id == x && q.pc.user.id in db.users && Fresh(cfg, db, t)
    ensures var m := RunAlone(cfg, db, q, Always(t), k);
            Replaced(m.req, x) && AddsOnly(cfg, db, m.db, t)
  {
    Unroll(cfg, db, q, Always(t), k);
    var w := Revoke(db, x, t.now, true);
    assert UnusedHash(w.db, cfg.digest(t.value));
    MintReplaces(cfg, w.db, q.Goto(Mint(ByRefresh(q.pc.stored), q.pc.user)), t, k + 1, x);
  }

  lemma LoadAlone(cfg: Config, db: Db, q: Req, t: Tick, k: nat, x: Id)
    requires q.pc.LoadOwner? && q.pc.stored.id == x && Fresh(cfg, db, t)
    requires q.pc.stored.userId in db.users && db.users[q.pc.stored.userId].id == q.pc.stored.userId
    ensures var m := RunAlone(cfg, db, q, Always(t), k);
            Replaced(m.req, x) && AddsOnly(cfg, db, m.db, t)
  {
    Unroll(cfg, db, q, Always(t), k);
    RevokeAlone(cfg, db, q.Goto(RevokeUsed(q.pc.stored, db.users[q.pc.stored.userId])), t, k + 1, x);
  }

  lemma ValidateAlone(cfg: Config, db: Db, q: Req, t: Tick, k: nat, x: Id)
    requires q.pc.Validate? && q.pc.stored.id == x && q.pc.stored.IsValid(t.now) && Fresh(cfg, db, t)
    requires q.pc.stored.userId in db.users && db.users[q.pc.stored.userId].id == q.pc.stored.userId
    ensures var m := RunAlone(cfg, db, q, Always(t), k);
            Replaced(m.req, x) && AddsOnly(cfg, db, m.db, t)
  {
    Unroll(cfg, db, q, Always(t), k);
    LoadAlone(cfg, db, q.Goto(LoadOwner(q.pc.stored)), t, k + 1, x);
  }

  /** Holds `x`, would pass the check, and has not drawn its new row yet. */
  ghost predicate Underway(q: Req, x: Id, clock: Time) {
    HoldsLive(q, x, clock) && (q.pc.Validate? || q.pc.LoadOwner? || q.pc.RevokeUsed? || q.pc.Mint?)
  }

  lemma OwnerOfHolder(cfg: Config, db: Db, q: Req)
    requires DbInv(db) && ReqInv(cfg, db, q)
    ensures q.pc.Validate? || q.pc.LoadOwner? ==>
              q.pc.stored.userId in db.users && db.users[q.pc.stored.userId].id == q.pc.stored.userId
    ensures q.pc.RevokeUsed? || q.pc.Mint? ==> q.pc.user.id in db.users
  {
  }

  lemma HolderAlone(cfg: Config, db: Db, q: Req, t: Tick, x: Id)
    requires DbInv(db) && ReqInv(cfg, db, q) && Underway(q, x, t.now) && Fresh(cfg, db, t)
    ensures var m := RunAlone(cfg, db, q, Always(t), 0);
            Replaced(m.req, x) && AddsOnly(cfg, db, m.db, t)
  {
    OwnerOfHolder(cfg, db, q);
    match q.pc
    case Validate(_) => ValidateAlone(cfg, db, q, t, 0, x);
    case LoadOwner(_) => LoadAlone(cfg, db, q, t, 0, x);
    case RevokeUsed(_, _) => RevokeAlone(cfg, db, q, t, 0, x);
    case Mint(_, _) => MintReplaces(cfg, db, q, t, 0, x);
  }

  // ---------------------------------------------------------------- all holders, one after the other

  lemma CompleteOne(cfg: Config, s: Sys, r: ReqId, x: Id, t: Tick)
    requires Inv(cfg, s) && r in s.reqs && Underway(s.reqs[r], x, s.clock)
    requires Fresh(cfg, s.db, t) && t.now == s.clock
    ensures var s' := Run(cfg, s, Turns(r, Always(t), 0, 7));
            && s'.clock == s.clock && AddsOnly(cfg, s.db, s'.db, t)
            && r in s'.reqs && s'.reqs == s.reqs[r := s'.reqs[r]] && Replaced(s'.reqs[r], x)
  {
    HolderAlone(cfg, s.db, s.reqs[r], t, x);
    TurnsAtOnce(cfg, s, r, t, 0);
  }

  ghost predicate FreshAll(cfg: Config, db: Db, clock: Time, ts: seq<Tick>) {
    && (forall i | 0 <= i < |ts| :: ts[i].now == clock && Fresh(cfg, db, ts[i]))
    && (forall i, j | 0 <= i < j < |ts| :: ts[i].id != ts[j].id && cfg.digest(ts[i].value) != cfg.digest(ts[j].value))
  }

  lemma StillFresh(cfg: Config, a: Db, b: Db, clock: Time, ts: seq<Tick>)
    requires ts != [] && FreshAll(cfg, a, clock, ts) && AddsOnly(cfg, a, b, ts[0])
    ensures FreshAll(cfg, b, clock, ts[1..])
  {
    forall i | 0 <= i < |ts[1..]|
      ensures Fresh(cfg, b, ts[1..][i])
    {
      assert ts[1..][i] == ts[i + 1];
    }
  }

  lemma {:induction false} RunKeepsReplaced(cfg: Config, s: Sys, evs: seq<Event>, r: ReqId, x: Id)
    requires r in s.reqs && Replaced(s.reqs[r], x)
    ensures var s' := Run(cfg, s, evs); r in s'.reqs && Replaced(s'.reqs[r], x)
    decreases |evs|
  {
    if evs != [] {
      RunKeepsReplaced(cfg, Apply(cfg, s, evs[0]), evs[1..], r, x);
    }
  }

  /** After one of them is through, the others can follow. */
  lemma CompleteFirst(cfg: Config, s: Sys, r: ReqId, x: Id, rs: set<ReqId>, ts: seq<Tick>) returns (s1: Sys)
    requires Inv(cfg, s) && ts != [] && FreshAll(cfg, s.db, s.clock, ts)
    requires r in rs && forall i | i in rs :: i in s.reqs && Underway(s.reqs[i], x, s.clock)
    ensures s1 == Run(cfg, s, Turns(r, Always(ts[0]), 0, 7))
    ensures Inv(cfg, s1) && FreshAll(cfg, s1.db, s1.clock, ts[1..])
    ensures r in s1.reqs && Replaced(s1.reqs[r], x)
    ensures forall i | i in rs - {r} :: i in s1.reqs && Underway(s1.reqs[i], x, s1.clock)
  {
    s1 := Run(cfg, s, Turns(r, Always(ts[0]), 0, 7));
    CompleteOne(cfg, s, r, x, ts[0]);
    RunKeepsInv(cfg, s, Turns(r, Always(ts[0]), 0, 7));
    StillFresh(cfg, s.db, s1.db, s.clock, ts);
  }

  /** Any set of holders can all be let through, and no other refresh takes part. */
  lemma {:induction false} CompleteAll(cfg: Config, s: Sys, x: Id, rs: set<ReqId>, ts: seq<Tick>)
    returns (evs: seq<Event>)
    requires Inv(cfg, s) && |ts| == |rs| && FreshAll(cfg, s.db, s.clock, ts)
    requires forall r | r in rs :: r in s.reqs && Underway(s.reqs[r], x, s.clock)
    ensures rs <= Makers(Run(cfg, s, evs), x)
    ensures Within(cfg, s, evs, |RefreshesInFlight(s)|, RefreshesInFlight)
    decreases |rs|
  {
    if rs == {} {
      evs := [];
    } else {
      var r :| r in rs;
      var s1 := CompleteFirst(cfg, s, r, x, rs, ts);
      var others := CompleteAll(cfg, s1, x, rs - {r}, ts[1..]);
      RunKeepsReplaced(cfg, s1, others, r, x);
      evs := Turns(r, Always(ts[0]), 0, 7) + others;
      RefreshesEbb(cfg);
      TurnsThen(cfg, s, r, Always(ts[0]), 0, others, RefreshesInFlight);
    }
  }

  // ---------------------------------------------------------------- the exact number

  lemma StepRevokes(cfg: Config, db: Db, q: Req, t: Tick, x: Id)
    requires !SpentToken(db, x) && SpentToken(Step(cfg, db, q, t).db, x)
    requires q.pc.Persist? ==> q.pc.row.revokedAt.None?
    ensures Step(cfg, db, q, t).req.pc.Mint? || Step(cfg, db, q, t).req.pc.Finished?
  {
  }

  lemma HolderBeforeRevocation(cfg: Config, db: Db, q: Req, x: Id)
    requires ReqInv(cfg, db, q) && !SpentToken(db, x) && Holds(q, x)
    ensures q.pc.Validate? || q.pc.LoadOwner? || q.pc.RevokeUsed?
  {
  }

  /** Right after the first revocation nobody has drawn a new row yet. */
  lemma HoldersUnderway(cfg: Config, s: Sys, ev: Event, x: Id, r: ReqId)
    requires Inv(cfg, s) && !SpentToken(s.db, x) && SpentToken(Apply(cfg, s, ev).db, x)
    requires r in LiveHolders(Apply(cfg, s, ev), x)
    ensures Underway(Apply(cfg, s, ev).reqs[r], x, Apply(cfg, s, ev).clock)
  {
    var q, t := s.reqs[ev.r], ev.tick.(now := Max(s.clock, ev.tick.now));
    if r == ev.r {
      assert ReqInv(cfg, s.db, q);
      StepRevokes(cfg, s.db, q, t, x);
    } else {
      assert ReqInv(cfg, s.db, s.reqs[r]);
      HolderBeforeRevocation(cfg, s.db, s.reqs[r], x);
    }
  }

  lemma SuccessorsWithinHolders(cfg: Config, s: Sys, evs: seq<Event>, x: Id)
    requires Reachable(cfg, s) && DeadToken(s, x)
    ensures |Successors(Run(cfg, s, evs), x)| <= |LiveHolders(s, x)|
  {
    var s' := Run(cfg, s, evs);
    DeadTokenIsRefused(cfg, s, evs, x);
    SubsetSize(Makers(s', x), LiveHolders(s, x));
    assert |Successors(s', x)| == |Makers(s', x)| by {
      ReachableExtends(cfg, s, evs);
      ReachableInv(cfg, s');
      SuccessorsCountMakers(s', x);
    }
  }

  ghost predicate AllUnderway(s: Sys, x: Id, rs: set<ReqId>) {
    forall r | r in rs :: r in s.reqs && Underway(s.reqs[r], x, s.clock)
  }

  /** As many successors as there are holders let through, and no refresh beside those in flight. */
  lemma HoldersSucceed(cfg: Config, s: Sys, x: Id, rs: set<ReqId>, ts: seq<Tick>)
    returns (evs: seq<Event>, s': Sys)
    requires Reachable(cfg, s) && |ts| == |rs| && FreshAll(cfg, s.db, s.clock, ts) && AllUnderway(s, x, rs)
    ensures s' == Run(cfg, s, evs) && |Successors(s', x)| >= |rs|
    ensures Within(cfg, s, evs, |RefreshesInFlight(s)|, RefreshesInFlight)
  {
    ReachableInv(cfg, s);
    evs := CompleteAll(cfg, s, x, rs, ts);
    s' := Run(cfg, s, evs);
    SubsetSize(rs, Makers(s', x));
    RunKeepsInv(cfg, s, evs);
    SuccessorsCountMakers(s', x);
  }

  /** None of those who hold `x` live has drawn its new row yet. */
  ghost predicate NothingDrawn(s: Sys, x: Id) {
    AllUnderway(s, x, LiveHolders(s, x))
  }

  /** The exact number. From any reachable state in which `x` is revoked or expired and nobody holding
      it has drawn a new row, `n` successors can still come about if and only if at least `n` refreshes
      hold it live, as long as new ids and values with new hashes can be drawn. */
  lemma DeadTokenSuccessorsIff(cfg: Config, s: Sys, x: Id, ts: seq<Tick>, n: nat)
    requires Reachable(cfg, s) && DeadToken(s, x) && NothingDrawn(s, x)
    requires |ts| == |LiveHolders(s, x)| && FreshAll(cfg, s.db, s.clock, ts)
    ensures (exists evs :: |Successors(Run(cfg, s, evs), x)| >= n) <==> n <= |LiveHolders(s, x)|
  {
    forall evs
      ensures |Successors(Run(cfg, s, evs), x)| <= |LiveHolders(s, x)|
    {
      SuccessorsWithinHolders(cfg, s, evs, x);
    }
    var evs, s' := HoldersSucceed(cfg, s, x, LiveHolders(s, x), ts);
    assert |Successors(Run(cfg, s, evs), x)| >= |LiveHolders(s, x)|;
  }

  lemma FirstRevocation(cfg: Config, s: Sys, ev: Event, x: Id)
    requires Reachable(cfg, s) && !SpentToken(s.db, x) && SpentToken(Apply(cfg, s, ev).db, x)
    ensures var s1 := Apply(cfg, s, ev); Reachable(cfg, s1) && DeadToken(s1, x) && NothingDrawn(s1, x)
  {
    ReachableInv(cfg, s);
    ReachableStep(cfg, s, ev);
    forall r | r in LiveHolders(Apply(cfg, s, ev), x)
      ensures Underway(Apply(cfg, s, ev).reqs[r], x, Apply(cfg, s, ev).clock)
    {
      HoldersUnderway(cfg, s, ev, x, r);
    }
  }

  /** So it is after the event that first revokes a token, whichever request revoked it. */
  lemma SuccessorsReachableIff(cfg: Config, s: Sys, ev: Event, x: Id, ts: seq<Tick>, n: nat)
    requires Reachable(cfg, s) && !SpentToken(s.db, x) && SpentToken(Apply(cfg, s, ev).db, x)
    requires var s1 := Apply(cfg, s, ev); |ts| == |LiveHolders(s1, x)| && FreshAll(cfg, s1.db, s1.clock, ts)
    ensures var s1 := Apply(cfg, s, ev);
            (exists evs :: |Successors(Run(cfg, s1, evs), x)| >= n) <==> n <= |LiveHolders(s1, x)|
  {
    FirstRevocation(cfg, s, ev, x);
    DeadTokenSuccessorsIff(cfg, Apply(cfg, s, ev), x, ts, n);
  }

  /** And at any moment after a token expired unrevoked. */
  lemma ExpiredSuccessorsIff(cfg: Config, s: Sys, x: Id, ts: seq<Tick>, n: nat)
    requires Reachable(cfg, s) && x in s.db.tokens && !SpentToken(s.db, x) && s.db.tokens[x].expiresAt <= s.clock
    requires |ts| == |LiveHolders(s, x)| && FreshAll(cfg, s.db, s.clock, ts)
    ensures (exists evs :: |Successors(Run(cfg, s, evs), x)| >= n) <==> n <= |LiveHolders(s, x)|
  {
    ReachableInv(cfg, s);
    forall r | r in LiveHolders(s, x)
      ensures Underway(s.reqs[r], x, s.clock)
    {
      HolderBeforeRevocation(cfg, s.db, s.reqs[r], x);
    }
    DeadTokenSuccessorsIff(cfg, s, x, ts, n);
  }

  /** So a token is sure to be replaced at most once exactly when at most one refresh held it. */
  lemma OneSuccessorIff(cfg: Config, s: Sys, ev: Event, x: Id, ts: seq<Tick>)
    requires Reachable(cfg, s) && !SpentToken(s.db, x) && SpentToken(Apply(cfg, s, ev).db, x)
    requires var s1 := Apply(cfg, s, ev); |ts| == |LiveHolders(s1, x)| && FreshAll(cfg, s1.db, s1.clock, ts)
    ensures var s1 := Apply(cfg, s, ev);
            (forall evs :: |Successors(Run(cfg, s1, evs), x)| <= 1) <==> |LiveHolders(s1, x)| <= 1
  {
    SuccessorsReachableIff(cfg, s, ev, x, ts, 2);
  }

  /** When a logout is final: after the event with which a logout first revokes `x`, no successor can
      come about if and only if no refresh holds `x` live at that moment. */
  lemma LogoutIsFinalIff(cfg: Config, s: Sys, ev: Event, x: Id, t: Tick)
    requires Reachable(cfg, s) && !SpentToken(s.db, x) && SpentToken(Apply(cfg, s, ev).db, x)
    requires ev.r in s.reqs && s.reqs[ev.r].input.Logout?
    requires var s1 := Apply(cfg, s, ev); Fresh(cfg, s1.db, t) && t.now == s1.clock
    ensures var s1 := Apply(cfg, s, ev);
            (forall evs :: Successors(Run(cfg, s1, evs), x) == {}) <==> LiveHolders(s1, x) == {}
  {
    var s1 := Apply(cfg, s, ev);
    FirstRevocation(cfg, s, ev, x);
    if LiveHolders(s1, x) == {} {
      forall evs
        ensures Successors(Run(cfg, s1, evs), x) == {}
      {
        SuccessorsWithinHolders(cfg, s1, evs, x);
      }
    } else {
      var r :| r in LiveHolders(s1, x);
      var evs, s' := OneHolderSucceeds(cfg, s1, x, r, t);
      assert Successors(Run(cfg, s1, evs), x) != {};
    }
  }

  lemma OneHolderSucceeds(cfg: Config, s: Sys, x: Id, r: ReqId, t: Tick)
    returns (evs: seq<Event>, s': Sys)
    requires Reachable(cfg, s) && r in s.reqs && Underway(s.reqs[r], x, s.clock)
    requires Fresh(cfg, s.db, t) && t.now == s.clock
    ensures s' == Run(cfg, s, evs) && Successors(s', x) != {}
  {
    evs, s' := HoldersSucceed(cfg, s, x, {r}, [t]);
  }
}
