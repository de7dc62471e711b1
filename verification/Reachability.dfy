/** The invariant of the interleaved system: tables, requests, the ledger of issued pairs and the
    rotation history, in every reachable state. */
module Reachability {
  import opened Domain
  import opened Tables
  import opened Protocol
  import opened System
  import opened Invariants

  // ---------------------------------------------------------------- the ledger

  /** Request `r` was answered with a pair whose refresh token is row `t`. */
  ghost predicate Produces(s: Sys, r: ReqId, t: Id) {
    r in s.reqs && s.reqs[r].pc.Issued? && s.reqs[r].pc.row.id == t
  }

  /** Token rows and answered pairs correspond one to one. */
  ghost predicate Ledger(s: Sys) {
    && (forall r, t | Produces(s, r, t) :: t in s.db.tokens)
    && (forall t | t in s.db.tokens :: exists r :: Produces(s, r, t))
    && (forall r, r', t | Produces(s, r, t) && Produces(s, r', t) :: r == r')
  }

  // ---------------------------------------------------------------- the rotation history

  ghost predicate Rooted(s: Sys, t: Id) {
    t in s.lineage && s.lineage[t] != [] && s.lineage[t][|s.lineage[t]| - 1] == t
  }

  /** Every token of the lineage is a token whose own lineage is the part up to it. */
  ghost predicate PrefixClosed(s: Sys, t: Id)
    requires t in s.lineage
  {
    forall i | 0 <= i < |s.lineage[t]| ::
      s.lineage[t][i] in s.lineage && s.lineage[s.lineage[t][i]] == s.lineage[t][..i + 1]
  }

  /** Everything before the tip of a lineage is revoked. */
  ghost predicate AncestorsSpent(s: Sys, t: Id)
    requires t in s.lineage
  {
    forall i | 0 <= i < |s.lineage[t]| - 1 :: SpentToken(s.db, s.lineage[t][i])
  }

  ghost predicate OneOwner(s: Sys, t: Id)
    requires t in s.lineage && t in s.db.tokens
  {
    forall i | 0 <= i < |s.lineage[t]| ::
      s.lineage[t][i] in s.db.tokens && s.db.tokens[s.lineage[t][i]].userId == s.db.tokens[t].userId
  }

  ghost predicate GrowsFrom(s: Sys, grant: Grant, t: Id)
    requires t in s.lineage
  {
    if grant.ByRefresh?
    then grant.stored.id in s.lineage && s.lineage[t] == s.lineage[grant.stored.id] + [t]
    else s.lineage[t] == [t]
  }

  ghost predicate LineageInv(s: Sys) {
    && s.lineage.Keys == s.db.tokens.Keys
    && (forall t | t in s.lineage :: Rooted(s, t) && PrefixClosed(s, t) && AncestorsSpent(s, t) && OneOwner(s, t))
    && (forall r | r in s.reqs && s.reqs[r].pc.Issued? ::
          s.reqs[r].pc.row.id in s.lineage && GrowsFrom(s, s.reqs[r].pc.grant, s.reqs[r].pc.row.id))
  }

  // ---------------------------------------------------------------- the invariant

  ghost predicate RequestsOk(cfg: Config, s: Sys) {
    forall r | r in s.reqs :: ReqInv(cfg, s.db, s.reqs[r])
  }

  ghost predicate Inv(cfg: Config, s: Sys) {
    DbInv(s.db) && RequestsOk(cfg, s) && Ledger(s) && LineageInv(s)
  }

  lemma InitInv(cfg: Config, clock: Time)
    ensures Inv(cfg, Init(clock))
  {
  }

  /** A token row appears exactly when a request is answered with its pair. */
  lemma StepTokens(cfg: Config, db: Db, q: Req, t: Tick)
    requires !q.Terminal()
    ensures var m := Step(cfg, db, q, t);
            if m.req.pc.Issued?
            then && q.pc == Persist(m.req.pc.grant, m.req.pc.user, m.req.pc.row, m.req.pc.pair)
                 && m.req.pc.row.id !in db.tokens
                 && m.db == db.(tokens := db.tokens[m.req.pc.row.id := m.req.pc.row])
            else m.db.tokens.Keys == db.tokens.Keys
  {
  }

  lemma ApplyEvolves(cfg: Config, s: Sys, ev: Event)
    ensures Evolves(s.db, Apply(cfg, s, ev).db)
    ensures s.clock <= Apply(cfg, s, ev).clock
  {
    EvolvesReflexive(s.db);
    if ev.Advance? && ev.r in s.reqs {
      StepEvolves(cfg, s.db, s.reqs[ev.r], ev.tick.(now := Max(s.clock, ev.tick.now)));
    }
  }

  lemma ApplyKeepsRequests(cfg: Config, s: Sys, ev: Event)
    requires DbInv(s.db) && RequestsOk(cfg, s)
    ensures DbInv(Apply(cfg, s, ev).db) && RequestsOk(cfg, Apply(cfg, s, ev))
  {
    var s' := Apply(cfg, s, ev);
    ApplyEvolves(cfg, s, ev);
    if ev.Advance? && ev.r in s.reqs && !s.reqs[ev.r].Terminal() {
      var t := ev.tick.(now := Max(s.clock, ev.tick.now));
      StepKeepsDb(cfg, s.db, s.reqs[ev.r], t);
      StepKeepsReq(cfg, s.db, s.reqs[ev.r], t);
      assert KeepsReq(cfg, s.db, s.reqs[ev.r], t);
    }
    forall r | r in s'.reqs
      ensures ReqInv(cfg, s'.db, s'.reqs[r])
    {
      if r in s.reqs && s'.reqs[r] == s.reqs[r] {
        ReqInvStable(cfg, s.db, s'.db, s.reqs[r]);
      }
    }
  }

  // ---------------------------------------------------------------- the two kinds of event

  /** The event stored no token. */
  ghost predicate Quiet(s: Sys, s': Sys) {
    && s'.lineage == s.lineage && s'.db.tokens.Keys == s.db.tokens.Keys
    && (forall r | r in s'.reqs && s'.reqs[r].pc.Issued? :: r in s.reqs && s.reqs[r] == s'.reqs[r])
    && (forall r | r in s.reqs && s.reqs[r].pc.Issued? :: r in s'.reqs && s.reqs[r] == s'.reqs[r])
  }

  /** The event stored the token that answers request `n`. */
  ghost predicate Stores(s: Sys, s': Sys, n: ReqId) {
    && n in s.reqs && !s.reqs[n].pc.Issued?
    && n in s'.reqs && s'.reqs[n].pc.Issued? && s'.reqs == s.reqs[n := s'.reqs[n]]
    && var row := s'.reqs[n].pc.row;
    && row.id !in s.db.tokens
    && s'.db == s.db.(tokens := s.db.tokens[row.id := row])
    && s'.lineage == s.lineage[row.id := LineageOf(s, s'.reqs[n].pc.grant, row)]
  }

  lemma EventKinds(cfg: Config, s: Sys, ev: Event)
    ensures var s' := Apply(cfg, s, ev); Quiet(s, s') || Stores(s, s', ev.r)
  {
    if ev.Advance? && ev.r in s.reqs && !s.reqs[ev.r].Terminal() {
      StepTokens(cfg, s.db, s.reqs[ev.r], ev.tick.(now := Max(s.clock, ev.tick.now)));
    }
  }

  lemma QuietKeepsLedger(s: Sys, s': Sys)
    requires Ledger(s) && Quiet(s, s')
    ensures Ledger(s')
  {
    assert forall r, t :: Produces(s', r, t) <==> Produces(s, r, t);
  }

  lemma StoreKeepsLedger(s: Sys, s': Sys, n: ReqId)
    requires Ledger(s) && Stores(s, s', n)
    ensures Ledger(s')
  {
    var added := s'.reqs[n].pc.row.id;
    assert forall r, t :: Produces(s', r, t) <==> Produces(s, r, t) || (r == n && t == added);
    forall t | t in s'.db.tokens
      ensures exists r :: Produces(s', r, t)
    {
      if t == added {
        assert Produces(s', n, t);
      } else {
        var r :| Produces(s, r, t);
        assert Produces(s', r, t);
      }
    }
  }

  /** Rows that only grow leave every recorded lineage as sound as it was. */
  lemma OldLineage(s: Sys, s': Sys, t: Id)
    requires t in s.lineage && t in s.db.tokens && Evolves(s.db, s'.db)
    requires forall u | u in s.lineage :: u in s'.lineage && s'.lineage[u] == s.lineage[u]
    requires Rooted(s, t) && PrefixClosed(s, t) && AncestorsSpent(s, t) && OneOwner(s, t)
    ensures t in s'.db.tokens
    ensures Rooted(s', t) && PrefixClosed(s', t) && AncestorsSpent(s', t) && OneOwner(s', t)
  {
  }

  lemma QuietKeepsLineage(s: Sys, s': Sys)
    requires LineageInv(s) && Evolves(s.db, s'.db) && Quiet(s, s')
    ensures LineageInv(s')
  {
    forall t | t in s'.lineage
      ensures Rooted(s', t) && PrefixClosed(s', t) && AncestorsSpent(s', t) && OneOwner(s', t)
    {
      OldLineage(s, s', t);
    }
    forall r | r in s'.reqs && s'.reqs[r].pc.Issued?
      ensures s'.reqs[r].pc.row.id in s'.lineage && GrowsFrom(s', s'.reqs[r].pc.grant, s'.reqs[r].pc.row.id)
    {
      assert GrowsFrom(s, s.reqs[r].pc.grant, s.reqs[r].pc.row.id);
    }
  }

  /** The row a request has just stored extends the lineage of the token it replaced. */
  lemma NewLineage(s': Sys, t: Id, parent: Id)
    requires t in s'.lineage && t in s'.db.tokens
    requires parent in s'.lineage && parent in s'.db.tokens && s'.lineage[t] == s'.lineage[parent] + [t]
    requires Rooted(s', parent) && PrefixClosed(s', parent) && AncestorsSpent(s', parent) && OneOwner(s', parent)
    requires SpentToken(s'.db, parent) && s'.db.tokens[parent].userId == s'.db.tokens[t].userId
    ensures Rooted(s', t) && PrefixClosed(s', t) && AncestorsSpent(s', t) && OneOwner(s', t)
  {
    var path, up := s'.lineage[t], s'.lineage[parent];
    forall i | 0 <= i < |path|
      ensures path[i] in s'.lineage && s'.lineage[path[i]] == path[..i + 1]
    {
      if i < |up| {
        assert path[i] == up[i] && path[..i + 1] == up[..i + 1];
      } else {
        assert path[..i + 1] == path;
      }
    }
    forall i | 0 <= i < |path| - 1
      ensures SpentToken(s'.db, path[i])
    {
      assert path[i] == up[i];
    }
  }

  /** What a rotation replaces: an older row of the same user, by now revoked. */
  ghost predicate ReplacesSpent(s: Sys, s': Sys, n: ReqId)
    requires Stores(s, s', n)
  {
    var pc := s'.reqs[n].pc;
    pc.grant.ByRefresh? ==>
      && pc.grant.stored.id in s.db.tokens && SpentToken(s'.db, pc.grant.stored.id)
      && s'.db.tokens[pc.grant.stored.id].userId == pc.row.userId
  }

  lemma StoreKeepsLineage(s: Sys, s': Sys, n: ReqId)
    requires LineageInv(s) && Evolves(s.db, s'.db) && Stores(s, s', n) && ReplacesSpent(s, s', n)
    ensures LineageInv(s')
  {
    var row, grant := s'.reqs[n].pc.row, s'.reqs[n].pc.grant;
    forall t | t in s.lineage
      ensures t in s'.lineage
      ensures Rooted(s', t) && PrefixClosed(s', t) && AncestorsSpent(s', t) && OneOwner(s', t)
    {
      OldLineage(s, s', t);
    }
    if grant.ByRefresh? {
      NewLineage(s', row.id, grant.stored.id);
    } else {
      assert s'.lineage[row.id] == [row.id];
    }
    StoreKeepsGrowth(s, s', n);
  }

  lemma StoreKeepsGrowth(s: Sys, s': Sys, n: ReqId)
    requires LineageInv(s) && Stores(s, s', n)
    requires s'.reqs[n].pc.grant.ByRefresh? ==> s'.reqs[n].pc.grant.stored.id in s.db.tokens
    ensures forall r | r in s'.reqs && s'.reqs[r].pc.Issued? ::
              s'.reqs[r].pc.row.id in s'.lineage && GrowsFrom(s', s'.reqs[r].pc.grant, s'.reqs[r].pc.row.id)
  {
    forall r | r in s'.reqs && s'.reqs[r].pc.Issued?
      ensures s'.reqs[r].pc.row.id in s'.lineage && GrowsFrom(s', s'.reqs[r].pc.grant, s'.reqs[r].pc.row.id)
    {
      if r != n {
        assert GrowsFrom(s, s.reqs[r].pc.grant, s.reqs[r].pc.row.id);
      }
    }
  }

  lemma ApplyKeepsHistory(cfg: Config, s: Sys, ev: Event)
    requires Inv(cfg, s)
    ensures Ledger(Apply(cfg, s, ev)) && LineageInv(Apply(cfg, s, ev))
  {
    var s' := Apply(cfg, s, ev);
    ApplyEvolves(cfg, s, ev);
    EventKinds(cfg, s, ev);
    if Quiet(s, s') {
      QuietKeepsLedger(s, s');
      QuietKeepsLineage(s, s');
    } else {
      ApplyKeepsRequests(cfg, s, ev);
      StoreKeepsLedger(s, s', ev.r);
      RotationReplacesSpent(cfg, s, ev);
      StoreKeepsLineage(s, s', ev.r);
    }
  }

  lemma RotationReplacesSpent(cfg: Config, s: Sys, ev: Event)
    requires RequestsOk(cfg, s) && Stores(s, Apply(cfg, s, ev), ev.r)
    ensures ReplacesSpent(s, Apply(cfg, s, ev), ev.r)
  {
    var t := ev.tick.(now := Max(s.clock, ev.tick.now));
    assert ReqInv(cfg, s.db, s.reqs[ev.r]);
    StepTokens(cfg, s.db, s.reqs[ev.r], t);
  }

  lemma ApplyKeepsInv(cfg: Config, s: Sys, ev: Event)
    requires Inv(cfg, s)
    ensures Inv(cfg, Apply(cfg, s, ev))
  {
    ApplyKeepsRequests(cfg, s, ev);
    ApplyKeepsHistory(cfg, s, ev);
  }

  lemma RunKeepsInv(cfg: Config, s: Sys, evs: seq<Event>)
    requires Inv(cfg, s)
    ensures Inv(cfg, Run(cfg, s, evs))
    decreases |evs|
  {
    if evs != [] {
      ApplyKeepsInv(cfg, s, evs[0]);
      RunKeepsInv(cfg, Apply(cfg, s, evs[0]), evs[1..]);
    }
  }

  /** Every state of every run, whatever is interleaved and whatever fails, satisfies the invariant. */
  lemma ReachableInv(cfg: Config, s: Sys)
    requires Reachable(cfg, s)
    ensures Inv(cfg, s)
  {
    var clock, evs :| s == Run(cfg, Init(clock), evs);
    InitInv(cfg, clock);
    RunKeepsInv(cfg, Init(clock), evs);
  }

  lemma {:induction false} RunEvolves(cfg: Config, s: Sys, evs: seq<Event>)
    ensures Evolves(s.db, Run(cfg, s, evs).db)
    ensures s.clock <= Run(cfg, s, evs).clock
    decreases |evs|
  {
    if evs == [] {
      EvolvesReflexive(s.db);
    } else {
      var s1 := Apply(cfg, s, evs[0]);
      ApplyEvolves(cfg, s, evs[0]);
      RunEvolves(cfg, s1, evs[1..]);
      EvolvesTransitive(s.db, s1.db, Run(cfg, s, evs).db);
    }
  }
}
