/** Refresh-token rotation under every interleaving: the rotation forest, who may extend it, and how
    often; conservation of rows and pairs; ownership along a lineage. */
module Rotation {
  import opened Domain
  import opened Tables
  import opened Protocol
  import opened System
  import opened Invariants
  import opened Reachability
  import opened Sets

  // ---------------------------------------------------------------- conservation and ownership

  ghost function PairsAnswered(s: Sys): set<ReqId> {
    set r | r in s.reqs && s.reqs[r].pc.Issued?
  }

  /** The row id a request was answered with. */
  ghost function RowOf(s: Sys, r: ReqId): Id {
    if r in s.reqs && s.reqs[r].pc.Issued? then s.reqs[r].pc.row.id else 0
  }

  /** As many token rows as answered pairs: a request that failed left none, one that succeeded one. */
  lemma RowsEqualPairs(cfg: Config, s: Sys)
    requires Reachable(cfg, s)
    ensures |s.db.tokens| == |PairsAnswered(s)|
  {
    ReachableInv(cfg, s);
    LedgerSizes(s);
  }

  lemma LedgerSizes(s: Sys)
    requires Ledger(s)
    ensures |s.db.tokens.Keys| == |PairsAnswered(s)|
  {
    var rows, pairs := s.db.tokens.Keys, PairsAnswered(s);
    forall t | t in rows
      ensures exists r :: r in pairs && RowOf(s, r) == t
    {
      var r :| Produces(s, r, t);
      assert r in pairs && RowOf(s, r) == t;
    }
    ImageSize(rows, pairs, r => RowOf(s, r));
    forall r | r in pairs
      ensures Produces(s, r, RowOf(s, r))
    {
    }
    InjectionSize(pairs, rows, r => RowOf(s, r));
  }

  /** Every plaintext handed out hashes to exactly one row, owned by the subject of its access token. */
  lemma PlaintextHasOneRow(cfg: Config, s: Sys, r: ReqId)
    requires Reachable(cfg, s) && r in s.reqs && s.reqs[r].pc.Issued?
    ensures var pc := s.reqs[r].pc;
            && pc.row.id in s.db.tokens
            && s.db.tokens[pc.row.id].tokenHash == cfg.digest(pc.pair.refresh)
            && s.db.tokens[pc.row.id].userId == pc.pair.access.sub
            && forall t | t in s.db.tokens && s.db.tokens[t].tokenHash == cfg.digest(pc.pair.refresh) :: t == pc.row.id
  {
    ReachableInv(cfg, s);
    IssuedFacts(cfg, s.db, s.reqs[r]);
  }

  /** Two requests are never answered with the same refresh token. */
  lemma PlaintextsDiffer(cfg: Config, s: Sys, r: ReqId, r': ReqId)
    requires Reachable(cfg, s) && r in s.reqs && s.reqs[r].pc.Issued? && r' in s.reqs && s.reqs[r'].pc.Issued?
    requires r != r'
    ensures s.reqs[r].pc.pair.refresh != s.reqs[r'].pc.pair.refresh
  {
    ReachableInv(cfg, s);
    PlaintextHasOneRow(cfg, s, r);
    PlaintextHasOneRow(cfg, s, r');
    assert Produces(s, r, RowOf(s, r)) && Produces(s, r', RowOf(s, r'));
  }

  /** The foreign key holds and rows are never deleted, so no refresh ends on a missing user. */
  lemma RefreshFindsItsUser(cfg: Config, s: Sys, r: ReqId)
    requires Reachable(cfg, s) && r in s.reqs && s.reqs[r].input.Refresh?
    ensures s.reqs[r].pc != Failed(UserNotFound)
  {
    ReachableInv(cfg, s);
    assert ReqInv(cfg, s.db, s.reqs[r]);
  }

  /** From a token back to the sign-in that started its lineage: the same user all along, everything
      behind the tip revoked, and no token twice. */
  lemma LineageOwnership(cfg: Config, s: Sys, t: Id, i: nat)
    requires Reachable(cfg, s) && t in s.db.tokens && t in s.lineage && i < |s.lineage[t]|
    ensures var a := s.lineage[t][i];
            && a in s.db.tokens && s.db.tokens[a].userId == s.db.tokens[t].userId
            && s.db.tokens[t].userId in s.db.users
            && (i < |s.lineage[t]| - 1 ==> s.db.tokens[a].revokedAt.Some?)
            && forall j | 0 <= j < |s.lineage[t]| && s.lineage[t][j] == a :: j == i
  {
    ReachableInv(cfg, s);
    assert PrefixClosed(s, t) && AncestorsSpent(s, t) && OneOwner(s, t);
    forall j | 0 <= j < |s.lineage[t]| && s.lineage[t][j] == s.lineage[t][i]
      ensures j == i
    {
      assert |s.lineage[t][..j + 1]| == |s.lineage[t][..i + 1]|;
    }
  }

  // ---------------------------------------------------------------- successors

  /** The rows that replaced token `x`. */
  ghost function Successors(s: Sys, x: Id): set<Id> {
    set t | t in s.lineage && |s.lineage[t]| >= 2 && s.lineage[t][|s.lineage[t]| - 2] == x
  }

  /** The requests that hold `x` as it was before its revocation, or have already replaced it. */
  ghost predicate Holds(q: Req, x: Id) {
    match q.pc
    case Validate(stored) => stored.id == x && stored.revokedAt.None?
    case LoadOwner(stored) => stored.id == x
    case RevokeUsed(stored, _) => stored.id == x
    case FindAccount(grant, _, _) => Rotates(grant, x)
    case CreateAccount(grant, _) => Rotates(grant, x)
    case Mint(grant, _) => Rotates(grant, x)
    case Persist(grant, _, _, _) => Rotates(grant, x)
    case Issued(grant, _, _, _) => Rotates(grant, x)
    case _ => false
  }

  ghost predicate Rotates(grant: Grant, x: Id) {
    grant.ByRefresh? && grant.stored.id == x
  }

  ghost function Holders(s: Sys, x: Id): set<ReqId> {
    set r | r in s.reqs && Holds(s.reqs[r], x)
  }

  /** A token is never replaced before it is revoked, at any step and after any failure. */
  lemma SuccessorMeansRevoked(cfg: Config, s: Sys, x: Id, t: Id)
    requires Reachable(cfg, s) && t in Successors(s, x)
    ensures SpentToken(s.db, x)
  {
    ReachableInv(cfg, s);
    assert AncestorsSpent(s, t);
  }

  /** The requests answered with a row that replaced `x`. */
  ghost function Makers(s: Sys, x: Id): set<ReqId> {
    set r | r in s.reqs && s.reqs[r].pc.Issued? && Rotates(s.reqs[r].pc.grant, x)
  }

  /** A row that replaced `x` answers a request that rotated `x`, and the other way round. */
  lemma MakerRotates(s: Sys, r: ReqId, x: Id)
    requires LineageInv(s) && r in s.reqs && s.reqs[r].pc.Issued?
    ensures s.reqs[r].pc.row.id in Successors(s, x) <==> r in Makers(s, x)
  {
    var grant, t := s.reqs[r].pc.grant, s.reqs[r].pc.row.id;
    assert GrowsFrom(s, grant, t);
    if grant.ByRefresh? {
      assert Rooted(s, grant.stored.id);
    }
  }

  /** Each replacement of `x` was made by a different request, and each such request made one. */
  lemma SuccessorsCountMakers(s: Sys, x: Id)
    requires Ledger(s) && LineageInv(s)
    ensures |Successors(s, x)| == |Makers(s, x)|
  {
    forall t | t in Successors(s, x)
      ensures exists r :: r in Makers(s, x) && RowOf(s, r) == t
    {
      var r :| Produces(s, r, t);
      MakerRotates(s, r, x);
      assert r in Makers(s, x) && RowOf(s, r) == t;
    }
    ImageSize(Successors(s, x), Makers(s, x), r => RowOf(s, r));
    forall r | r in Makers(s, x)
      ensures RowOf(s, r) in Successors(s, x) && Produces(s, r, RowOf(s, r))
    {
      MakerRotates(s, r, x);
    }
    InjectionSize(Makers(s, x), Successors(s, x), r => RowOf(s, r));
  }

  lemma MakersHold(s: Sys, x: Id)
    ensures Makers(s, x) <= Holders(s, x) && |Makers(s, x)| <= |Holders(s, x)|
  {
    SubsetSize(Makers(s, x), Holders(s, x));
  }

  /** A request comes to hold `x` only by reading it, and only while it is unrevoked. */
  lemma StepHolds(cfg: Config, db: Db, q: Req, t: Tick, x: Id)
    requires !q.pc.Begin? && Holds(Step(cfg, db, q, t).req, x)
    ensures Holds(q, x)
  {
  }

  lemma OpenHolds(cfg: Config, db: Db, q: Req, t: Tick, x: Id)
    requires q.pc.Begin? && Constraints(db) && Holds(Step(cfg, db, q, t).req, x)
    ensures Step(cfg, db, q, t).db == db && !SpentToken(db, x)
  {
    if !q.input.Refresh? {
      OpenOtherHoldsNothing(cfg, db, q, t, x);
      assert false;
    }
    FoundByHash(db, cfg.digest(q.input.token));
    OpenRefreshHolds(cfg, db, q, t, x);
  }

  lemma OpenOtherHoldsNothing(cfg: Config, db: Db, q: Req, t: Tick, x: Id)
    requires q.pc.Begin? && !q.input.Refresh?
    ensures !Holds(Step(cfg, db, q, t).req, x)
  {
  }

  lemma OpenRefreshHolds(cfg: Config, db: Db, q: Req, t: Tick, x: Id)
    requires q.pc.Begin? && q.input.Refresh? && Holds(Step(cfg, db, q, t).req, x)
    requires var f := FindByTokenHash(db, cfg.digest(q.input.token));
             f.Some? ==> f.value.id in db.tokens && db.tokens[f.value.id] == f.value
    ensures Step(cfg, db, q, t).db == db && !SpentToken(db, x)
  {
  }

  lemma ApplyHolders(cfg: Config, s: Sys, ev: Event, x: Id)
    requires Constraints(s.db)
    ensures Holders(Apply(cfg, s, ev), x) <= Holders(s, x) + (if SpentToken(s.db, x) then {} else {ev.r})
    ensures SpentToken(Apply(cfg, s, ev).db, x) ==> Holders(Apply(cfg, s, ev), x) <= Holders(s, x)
  {
    if ev.Advance? && ev.r in s.reqs && !s.reqs[ev.r].Terminal() {
      var t := ev.tick.(now := Max(s.clock, ev.tick.now));
      if Holds(Step(cfg, s.db, s.reqs[ev.r], t).req, x) {
        if s.reqs[ev.r].pc.Begin? {
          OpenHolds(cfg, s.db, s.reqs[ev.r], t, x);
        } else {
          StepHolds(cfg, s.db, s.reqs[ev.r], t, x);
        }
      }
    }
  }

  lemma KeptSpent(a: Db, b: Db, x: Id)
    requires Evolves(a, b) && SpentToken(a, x)
    ensures SpentToken(b, x)
  {
    assert TokenEvolves(a.tokens[x], b.tokens[x]);
  }

  lemma HoldersOnlyLeave(cfg: Config, s: Sys, ev: Event, x: Id)
    requires Inv(cfg, s) && SpentToken(s.db, x)
    ensures Holders(Apply(cfg, s, ev), x) <= Holders(s, x)
  {
    ApplyHolders(cfg, s, ev, x);
  }

  /** Once `x` is revoked nobody new can come to hold it. */
  lemma {:induction false} RunHolders(cfg: Config, s: Sys, evs: seq<Event>, x: Id)
    requires Inv(cfg, s) && SpentToken(s.db, x)
    ensures Holders(Run(cfg, s, evs), x) <= Holders(s, x)
    decreases |evs|
  {
    if evs != [] {
      var s1 := Apply(cfg, s, evs[0]);
      ApplyKeepsInv(cfg, s, evs[0]);
      ApplyEvolves(cfg, s, evs[0]);
      KeptSpent(s.db, s1.db, x);
      HoldersOnlyLeave(cfg, s, evs[0], x);
      RunHolders(cfg, s1, evs[1..], x);
    }
  }

  /** Before the first revocation every holder is a refresh still under way. */
  lemma HoldersInFlight(cfg: Config, s: Sys, x: Id)
    requires Inv(cfg, s) && !SpentToken(s.db, x)
    ensures Holders(s, x) <= RefreshesInFlight(s)
  {
    forall r | r in Holders(s, x)
      ensures r in RefreshesInFlight(s)
    {
      assert ReqInv(cfg, s.db, s.reqs[r]);
    }
  }

  lemma AfterRevocation(cfg: Config, s: Sys, ev: Event, evs: seq<Event>, x: Id)
    requires Inv(cfg, s) && !SpentToken(s.db, x) && SpentToken(Apply(cfg, s, ev).db, x)
    ensures var s' := Run(cfg, Apply(cfg, s, ev), evs);
            Inv(cfg, s') && Holders(s', x) <= Holders(s, x) <= RefreshesInFlight(s)
  {
    ApplyKeepsInv(cfg, s, ev);
    RunKeepsInv(cfg, Apply(cfg, s, ev), evs);
    ApplyHolders(cfg, s, ev, x);
    RunHolders(cfg, Apply(cfg, s, ev), evs, x);
    HoldersInFlight(cfg, s, x);
  }

  /** The branching bound. However a run goes on after the event that first revokes `x`, the rows that
      ever replace `x` come from refreshes that were under way, holding `x`, at that moment. */
  lemma BranchingBound(cfg: Config, s: Sys, ev: Event, evs: seq<Event>, x: Id)
    requires Reachable(cfg, s) && !SpentToken(s.db, x) && SpentToken(Apply(cfg, s, ev).db, x)
    ensures var s' := Run(cfg, Apply(cfg, s, ev), evs);
            && Makers(s', x) <= Holders(s, x) <= RefreshesInFlight(s)
            && |Successors(s', x)| == |Makers(s', x)| <= |Holders(s, x)| <= |RefreshesInFlight(s)|
  {
    var s' := Run(cfg, Apply(cfg, s, ev), evs);
    assert Holders(s', x) <= Holders(s, x) <= RefreshesInFlight(s) && |Successors(s', x)| == |Makers(s', x)| by {
      ReachableInv(cfg, s);
      AfterRevocation(cfg, s, ev, evs, x);
      SuccessorsCountMakers(s', x);
    }
    MakersHold(s', x);
    SubsetSize(Makers(s', x), Holders(s, x));
    SubsetSize(Holders(s, x), RefreshesInFlight(s));
  }

  // ---------------------------------------------------------------- the bound for K in flight

  /** Revoked tokens are held by at most `k` requests. */
  ghost predicate FewHolders(s: Sys, k: nat) {
    forall x | SpentToken(s.db, x) :: |Holders(s, x)| <= k
  }

  lemma ApplyFewHolders(cfg: Config, s: Sys, ev: Event, k: nat)
    requires Inv(cfg, s) && FewHolders(s, k) && |RefreshesInFlight(s)| <= k
    ensures FewHolders(Apply(cfg, s, ev), k)
  {
    var s' := Apply(cfg, s, ev);
    forall x | SpentToken(s'.db, x)
      ensures |Holders(s', x)| <= k
    {
      ApplyHolders(cfg, s, ev, x);
      SubsetSize(Holders(s', x), Holders(s, x));
      if !SpentToken(s.db, x) {
        HoldersInFlight(cfg, s, x);
        SubsetSize(Holders(s, x), RefreshesInFlight(s));
      }
    }
  }

  lemma {:induction false} RunFewHolders(cfg: Config, s: Sys, evs: seq<Event>, k: nat)
    requires Inv(cfg, s) && FewHolders(s, k) && Within(cfg, s, evs, k, RefreshesInFlight)
    ensures FewHolders(Run(cfg, s, evs), k)
    decreases |evs|
  {
    if evs != [] {
      ApplyKeepsInv(cfg, s, evs[0]);
      ApplyFewHolders(cfg, s, evs[0], k);
      RunFewHolders(cfg, Apply(cfg, s, evs[0]), evs[1..], k);
    }
  }

  /** With at most `k` refreshes in flight no token is ever replaced more than `k` times; with one at
      a time every rotation history is a path. */
  lemma AtMostKSuccessors(cfg: Config, clock: Time, evs: seq<Event>, k: nat, x: Id)
    requires Within(cfg, Init(clock), evs, k, RefreshesInFlight)
    ensures |Successors(Run(cfg, Init(clock), evs), x)| <= k
  {
    var s := Run(cfg, Init(clock), evs);
    InitInv(cfg, clock);
    RunKeepsInv(cfg, Init(clock), evs);
    RunFewHolders(cfg, Init(clock), evs, k);
    if Successors(s, x) != {} {
      var t :| t in Successors(s, x);
      assert AncestorsSpent(s, t);
      SuccessorsCountMakers(s, x);
      MakersHold(s, x);
    }
  }
}
