/** How many pairs one verification code really buys: after its first consumption, as many as there are
    right guesses under way; and for every number of verifications in flight that number is reached. */
module SingleUse {
  import opened Domain
  import opened Tables
  import opened Protocol
  import opened System
  import opened Serial
  import opened Schedules
  import opened Issuing
  import opened Invariants
  import opened Reachability
  import opened CodeBudget
  import opened Lifecycles
  import opened GuessesExact
  import opened Sets
  import R = RotationExact
  import T = RoundTrips
  import B = CodeBudgetExact

  // ---------------------------------------------------------------- stored addresses fit their column

  ghost predicate CodesFit(db: Db) {
    forall c | c in db.codes :: |db.codes[c].email| <= 255
  }

  lemma StepKeepsFit(cfg: Config, db: Db, q: Req, t: Tick)
    requires CodesFit(db)
    ensures CodesFit(Step(cfg, db, q, t).db)
  {
  }

  lemma {:induction false} RunKeepsFit(cfg: Config, s: Sys, evs: seq<Event>)
    requires CodesFit(s.db)
    ensures CodesFit(Run(cfg, s, evs).db)
    decreases |evs|
  {
    if evs != [] {
      if evs[0].Advance? && evs[0].r in s.reqs {
        StepKeepsFit(cfg, s.db, s.reqs[evs[0].r], evs[0].tick.(now := Max(s.clock, evs[0].tick.now)));
      }
      RunKeepsFit(cfg, Apply(cfg, s, evs[0]), evs[1..]);
    }
  }

  lemma ReachableFits(cfg: Config, s: Sys)
    requires Reachable(cfg, s)
    ensures CodesFit(s.db)
  {
    var clock, evs :| s == Run(cfg, Init(clock), evs);
    RunKeepsFit(cfg, Init(clock), evs);
  }

  // ---------------------------------------------------------------- what one verification adds

  /** A row issued with the identifier, the value and the clock of this tick. */
  ghost predicate IssuedAt(cfg: Config, row: RefreshToken, t: Tick) {
    && row.tokenHash == cfg.digest(t.value) && row.revokedAt.None?
    && row.expiresAt == t.now + cfg.refreshTtl
  }

  /** No token row changes, and what is new carries the identifier of this tick. */
  ghost predicate Adds(cfg: Config, a: Db, b: Db, t: Tick) {
    && (forall i | i in b.tokens ::
          (i in a.tokens && b.tokens[i] == a.tokens[i]) || (i == t.id && IssuedAt(cfg, b.tokens[i], t)))
    && b.users.Keys <= a.users.Keys + {t.id}
  }

  /** A verification of code `c` whose pending rows, if any, are of this tick. */
  ghost predicate Redeems(cfg: Config, pc: Pc, c: Id, t: Tick) {
    match pc
    case Inspect(record, _, _) => record.id == c
    case CountMiss(record) => true
    case Redeem(record, _) => record.id == c
    case FindAccount(grant, _, _) => grant.ByCode? && grant.record.id == c
    case CreateAccount(grant, user) => grant.ByCode? && grant.record.id == c && user.id == t.id
    case Mint(grant, _) => grant.ByCode? && grant.record.id == c
    case Persist(grant, user, row, _) => grant.ByCode? && grant.record.id == c && row == NewRow(cfg, user, t)
    case Issued(grant, user, row, _) => grant.ByCode? && grant.record.id == c && row == NewRow(cfg, user, t)
    case Failed(_) => true
    case _ => false
  }

  lemma StepRedeems(cfg: Config, db: Db, q: Req, t: Tick, c: Id)
    requires Redeems(cfg, q.pc, c, t)
    ensures var m := Step(cfg, db, q, t); Redeems(cfg, m.req.pc, c, t) && Adds(cfg, db, m.db, t)
  {
  }

  lemma {:induction false} RunRedeems(cfg: Config, db: Db, q: Req, t: Tick, k: nat, c: Id)
    requires Redeems(cfg, q.pc, c, t)
    ensures var m := RunAlone(cfg, db, q, Always(t), k); Redeems(cfg, m.req.pc, c, t) && Adds(cfg, db, m.db, t)
    decreases Rank(q.pc)
  {
    if !q.Terminal() {
      StepUsesRank(cfg, db, q, t);
      StepRedeems(cfg, db, q, t, c);
      var m := Step(cfg, db, q, t);
      RunRedeems(cfg, m.db, m.req, t, k + 1, c);
    }
  }

  // ---------------------------------------------------------------- one right guess runs to its pair

  /** Nothing fails, and identifiers and token value are new. */
  ghost predicate Supplied(cfg: Config, db: Db, t: Tick) {
    Fresh(cfg, db, t) && t.id !in db.users
  }

  /** A right guess that is ready, or has just been redeemed. */
  ghost predicate Entitled(cfg: Config, q: Req, c: Id, clock: Time) {
    || Ready(cfg, q, c, clock, true)
    || (q.pc.FindAccount? && q.pc.grant.ByCode? && q.pc.grant.record.id == c && q.pc.name == q.pc.email)
  }

  /** The step of its program an entitled request is at. */
  function At(pc: Pc): nat {
    if pc.Inspect? then 1 else if pc.Redeem? then 2 else 3
  }

  ghost predicate AddressFits(pc: Pc) {
    pc.Inspect? || pc.Redeem? || pc.FindAccount? ==> |pc.email| <= 255
  }

  lemma EntitledFits(cfg: Config, db: Db, q: Req, c: Id, clock: Time)
    requires CodesFit(db) && ReqInv(cfg, db, q) && Entitled(cfg, q, c, clock)
    ensures AddressFits(q.pc) && (q.pc.Redeem? || q.pc.Inspect? ==> q.pc.record.id in db.codes)
  {
    if q.pc.FindAccount? {
      assert CodeGrantOk(cfg, db, q, q.pc.grant.record);
    }
  }

  lemma InspectAlone(cfg: Config, db: Db, q: Req, t: Tick, c: Id)
    requires Constraints(db) && AddressFits(q.pc) && c in db.codes && Supplied(cfg, db, t)
    requires Eligible(q, c, t.now) && cfg.digest(q.pc.code) == q.pc.record.codeHash
    ensures Respond(RunAlone(cfg, db, q, Always(t), 1).req.pc).Granted?
  {
    Unroll(cfg, db, q, Always(t), 1);
    T.RedeemAlone(cfg, db, q.(pc := Redeem(q.pc.record, q.pc.email), guess := Pending(c)), Always(t));
  }

  lemma EntitledAlone(cfg: Config, db: Db, q: Req, t: Tick, c: Id)
    requires Constraints(db) && CodesFit(db) && ReqInv(cfg, db, q)
    requires Entitled(cfg, q, c, t.now) && Supplied(cfg, db, t)
    ensures Respond(RunAlone(cfg, db, q, Always(t), At(q.pc)).req.pc).Granted?
  {
    EntitledFits(cfg, db, q, c, t.now);
    if q.pc.Inspect? {
      InspectAlone(cfg, db, q, t, c);
    } else if q.pc.Redeem? {
      T.RedeemAlone(cfg, db, q, Always(t));
    } else {
      T.FindAlone(cfg, db, q, Always(t), 3);
    }
  }

  ghost predicate Bought(q: Req, c: Id) {
    q.pc.Issued? && q.pc.grant.ByCode? && q.pc.grant.record.id == c
  }

  lemma GrantOne(cfg: Config, s: Sys, r: ReqId, c: Id, t: Tick)
    requires DbInv(s.db) && RequestsOk(cfg, s) && CodesFit(s.db)
    requires r in s.reqs && Entitled(cfg, s.reqs[r], c, s.clock) && t.now == s.clock && Supplied(cfg, s.db, t)
    ensures var s' := Run(cfg, s, Turns(r, Always(t), At(s.reqs[r].pc), 7));
            && s'.clock == s.clock && Adds(cfg, s.db, s'.db, t)
            && r in s'.reqs && s'.reqs == s.reqs[r := s'.reqs[r]] && Bought(s'.reqs[r], c)
  {
    var q, k := s.reqs[r], At(s.reqs[r].pc);
    EntitledAlone(cfg, s.db, q, t, c);
    RunRedeems(cfg, s.db, q, t, k, c);
    TurnsAtOnce(cfg, s, r, t, k);
  }

  // ---------------------------------------------------------------- all of them, one after the other

  ghost predicate SuppliedAll(cfg: Config, db: Db, clock: Time, ts: seq<Tick>) {
    R.FreshAll(cfg, db, clock, ts) && forall i | 0 <= i < |ts| :: ts[i].id !in db.users
  }

  lemma StillSupplied(cfg: Config, a: Db, b: Db, clock: Time, ts: seq<Tick>)
    requires ts != [] && SuppliedAll(cfg, a, clock, ts) && Adds(cfg, a, b, ts[0])
    ensures SuppliedAll(cfg, b, clock, ts[1..])
  {
    forall i | 0 <= i < |ts[1..]|
      ensures Fresh(cfg, b, ts[1..][i]) && ts[1..][i].id !in b.users
    {
      assert ts[1..][i] == ts[i + 1];
    }
  }

  lemma {:induction false} RunKeepsBought(cfg: Config, s: Sys, evs: seq<Event>, r: ReqId, c: Id)
    requires r in s.reqs && Bought(s.reqs[r], c)
    ensures var s' := Run(cfg, s, evs); r in s'.reqs && Bought(s'.reqs[r], c)
    decreases |evs|
  {
    if evs != [] {
      RunKeepsBought(cfg, Apply(cfg, s, evs[0]), evs[1..], r, c);
    }
  }

  ghost predicate Sound(cfg: Config, s: Sys) {
    DbInv(s.db) && RequestsOk(cfg, s) && CodesFit(s.db)
  }

  lemma GrantFirst(cfg: Config, s: Sys, r: ReqId, c: Id, rs: set<ReqId>, ts: seq<Tick>) returns (s1: Sys)
    requires Sound(cfg, s) && ts != [] && SuppliedAll(cfg, s.db, s.clock, ts)
    requires r in rs && forall i | i in rs :: i in s.reqs && Entitled(cfg, s.reqs[i], c, s.clock)
    ensures s1 == Run(cfg, s, Turns(r, Always(ts[0]), At(s.reqs[r].pc), 7))
    ensures Sound(cfg, s1) && SuppliedAll(cfg, s1.db, s1.clock, ts[1..])
    ensures r in s1.reqs && Bought(s1.reqs[r], c)
    ensures forall i | i in rs - {r} :: i in s1.reqs && Entitled(cfg, s1.reqs[i], c, s1.clock)
  {
    var turns := Turns(r, Always(ts[0]), At(s.reqs[r].pc), 7);
    s1 := Run(cfg, s, turns);
    GrantOne(cfg, s, r, c, ts[0]);
    RunKeepsRequests(cfg, s, turns);
    RunKeepsFit(cfg, s, turns);
    StillSupplied(cfg, s.db, s1.db, s.clock, ts);
  }

  /** Any set of entitled requests can all be answered with a pair, with no other verification. */
  lemma {:induction false} GrantAll(cfg: Config, s: Sys, c: Id, rs: set<ReqId>, ts: seq<Tick>) returns (evs: seq<Event>)
    requires Sound(cfg, s) && |ts| == |rs| && SuppliedAll(cfg, s.db, s.clock, ts)
    requires forall r | r in rs :: r in s.reqs && Entitled(cfg, s.reqs[r], c, s.clock)
    ensures rs <= PairsFor(Run(cfg, s, evs), c)
    ensures Within(cfg, s, evs, |VerifiesInFlight(s)|, VerifiesInFlight)
    decreases |rs|
  {
    if rs == {} {
      evs := [];
    } else {
      var r :| r in rs;
      var s1 := GrantFirst(cfg, s, r, c, rs, ts);
      var others := GrantAll(cfg, s1, c, rs - {r}, ts[1..]);
      RunKeepsBought(cfg, s1, others, r, c);
      evs := Turns(r, Always(ts[0]), At(s.reqs[r].pc), 7) + others;
      VerifiesEbb(cfg);
      TurnsThen(cfg, s, r, Always(ts[0]), At(s.reqs[r].pc), others, VerifiesInFlight);
    }
  }

  // ---------------------------------------------------------------- the exact number

  lemma StepConsumes(cfg: Config, db: Db, q: Req, t: Tick, c: Id)
    requires !SpentCode(db, c) && SpentCode(Step(cfg, db, q, t).db, c)
    requires q.pc.StoreCode? ==> q.pc.record.consumedAt.None?
    ensures var pc := Step(cfg, db, q, t).req.pc;
            pc.FindAccount? && pc.grant.ByCode? && pc.grant.record.id == c && pc.name == pc.email
  {
  }

  /** Right after the first consumption everybody who may still redeem the code may still be paid. */
  lemma ClaimantsEntitled(cfg: Config, s: Sys, ev: Event, c: Id, r: ReqId)
    requires Reachable(cfg, s) && !SpentCode(s.db, c) && SpentCode(Apply(cfg, s, ev).db, c)
    requires r in Claimants(cfg, Apply(cfg, s, ev), c, true)
    ensures var s1 := Apply(cfg, s, ev); r in s1.reqs && Entitled(cfg, s1.reqs[r], c, s1.clock)
  {
    FirstConsumption(cfg, s, ev, c);
    if r == ev.r {
      ReachableInv(cfg, s);
      assert ReqInv(cfg, s.db, s.reqs[ev.r]);
      StepConsumes(cfg, s.db, s.reqs[ev.r], ev.tick.(now := Max(s.clock, ev.tick.now)), c);
    }
  }

  lemma EveryClaimantPaid(cfg: Config, s: Sys, ev: Event, c: Id, ts: seq<Tick>) returns (evs: seq<Event>)
    requires Reachable(cfg, s) && !SpentCode(s.db, c) && SpentCode(Apply(cfg, s, ev).db, c)
    requires var s1 := Apply(cfg, s, ev);
             |ts| == |Claimants(cfg, s1, c, true)| && SuppliedAll(cfg, s1.db, s1.clock, ts)
    ensures var s1 := Apply(cfg, s, ev); |PairsFor(Run(cfg, s1, evs), c)| >= |Claimants(cfg, s1, c, true)|
  {
    var s1 := Apply(cfg, s, ev);
    var rs := Claimants(cfg, s1, c, true);
    assert Sound(cfg, s1) by {
      ReachableStep(cfg, s, ev);
      ReachableInv(cfg, s1);
      ReachableFits(cfg, s1);
    }
    forall r | r in rs
      ensures r in s1.reqs && Entitled(cfg, s1.reqs[r], c, s1.clock)
    {
      ClaimantsEntitled(cfg, s, ev, c, r);
    }
    evs := GrantAll(cfg, s1, c, rs, ts);
    SubsetSize(rs, PairsFor(Run(cfg, s1, evs), c));
  }

  lemma PairsWithinClaimants(cfg: Config, s: Sys, evs: seq<Event>, c: Id)
    requires Reachable(cfg, s) && Closed(s, c)
    ensures |PairsFor(Run(cfg, s, evs), c)| <= |Claimants(cfg, s, c, true)|
  {
    var s' := Run(cfg, s, evs);
    SettledWithinClaimants(cfg, s, evs, c, true);
    assert PairsFor(s', c) <= Redemptions(s', c) by {
      ReachableExtends(cfg, s, evs);
      ReachableInv(cfg, s');
      PairsNeedRedemption(cfg, s', c);
    }
    SubsetSize(PairsFor(s', c), Redemptions(s', c));
  }

  /** What a code buys: after the event that first consumes it, `n` requests can be answered with a
      pair for it if and only if `n` have redeemed it, are about to, or hold a snapshot that passes the
      check together with the right code, as long as new identifiers and hashes can be drawn. */
  lemma PairsReachableIff(cfg: Config, s: Sys, ev: Event, c: Id, ts: seq<Tick>, n: nat)
    requires Reachable(cfg, s) && !SpentCode(s.db, c) && SpentCode(Apply(cfg, s, ev).db, c)
    requires var s1 := Apply(cfg, s, ev);
             |ts| == |Claimants(cfg, s1, c, true)| && SuppliedAll(cfg, s1.db, s1.clock, ts)
    ensures var s1 := Apply(cfg, s, ev);
            (exists evs :: |PairsFor(Run(cfg, s1, evs), c)| >= n) <==> n <= |Claimants(cfg, s1, c, true)|
  {
    var s1 := Apply(cfg, s, ev);
    FirstConsumption(cfg, s, ev, c);
    forall evs
      ensures |PairsFor(Run(cfg, s1, evs), c)| <= |Claimants(cfg, s1, c, true)|
    {
      PairsWithinClaimants(cfg, s1, evs, c);
    }
    var evs := EveryClaimantPaid(cfg, s, ev, c, ts);
    assert |PairsFor(Run(cfg, s1, evs), c)| >= |Claimants(cfg, s1, c, true)|;
  }

  // ---------------------------------------------------------------- a run that gets there

  /** Everybody guesses the code that was sent, and new identifiers and hashes can be drawn. */
  ghost predicate Drawable(cfg: Config, g: B.Setting, ts: seq<Tick>) {
    B.Possible(cfg, g) && g.before == map[] && g.guess == g.code && SuppliedAll(cfg, EMPTY, 0, ts)
  }

  lemma HeldAreEntitled(cfg: Config, g: B.Setting, s: Sys, next: nat, held: set<ReqId>, r: ReqId)
    requires B.Stage(cfg, g, s, 0, next, held) && g.guess == g.code && r in held
    ensures r in s.reqs && Entitled(cfg, s.reqs[r], g.id, s.clock)
  {
  }

  lemma AllRead(cfg: Config, g: B.Setting, k: nat)
    returns (evs: seq<Event>, s: Sys, next: nat, held: set<ReqId>)
    requires B.Possible(cfg, g) && g.before == map[]
    ensures s == Run(cfg, Init(0), evs) && B.Stage(cfg, g, s, 0, next, held) && |held| == k
    ensures Within(cfg, Init(0), evs, k, VerifiesInFlight)
  {
    assert B.Idle(g, Init(0), 0);
    var send, s1 := B.Send(cfg, g, Init(0), 0, k);
    var enter: seq<Event>;
    enter, s, next, held := B.EnterAll(cfg, g, s1, 0, 1, {}, k);
    evs := send + enter;
    Join(cfg, Init(0), send, enter, k, VerifiesInFlight);
  }

  lemma AllPaid(cfg: Config, g: B.Setting, s: Sys, next: nat, held: set<ReqId>, ts: seq<Tick>) returns (evs: seq<Event>)
    requires Drawable(cfg, g, ts) && Reachable(cfg, s) && B.Stage(cfg, g, s, 0, next, held) && |held| == |ts|
    ensures held <= PairsFor(Run(cfg, s, evs), g.id)
    ensures Within(cfg, s, evs, |ts|, VerifiesInFlight)
  {
    ReachableInv(cfg, s);
    ReachableFits(cfg, s);
    forall r | r in held
      ensures r in s.reqs && Entitled(cfg, s.reqs[r], g.id, s.clock)
    {
      HeldAreEntitled(cfg, g, s, next, held, r);
    }
    assert SuppliedAll(cfg, s.db, s.clock, ts);
    evs := GrantAll(cfg, s, g.id, held, ts);
  }

  /** For every k there is a run with k verifications in flight that pays k requests for one code: all
      read it before any of them consumes it. */
  lemma PairBoundIsTight(cfg: Config, g: B.Setting, ts: seq<Tick>)
    requires Drawable(cfg, g, ts)
    ensures exists evs ::
              Within(cfg, Init(0), evs, |ts|, VerifiesInFlight) && |PairsFor(Run(cfg, Init(0), evs), g.id)| == |ts|
  {
    var k := |ts|;
    var read, s, next, held := AllRead(cfg, g, k);
    assert Reachable(cfg, s);
    var paid := AllPaid(cfg, g, s, next, held, ts);
    Join(cfg, Init(0), read, paid, k, VerifiesInFlight);
    SubsetSize(held, PairsFor(Run(cfg, Init(0), read + paid), g.id));
    AtMostKRedemptions(cfg, 0, read + paid, k, g.id);
  }

  /** No run with at most `k` verifications in flight pays twice for one code. */
  ghost predicate PaidOnce(cfg: Config, k: nat) {
    forall clock, evs, c ::
      Within(cfg, Init(clock), evs, k, VerifiesInFlight) ==> |PairsFor(Run(cfg, Init(clock), evs), c)| <= 1
  }

  /** Codes can be relied on to be single-use exactly when verifications do not overlap. */
  lemma PaidOnceIff(cfg: Config, g: B.Setting, ts: seq<Tick>)
    requires Drawable(cfg, g, ts)
    ensures PaidOnce(cfg, |ts|) <==> |ts| <= 1
  {
    if |ts| <= 1 {
      forall clock, evs, c | Within(cfg, Init(clock), evs, |ts|, VerifiesInFlight)
        ensures |PairsFor(Run(cfg, Init(clock), evs), c)| <= 1
      {
        AtMostKRedemptions(cfg, clock, evs, |ts|, c);
      }
    } else {
      PairBoundIsTight(cfg, g, ts);
    }
  }
}
