/** One-way lifecycles under every interleaving: a dead token or code stays dead for everybody who
    reads it later, a code is redeemed by few, and a newer code freezes the older ones. */
module Lifecycles {
  import opened Domain
  import opened Emails
  import opened Tables
  import opened Protocol
  import opened System
  import opened Invariants
  import opened Reachability
  import opened Rotation
  import opened CodeBudget
  import opened Sets

  // ---------------------------------------------------------------- refresh tokens

  /** Revoked, or past its expiry. */
  ghost predicate DeadToken(s: Sys, x: Id) {
    x in s.db.tokens && !s.db.tokens[x].IsValid(s.clock)
  }

  /** Holds `x` and, if it has not passed the validity check yet, would still pass it. */
  ghost predicate HoldsLive(q: Req, x: Id, clock: Time) {
    Holds(q, x) && (q.pc.Validate? ==> clock < q.pc.stored.expiresAt)
  }

  ghost function LiveHolders(s: Sys, x: Id): set<ReqId> {
    set r | r in s.reqs && HoldsLive(s.reqs[r], x, s.clock)
  }

  lemma StepHoldsLive(cfg: Config, db: Db, q: Req, t: Tick, x: Id)
    requires !q.pc.Begin? && HoldsLive(Step(cfg, db, q, t).req, x, t.now)
    ensures Holds(q, x) && (q.pc.Validate? ==> t.now < q.pc.stored.expiresAt)
  {
  }

  lemma OpenHoldsLive(cfg: Config, db: Db, q: Req, t: Tick, x: Id)
    requires q.pc.Begin? && Constraints(db) && HoldsLive(Step(cfg, db, q, t).req, x, t.now)
    ensures x in db.tokens && db.tokens[x].IsValid(t.now)
  {
    if !q.input.Refresh? {
      OpenOtherHoldsNothing(cfg, db, q, t, x);
      assert false;
    }
    FoundByHash(db, cfg.digest(q.input.token));
  }

  lemma ApplyLiveHolders(cfg: Config, s: Sys, ev: Event, x: Id)
    requires Constraints(s.db) && DeadToken(s, x)
    ensures LiveHolders(Apply(cfg, s, ev), x) <= LiveHolders(s, x)
  {
    if ev.Advance? && ev.r in s.reqs && !s.reqs[ev.r].Terminal() {
      var q, t := s.reqs[ev.r], ev.tick.(now := Max(s.clock, ev.tick.now));
      if HoldsLive(Step(cfg, s.db, q, t).req, x, t.now) {
        if q.pc.Begin? {
          OpenHoldsLive(cfg, s.db, q, t, x);
        } else {
          StepHoldsLive(cfg, s.db, q, t, x);
        }
      }
    }
  }

  lemma DeadTokenStaysDead(a: Sys, b: Sys, x: Id)
    requires DeadToken(a, x) && Evolves(a.db, b.db) && a.clock <= b.clock
    ensures DeadToken(b, x)
  {
    assert TokenEvolves(a.db.tokens[x], b.db.tokens[x]);
  }

  lemma {:induction false} RunLiveHolders(cfg: Config, s: Sys, evs: seq<Event>, x: Id)
    requires DbInv(s.db) && RequestsOk(cfg, s) && DeadToken(s, x)
    ensures LiveHolders(Run(cfg, s, evs), x) <= LiveHolders(s, x)
    decreases |evs|
  {
    if evs != [] {
      var s1 := Apply(cfg, s, evs[0]);
      ApplyLiveHolders(cfg, s, evs[0], x);
      ApplyKeepsRequests(cfg, s, evs[0]);
      ApplyEvolves(cfg, s, evs[0]);
      DeadTokenStaysDead(s, s1, x);
      RunLiveHolders(cfg, s1, evs[1..], x);
    }
  }

  /** A revoked or expired token stays so for ever, and is rotated afterwards only by refreshes that
      had read it, and would still pass the check, when it died. */
  lemma DeadTokenIsRefused(cfg: Config, s: Sys, evs: seq<Event>, x: Id)
    requires Reachable(cfg, s) && DeadToken(s, x)
    ensures var s' := Run(cfg, s, evs);
            DeadToken(s', x) && Makers(s', x) <= LiveHolders(s, x)
  {
    var s' := Run(cfg, s, evs);
    assert LiveHolders(s', x) <= LiveHolders(s, x) by {
      ReachableInv(cfg, s);
      RunLiveHolders(cfg, s, evs, x);
    }
    RunEvolves(cfg, s, evs);
    DeadTokenStaysDead(s, s', x);
    assert Makers(s', x) <= LiveHolders(s', x);
  }

  // ---------------------------------------------------------------- codes

  /** Consumed, used up, or past its expiry. */
  ghost predicate DeadCode(s: Sys, c: Id) {
    c in s.db.codes && (!Usable(s.db.codes[c]) || s.clock > s.db.codes[c].expiresAt)
  }

  /** Holds a snapshot of `c` that would still pass the check. */
  ghost predicate Eligible(q: Req, c: Id, clock: Time) {
    q.pc.Inspect? && q.pc.record.id == c && Usable(q.pc.record) && clock <= q.pc.record.expiresAt
  }

  ghost function Tries(s: Sys, c: Id): set<ReqId> {
    set r | r in s.reqs && (Compared(s.reqs[r], c) || Eligible(s.reqs[r], c, s.clock))
  }

  lemma StepTries(cfg: Config, db: Db, q: Req, t: Tick, c: Id)
    requires !q.pc.Begin?
    requires q.pc.CountMiss? || q.pc.Redeem? ==> q.guess == Pending(q.pc.record.id)
    requires var q' := Step(cfg, db, q, t).req; Compared(q', c) || Eligible(q', c, t.now)
    ensures Compared(q, c) || Eligible(q, c, t.now)
  {
  }

  lemma OpenTries(cfg: Config, db: Db, q: Req, t: Tick, c: Id)
    requires q == NewRequest(q.input)
    requires var q' := Step(cfg, db, q, t).req; Compared(q', c) || Eligible(q', c, t.now)
    requires q.input.VerifyCode? ==>
               AnswersLatest(db, NormalizeEmail(q.input.email),
                             FindLatestByEmail(db, NormalizeEmail(q.input.email), t.pick, t.ok))
    ensures c in db.codes && Usable(db.codes[c]) && t.now <= db.codes[c].expiresAt
    ensures q.input.VerifyCode? && IsLatest(db, NormalizeEmail(q.input.email), c)
  {
  }

  lemma ApplyTries(cfg: Config, s: Sys, ev: Event, c: Id)
    requires DbInv(s.db) && RequestsOk(cfg, s)
    ensures var s' := Apply(cfg, s, ev);
            Tries(s', c) <= Tries(s, c) + (if DeadCode(s, c) || Superseded(s, c) then {} else {ev.r})
  {
    if ev.Advance? && ev.r in s.reqs && !s.reqs[ev.r].Terminal() {
      var q, t := s.reqs[ev.r], ev.tick.(now := Max(s.clock, ev.tick.now));
      var q' := Step(cfg, s.db, q, t).req;
      if Compared(q', c) || Eligible(q', c, t.now) {
        GuessInProgress(cfg, s.db, q);
        if q.pc.Begin? {
          assert ReqInv(cfg, s.db, q);
          if q.input.VerifyCode? { FoundLatest(s.db, NormalizeEmail(q.input.email), t.pick, t.ok); }
          OpenTries(cfg, s.db, q, t, c);
        } else {
          StepTries(cfg, s.db, q, t, c);
        }
      }
    }
  }

  lemma DeadCodeStaysDead(a: Sys, b: Sys, c: Id)
    requires DeadCode(a, c) && Evolves(a.db, b.db) && a.clock <= b.clock
    ensures DeadCode(b, c)
  {
    assert CodeEvolves(a.db.codes[c], b.db.codes[c]);
  }

  lemma SupersededStays(a: Sys, b: Sys, c: Id)
    requires Superseded(a, c) && Evolves(a.db, b.db)
    ensures Superseded(b, c)
  {
    var d :| d in a.db.codes && Newer(a.db.codes[d], a.db.codes[c]);
    assert CodeEvolves(a.db.codes[d], b.db.codes[d]) && CodeEvolves(a.db.codes[c], b.db.codes[c]);
    assert Newer(b.db.codes[d], b.db.codes[c]);
  }

  lemma {:induction false} RunTries(cfg: Config, s: Sys, evs: seq<Event>, c: Id)
    requires DbInv(s.db) && RequestsOk(cfg, s) && (DeadCode(s, c) || Superseded(s, c))
    ensures Tries(Run(cfg, s, evs), c) <= Tries(s, c)
    decreases |evs|
  {
    if evs != [] {
      var s1 := Apply(cfg, s, evs[0]);
      ApplyTries(cfg, s, evs[0], c);
      ApplyKeepsRequests(cfg, s, evs[0]);
      ApplyEvolves(cfg, s, evs[0]);
      if DeadCode(s, c) { DeadCodeStaysDead(s, s1, c); } else { SupersededStays(s, s1, c); }
      RunTries(cfg, s1, evs[1..], c);
    }
  }

  /** A consumed, used-up or expired code stays so for ever, and is compared and redeemed afterwards
      only by verifications that had read it, and would still pass the check, when it died. */
  lemma DeadCodeIsRefused(cfg: Config, s: Sys, evs: seq<Event>, c: Id)
    requires Reachable(cfg, s) && DeadCode(s, c)
    ensures var s' := Run(cfg, s, evs);
            DeadCode(s', c) && Redemptions(s', c) <= Comparisons(s', c) <= Tries(s, c)
  {
    var s' := Run(cfg, s, evs);
    assert Tries(s', c) <= Tries(s, c) by {
      ReachableInv(cfg, s);
      RunTries(cfg, s, evs, c);
    }
    RunEvolves(cfg, s, evs);
    DeadCodeStaysDead(s, s', c);
  }

  // ---------------------------------------------------------------- single use

  /** Read `c` unconsumed and has not given up on it. */
  ghost predicate HoldsCode(q: Req, c: Id) {
    || (q.pc.Inspect? && q.pc.record.id == c && q.pc.record.consumedAt.None?)
    || q.guess == Pending(c) || q.guess == Redeemed(c)
  }

  ghost function CodeHolders(s: Sys, c: Id): set<ReqId> {
    set r | r in s.reqs && HoldsCode(s.reqs[r], c)
  }

  lemma StepHoldsCode(cfg: Config, db: Db, q: Req, t: Tick, c: Id)
    requires !q.pc.Begin? && HoldsCode(Step(cfg, db, q, t).req, c)
    requires q.pc.CountMiss? || q.pc.Redeem? ==> q.guess == Pending(q.pc.record.id)
    ensures HoldsCode(q, c)
  {
  }

  lemma OpenHoldsCode(cfg: Config, db: Db, q: Req, t: Tick, c: Id)
    requires q == NewRequest(q.input) && HoldsCode(Step(cfg, db, q, t).req, c)
    requires q.input.VerifyCode? ==>
               AnswersLatest(db, NormalizeEmail(q.input.email),
                             FindLatestByEmail(db, NormalizeEmail(q.input.email), t.pick, t.ok))
    ensures Step(cfg, db, q, t).db == db && c in db.codes && db.codes[c].consumedAt.None?
  {
  }

  lemma ApplyCodeHolders(cfg: Config, s: Sys, ev: Event, c: Id)
    requires DbInv(s.db) && RequestsOk(cfg, s) && SpentCode(Apply(cfg, s, ev).db, c)
    ensures CodeHolders(Apply(cfg, s, ev), c) <= CodeHolders(s, c)
  {
    if ev.Advance? && ev.r in s.reqs && !s.reqs[ev.r].Terminal() {
      var q, t := s.reqs[ev.r], ev.tick.(now := Max(s.clock, ev.tick.now));
      if HoldsCode(Step(cfg, s.db, q, t).req, c) {
        GuessInProgress(cfg, s.db, q);
        if q.pc.Begin? {
          assert ReqInv(cfg, s.db, q);
          if q.input.VerifyCode? { FoundLatest(s.db, NormalizeEmail(q.input.email), t.pick, t.ok); }
          OpenHoldsCode(cfg, s.db, q, t, c);
        } else {
          StepHoldsCode(cfg, s.db, q, t, c);
        }
      }
    }
  }

  lemma {:induction false} RunCodeHolders(cfg: Config, s: Sys, evs: seq<Event>, c: Id)
    requires DbInv(s.db) && RequestsOk(cfg, s) && SpentCode(s.db, c)
    ensures CodeHolders(Run(cfg, s, evs), c) <= CodeHolders(s, c)
    decreases |evs|
  {
    if evs != [] {
      var s1 := Apply(cfg, s, evs[0]);
      ApplyKeepsRequests(cfg, s, evs[0]);
      ApplyEvolves(cfg, s, evs[0]);
      assert CodeEvolves(s.db.codes[c], s1.db.codes[c]);
      ApplyCodeHolders(cfg, s, evs[0], c);
      RunCodeHolders(cfg, s1, evs[1..], c);
    }
  }

  /** Requests answered with a pair in exchange for code `c`. */
  ghost function PairsFor(s: Sys, c: Id): set<ReqId> {
    set r | r in s.reqs && s.reqs[r].pc.Issued? && s.reqs[r].pc.grant.ByCode? && s.reqs[r].pc.grant.record.id == c
  }

  lemma PairsNeedRedemption(cfg: Config, s: Sys, c: Id)
    requires RequestsOk(cfg, s)
    ensures PairsFor(s, c) <= Redemptions(s, c)
  {
    forall r | r in PairsFor(s, c)
      ensures r in Redemptions(s, c)
    {
      assert ReqInv(cfg, s.db, s.reqs[r]);
    }
  }

  /** Until the first consumption, every holder is a verification under way. */
  lemma CodeHoldersInFlight(cfg: Config, s: Sys, c: Id)
    requires RequestsOk(cfg, s) && GuessesKnown(s) && (c in s.db.codes ==> Tallied(s, c)) && !SpentCode(s.db, c)
    ensures CodeHolders(s, c) <= VerifiesInFlight(s)
  {
    forall r | r in CodeHolders(s, c)
      ensures r in VerifiesInFlight(s)
    {
      GuessInProgress(cfg, s.db, s.reqs[r]);
      if s.reqs[r].guess == Redeemed(c) {
        assert Compared(s.reqs[r], c) && r in Redemptions(s, c);
      }
    }
  }

  /** However a run goes on after the event that first consumes `c`, every redemption of it, and every
      pair issued for it, belongs to a verification that was under way, holding `c`, at that moment. */
  lemma RedemptionBound(cfg: Config, s: Sys, ev: Event, evs: seq<Event>, c: Id)
    requires Reachable(cfg, s) && !SpentCode(s.db, c) && SpentCode(Apply(cfg, s, ev).db, c)
    ensures var s' := Run(cfg, Apply(cfg, s, ev), evs);
            && PairsFor(s', c) <= Redemptions(s', c) <= CodeHolders(s, c) <= VerifiesInFlight(s)
            && |PairsFor(s', c)| <= |Redemptions(s', c)| <= |CodeHolders(s, c)| <= |VerifiesInFlight(s)|
  {
    var s1 := Apply(cfg, s, ev);
    var s' := Run(cfg, s1, evs);
    assert PairsFor(s', c) <= Redemptions(s', c) && CodeHolders(s', c) <= CodeHolders(s, c) <= VerifiesInFlight(s) by {
      ReachableInv(cfg, s);
      ReachableTally(cfg, s);
      CodeHoldersInFlight(cfg, s, c);
      ApplyCodeHolders(cfg, s, ev, c);
      ApplyKeepsInv(cfg, s, ev);
      RunCodeHolders(cfg, s1, evs, c);
      RunKeepsInv(cfg, s1, evs);
      PairsNeedRedemption(cfg, s', c);
    }
    assert Redemptions(s', c) <= CodeHolders(s', c);
    SubsetSize(PairsFor(s', c), Redemptions(s', c));
    SubsetSize(Redemptions(s', c), CodeHolders(s, c));
    SubsetSize(CodeHolders(s, c), VerifiesInFlight(s));
  }

  /** Consumed codes are held by at most `k` verifications. */
  ghost predicate FewCodeHolders(s: Sys, k: nat) {
    forall c | SpentCode(s.db, c) :: |CodeHolders(s, c)| <= k
  }

  lemma ApplyFewCodeHolders(cfg: Config, s: Sys, ev: Event, k: nat)
    requires DbInv(s.db) && RequestsOk(cfg, s) && TallyInv(s) && FewCodeHolders(s, k) && |VerifiesInFlight(s)| <= k
    ensures FewCodeHolders(Apply(cfg, s, ev), k)
  {
    var s' := Apply(cfg, s, ev);
    forall c | SpentCode(s'.db, c)
      ensures |CodeHolders(s', c)| <= k
    {
      ApplyCodeHolders(cfg, s, ev, c);
      SubsetSize(CodeHolders(s', c), CodeHolders(s, c));
      if !SpentCode(s.db, c) {
        CodeHoldersInFlight(cfg, s, c);
        SubsetSize(CodeHolders(s, c), VerifiesInFlight(s));
      }
    }
  }

  lemma {:induction false} RunFewCodeHolders(cfg: Config, s: Sys, evs: seq<Event>, k: nat)
    requires DbInv(s.db) && RequestsOk(cfg, s) && TallyInv(s) && FewCodeHolders(s, k)
    requires Within(cfg, s, evs, k, VerifiesInFlight)
    ensures FewCodeHolders(Run(cfg, s, evs), k)
    decreases |evs|
  {
    if evs != [] {
      ApplyFewCodeHolders(cfg, s, evs[0], k);
      ApplyKeepsRequests(cfg, s, evs[0]);
      ApplyKeepsTally(cfg, s, evs[0]);
      RunFewCodeHolders(cfg, Apply(cfg, s, evs[0]), evs[1..], k);
    }
  }

  /** With at most `k` verifications in flight no code is ever redeemed, or exchanged for a pair, more
      than `k` times. */
  lemma AtMostKRedemptions(cfg: Config, clock: Time, evs: seq<Event>, k: nat, c: Id)
    requires Within(cfg, Init(clock), evs, k, VerifiesInFlight)
    ensures var s := Run(cfg, Init(clock), evs); |PairsFor(s, c)| <= |Redemptions(s, c)| <= k
  {
    var s := Run(cfg, Init(clock), evs);
    InitInv(cfg, clock);
    RunKeepsInv(cfg, Init(clock), evs);
    RunKeepsTally(cfg, Init(clock), evs);
    RunFewCodeHolders(cfg, Init(clock), evs, k);
    PairsNeedRedemption(cfg, s, c);
    SubsetSize(PairsFor(s, c), Redemptions(s, c));
    SubsetSize(Redemptions(s, c), CodeHolders(s, c));
    if Redemptions(s, c) != {} {
      var r :| r in Redemptions(s, c);
      assert Compared(s.reqs[r], c) && Tallied(s, c);
    }
  }

  lemma {:induction false} RunKeepsTally(cfg: Config, s: Sys, evs: seq<Event>)
    requires DbInv(s.db) && RequestsOk(cfg, s) && TallyInv(s)
    ensures TallyInv(Run(cfg, s, evs))
    decreases |evs|
  {
    if evs != [] {
      ApplyKeepsRequests(cfg, s, evs[0]);
      ApplyKeepsTally(cfg, s, evs[0]);
      RunKeepsTally(cfg, Apply(cfg, s, evs[0]), evs[1..]);
    }
  }

  /** In every reachable state the attempt counter of a code is the number of stored misses. */
  lemma ReachableTally(cfg: Config, s: Sys)
    requires Reachable(cfg, s)
    ensures TallyInv(s)
  {
    var clock, evs :| s == Run(cfg, Init(clock), evs);
    InitInv(cfg, clock);
    RunKeepsTally(cfg, Init(clock), evs);
  }

  // ---------------------------------------------------------------- supersession

  ghost predicate Newer(d: VerificationCode, c: VerificationCode) {
    d.email == c.email && d.createdAt > c.createdAt
  }

  /** A strictly newer code is stored for the same address. */
  ghost predicate Superseded(s: Sys, c: Id) {
    c in s.db.codes && exists d | d in s.db.codes :: Newer(s.db.codes[d], s.db.codes[c])
  }

  /** Still works on a snapshot of `c`. */
  ghost predicate WorksOn(q: Req, c: Id) {
    (q.pc.Inspect? || q.pc.CountMiss? || q.pc.Redeem?) && q.pc.record.id == c
  }

  ghost function Workers(s: Sys, c: Id): set<ReqId> {
    set r | r in s.reqs && WorksOn(s.reqs[r], c)
  }

  lemma StepWorks(cfg: Config, db: Db, q: Req, t: Tick, c: Id)
    requires !WorksOn(q, c)
    requires q.input.VerifyCode? ==>
               AnswersLatest(db, NormalizeEmail(q.input.email),
                             FindLatestByEmail(db, NormalizeEmail(q.input.email), t.pick, t.ok))
    ensures var m := Step(cfg, db, q, t);
            && (c in db.codes ==> c in m.db.codes && m.db.codes[c] == db.codes[c])
            && (WorksOn(m.req, c) ==>
                  q.pc.Begin? && q.input.VerifyCode? && IsLatest(db, NormalizeEmail(q.input.email), c))
            && (m.req.guess == q.guess || !Compared(m.req, c))
  {
  }

  lemma ApplyFrozen(cfg: Config, s: Sys, ev: Event, c: Id)
    requires DbInv(s.db) && Superseded(s, c) && Workers(s, c) == {}
    ensures var s' := Apply(cfg, s, ev);
            && Workers(s', c) == {}
            && c in s'.db.codes && s'.db.codes[c] == s.db.codes[c]
            && Comparisons(s', c) <= Comparisons(s, c) && Redemptions(s', c) <= Redemptions(s, c)
  {
    if ev.Advance? && ev.r in s.reqs && !s.reqs[ev.r].Terminal() {
      var q, t := s.reqs[ev.r], ev.tick.(now := Max(s.clock, ev.tick.now));
      assert ev.r !in Workers(s, c);
      if q.input.VerifyCode? { FoundLatest(s.db, NormalizeEmail(q.input.email), t.pick, t.ok); }
      StepWorks(cfg, s.db, q, t, c);
    }
  }

  lemma {:induction false} RunFrozen(cfg: Config, s: Sys, evs: seq<Event>, c: Id)
    requires DbInv(s.db) && RequestsOk(cfg, s) && Superseded(s, c) && Workers(s, c) == {}
    ensures var s' := Run(cfg, s, evs);
            && c in s'.db.codes && s'.db.codes[c] == s.db.codes[c]
            && Comparisons(s', c) <= Comparisons(s, c) && Redemptions(s', c) <= Redemptions(s, c)
    decreases |evs|
  {
    if evs != [] {
      var s1 := Apply(cfg, s, evs[0]);
      ApplyFrozen(cfg, s, evs[0], c);
      ApplyEvolves(cfg, s, evs[0]);
      SupersededStays(s, s1, c);
      ApplyKeepsRequests(cfg, s, evs[0]);
      RunFrozen(cfg, s1, evs[1..], c);
    }
  }

  /** Supersession: once a strictly newer code is stored for its address and nobody is working on it,
      a code is frozen for ever: its row never changes again and it is never compared or redeemed
      again, whatever runs and whether or not the newer code could be sent. */
  lemma SupersededIsFrozen(cfg: Config, s: Sys, evs: seq<Event>, c: Id)
    requires Reachable(cfg, s) && Superseded(s, c) && Workers(s, c) == {}
    ensures var s' := Run(cfg, s, evs);
            && c in s'.db.codes && s'.db.codes[c] == s.db.codes[c]
            && Comparisons(s', c) <= Comparisons(s, c) && Redemptions(s', c) <= Redemptions(s, c)
  {
    ReachableInv(cfg, s);
    RunFrozen(cfg, s, evs, c);
  }

  /** Without waiting for the work under way: once a strictly newer code is stored, a code is compared
      and redeemed only by verifications that had already read it. */
  lemma SupersededIsRefused(cfg: Config, s: Sys, evs: seq<Event>, c: Id)
    requires Reachable(cfg, s) && Superseded(s, c)
    ensures var s' := Run(cfg, s, evs);
            Redemptions(s', c) <= Comparisons(s', c) <= Tries(s, c)
  {
    ReachableInv(cfg, s);
    RunTries(cfg, s, evs, c);
  }
}
