/** What becomes of a code that nobody new can try: how often it is still redeemed, and how far its
    counter still climbs, is exactly the number of guesses under way at that moment. */
module GuessesExact {
  import opened Domain
  import opened Emails
  import opened Tables
  import opened Protocol
  import opened System
  import opened Schedules
  import opened Invariants
  import opened Reachability
  import opened CodeBudget
  import opened Lifecycles
  import opened Sets

  /** Nobody who reads `c` from now on gets past the check: it is consumed, used up, expired, or no
      longer the newest code of its address. */
  ghost predicate Closed(s: Sys, c: Id) {
    DeadCode(s, c) || Superseded(s, c)
  }

  /** The comparison is made and its write comes next. */
  ghost predicate Writing(pc: Pc, c: Id, right: bool) {
    if right then pc.Redeem? && pc.record.id == c else pc.CountMiss? && pc.record.id == c
  }

  /** A right (or wrong) guess that has passed the check, or would still pass it, and is not yet stored. */
  ghost predicate Ready(cfg: Config, q: Req, c: Id, clock: Time, right: bool) {
    || Writing(q.pc, c, right)
    || (Eligible(q, c, clock) && right == (cfg.digest(q.pc.code) == q.pc.record.codeHash))
  }

  /** The guess is stored: a redemption if it is right, a counted miss if it is wrong. */
  ghost predicate Settles(q: Req, c: Id, right: bool) {
    q.guess == if right then Redeemed(c) else Counted(c)
  }

  ghost function ReadyGuesses(cfg: Config, s: Sys, c: Id, right: bool): set<ReqId> {
    set r | r in s.reqs && Ready(cfg, s.reqs[r], c, s.clock, right)
  }

  ghost function Settled(s: Sys, c: Id, right: bool): set<ReqId> {
    if right then Redemptions(s, c) else Misses(s, c)
  }

  ghost function Claimants(cfg: Config, s: Sys, c: Id, right: bool): set<ReqId> {
    Settled(s, c, right) + ReadyGuesses(cfg, s, c, right)
  }

  // ---------------------------------------------------------------- nobody joins

  lemma StepClaims(cfg: Config, db: Db, q: Req, t: Tick, c: Id, right: bool)
    requires !q.pc.Begin?
    requires q.pc.CountMiss? || q.pc.Redeem? ==> q.guess == Pending(q.pc.record.id)
    requires var q' := Step(cfg, db, q, t).req; Ready(cfg, q', c, t.now, right) || Settles(q', c, right)
    ensures Ready(cfg, q, c, t.now, right) || Settles(q, c, right)
  {
  }

  /** A request that has only just read the code has not settled, and is ready only if it could try. */
  lemma OpenClaims(cfg: Config, db: Db, q: Req, t: Tick, c: Id, right: bool)
    requires q == NewRequest(q.input)
    requires var q' := Step(cfg, db, q, t).req; Ready(cfg, q', c, t.now, right) || Settles(q', c, right)
    ensures Eligible(Step(cfg, db, q, t).req, c, t.now)
  {
  }

  /** Whoever claims after a step of its own did so before. */
  lemma MoverClaims(cfg: Config, s: Sys, q: Req, t: Tick, c: Id, right: bool)
    requires DbInv(s.db) && ReqInv(cfg, s.db, q) && Closed(s, c) && s.clock <= t.now
    requires var q' := Step(cfg, s.db, q, t).req; Ready(cfg, q', c, t.now, right) || Settles(q', c, right)
    ensures Ready(cfg, q, c, t.now, right) || Settles(q, c, right)
  {
    if q.pc.Begin? {
      BeginnerClaimsNothing(cfg, s, q, t, c, right);
      assert false;
    } else {
      GuessInProgress(cfg, s.db, q);
      StepClaims(cfg, s.db, q, t, c, right);
    }
  }

  lemma AdvanceClaims(cfg: Config, s: Sys, r: ReqId, tick: Tick, c: Id, right: bool)
    requires DbInv(s.db) && RequestsOk(cfg, s) && Closed(s, c)
    requires r in Claimants(cfg, Apply(cfg, s, Advance(r, tick)), c, right)
    ensures r in Claimants(cfg, s, c, right)
  {
    if r in s.reqs && !s.reqs[r].Terminal() {
      MoverClaims(cfg, s, s.reqs[r], tick.(now := Max(s.clock, tick.now)), c, right);
    }
  }

  lemma ApplyClaimants(cfg: Config, s: Sys, ev: Event, c: Id, right: bool)
    requires DbInv(s.db) && RequestsOk(cfg, s) && Closed(s, c)
    ensures Claimants(cfg, Apply(cfg, s, ev), c, right) <= Claimants(cfg, s, c, right)
  {
    var s' := Apply(cfg, s, ev);
    if ev.Advance? && ev.r in Claimants(cfg, s', c, right) {
      AdvanceClaims(cfg, s, ev.r, ev.tick, c, right);
    }
    OthersClaim(cfg, s, s', ev.r, c, right);
  }

  lemma OthersClaim(cfg: Config, s: Sys, s': Sys, mover: ReqId, c: Id, right: bool)
    requires s.clock <= s'.clock
    requires forall r | r in s'.reqs && r != mover :: r in s.reqs && s'.reqs[r] == s.reqs[r]
    ensures Claimants(cfg, s', c, right) - {mover} <= Claimants(cfg, s, c, right)
  {
  }

  lemma BeginnerClaimsNothing(cfg: Config, s: Sys, q: Req, t: Tick, c: Id, right: bool)
    requires DbInv(s.db) && ReqInv(cfg, s.db, q) && q.pc.Begin? && Closed(s, c) && s.clock <= t.now
    ensures var q' := Step(cfg, s.db, q, t).req; !Ready(cfg, q', c, t.now, right) && !Settles(q', c, right)
  {
    var q' := Step(cfg, s.db, q, t).req;
    if Ready(cfg, q', c, t.now, right) || Settles(q', c, right) {
      OpenClaims(cfg, s.db, q, t, c, right);
      if q.input.VerifyCode? { FoundLatest(s.db, NormalizeEmail(q.input.email), t.pick, t.ok); }
      OpenTries(cfg, s.db, q, t, c);
      assert false;
    }
  }

  lemma ClosedStays(a: Sys, b: Sys, c: Id)
    requires Closed(a, c) && Evolves(a.db, b.db) && a.clock <= b.clock
    ensures Closed(b, c)
  {
    if DeadCode(a, c) { DeadCodeStaysDead(a, b, c); } else { SupersededStays(a, b, c); }
  }

  lemma {:induction false} RunClaimants(cfg: Config, s: Sys, evs: seq<Event>, c: Id, right: bool)
    requires DbInv(s.db) && RequestsOk(cfg, s) && Closed(s, c)
    ensures Claimants(cfg, Run(cfg, s, evs), c, right) <= Claimants(cfg, s, c, right)
    decreases |evs|
  {
    if evs != [] {
      var s1 := Apply(cfg, s, evs[0]);
      ApplyClaimants(cfg, s, evs[0], c, right);
      ApplyKeepsRequests(cfg, s, evs[0]);
      ApplyEvolves(cfg, s, evs[0]);
      ClosedStays(s, s1, c);
      RunClaimants(cfg, s1, evs[1..], c, right);
    }
  }

  // ---------------------------------------------------------------- everybody gets through

  lemma WriteSettles(cfg: Config, db: Db, q: Req, t: Tick, c: Id, right: bool)
    requires t.ok && Writing(q.pc, c, right)
    ensures Settles(Step(cfg, db, q, t).req, c, right)
  {
  }

  lemma CheckPasses(cfg: Config, db: Db, q: Req, t: Tick, c: Id, right: bool)
    requires Eligible(q, c, t.now) && right == (cfg.digest(q.pc.code) == q.pc.record.codeHash)
    ensures var m := Step(cfg, db, q, t);
            m.db == db && Writing(m.req.pc, c, right)
  {
  }

  lemma SettleOne(cfg: Config, s: Sys, r: ReqId, c: Id, right: bool) returns (evs: seq<Event>)
    requires r in s.reqs && Ready(cfg, s.reqs[r], c, s.clock, right)
    ensures var s' := Run(cfg, s, evs);
            && s'.clock == s.clock && r in s'.reqs && s'.reqs == s.reqs[r := s'.reqs[r]]
            && Settles(s'.reqs[r], c, right)
  {
    var move := Advance(r, Now(s));
    if Eligible(s.reqs[r], c, s.clock) {
      CheckPasses(cfg, s.db, s.reqs[r], Now(s), c, right);
      var s1 := Apply(cfg, s, move);
      WriteSettles(cfg, s1.db, s1.reqs[r], Now(s), c, right);
      evs := [move, move];
      RunShort(cfg, s, move, move);
    } else {
      WriteSettles(cfg, s.db, s.reqs[r], Now(s), c, right);
      evs := [move];
      RunShort(cfg, s, move, move);
    }
  }

  lemma ApplyKeepsSettled(cfg: Config, s: Sys, ev: Event, r: ReqId, c: Id, right: bool)
    requires RequestsOk(cfg, s) && r in s.reqs && Settles(s.reqs[r], c, right)
    ensures var s' := Apply(cfg, s, ev); r in s'.reqs && Settles(s'.reqs[r], c, right)
  {
    GuessInProgress(cfg, s.db, s.reqs[r]);
  }

  lemma {:induction false} RunKeepsSettled(cfg: Config, s: Sys, evs: seq<Event>, r: ReqId, c: Id, right: bool)
    requires DbInv(s.db) && RequestsOk(cfg, s) && r in s.reqs && Settles(s.reqs[r], c, right)
    ensures var s' := Run(cfg, s, evs); r in s'.reqs && Settles(s'.reqs[r], c, right)
    decreases |evs|
  {
    if evs != [] {
      ApplyKeepsSettled(cfg, s, evs[0], r, c, right);
      ApplyKeepsRequests(cfg, s, evs[0]);
      RunKeepsSettled(cfg, Apply(cfg, s, evs[0]), evs[1..], r, c, right);
    }
  }

  lemma {:induction false} RunKeepsRequests(cfg: Config, s: Sys, evs: seq<Event>)
    requires DbInv(s.db) && RequestsOk(cfg, s)
    ensures DbInv(Run(cfg, s, evs).db) && RequestsOk(cfg, Run(cfg, s, evs))
    decreases |evs|
  {
    if evs != [] {
      ApplyKeepsRequests(cfg, s, evs[0]);
      RunKeepsRequests(cfg, Apply(cfg, s, evs[0]), evs[1..]);
    }
  }

  /** Any set of guesses that are ready can all be stored. */
  lemma {:induction false} SettleAll(cfg: Config, s: Sys, c: Id, right: bool, rs: set<ReqId>) returns (evs: seq<Event>)
    requires DbInv(s.db) && RequestsOk(cfg, s)
    requires forall r | r in rs :: r in s.reqs && Ready(cfg, s.reqs[r], c, s.clock, right)
    ensures forall r | r in rs :: r in Run(cfg, s, evs).reqs && Settles(Run(cfg, s, evs).reqs[r], c, right)
    decreases |rs|
  {
    if rs == {} {
      evs := [];
    } else {
      var r :| r in rs;
      var one := SettleOne(cfg, s, r, c, right);
      var s1 := Run(cfg, s, one);
      RunKeepsRequests(cfg, s, one);
      var others := SettleAll(cfg, s1, c, right, rs - {r});
      RunKeepsSettled(cfg, s1, others, r, c, right);
      evs := one + others;
      RunAppend(cfg, s, one, others);
      forall i | i in rs
        ensures i in Run(cfg, s, evs).reqs && Settles(Run(cfg, s, evs).reqs[i], c, right)
      {
        assert i == r || i in rs - {r};
      }
    }
  }

  // ---------------------------------------------------------------- the exact numbers

  lemma SettledWithinClaimants(cfg: Config, s: Sys, evs: seq<Event>, c: Id, right: bool)
    requires Reachable(cfg, s) && Closed(s, c)
    ensures var done := Settled(Run(cfg, s, evs), c, right);
            done <= Claimants(cfg, s, c, right) && |done| <= |Claimants(cfg, s, c, right)|
  {
    ReachableInv(cfg, s);
    RunClaimants(cfg, s, evs, c, right);
    SubsetSize(Settled(Run(cfg, s, evs), c, right), Claimants(cfg, s, c, right));
  }

  lemma EveryClaimantSettles(cfg: Config, s: Sys, c: Id, right: bool) returns (evs: seq<Event>)
    requires Reachable(cfg, s)
    ensures |Settled(Run(cfg, s, evs), c, right)| >= |Claimants(cfg, s, c, right)|
  {
    ReachableInv(cfg, s);
    evs := SettleAll(cfg, s, c, right, ReadyGuesses(cfg, s, c, right));
    var s' := Run(cfg, s, evs);
    forall r | r in Claimants(cfg, s, c, right)
      ensures r in Settled(s', c, right)
    {
      if r in Settled(s, c, right) {
        RunKeepsSettled(cfg, s, evs, r, c, right);
      }
    }
    SubsetSize(Claimants(cfg, s, c, right), Settled(s', c, right));
  }

  /** From any reachable state in which `c` is closed, a number of stored right (or wrong) guesses can
      still come about if and only if no more are needed than are stored or ready already. */
  lemma GuessesReachableIff(cfg: Config, s: Sys, c: Id, right: bool, n: nat)
    requires Reachable(cfg, s) && Closed(s, c)
    ensures (exists evs :: |Settled(Run(cfg, s, evs), c, right)| >= n) <==> n <= |Claimants(cfg, s, c, right)|
  {
    forall evs
      ensures |Settled(Run(cfg, s, evs), c, right)| <= |Claimants(cfg, s, c, right)|
    {
      SettledWithinClaimants(cfg, s, evs, c, right);
    }
    var evs := EveryClaimantSettles(cfg, s, c, right);
    assert |Settled(Run(cfg, s, evs), c, right)| >= |Claimants(cfg, s, c, right)|;
  }

  /** The event that first consumes a code is its first redemption and closes it. */
  lemma FirstConsumption(cfg: Config, s: Sys, ev: Event, c: Id)
    requires Reachable(cfg, s) && !SpentCode(s.db, c) && SpentCode(Apply(cfg, s, ev).db, c)
    ensures var s1 := Apply(cfg, s, ev); Reachable(cfg, s1) && Closed(s1, c) && Redemptions(s1, c) == {ev.r}
  {
    var s1 := Apply(cfg, s, ev);
    ReachableStep(cfg, s, ev);
    NoRedemptionYet(cfg, s, c);
    ReachableTally(cfg, s1);
    assert Tallied(s1, c);
    assert Redemptions(s1, c) <= Redemptions(s, c) + {ev.r};
  }

  lemma NoRedemptionYet(cfg: Config, s: Sys, c: Id)
    requires Reachable(cfg, s) && !SpentCode(s.db, c)
    ensures Redemptions(s, c) == {}
  {
    ReachableTally(cfg, s);
    if c in s.db.codes {
      assert Tallied(s, c);
    } else {
      assert forall r | r in s.reqs :: !Compared(s.reqs[r], c);
    }
  }

  /** Single use, exactly: after the event that first consumes `c`, `n` redemptions can come about if
      and only if `n` requests have redeemed it, are about to, or hold a snapshot that still passes
      the check together with the right code. */
  lemma RedemptionsReachableIff(cfg: Config, s: Sys, ev: Event, c: Id, n: nat)
    requires Reachable(cfg, s) && !SpentCode(s.db, c) && SpentCode(Apply(cfg, s, ev).db, c)
    ensures var s1 := Apply(cfg, s, ev);
            (exists evs :: |Redemptions(Run(cfg, s1, evs), c)| >= n) <==> n <= |Claimants(cfg, s1, c, true)|
  {
    FirstConsumption(cfg, s, ev, c);
    GuessesReachableIff(cfg, Apply(cfg, s, ev), c, true, n);
    assert forall s' :: Settled(s', c, true) == Redemptions(s', c);
  }

  /** So the redemption that first consumes a code is sure to stay the only one exactly when no other
      right guess is ready at that moment. */
  lemma SingleUseIff(cfg: Config, s: Sys, ev: Event, c: Id)
    requires Reachable(cfg, s) && !SpentCode(s.db, c) && SpentCode(Apply(cfg, s, ev).db, c)
    ensures var s1 := Apply(cfg, s, ev);
            (forall evs :: |Redemptions(Run(cfg, s1, evs), c)| <= 1) <==> ReadyGuesses(cfg, s1, c, true) == {}
  {
    var s1 := Apply(cfg, s, ev);
    FirstConsumption(cfg, s, ev, c);
    RedeemerIsDone(cfg, s1, c, ev.r);
    RedemptionsReachableIff(cfg, s, ev, c, 2);
    UnionSize({ev.r}, ReadyGuesses(cfg, s1, c, true));
    assert Claimants(cfg, s1, c, true) == {ev.r} + ReadyGuesses(cfg, s1, c, true);
    assert |Claimants(cfg, s1, c, true)| <= 1 <==> ReadyGuesses(cfg, s1, c, true) == {};
  }

  lemma RedeemerIsDone(cfg: Config, s: Sys, c: Id, r: ReqId)
    requires Reachable(cfg, s) && r in Redemptions(s, c)
    ensures forall right :: r !in ReadyGuesses(cfg, s, c, right)
  {
    ReachableInv(cfg, s);
    GuessInProgress(cfg, s.db, s.reqs[r]);
  }

  function AttemptsOf(db: Db, c: Id): nat {
    if c in db.codes then db.codes[c].attempts else 0
  }

  /** And a counter that nobody new can raise, because it stands at five or for any other reason the
      code is closed, can still climb by `n` if and only if `n` wrong guesses are ready. */
  lemma AttemptsReachableIff(cfg: Config, s: Sys, c: Id, n: nat)
    requires Reachable(cfg, s) && Closed(s, c)
    ensures (exists evs :: AttemptsOf(Run(cfg, s, evs).db, c) >= AttemptsOf(s.db, c) + n)
            <==> n <= |ReadyGuesses(cfg, s, c, false)|
  {
    MissesAreAttempts(cfg, s, [], c);
    MissersAreDone(cfg, s, c);
    UnionSize(Misses(s, c), ReadyGuesses(cfg, s, c, false));
    assert Claimants(cfg, s, c, false) == Misses(s, c) + ReadyGuesses(cfg, s, c, false);
    GuessesReachableIff(cfg, s, c, false, AttemptsOf(s.db, c) + n);
    forall evs
      ensures AttemptsOf(Run(cfg, s, evs).db, c) == |Settled(Run(cfg, s, evs), c, false)|
    {
      MissesAreAttempts(cfg, s, evs, c);
    }
  }

  lemma MissesAreAttempts(cfg: Config, s: Sys, evs: seq<Event>, c: Id)
    requires Reachable(cfg, s) && c in s.db.codes
    ensures AttemptsOf(Run(cfg, s, evs).db, c) == |Misses(Run(cfg, s, evs), c)|
  {
    var s' := Run(cfg, s, evs);
    RunEvolves(cfg, s, evs);
    assert c in s'.db.codes;
    assert Tallied(s', c) by {
      ReachableExtends(cfg, s, evs);
      ReachableTally(cfg, s');
    }
  }

  lemma MissersAreDone(cfg: Config, s: Sys, c: Id)
    requires Reachable(cfg, s)
    ensures Misses(s, c) !! ReadyGuesses(cfg, s, c, false)
  {
    ReachableInv(cfg, s);
    forall r | r in Misses(s, c)
      ensures r !in ReadyGuesses(cfg, s, c, false)
    {
      GuessInProgress(cfg, s.db, s.reqs[r]);
    }
  }
}
