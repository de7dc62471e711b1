/** Verification codes under every interleaving: how often a code can be tried, how often it can be
    redeemed, and what a newer code does to an older one. */
module CodeBudget {
  import opened Wrappers
  import opened Domain
  import opened Emails
  import opened Tables
  import opened Protocol
  import opened System
  import opened Invariants
  import opened Reachability
  import opened Sets

  // ---------------------------------------------------------------- who has done what to a code

  /** Wrong guesses whose increment was stored. */
  ghost function Misses(s: Sys, c: Id): set<ReqId> {
    set r | r in s.reqs && s.reqs[r].guess == Counted(c)
  }

  /** Right guesses whose consumption was stored. */
  ghost function Redemptions(s: Sys, c: Id): set<ReqId> {
    set r | r in s.reqs && s.reqs[r].guess == Redeemed(c)
  }

  /** Guesses whose write failed. */
  ghost function Lost(s: Sys, c: Id): set<ReqId> {
    set r | r in s.reqs && s.reqs[r].guess == Unrecorded(c)
  }

  /** Wrong guesses that passed the check and have not stored their increment yet. */
  ghost function MissesUnderWay(s: Sys, c: Id): set<ReqId> {
    set r | r in s.reqs && s.reqs[r].pc.CountMiss? && s.reqs[r].pc.record.id == c
  }

  /** Requests that compared a submitted code with the hash of `c`. */
  ghost function Comparisons(s: Sys, c: Id): set<ReqId> {
    set r | r in s.reqs && Compared(s.reqs[r], c)
  }

  ghost predicate Compared(q: Req, c: Id) {
    !q.guess.NoGuess? && q.guess.code == c
  }

  /** A snapshot that still passes the check of VerifyCode, clock aside. */
  ghost predicate Usable(record: VerificationCode) {
    record.consumedAt.None? && record.attempts < MAX_VERIFICATION_ATTEMPTS
  }

  /** Requests that may still spend, or have spent, part of the budget of `c`. */
  ghost predicate Draws(q: Req, c: Id) {
    || (q.pc.Inspect? && q.pc.record.id == c && Usable(q.pc.record))
    || q.guess == Pending(c) || q.guess == Counted(c) || q.guess == Redeemed(c)
  }

  ghost function Drawers(s: Sys, c: Id): set<ReqId> {
    set r | r in s.reqs && Draws(s.reqs[r], c)
  }

  /** The stored counter is exactly the number of stored misses, and a code is consumed exactly when
      somebody redeemed it. */
  ghost predicate Tallied(s: Sys, c: Id)
    requires c in s.db.codes
  {
    && s.db.codes[c].attempts == |Misses(s, c)|
    && (s.db.codes[c].consumedAt.Some? <==> Redemptions(s, c) != {})
  }

  /** A guess is always about a stored code. */
  ghost predicate GuessesKnown(s: Sys) {
    forall r, c | r in s.reqs && Compared(s.reqs[r], c) :: c in s.db.codes
  }

  ghost predicate TallyInv(s: Sys) {
    GuessesKnown(s) && forall c | c in s.db.codes :: Tallied(s, c)
  }

  // ---------------------------------------------------------------- one step

  /** How a step moves the codes table together with the guess of the moving request. */
  ghost predicate CodeMove(codes: map<Id, VerificationCode>, q: Req, codes': map<Id, VerificationCode>, q': Req) {
    || (codes' == codes && q'.guess == q.guess)
    || (q.pc.StoreCode? && q'.guess == q.guess
        && q.pc.record.id !in codes && codes' == codes[q.pc.record.id := q.pc.record])
    || (q.pc.Inspect? && q'.guess == Pending(q.pc.record.id) && codes' == codes && Usable(q.pc.record))
    || (q.pc.CountMiss? && q'.guess == Unrecorded(q.pc.record.id) && codes' == codes)
    || (q.pc.Redeem? && q'.guess == Unrecorded(q.pc.record.id) && codes' == codes)
    || (q.pc.CountMiss? && q'.guess == Counted(q.pc.record.id) && q.pc.record.id in codes
        && codes' == codes[q.pc.record.id := codes[q.pc.record.id].(attempts := codes[q.pc.record.id].attempts + 1)])
    || (q.pc.Redeem? && q'.guess == Redeemed(q.pc.record.id) && q.pc.record.id in codes
        && exists now :: codes' == codes[q.pc.record.id := codes[q.pc.record.id].(consumedAt := Some(now))])
  }

  lemma StepCodes(cfg: Config, db: Db, q: Req, t: Tick)
    requires (q.pc.CountMiss? || q.pc.Redeem?) ==> q.pc.record.id in db.codes
    ensures var m := Step(cfg, db, q, t); CodeMove(db.codes, q, m.db.codes, m.req)
  {
    var m := Step(cfg, db, q, t);
    if q.pc.Redeem? && t.ok {
      var c := q.pc.record.id;
      assert m.db.codes == db.codes[c := db.codes[c].(consumedAt := Some(t.now))];
    }
  }

  /** What the request invariant says about the guess of a request that is about to write. */
  lemma GuessInProgress(cfg: Config, db: Db, q: Req)
    requires ReqInv(cfg, db, q)
    ensures q.pc.CountMiss? || q.pc.Redeem? ==> q.guess == Pending(q.pc.record.id) && q.pc.record.id in db.codes
    ensures q.pc.Inspect? ==> q.guess == NoGuess && q.pc.record.id in db.codes
    ensures q.guess.Pending? ==> q.pc.CountMiss? || q.pc.Redeem?
    ensures q.pc.Inspect? || q.guess.Pending? ==> q.input.VerifyCode? && !q.Terminal()
    ensures q.pc.StoreCode? ==> q.pc.record.attempts == 0 && q.pc.record.consumedAt.None? && q.guess == NoGuess
  {
  }

  /** The same, for the whole state: one request moves, the clock does not go back. */
  ghost predicate Moves(s: Sys, s': Sys, r: ReqId) {
    && r in s.reqs && r in s'.reqs && s'.reqs == s.reqs[r := s'.reqs[r]]
    && CodeMove(s.db.codes, s.reqs[r], s'.db.codes, s'.reqs[r])
    && s.clock <= s'.clock
    && (s.reqs[r].pc.CountMiss? || s.reqs[r].pc.Redeem? ==> s.reqs[r].guess == Pending(s.reqs[r].pc.record.id))
    && (s.reqs[r].pc.Inspect? ==> s.reqs[r].guess == NoGuess && s.reqs[r].pc.record.id in s.db.codes)
    && (s.reqs[r].pc.StoreCode? ==> s.reqs[r].pc.record.attempts == 0 && s.reqs[r].pc.record.consumedAt.None?)
  }

  /** An event touches no code and no guess, or moves one request. */
  lemma EventMoves(cfg: Config, s: Sys, ev: Event)
    requires RequestsOk(cfg, s)
    ensures var s' := Apply(cfg, s, ev);
            || Moves(s, s', ev.r)
            || (s'.db == s.db && s'.clock == s.clock
                && (s' == s || (ev.r !in s.reqs && ev.Arrive? && s'.reqs == s.reqs[ev.r := NewRequest(ev.input)])))
  {
    if ev.Advance? && ev.r in s.reqs && !s.reqs[ev.r].Terminal() {
      GuessInProgress(cfg, s.db, s.reqs[ev.r]);
      StepCodes(cfg, s.db, s.reqs[ev.r], ev.tick.(now := Max(s.clock, ev.tick.now)));
    }
  }

  lemma MoveKeepsTally(s: Sys, s': Sys, r: ReqId)
    requires TallyInv(s) && Moves(s, s', r)
    ensures TallyInv(s')
  {
    forall c | c in s'.db.codes
      ensures Tallied(s', c)
    {
      MoveTallies(s, s', r, c);
    }
  }

  lemma MoveTallies(s: Sys, s': Sys, r: ReqId, c: Id)
    requires Moves(s, s', r) && c in s'.db.codes && GuessesKnown(s)
    requires c in s.db.codes ==> Tallied(s, c)
    ensures Tallied(s', c)
  {
    if c !in s.db.codes {
      NothingBeforeStored(s, c);
    }
    MoveCountsMisses(s, s', r, c);
    MoveKeepsRedemptions(s, s', r, c);
  }

  lemma NothingBeforeStored(s: Sys, c: Id)
    requires GuessesKnown(s) && c !in s.db.codes
    ensures Misses(s, c) == {} && Redemptions(s, c) == {}
  {
    assert forall r | r in s.reqs :: !Compared(s.reqs[r], c);
  }

  lemma MoveCountsMisses(s: Sys, s': Sys, r: ReqId, c: Id)
    requires Moves(s, s', r) && c in s'.db.codes
    requires if c in s.db.codes then s.db.codes[c].attempts == |Misses(s, c)| else Misses(s, c) == {}
    ensures s'.db.codes[c].attempts == |Misses(s', c)|
  {
    if s'.reqs[r].guess == Counted(c) && s.reqs[r].guess != Counted(c) {
      assert Misses(s', c) == Misses(s, c) + {r};
    } else {
      assert Misses(s', c) == Misses(s, c);
    }
  }

  lemma MoveKeepsRedemptions(s: Sys, s': Sys, r: ReqId, c: Id)
    requires Moves(s, s', r) && c in s'.db.codes
    requires if c in s.db.codes then s.db.codes[c].consumedAt.Some? <==> Redemptions(s, c) != {}
             else Redemptions(s, c) == {}
    ensures s'.db.codes[c].consumedAt.Some? <==> Redemptions(s', c) != {}
  {
    if s'.reqs[r].guess == Redeemed(c) {
      assert r in Redemptions(s', c);
    } else {
      assert Redemptions(s', c) == Redemptions(s, c);
    }
  }

  lemma ApplyKeepsTally(cfg: Config, s: Sys, ev: Event)
    requires RequestsOk(cfg, s) && TallyInv(s)
    ensures TallyInv(Apply(cfg, s, ev))
  {
    var s' := Apply(cfg, s, ev);
    EventMoves(cfg, s, ev);
    if Moves(s, s', ev.r) {
      MoveKeepsTally(s, s', ev.r);
    } else {
      forall c | c in s'.db.codes
        ensures Tallied(s', c)
      {
        assert Tallied(s, c);
        assert Misses(s', c) == Misses(s, c) && Redemptions(s', c) == Redemptions(s, c);
      }
    }
  }

  // ---------------------------------------------------------------- the attempt bound

  ghost predicate WithinBudget(s: Sys, k: nat) {
    forall c | c in s.db.codes :: |Drawers(s, c)| <= MAX_VERIFICATION_ATTEMPTS - 1 + k
  }

  /** A request starts to draw on a code only by reading it while it is open. */
  lemma StepDraws(cfg: Config, db: Db, q: Req, t: Tick, c: Id)
    requires !q.pc.Begin? && Draws(Step(cfg, db, q, t).req, c)
    requires q.pc.CountMiss? || q.pc.Redeem? ==> q.guess == Pending(q.pc.record.id)
    ensures Draws(q, c)
  {
  }

  lemma OpenDraws(cfg: Config, db: Db, q: Req, t: Tick, c: Id)
    requires q == NewRequest(q.input) && Draws(Step(cfg, db, q, t).req, c)
    requires q.input.VerifyCode? ==>
               AnswersLatest(db, NormalizeEmail(q.input.email),
                             FindLatestByEmail(db, NormalizeEmail(q.input.email), t.pick, t.ok))
    ensures q.input.VerifyCode? && Step(cfg, db, q, t).db == db
    ensures c in db.codes && Usable(db.codes[c])
  {
  }

  lemma ApplyDrawers(cfg: Config, s: Sys, ev: Event, c: Id)
    requires DbInv(s.db) && RequestsOk(cfg, s)
    ensures var s' := Apply(cfg, s, ev);
            || Drawers(s', c) <= Drawers(s, c)
            || (s'.db == s.db && c in s.db.codes && Usable(s.db.codes[c]) && Drawers(s', c) <= Drawers(s, c) + {ev.r})
  {
    if ev.Advance? && ev.r in s.reqs && !s.reqs[ev.r].Terminal() {
      var q, t := s.reqs[ev.r], ev.tick.(now := Max(s.clock, ev.tick.now));
      if Draws(Step(cfg, s.db, q, t).req, c) && !Draws(q, c) {
        GuessInProgress(cfg, s.db, q);
        if q.pc.Begin? {
          assert ReqInv(cfg, s.db, q);
          if q.input.VerifyCode? { FoundLatest(s.db, NormalizeEmail(q.input.email), t.pick, t.ok); }
          OpenDraws(cfg, s.db, q, t, c);
        } else {
          StepDraws(cfg, s.db, q, t, c);
        }
      }
    }
  }

  /** Who draws on an unconsumed code either stored a miss or is still under way. */
  lemma OpenDrawers(cfg: Config, s: Sys, c: Id)
    requires RequestsOk(cfg, s) && c in s.db.codes && Tallied(s, c) && s.db.codes[c].consumedAt.None?
    ensures Drawers(s, c) <= Misses(s, c) + VerifiesInFlight(s)
  {
    forall r | r in Drawers(s, c)
      ensures r in Misses(s, c) + VerifiesInFlight(s)
    {
      GuessInProgress(cfg, s.db, s.reqs[r]);
      assert r !in Redemptions(s, c);
    }
  }

  lemma OpenCodeWithinBudget(cfg: Config, s: Sys, c: Id, k: nat)
    requires RequestsOk(cfg, s) && c in s.db.codes && Tallied(s, c) && Usable(s.db.codes[c])
    requires |VerifiesInFlight(s)| <= k
    ensures |Drawers(s, c)| <= MAX_VERIFICATION_ATTEMPTS - 1 + k
  {
    OpenDrawers(cfg, s, c);
    SubsetSize(Drawers(s, c), Misses(s, c) + VerifiesInFlight(s));
    UnionSize(Misses(s, c), VerifiesInFlight(s));
  }

  lemma ApplyKeepsBudget(cfg: Config, s: Sys, ev: Event, k: nat)
    requires DbInv(s.db) && RequestsOk(cfg, s) && TallyInv(s) && WithinBudget(s, k)
    requires |VerifiesInFlight(Apply(cfg, s, ev))| <= k
    ensures WithinBudget(Apply(cfg, s, ev), k)
  {
    var s' := Apply(cfg, s, ev);
    forall c | c in s'.db.codes
      ensures |Drawers(s', c)| <= MAX_VERIFICATION_ATTEMPTS - 1 + k
    {
      ApplyKeepsBudgetOf(cfg, s, ev, k, c);
    }
  }

  lemma ApplyKeepsBudgetOf(cfg: Config, s: Sys, ev: Event, k: nat, c: Id)
    requires DbInv(s.db) && RequestsOk(cfg, s) && TallyInv(s) && WithinBudget(s, k)
    requires |VerifiesInFlight(Apply(cfg, s, ev))| <= k && c in Apply(cfg, s, ev).db.codes
    ensures |Drawers(Apply(cfg, s, ev), c)| <= MAX_VERIFICATION_ATTEMPTS - 1 + k
  {
    var s' := Apply(cfg, s, ev);
    ApplyDrawers(cfg, s, ev, c);
    if Drawers(s', c) <= Drawers(s, c) {
      if c !in s.db.codes {
        NoDrawersBeforeStored(cfg, s, c);
      }
      SubsetSize(Drawers(s', c), Drawers(s, c));
    } else {
      ApplyKeepsRequests(cfg, s, ev);
      ApplyKeepsTally(cfg, s, ev);
      OpenCodeWithinBudget(cfg, s', c, k);
    }
  }

  lemma NoDrawersBeforeStored(cfg: Config, s: Sys, c: Id)
    requires RequestsOk(cfg, s) && GuessesKnown(s) && c !in s.db.codes
    ensures Drawers(s, c) == {}
  {
    forall r | r in s.reqs
      ensures !Draws(s.reqs[r], c)
    {
      GuessInProgress(cfg, s.db, s.reqs[r]);
      assert !Compared(s.reqs[r], c);
    }
  }

  lemma {:induction false} RunKeepsBudget(cfg: Config, s: Sys, evs: seq<Event>, k: nat)
    requires DbInv(s.db) && RequestsOk(cfg, s) && TallyInv(s) && WithinBudget(s, k)
    requires Within(cfg, s, evs, k, VerifiesInFlight)
    ensures var s' := Run(cfg, s, evs); DbInv(s'.db) && RequestsOk(cfg, s') && TallyInv(s') && WithinBudget(s', k)
    decreases |evs|
  {
    if evs != [] {
      var s1 := Apply(cfg, s, evs[0]);
      ApplyKeepsRequests(cfg, s, evs[0]);
      ApplyKeepsTally(cfg, s, evs[0]);
      assert Within(cfg, s1, evs[1..], k, VerifiesInFlight);
      ApplyKeepsBudget(cfg, s, evs[0], k);
      RunKeepsBudget(cfg, s1, evs[1..], k);
    }
  }

  /** With at most `k` verifications in flight, the stored counter of a code, the wrong guesses about
      to be counted and the redemptions together never exceed 4 + k; so a counter never passes 4 + k,
      and never passes 5 when verifications do not overlap. */
  lemma AttemptBound(cfg: Config, clock: Time, evs: seq<Event>, k: nat, c: Id)
    requires Within(cfg, Init(clock), evs, k, VerifiesInFlight)
    requires c in Run(cfg, Init(clock), evs).db.codes
    ensures var s := Run(cfg, Init(clock), evs);
            s.db.codes[c].attempts + |MissesUnderWay(s, c)| + |Redemptions(s, c)| <= MAX_VERIFICATION_ATTEMPTS - 1 + k
  {
    var s := Run(cfg, Init(clock), evs);
    assert RequestsOk(cfg, s) && Tallied(s, c) && |Drawers(s, c)| <= MAX_VERIFICATION_ATTEMPTS - 1 + k by {
      RunKeepsBudget(cfg, Init(clock), evs, k);
    }
    forall r | r in MissesUnderWay(s, c)
      ensures s.reqs[r].guess == Pending(c)
    {
      GuessInProgress(cfg, s.db, s.reqs[r]);
    }
    DrawersAddUp(s, c);
  }

  lemma DrawersAddUp(s: Sys, c: Id)
    requires forall r | r in MissesUnderWay(s, c) :: s.reqs[r].guess == Pending(c)
    ensures |Misses(s, c)| + |MissesUnderWay(s, c)| + |Redemptions(s, c)| <= |Drawers(s, c)|
  {
    UnionSize(Misses(s, c), MissesUnderWay(s, c));
    UnionSize(Misses(s, c) + MissesUnderWay(s, c), Redemptions(s, c));
    SubsetSize(Misses(s, c) + MissesUnderWay(s, c) + Redemptions(s, c), Drawers(s, c));
  }

  // ---------------------------------------------------------------- the guess budget of an address

  ghost function CodesOf(s: Sys, email: string): set<Id> {
    set c | c in s.db.codes && s.db.codes[c].email == email
  }

  ghost function ComparisonsOver(s: Sys, cs: set<Id>): set<ReqId> {
    set r | r in s.reqs && !s.reqs[r].guess.NoGuess? && s.reqs[r].guess.code in cs
  }

  ghost function LostOver(s: Sys, cs: set<Id>): set<ReqId> {
    set r | r in s.reqs && s.reqs[r].guess.Unrecorded? && s.reqs[r].guess.code in cs
  }

  lemma {:induction false} ComparisonsAddUp(s: Sys, cs: set<Id>, bound: nat)
    requires forall c | c in cs :: |Drawers(s, c)| <= bound
    ensures |ComparisonsOver(s, cs)| <= bound * |cs| + |LostOver(s, cs)|
    decreases |cs|
  {
    if cs == {} {
      assert ComparisonsOver(s, cs) == {};
    } else {
      var c :| c in cs;
      var rest := cs - {c};
      ComparisonsAddUp(s, rest, bound);
      SplitOff(s, cs, c);
      CodeComparisons(s, c);
      assert bound * |cs| == bound * |rest| + bound;
    }
  }

  lemma SplitOff(s: Sys, cs: set<Id>, c: Id)
    requires c in cs
    ensures |ComparisonsOver(s, cs)| <= |ComparisonsOver(s, cs - {c})| + |Comparisons(s, c)|
    ensures |LostOver(s, cs)| == |LostOver(s, cs - {c})| + |Lost(s, c)|
  {
    var rest := cs - {c};
    assert ComparisonsOver(s, cs) == ComparisonsOver(s, rest) + Comparisons(s, c);
    UnionSize(ComparisonsOver(s, rest), Comparisons(s, c));
    assert LostOver(s, cs) == LostOver(s, rest) + Lost(s, c);
    UnionSize(LostOver(s, rest), Lost(s, c));
  }

  lemma CodeComparisons(s: Sys, c: Id)
    ensures |Comparisons(s, c)| <= |Drawers(s, c)| + |Lost(s, c)|
  {
    SubsetSize(Comparisons(s, c), Drawers(s, c) + Lost(s, c));
    UnionSize(Drawers(s, c), Lost(s, c));
  }

  /** The comparisons made for an address, over the whole run, number at most (4 + k) for each code
      stored for it, plus the guesses whose write failed. Without overlap that is 5 for each code. */
  lemma GuessBudget(cfg: Config, clock: Time, evs: seq<Event>, k: nat, email: string)
    requires Within(cfg, Init(clock), evs, k, VerifiesInFlight)
    ensures var s := Run(cfg, Init(clock), evs);
            |ComparisonsOver(s, CodesOf(s, email))|
              <= (MAX_VERIFICATION_ATTEMPTS - 1 + k) * |CodesOf(s, email)| + |LostOver(s, CodesOf(s, email))|
  {
    var s := Run(cfg, Init(clock), evs);
    RunKeepsBudget(cfg, Init(clock), evs, k);
    ComparisonsAddUp(s, CodesOf(s, email), MAX_VERIFICATION_ATTEMPTS - 1 + k);
  }

  /** And each single code is compared at most 4 + k times, plus the guesses whose write failed. */
  lemma CodeGuessBudget(cfg: Config, clock: Time, evs: seq<Event>, k: nat, c: Id)
    requires Within(cfg, Init(clock), evs, k, VerifiesInFlight)
    requires c in Run(cfg, Init(clock), evs).db.codes
    ensures var s := Run(cfg, Init(clock), evs);
            |Comparisons(s, c)| <= MAX_VERIFICATION_ATTEMPTS - 1 + k + |Lost(s, c)|
  {
    RunKeepsBudget(cfg, Init(clock), evs, k);
    CodeComparisons(Run(cfg, Init(clock), evs), c);
  }
}
