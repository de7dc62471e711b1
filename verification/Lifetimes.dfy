/** The dates of every pair that is ever answered, and of the tokens stored for them. */
module Lifetimes {
  import opened Domain
  import opened Emails
  import opened Claims
  import opened Tables
  import opened Protocol
  import opened System
  import opened Serial
  import opened Schedules
  import opened Invariants
  import opened Reachability
  import B = CodeBudgetExact
  import R = RotationTight
  import U = SingleUse

  /** The whole seconds of a duration, without their sign. */
  function Whole(d: Time): int {
    if d >= 0 then d / 1_000_000_000 else -(-d / 1_000_000_000)
  }

  lemma WholeIsWhole(n: int, d: Time)
    requires WholeOfDuration(n, d)
    ensures n == Whole(d)
  {
  }

  lemma SecondOf(n: int, t: Time)
    requires InSecond(n, t)
    ensures n == t / 1_000_000_000
  {
  }

  /** Every pair answered in any run is dated by one instant, the creation of its row: the access token
      runs from the second of that instant to the second an access TTL later, the refresh token for the
      refresh TTL, and what is reported are the whole seconds of the access TTL. */
  lemma IssuedTimes(cfg: Config, s: Sys, r: ReqId)
    requires Reachable(cfg, s) && r in s.reqs && s.reqs[r].pc.Issued?
    ensures var row, pair := s.reqs[r].pc.row, s.reqs[r].pc.pair;
            var now := row.createdAt;
            && pair.access.iat == now / 1_000_000_000
            && pair.access.exp == (now + cfg.accessTtl) / 1_000_000_000
            && pair.expiresIn == Whole(cfg.accessTtl)
            && row.id in s.db.tokens
            && s.db.tokens[row.id].createdAt == now && s.db.tokens[row.id].expiresAt == now + cfg.refreshTtl
  {
    var row, pair := s.reqs[r].pc.row, s.reqs[r].pc.pair;
    assert Timely(cfg, row, pair) && KnownToken(s.db, row) by {
      ReachableInv(cfg, s);
      IssuedFacts(cfg, s.db, s.reqs[r]);
    }
    SecondOf(pair.access.iat, row.createdAt);
    SecondOf(pair.access.exp, row.createdAt + cfg.accessTtl);
    WholeIsWhole(pair.expiresIn, cfg.accessTtl);
  }

  /** The access token of an answered pair lives as long as the answer says. */
  ghost predicate Agrees(pair: TokenPair) {
    pair.access.exp - pair.access.iat == pair.expiresIn
  }

  /** An instant whose fraction makes the two roundings differ. */
  function OddInstant(ttl: Time): Time {
    if ttl >= 0 then (1_000_000_000 - ttl % 1_000_000_000) % 1_000_000_000 else 0
  }

  lemma OddInstantDiffers(ttl: Time)
    ensures 0 <= OddInstant(ttl) < 1_000_000_000
    ensures ttl % 1_000_000_000 != 0 ==>
              (OddInstant(ttl) + ttl) / 1_000_000_000 - OddInstant(ttl) / 1_000_000_000 != Whole(ttl)
  {
  }

  lemma EvenSeconds(now: Time, ttl: Time)
    requires ttl % 1_000_000_000 == 0
    ensures (now + ttl) / 1_000_000_000 - now / 1_000_000_000 == Whole(ttl)
  {
  }

  /** One verification is answered with a pair dated by `t`. */
  lemma PaidAt(cfg: Config, g: B.Setting, t: Tick) returns (s: Sys)
    requires U.Drawable(cfg, g, [t.(now := 0)]) && 0 <= t.now < 1_000_000_000
    ensures Reachable(cfg, s) && 1 in s.reqs && s.reqs[1].pc.Issued? && s.reqs[1].pc.row.createdAt == t.now
  {
    var read, s1 := R.ReadOnce(cfg, g);
    assert Reachable(cfg, s1);
    var q := s1.reqs[1];
    assert [t.(now := 0)][0].(now := t.now) == t;
    assert q.pc.Inspect? && U.Entitled(cfg, q, g.id, t.now);
    assert Respond(RunAlone(cfg, s1.db, q, Always(t), 1).req.pc).Granted? by {
      ReachableInv(cfg, s1);
      U.ReachableFits(cfg, s1);
      U.EntitledAlone(cfg, s1.db, q, t, g.id);
    }
    U.RunRedeems(cfg, s1.db, q, t, 1, g.id);
    TurnsRunAlone(cfg, s1, 1, Always(t), 1, 7);
    s := Run(cfg, s1, Turns(1, Always(t), 1, 7));
    ReachableExtends(cfg, s1, Turns(1, Always(t), 1, 7));
  }

  /** Over all runs, every answered pair agrees with what is reported about it if and only if the access
      TTL is a whole number of seconds. */
  lemma LifetimesAgreeIff(cfg: Config, g: B.Setting, t: Tick)
    requires U.Drawable(cfg, g, [t])
    ensures (forall s, r | Reachable(cfg, s) && r in s.reqs && s.reqs[r].pc.Issued? :: Agrees(s.reqs[r].pc.pair))
            <==> cfg.accessTtl % 1_000_000_000 == 0
  {
    if cfg.accessTtl % 1_000_000_000 == 0 {
      forall s, r | Reachable(cfg, s) && r in s.reqs && s.reqs[r].pc.Issued?
        ensures Agrees(s.reqs[r].pc.pair)
      {
        IssuedTimes(cfg, s, r);
        EvenSeconds(s.reqs[r].pc.row.createdAt, cfg.accessTtl);
      }
    } else {
      var s := DisagreesSomewhere(cfg, g, t);
      assert 1 in s.reqs && !Agrees(s.reqs[1].pc.pair);
    }
  }

  lemma DisagreesSomewhere(cfg: Config, g: B.Setting, t: Tick) returns (s: Sys)
    requires U.Drawable(cfg, g, [t]) && cfg.accessTtl % 1_000_000_000 != 0
    ensures Reachable(cfg, s) && 1 in s.reqs && s.reqs[1].pc.Issued? && !Agrees(s.reqs[1].pc.pair)
  {
    var now := OddInstant(cfg.accessTtl);
    OddInstantDiffers(cfg.accessTtl);
    assert [t][0].now == 0;
    assert t.(now := now).(now := 0) == t;
    s := PaidAt(cfg, g, t.(now := now));
    IssuedTimes(cfg, s, 1);
  }

  /** What is handed to the mailer: the code whose hash is stored for the address, before it is used. */
  lemma MailedCodeMatches(cfg: Config, s: Sys, r: ReqId)
    requires Reachable(cfg, s) && r in s.reqs && s.reqs[r].pc.SendCode?
    ensures var record, code := s.reqs[r].pc.record, s.reqs[r].pc.code;
            && s.reqs[r].input.RequestCode? && IsSixDigits(code)
            && record.id in s.db.codes && s.db.codes[record.id].codeHash == cfg.digest(code)
            && s.db.codes[record.id].email == record.email == NormalizeEmail(s.reqs[r].input.email)
  {
    ReachableInv(cfg, s);
    assert ReqInv(cfg, s.db, s.reqs[r]);
  }
}
