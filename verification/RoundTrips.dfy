/** What one request sets up, a later one can use: registration and login, code and verification. */
module RoundTrips {
  import opened Wrappers
  import opened Domain
  import opened Emails
  import opened Tables
  import opened Protocol
  import opened Serial
  import opened Issuing
  import B = Bulk
  import A = Answers

  // ---------------------------------------------------------------- register, then log in

  /** A login of an account with a password succeeds exactly when bcrypt accepts the password. */
  lemma LoginAlone(cfg: Config, db: Db, email: string, password: string, user: User, w: Ticks)
    requires FindUserByEmail(db, NormalizeEmail(email)) == Some(user) && user.passwordHash.Some? && user.id in db.users
    requires Smooth(w) && Fresh(cfg, db, w(1))
    ensures Answer(Serve(cfg, db, Login(email, password), w)).response
            == if cfg.matches(user.passwordHash.value, password) then Granted(NewPair(cfg, user, w(1)), None)
               else Refused(InvalidCredentials)
  {
    var q := NewRequest(Login(email, password));
    Unroll(cfg, db, q, w, 0);
    if cfg.matches(user.passwordHash.value, password) {
      MintAlone(cfg, db, q.Goto(Mint(ByPassword, user)), w, 1);
    }
  }

  lemma RegisteredIsFound(cfg: Config, db: Db, item: B.BulkItem, w: Ticks)
    requires Constraints(db)
    ensures var o, user := B.RegisterOutcome(cfg, db, item, w), B.NewUser(item, w);
            o.response.Replied? ==>
              && o.response == Replied(Registered(user)) && user.id in o.db.users
              && FindUserByEmail(o.db, NormalizeEmail(item.email)) == Some(user)
  {
    var o, user := B.RegisterOutcome(cfg, db, item, w), B.NewUser(item, w);
    InsertUserKeepsConstraints(db, user, w(2).ok);
    UniqueLookups(InsertUser(db, user, w(2).ok).db);
  }

  /** After a registration, a login under any spelling of the address that normalises to the same one
      is granted exactly for the passwords bcrypt matches with the stored hash, and then for the new
      account with its one role. */
  lemma RegisterThenLogin(cfg: Config, db: Db, item: B.BulkItem, w: Ticks, email: string, password: string, w': Ticks)
    requires Constraints(db) && NormalizeEmail(email) == NormalizeEmail(item.email)
    requires var o := Answer(Serve(cfg, db, Register(item.email, item.password, item.name), w));
             o.response.Replied? && Smooth(w') && Fresh(cfg, o.db, w'(1))
    ensures var o := Answer(Serve(cfg, db, Register(item.email, item.password, item.name), w));
            var answer := Answer(Serve(cfg, o.db, Login(email, password), w')).response;
            if cfg.matches(w(1).value, password)
            then answer.Granted? && answer.pair.access.sub == w(1).id && answer.pair.access.roles == [ROLE_CUSTOMER]
                 && answer.pair.access.email == NormalizeEmail(item.email)
            else answer == Refused(InvalidCredentials)
  {
    B.RegisterAlone(cfg, db, item, w);
    RegisteredIsFound(cfg, db, item, w);
    var o := B.RegisterOutcome(cfg, db, item, w);
    LoginAlone(cfg, o.db, email, password, B.NewUser(item, w), w');
  }

  // ---------------------------------------------------------------- request a code, then verify it

  /** Row `c` holds `record` and is what the database finds for its address. */
  ghost predicate Current(db: Db, c: Id, record: VerificationCode) {
    && c in db.codes && db.codes[c] == record && record.id == c && IsLatest(db, record.email, c)
  }

  /** The row of a code drawn and dated by the first tick of a request. */
  function SentCode(cfg: Config, email: string, t: Tick): VerificationCode {
    VerificationCode(t.id, NormalizeEmail(email), cfg.digest(t.value), t.now + VERIFICATION_CODE_TTL, None, 0, t.now)
  }

  function Sent(n: Written, mailed: bool): Outcome {
    Outcome(n.db, if n.ok && mailed then Replied(CodeSent) else Refused(Unavailable))
  }

  function RequestOutcome(cfg: Config, db: Db, email: string, w: Ticks): Outcome {
    if w(0).ok && IsSixDigits(w(0).value)
    then Sent(InsertCode(db, SentCode(cfg, email, w(0)), w(1).ok), w(2).ok)
    else Outcome(db, Refused(Unavailable))
  }

  /** A code request run alone, in closed form. */
  lemma RequestAlone(cfg: Config, db: Db, email: string, w: Ticks)
    ensures Answer(Serve(cfg, db, RequestCode(email), w)) == RequestOutcome(cfg, db, email, w)
  {
    var q := NewRequest(RequestCode(email));
    Unroll(cfg, db, q, w, 0);
    if w(0).ok && IsSixDigits(w(0).value) {
      StoreAlone(cfg, db, q.Goto(StoreCode(SentCode(cfg, email, w(0)), w(0).value)), w);
    }
  }

  lemma StoreAlone(cfg: Config, db: Db, q: Req, w: Ticks)
    requires q.pc.StoreCode?
    ensures Answer(RunAlone(cfg, db, q, w, 1)) == Sent(InsertCode(db, q.pc.record, w(1).ok), w(2).ok)
  {
    Unroll(cfg, db, q, w, 1);
    var n := InsertCode(db, q.pc.record, w(1).ok);
    if n.ok {
      Unroll(cfg, n.db, q.Goto(SendCode(q.pc.record, q.pc.code)), w, 2);
    }
  }

  lemma ReadAlone(cfg: Config, db: Db, email: string, code: string, c: Id, record: VerificationCode, w: Ticks)
    requires Current(db, c, record) && record.email == NormalizeEmail(email) && w(0).ok && w(0).pick == c
    ensures Serve(cfg, db, VerifyCode(email, code), w)
            == RunAlone(cfg, db, NewRequest(VerifyCode(email, code)).Goto(Inspect(record, record.email, code)), w, 1)
  {
    assert ComesFirst(db, record.email, c, c);
    assert FindLatestByEmail(db, record.email, c, true) == Hit(record);
    Unroll(cfg, db, NewRequest(VerifyCode(email, code)), w, 0);
  }

  /** A wrong guess at an unconsumed, unexpired code. */
  lemma MissAlone(cfg: Config, db: Db, email: string, guess: string, c: Id, record: VerificationCode, w: Ticks)
    requires Current(db, c, record) && record.email == NormalizeEmail(email)
    requires record.consumedAt.None? && w(1).now <= record.expiresAt && cfg.digest(guess) != record.codeHash
    requires Smooth(w) && w(0).pick == c
    ensures var o := Answer(Serve(cfg, db, VerifyCode(email, guess), w));
            if record.attempts >= MAX_VERIFICATION_ATTEMPTS then o == Outcome(db, Refused(TooManyAttempts))
            else
              o == Outcome(db.(codes := db.codes[c := record.(attempts := record.attempts + 1)]), Refused(CodeInvalid))
  {
    var q := NewRequest(VerifyCode(email, guess)).Goto(Inspect(record, record.email, guess));
    ReadAlone(cfg, db, email, guess, c, record, w);
    if record.attempts < MAX_VERIFICATION_ATTEMPTS {
      InspectMisses(cfg, db, q, w, 1);
    } else {
      Unroll(cfg, db, q, w, 1);
    }
  }

  /** A snapshot that passes the check and a wrong guess: the row as it is stored now gains an attempt. */
  lemma InspectMisses(cfg: Config, db: Db, q: Req, w: Ticks, k: nat)
    requires q.pc.Inspect? && q.pc.record.id in db.codes && w(k + 1).ok
    requires q.pc.record.consumedAt.None? && q.pc.record.attempts < MAX_VERIFICATION_ATTEMPTS
    requires w(k).now <= q.pc.record.expiresAt && cfg.digest(q.pc.code) != q.pc.record.codeHash
    ensures var m := RunAlone(cfg, db, q, w, k);
            && m.req.Terminal()
            && Answer(m) == Outcome(IncrementAttempts(db, q.pc.record.id, true).db, Refused(CodeInvalid))
  {
    Unroll(cfg, db, q, w, k);
    Unroll(cfg, db, q.(pc := CountMiss(q.pc.record), guess := Pending(q.pc.record.id)), w, k + 1);
  }

  /** Wrong guesses served one after the other. */
  ghost function ServeMisses(cfg: Config, db: Db, email: string, guesses: seq<(string, Ticks)>): Db
    decreases |guesses|
  {
    if guesses == [] then db
    else
      var last := guesses[|guesses| - 1];
      Serve(cfg, ServeMisses(cfg, db, email, guesses[..|guesses| - 1]), VerifyCode(email, last.0), last.1).db
  }

  ghost predicate AllMiss(cfg: Config, guesses: seq<(string, Ticks)>, c: Id, record: VerificationCode) {
    forall i | 0 <= i < |guesses| ::
      && cfg.digest(guesses[i].0) != record.codeHash && guesses[i].1(1).now <= record.expiresAt
      && Smooth(guesses[i].1) && guesses[i].1(0).pick == c
  }

  function Capped(n: nat): nat {
    if n < MAX_VERIFICATION_ATTEMPTS then n else MAX_VERIFICATION_ATTEMPTS
  }

  lemma StaysCurrent(db: Db, c: Id, record: VerificationCode, attempts: nat)
    requires Current(db, c, record)
    ensures Current(db.(codes := db.codes[c := record.(attempts := attempts)]), c, record.(attempts := attempts))
  {
  }

  /** Wrong guesses are counted up to five and change nothing else. */
  lemma {:induction false} MissesCount(cfg: Config, db: Db, email: string, guesses: seq<(string, Ticks)>,
                                       c: Id, record: VerificationCode)
    requires Current(db, c, record) && record.email == NormalizeEmail(email)
    requires record.consumedAt.None? && record.attempts == 0 && AllMiss(cfg, guesses, c, record)
    ensures ServeMisses(cfg, db, email, guesses)
            == db.(codes := db.codes[c := record.(attempts := Capped(|guesses|))])
    decreases |guesses|
  {
    if guesses == [] {
      assert db.codes[c := record.(attempts := 0)] == db.codes;
    } else {
      var front, last := guesses[..|guesses| - 1], guesses[|guesses| - 1];
      MissesCount(cfg, db, email, front, c, record);
      OneMoreMiss(cfg, db, ServeMisses(cfg, db, email, front), email, last.0, c, record, |front|, last.1);
    }
  }

  lemma OneMoreMiss(cfg: Config, db: Db, now: Db, email: string, guess: string,
                    c: Id, record: VerificationCode, n: nat, w: Ticks)
    requires Current(db, c, record) && record.email == NormalizeEmail(email) && record.consumedAt.None?
    requires now == db.(codes := db.codes[c := record.(attempts := Capped(n))])
    requires cfg.digest(guess) != record.codeHash && w(1).now <= record.expiresAt && Smooth(w) && w(0).pick == c
    ensures Serve(cfg, now, VerifyCode(email, guess), w).db
            == db.(codes := db.codes[c := record.(attempts := Capped(n + 1))])
  {
    StaysCurrent(db, c, record, Capped(n));
    MissAlone(cfg, now, email, guess, c, record.(attempts := Capped(n)), w);
  }

  /** Nothing in the tables stands in the way of creating the account or storing the token. */
  ghost predicate RoomFor(cfg: Config, db: Db, address: string, w: Ticks, k: nat) {
    && |address| <= 255 && w(k).id !in db.users
    && (forall j: nat | j == k + 1 || j == k + 2 :: Fresh(cfg, db, w(j)))
  }

  lemma FindAlone(cfg: Config, db: Db, q: Req, w: Ticks, k: nat)
    requires q.pc.FindAccount? && !q.pc.grant.ByGoogle? && q.pc.name == q.pc.email
    requires Constraints(db) && Smooth(w) && RoomFor(cfg, db, q.pc.email, w, k)
    ensures var response := Respond(RunAlone(cfg, db, q, w, k).req.pc);
            response.Granted? && response.pair.access.email == q.pc.email
    ensures RunAlone(cfg, db, q, w, k).db.codes == db.codes
  {
    Unroll(cfg, db, q, w, k);
    match FindUserByEmail(db, q.pc.email) {
      case Some(user) =>
        MintAlone(cfg, db, q.Goto(Mint(q.pc.grant, user)), w, k + 1);
      case None =>
        var user := Passwordless(w(k).id, q.pc.email, q.pc.name, w(k).now);
        CreateAlone(cfg, db, q.Goto(CreateAccount(q.pc.grant, user)), w, k + 1);
    }
  }

  lemma CreateAlone(cfg: Config, db: Db, q: Req, w: Ticks, k: nat)
    requires q.pc.CreateAccount? && !q.pc.grant.ByGoogle? && AdmitsUser(db, q.pc.user)
    requires Smooth(w) && Fresh(cfg, db, w(k + 1))
    ensures var response := Respond(RunAlone(cfg, db, q, w, k).req.pc);
            response.Granted? && response.pair.access.email == q.pc.user.email
    ensures RunAlone(cfg, db, q, w, k).db.codes == db.codes
  {
    Unroll(cfg, db, q, w, k);
    MintAlone(cfg, InsertUser(db, q.pc.user, true).db, q.Goto(Mint(q.pc.grant, q.pc.user)), w, k + 1);
  }

  lemma HitAlone(cfg: Config, db: Db, email: string, code: string, c: Id, record: VerificationCode, w: Ticks)
    requires Current(db, c, record) && record.email == NormalizeEmail(email) && Constraints(db)
    requires record.consumedAt.None? && cfg.digest(code) == record.codeHash
    requires Smooth(w) && w(0).pick == c && RoomFor(cfg, db, record.email, w, 3)
    ensures var o := Answer(Serve(cfg, db, VerifyCode(email, code), w));
            if w(1).now > record.expiresAt then o == Outcome(db, Refused(CodeInvalid))
            else if record.attempts >= MAX_VERIFICATION_ATTEMPTS then o == Outcome(db, Refused(TooManyAttempts))
            else
              && o.response.Granted? && o.response.pair.access.email == record.email
              && c in o.db.codes && o.db.codes[c].consumedAt.Some?
  {
    var q := NewRequest(VerifyCode(email, code));
    ReadAlone(cfg, db, email, code, c, record, w);
    Unroll(cfg, db, q.Goto(Inspect(record, record.email, code)), w, 1);
    if w(1).now <= record.expiresAt && record.attempts < MAX_VERIFICATION_ATTEMPTS {
      RedeemAlone(cfg, db, q.(pc := Redeem(record, record.email), guess := Pending(c)), w);
    }
  }

  lemma RedeemAlone(cfg: Config, db: Db, q: Req, w: Ticks)
    requires q.pc.Redeem? && q.pc.record.id in db.codes && Constraints(db)
    requires Smooth(w) && RoomFor(cfg, db, q.pc.email, w, 3)
    ensures var m := RunAlone(cfg, db, q, w, 2);
            && Respond(m.req.pc).Granted? && Respond(m.req.pc).pair.access.email == q.pc.email
            && q.pc.record.id in m.db.codes && m.db.codes[q.pc.record.id].consumedAt.Some?
  {
    Unroll(cfg, db, q, w, 2);
    MarkConsumedKeepsConstraints(db, q.pc.record.id, w(2).now, true);
    var db' := MarkConsumed(db, q.pc.record.id, w(2).now, true).db;
    var q' := q.(pc := FindAccount(ByCode(q.pc.record), q.pc.email, q.pc.email), guess := Redeemed(q.pc.record.id));
    FindAlone(cfg, db', q', w, 3);
  }

  /** A code that was sent signs its address in, after any number of wrong guesses, exactly when there
      were fewer than five of them and no more than ten minutes have passed. The code is consumed then, and
      the pair is for the account of the address, untouched, or for the one added, named by the address. */
  lemma RequestThenVerify(cfg: Config, db: Db, email: string, w: Ticks, guesses: seq<(string, Ticks)>, w': Ticks)
    requires Constraints(db) && Answer(Serve(cfg, db, RequestCode(email), w)).response == Replied(CodeSent)
    requires forall i | i in db.codes && db.codes[i].email == NormalizeEmail(email) :: db.codes[i].createdAt <= w(0).now
    requires AllMiss(cfg, guesses, w(0).id, SentCode(cfg, email, w(0)))
    requires Smooth(w') && w'(0).pick == w(0).id && RoomFor(cfg, db, NormalizeEmail(email), w', 3)
    ensures var sent := Serve(cfg, db, RequestCode(email), w).db;
            var o := Answer(Serve(cfg, ServeMisses(cfg, sent, email, guesses), VerifyCode(email, w(0).value), w'));
            if w'(1).now > w(0).now + VERIFICATION_CODE_TTL then o.response == Refused(CodeInvalid)
            else if |guesses| >= MAX_VERIFICATION_ATTEMPTS then o.response == Refused(TooManyAttempts)
            else
              && A.Serves(db, NormalizeEmail(email), NormalizeEmail(email), w'(3), o)
              && w(0).id in o.db.codes && o.db.codes[w(0).id].consumedAt.Some?
  {
    RequestAlone(cfg, db, email, w);
    var sent := Serve(cfg, db, RequestCode(email), w).db;
    MissThenHit(cfg, sent, email, w(0).value, guesses, w(0).id, SentCode(cfg, email, w(0)), w');
  }

  lemma MissThenHit(cfg: Config, db: Db, email: string, code: string, guesses: seq<(string, Ticks)>,
                    c: Id, record: VerificationCode, w: Ticks)
    requires Constraints(db) && Current(db, c, record) && record.email == NormalizeEmail(email)
    requires record.consumedAt.None? && record.attempts == 0 && record.codeHash == cfg.digest(code)
    requires AllMiss(cfg, guesses, c, record)
    requires Smooth(w) && w(0).pick == c && RoomFor(cfg, db, record.email, w, 3)
    ensures var o := Answer(Serve(cfg, ServeMisses(cfg, db, email, guesses), VerifyCode(email, code), w));
            if w(1).now > record.expiresAt then o.response == Refused(CodeInvalid)
            else if |guesses| >= MAX_VERIFICATION_ATTEMPTS then o.response == Refused(TooManyAttempts)
            else
              && A.Serves(db, record.email, record.email, w(3), o)
              && c in o.db.codes && o.db.codes[c].consumedAt.Some?
  {
    MissesCount(cfg, db, email, guesses, c, record);
    StaysCurrent(db, c, record, Capped(|guesses|));
    var tried := db.(codes := db.codes[c := record.(attempts := Capped(|guesses|))]);
    assert Constraints(tried);
    HitAlone(cfg, tried, email, code, c, record.(attempts := Capped(|guesses|)), w);
    if w(1).now <= record.expiresAt && |guesses| < MAX_VERIFICATION_ATTEMPTS {
      A.CodeSignInServes(cfg, tried, email, code, w);
    }
  }
}
