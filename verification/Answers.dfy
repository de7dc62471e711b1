/** What each use case answers, and what it leaves in the tables, written out from beginning to end:
    every branch, every failure, every field of every row and claim, with the constants spelt out. */
module Answers {
  import opened Wrappers
  import opened Domain
  import opened Emails
  import opened Claims
  import opened Tables
  import opened Protocol
  import opened Serial
  import opened Invariants

  // ---------------------------------------------------------------- a pair

  /** Row and pair for `u`, drawn and dated by one tick. */
  ghost predicate Drawn(cfg: Config, u: User, t: Tick, row: RefreshToken, pair: TokenPair) {
    && row.id == t.id && row.userId == u.id && row.tokenHash == cfg.digest(t.value)
    && row.createdAt == t.now && row.expiresAt == t.now + cfg.refreshTtl && row.revokedAt == None
    && pair.refresh == t.value
    && pair.access.sub == u.id && pair.access.email == u.email
    && pair.access.name == u.name && pair.access.roles == u.roles
    && InSecond(pair.access.iat, t.now) && InSecond(pair.access.exp, t.now + cfg.accessTtl)
    && WholeOfDuration(pair.expiresIn, cfg.accessTtl)
  }

  /** The row drawn by `t` for `u` may be stored. */
  ghost predicate TokenFits(cfg: Config, db: Db, u: User, t: Tick) {
    && t.id !in db.tokens && u.id in db.users && |cfg.digest(t.value)| <= 64
    && forall i | i in db.tokens :: db.tokens[i].tokenHash != cfg.digest(t.value)
  }

  /** A pair for `u` is answered and exactly its row is added, or nothing is. */
  ghost predicate Issues(cfg: Config, db: Db, u: User, redirectTo: Option<string>,
                         mint: Tick, store: Tick, o: Outcome)
  {
    if mint.ok && store.ok && TokenFits(cfg, db, u, mint) then
      && mint.id in o.db.tokens && o.response.Granted? && o.response.redirectTo == redirectTo
      && o.db == db.(tokens := db.tokens[mint.id := o.db.tokens[mint.id]])
      && Drawn(cfg, u, mint, o.db.tokens[mint.id], o.response.pair)
    else o == Outcome(db, Refused(Unavailable))
  }

  ghost predicate UserFits(db: Db, u: User) {
    && u.id !in db.users && (forall i | i in db.users :: db.users[i].email != u.email)
    && |u.email| <= 255 && |u.name| <= 255 && (u.passwordHash.Some? ==> |u.passwordHash.value| <= 255)
  }

  /** A pair for the account with the address; if there is none, one without a password is added. */
  ghost predicate SignsIn(cfg: Config, db: Db, email: string, name: string, redirectTo: Option<string>,
                          w: Ticks, k: nat, o: Outcome)
  {
    if !w(k).ok then o == Outcome(db, Refused(Unavailable))
    else match FindUserByEmail(db, email)
      case Some(u) => Issues(cfg, db, u, redirectTo, w(k + 1), w(k + 2), o)
      case None =>
        var u := User(w(k).id, email, None, name, ["CUSTOMER"], w(k).now, w(k).now);
        if w(k + 1).ok && UserFits(db, u)
        then Issues(cfg, db.(users := db.users[u.id := u]), u, redirectTo, w(k + 2), w(k + 3), o)
        else o == Outcome(db, Refused(Unavailable))
  }

  function RedirectOf(grant: Grant): Option<string> {
    if grant.ByGoogle? then Some(grant.redirectTo) else None
  }

  lemma PersistIssues(cfg: Config, db: Db, q: Req, mint: Tick, w: Ticks, k: nat)
    requires q.pc.Persist? && mint.ok
    requires q.pc.row == NewRow(cfg, q.pc.user, mint) && q.pc.pair == NewPair(cfg, q.pc.user, mint)
    ensures Issues(cfg, db, q.pc.user, RedirectOf(q.pc.grant), mint, w(k), Answer(RunAlone(cfg, db, q, w, k)))
  {
    MintIsTimely(cfg, q.pc.user, mint);
    Unroll(cfg, db, q, w, k);
    assert AdmitsToken(db, q.pc.row) <==> TokenFits(cfg, db, q.pc.user, mint);
  }

  lemma MintIssues(cfg: Config, db: Db, q: Req, w: Ticks, k: nat)
    requires q.pc.Mint?
    ensures Issues(cfg, db, q.pc.user, RedirectOf(q.pc.grant), w(k), w(k + 1), Answer(RunAlone(cfg, db, q, w, k)))
  {
    Unroll(cfg, db, q, w, k);
    if w(k).ok {
      var row, pair := NewRow(cfg, q.pc.user, w(k)), NewPair(cfg, q.pc.user, w(k));
      PersistIssues(cfg, db, q.Goto(Persist(q.pc.grant, q.pc.user, row, pair)), w(k), w, k + 1);
    }
  }

  lemma FindSignsIn(cfg: Config, db: Db, q: Req, w: Ticks, k: nat)
    requires q.pc.FindAccount?
    ensures SignsIn(cfg, db, q.pc.email, q.pc.name, RedirectOf(q.pc.grant), w, k, Answer(RunAlone(cfg, db, q, w, k)))
  {
    Unroll(cfg, db, q, w, k);
    if w(k).ok {
      match FindUserByEmail(db, q.pc.email) {
        case Some(u) => MintIssues(cfg, db, q.Goto(Mint(q.pc.grant, u)), w, k + 1);
        case None =>
          var u := User(w(k).id, q.pc.email, None, q.pc.name, ["CUSTOMER"], w(k).now, w(k).now);
          CreateIssues(cfg, db, q.Goto(CreateAccount(q.pc.grant, u)), w, k + 1);
      }
    }
  }

  lemma CreateIssues(cfg: Config, db: Db, q: Req, w: Ticks, k: nat)
    requires q.pc.CreateAccount?
    ensures var u, o := q.pc.user, Answer(RunAlone(cfg, db, q, w, k));
            if w(k).ok && UserFits(db, u)
            then Issues(cfg, db.(users := db.users[u.id := u]), u, RedirectOf(q.pc.grant), w(k + 1), w(k + 2), o)
            else o == Outcome(db, Refused(Unavailable))
  {
    Unroll(cfg, db, q, w, k);
    if w(k).ok && UserFits(db, q.pc.user) {
      MintIssues(cfg, InsertUser(db, q.pc.user, true).db, q.Goto(Mint(q.pc.grant, q.pc.user)), w, k + 1);
    }
  }

  // ---------------------------------------------------------------- look-ups

  /** What the look-ups by a unique column mean, row by row. */
  lemma LookupsMean(db: Db, email: string, hash: string)
    requires Constraints(db)
    ensures match FindUserByEmail(db, email)
            case None => forall i | i in db.users :: db.users[i].email != email
            case Some(u) => u.id in db.users && db.users[u.id] == u && u.email == email
    ensures match FindByTokenHash(db, hash)
            case None => forall i | i in db.tokens :: db.tokens[i].tokenHash != hash
            case Some(row) => row.id in db.tokens && db.tokens[row.id] == row && row.tokenHash == hash
  {
  }

  // ---------------------------------------------------------------- login.go

  ghost predicate LoginAnswer(cfg: Config, db: Db, email: string, password: string, w: Ticks, o: Outcome) {
    if !w(0).ok then o == Outcome(db, Refused(Unavailable))
    else match FindUserByEmail(db, NormalizeEmail(email))
      case None => o == Outcome(db, Refused(InvalidCredentials))
      case Some(u) =>
        if u.passwordHash.None? || !cfg.matches(u.passwordHash.value, password)
        then o == Outcome(db, Refused(InvalidCredentials))
        else Issues(cfg, db, u, None, w(1), w(2), o)
  }

  lemma PasswordAnswers(cfg: Config, db: Db, email: string, password: string, u: User, w: Ticks)
    requires w(0).ok && FindUserByEmail(db, NormalizeEmail(email)) == Some(u)
    ensures var o := Answer(Serve(cfg, db, Login(email, password), w));
            if u.passwordHash.None? || !cfg.matches(u.passwordHash.value, password)
            then o == Outcome(db, Refused(InvalidCredentials))
            else Issues(cfg, db, u, None, w(1), w(2), o)
  {
    var q := NewRequest(Login(email, password));
    Unroll(cfg, db, q, w, 0);
    if u.passwordHash.Some? && cfg.matches(u.passwordHash.value, password) {
      MintIssues(cfg, db, q.Goto(Mint(ByPassword, u)), w, 1);
    }
  }

  /** An unknown address, an account without a password and a wrong password are refused alike. */
  lemma LoginAnswers(cfg: Config, db: Db, email: string, password: string, w: Ticks)
    ensures LoginAnswer(cfg, db, email, password, w, Answer(Serve(cfg, db, Login(email, password), w)))
  {
    var found := FindUserByEmail(db, NormalizeEmail(email));
    if w(0).ok && found.Some? {
      PasswordAnswers(cfg, db, email, password, found.value, w);
    } else {
      Unroll(cfg, db, NewRequest(Login(email, password)), w, 0);
    }
  }

  // ---------------------------------------------------------------- refresh.go

  function Revoked(db: Db, row: RefreshToken, now: Time): Db {
    db.(tokens := db.tokens[row.id := row.(revokedAt := Some(now))])
  }

  ghost predicate RefreshAnswer(cfg: Config, db: Db, token: string, w: Ticks, o: Outcome) {
    if !w(0).ok then o == Outcome(db, Refused(Unavailable))
    else match FindByTokenHash(db, cfg.digest(token))
      case None => o == Outcome(db, Refused(RefreshTokenInvalid))
      case Some(row) =>
        if row.revokedAt.Some? || w(1).now >= row.expiresAt then o == Outcome(db, Refused(RefreshTokenInvalid))
        else if !w(2).ok || !w(3).ok then o == Outcome(db, Refused(Unavailable))
        else
          && row.userId in db.users
          && Issues(cfg, Revoked(db, row, w(3).now), db.users[row.userId], None, w(4), w(5), o)
  }

  lemma LoadIssues(cfg: Config, db: Db, q: Req, w: Ticks)
    requires q.pc.LoadOwner? && q.pc.stored.id in db.tokens && db.tokens[q.pc.stored.id] == q.pc.stored
    ensures var row, o := q.pc.stored, Answer(RunAlone(cfg, db, q, w, 2));
            if !w(2).ok then o == Outcome(db, Refused(Unavailable))
            else if row.userId !in db.users then o == Outcome(db, Refused(UserNotFound))
            else if !w(3).ok then o == Outcome(db, Refused(Unavailable))
            else Issues(cfg, Revoked(db, row, w(3).now), db.users[row.userId], None, w(4), w(5), o)
  {
    var row := q.pc.stored;
    Unroll(cfg, db, q, w, 2);
    if w(2).ok && row.userId in db.users {
      RevokeIssues(cfg, db, q.Goto(RevokeUsed(row, db.users[row.userId])), w);
    }
  }

  lemma RevokeIssues(cfg: Config, db: Db, q: Req, w: Ticks)
    requires q.pc.RevokeUsed? && q.pc.stored.id in db.tokens && db.tokens[q.pc.stored.id] == q.pc.stored
    ensures var o := Answer(RunAlone(cfg, db, q, w, 3));
            if !w(3).ok then o == Outcome(db, Refused(Unavailable))
            else Issues(cfg, Revoked(db, q.pc.stored, w(3).now), q.pc.user, None, w(4), w(5), o)
  {
    var row := q.pc.stored;
    Unroll(cfg, db, q, w, 3);
    if w(3).ok {
      MintIssues(cfg, Revoked(db, row, w(3).now), q.Goto(Mint(ByRefresh(row), q.pc.user)), w, 4);
    }
  }

  /** A token that is unknown, revoked or expired is refused; any other is revoked before its successor
      is stored, and stays revoked if issuing fails. */
  lemma RefreshAnswers(cfg: Config, db: Db, token: string, w: Ticks)
    requires Constraints(db)
    ensures RefreshAnswer(cfg, db, token, w, Answer(Serve(cfg, db, Refresh(token), w)))
  {
    var q, found := NewRequest(Refresh(token)), FindByTokenHash(db, cfg.digest(token));
    LookupsMean(db, "", cfg.digest(token));
    Unroll(cfg, db, q, w, 0);
    if w(0).ok && found.Some? {
      ValidateAnswers(cfg, db, q.Goto(Validate(found.value)), w);
    }
  }

  lemma ValidateAnswers(cfg: Config, db: Db, q: Req, w: Ticks)
    requires q.pc.Validate? && q.pc.stored.id in db.tokens && db.tokens[q.pc.stored.id] == q.pc.stored
    requires q.pc.stored.userId in db.users
    ensures var row, o := q.pc.stored, Answer(RunAlone(cfg, db, q, w, 1));
            if row.revokedAt.Some? || w(1).now >= row.expiresAt then o == Outcome(db, Refused(RefreshTokenInvalid))
            else if !w(2).ok || !w(3).ok then o == Outcome(db, Refused(Unavailable))
            else Issues(cfg, Revoked(db, row, w(3).now), db.users[row.userId], None, w(4), w(5), o)
  {
    Unroll(cfg, db, q, w, 1);
    if q.pc.stored.revokedAt.None? && w(1).now < q.pc.stored.expiresAt {
      LoadIssues(cfg, db, q.Goto(LoadOwner(q.pc.stored)), w);
    }
  }

  // ---------------------------------------------------------------- logout.go

  ghost predicate LogoutAnswer(cfg: Config, db: Db, token: string, w: Ticks, o: Outcome) {
    if !w(0).ok then o == Outcome(db, Refused(Unavailable))
    else match FindByTokenHash(db, cfg.digest(token))
      case None => o == Outcome(db, Replied(LoggedOut))
      case Some(row) =>
        o == if w(1).ok then Outcome(Revoked(db, row, w(1).now), Replied(LoggedOut))
             else Outcome(db, Refused(Unavailable))
  }

  /** An unknown token is logged out already; a known one is revoked, again if need be. */
  lemma LogoutAnswers(cfg: Config, db: Db, token: string, w: Ticks)
    requires Constraints(db)
    ensures LogoutAnswer(cfg, db, token, w, Answer(Serve(cfg, db, Logout(token), w)))
  {
    var q, found := NewRequest(Logout(token)), FindByTokenHash(db, cfg.digest(token));
    LookupsMean(db, "", cfg.digest(token));
    Unroll(cfg, db, q, w, 0);
    if w(0).ok && found.Some? {
      RevokeAnswers(cfg, db, q.Goto(RevokeOnly(found.value)), w);
    }
  }

  lemma RevokeAnswers(cfg: Config, db: Db, q: Req, w: Ticks)
    requires q.pc.RevokeOnly? && q.pc.stored.id in db.tokens && db.tokens[q.pc.stored.id] == q.pc.stored
    ensures Answer(RunAlone(cfg, db, q, w, 1))
            == if w(1).ok then Outcome(Revoked(db, q.pc.stored, w(1).now), Replied(LoggedOut))
               else Outcome(db, Refused(Unavailable))
  {
    Unroll(cfg, db, q, w, 1);
  }

  // ---------------------------------------------------------------- register.go

  ghost predicate RegisterAnswer(cfg: Config, db: Db, email: string, password: string, name: string,
                                 w: Ticks, o: Outcome)
  {
    var address := NormalizeEmail(email);
    if !w(0).ok then o == Outcome(db, Refused(Unavailable))
    else if exists i | i in db.users :: db.users[i].email == address then o == Outcome(db, Refused(EmailAlreadyExists))
    else
      var u := User(w(1).id, address, Some(w(1).value), name, ["CUSTOMER"], w(1).now, w(1).now);
      if w(1).ok && cfg.hashable(password) && w(2).ok && UserFits(db, u)
      then o == Outcome(db.(users := db.users[u.id := u]), Replied(Registered(u)))
      else o == Outcome(db, Refused(Unavailable))
  }

  /** A known address is refused; otherwise one customer with a hashed password is added. */
  lemma RegisterAnswers(cfg: Config, db: Db, email: string, password: string, name: string, w: Ticks)
    ensures RegisterAnswer(cfg, db, email, password, name, w,
                           Answer(Serve(cfg, db, Register(email, password, name), w)))
  {
    var q, address := NewRequest(Register(email, password, name)), NormalizeEmail(email);
    Unroll(cfg, db, q, w, 0);
    if w(0).ok && !ExistsByEmail(db, address) {
      HashAnswers(cfg, db, q.Goto(HashPassword(address, password, name)), w);
    }
  }

  lemma HashAnswers(cfg: Config, db: Db, q: Req, w: Ticks)
    requires q.pc.HashPassword?
    ensures var u := User(w(1).id, q.pc.email, Some(w(1).value), q.pc.name, ["CUSTOMER"], w(1).now, w(1).now);
            Answer(RunAlone(cfg, db, q, w, 1))
            == if w(1).ok && cfg.hashable(q.pc.password) && w(2).ok && UserFits(db, u)
               then Outcome(db.(users := db.users[u.id := u]), Replied(Registered(u)))
               else Outcome(db, Refused(Unavailable))
  {
    var u := User(w(1).id, q.pc.email, Some(w(1).value), q.pc.name, ["CUSTOMER"], w(1).now, w(1).now);
    Unroll(cfg, db, q, w, 1);
    if w(1).ok && cfg.hashable(q.pc.password) {
      Unroll(cfg, db, q.Goto(InsertRegistered(u)), w, 2);
      assert AdmitsUser(db, u) <==> UserFits(db, u);
    }
  }

  // ---------------------------------------------------------------- add_role.go

  function Upgraded(u: User, now: Time): User {
    u.(roles := if "SELLER" in u.roles then u.roles else u.roles + ["SELLER"], updatedAt := now)
  }

  ghost predicate AddRoleAnswer(db: Db, userId: Id, role: string, t: Tick, o: Outcome) {
    if role != "SELLER" then o == Outcome(db, Refused(InvalidRole))
    else if !t.ok then o == Outcome(db, Refused(Unavailable))
    else if userId !in db.users then o == Outcome(db, Refused(UserNotFound))
    else
      var u := Upgraded(db.users[userId], t.now);
      o == Outcome(db.(users := db.users[userId := u]), Replied(RoleAdded(u)))
  }

  /** Only SELLER can be added, an unknown user is told apart from a failure, and the answer is the row
      as it is stored then, with the role. */
  lemma AddRoleAnswers(cfg: Config, db: Db, userId: Id, role: string, w: Ticks)
    ensures AddRoleAnswer(db, userId, role, w(0), Answer(Serve(cfg, db, Input.AddRole(userId, role), w)))
  {
    Unroll(cfg, db, NewRequest(Input.AddRole(userId, role)), w, 0);
  }

  // ---------------------------------------------------------------- request_code.go

  predicate SixDigits(s: string) {
    |s| == 6 && forall i :: 0 <= i < 6 ==> '0' <= s[i] <= '9'
  }

  ghost predicate RequestAnswer(cfg: Config, db: Db, email: string, w: Ticks, o: Outcome) {
    var address, code, now := NormalizeEmail(email), w(0).value, w(0).now;
    var row := VerificationCode(w(0).id, address, cfg.digest(code), now + 600_000_000_000, None, 0, now);
    if w(0).ok && SixDigits(code) && w(1).ok && row.id !in db.codes && |address| <= 255 && |row.codeHash| <= 64
    then
      o == Outcome(db.(codes := db.codes[row.id := row]), if w(2).ok then Replied(CodeSent) else Refused(Unavailable))
    else o == Outcome(db, Refused(Unavailable))
  }

  /** A six-digit code is stored hashed, for ten minutes, and stays stored if it cannot be mailed. */
  lemma RequestAnswers(cfg: Config, db: Db, email: string, w: Ticks)
    ensures RequestAnswer(cfg, db, email, w, Answer(Serve(cfg, db, RequestCode(email), w)))
  {
    var q, code := NewRequest(RequestCode(email)), w(0).value;
    Unroll(cfg, db, q, w, 0);
    if w(0).ok && SixDigits(code) {
      var row := VerificationCode(w(0).id, NormalizeEmail(email), cfg.digest(code),
                                  w(0).now + 600_000_000_000, None, 0, w(0).now);
      StoreAnswers(cfg, db, q.Goto(StoreCode(row, code)), w);
    }
  }

  lemma StoreAnswers(cfg: Config, db: Db, q: Req, w: Ticks)
    requires q.pc.StoreCode?
    ensures var row := q.pc.record;
            Answer(RunAlone(cfg, db, q, w, 1))
            == if w(1).ok && row.id !in db.codes && |row.email| <= 255 && |row.codeHash| <= 64
               then
                 Outcome(db.(codes := db.codes[row.id := row]),
                         if w(2).ok then Replied(CodeSent) else Refused(Unavailable))
               else Outcome(db, Refused(Unavailable))
  {
    Unroll(cfg, db, q, w, 1);
    var n := InsertCode(db, q.pc.record, w(1).ok);
    if n.ok {
      Unroll(cfg, n.db, q.Goto(SendCode(q.pc.record, q.pc.code)), w, 2);
    }
  }

  // ---------------------------------------------------------------- verify_code.go

  function Missed(db: Db, row: VerificationCode): Db {
    db.(codes := db.codes[row.id := row.(attempts := row.attempts + 1)])
  }

  function Consumed(db: Db, row: VerificationCode, now: Time): Db {
    db.(codes := db.codes[row.id := row.(consumedAt := Some(now))])
  }

  /** What is made of the newest code of the address. */
  ghost predicate JudgeAnswer(cfg: Config, db: Db, email: string, code: string, row: VerificationCode,
                              w: Ticks, o: Outcome)
  {
    if row.consumedAt.Some? || w(1).now > row.expiresAt then o == Outcome(db, Refused(CodeInvalid))
    else if row.attempts >= 5 then o == Outcome(db, Refused(TooManyAttempts))
    else if !w(2).ok then o == Outcome(db, Refused(Unavailable))
    else if cfg.digest(code) != row.codeHash then o == Outcome(Missed(db, row), Refused(CodeInvalid))
    else SignsIn(cfg, Consumed(db, row, w(2).now), email, email, None, w, 3, o)
  }

  ghost predicate VerifyAnswer(cfg: Config, db: Db, email: string, code: string, w: Ticks, o: Outcome) {
    var address := NormalizeEmail(email);
    match FindLatestByEmail(db, address, w(0).pick, w(0).ok)
    case Down => o == Outcome(db, Refused(Unavailable))
    case Miss => o == Outcome(db, Refused(CodeInvalid))
    case Hit(row) => JudgeAnswer(cfg, db, address, code, row, w, o)
  }

  lemma JudgeAnswers(cfg: Config, db: Db, q: Req, w: Ticks)
    requires q.pc.Inspect? && q.pc.record.id in db.codes && db.codes[q.pc.record.id] == q.pc.record
    ensures JudgeAnswer(cfg, db, q.pc.email, q.pc.code, q.pc.record, w, Answer(RunAlone(cfg, db, q, w, 1)))
  {
    var row := q.pc.record;
    Unroll(cfg, db, q, w, 1);
    if row.consumedAt.None? && w(1).now <= row.expiresAt && row.attempts < 5 {
      if cfg.digest(q.pc.code) != row.codeHash {
        Unroll(cfg, db, q.(pc := CountMiss(row), guess := Pending(row.id)), w, 2);
      } else {
        RedeemAnswers(cfg, db, q.(pc := Redeem(row, q.pc.email), guess := Pending(row.id)), w);
      }
    }
  }

  lemma RedeemAnswers(cfg: Config, db: Db, q: Req, w: Ticks)
    requires q.pc.Redeem? && q.pc.record.id in db.codes && db.codes[q.pc.record.id] == q.pc.record
    ensures var o := Answer(RunAlone(cfg, db, q, w, 2));
            if w(2).ok then SignsIn(cfg, Consumed(db, q.pc.record, w(2).now), q.pc.email, q.pc.email, None, w, 3, o)
            else o == Outcome(db, Refused(Unavailable))
  {
    var row := q.pc.record;
    Unroll(cfg, db, q, w, 2);
    if w(2).ok {
      var q' := q.(pc := FindAccount(ByCode(row), q.pc.email, q.pc.email), guess := Redeemed(row.id));
      FindSignsIn(cfg, Consumed(db, row, w(2).now), q', w, 3);
    }
  }

  /** No code, a consumed or expired one and a wrong guess are refused alike, a used-up one apart; a right
      guess consumes the code and signs in, under the address as name if the account is new. */
  lemma VerifyAnswers(cfg: Config, db: Db, email: string, code: string, w: Ticks)
    requires Constraints(db)
    ensures VerifyAnswer(cfg, db, email, code, w, Answer(Serve(cfg, db, VerifyCode(email, code), w)))
  {
    var q, address := NewRequest(VerifyCode(email, code)), NormalizeEmail(email);
    var found := FindLatestByEmail(db, address, w(0).pick, w(0).ok);
    FoundLatest(db, address, w(0).pick, w(0).ok);
    Unroll(cfg, db, q, w, 0);
    if found.Hit? {
      JudgeAnswers(cfg, db, q.Goto(Inspect(found.value, address, code)), w);
    }
  }

  // ---------------------------------------------------------------- complete_google_oauth.go

  ghost predicate GoogleAnswer(cfg: Config, db: Db, state: string, code: string, w: Ticks, o: Outcome) {
    var identity := cfg.exchange(code);
    var address := NormalizeEmail(identity.email);
    match cfg.openState(state, w(0).now)
    case None => o == Outcome(db, Refused(OAuthStateInvalid))
    case Some(redirectTo) =>
      if !w(1).ok then o == Outcome(db, Refused(Unavailable))
      else if !identity.emailVerified then o == Outcome(db, Refused(OAuthEmailNotVerified))
      else
        SignsIn(cfg, db, address, if identity.name == "" then address else identity.name, Some(redirectTo), w, 2, o)
  }

  /** With the state open, the exchange up and the address verified, the account of the address, or a
      new one without a password, is signed in and sent on to the target. */
  lemma GoogleAnswers(cfg: Config, db: Db, state: string, code: string, w: Ticks)
    ensures GoogleAnswer(cfg, db, state, code, w, Answer(Serve(cfg, db, CompleteGoogle(state, code), w)))
  {
    var q := NewRequest(CompleteGoogle(state, code));
    Unroll(cfg, db, q, w, 0);
    if cfg.openState(state, w(0).now).Some? {
      ExchangeAnswers(cfg, db, q.Goto(Exchange(cfg.openState(state, w(0).now).value, code)), w);
    }
  }

  lemma ExchangeAnswers(cfg: Config, db: Db, q: Req, w: Ticks)
    requires q.pc.Exchange?
    ensures var identity, o := cfg.exchange(q.pc.code), Answer(RunAlone(cfg, db, q, w, 1));
            var address := NormalizeEmail(identity.email);
            if !w(1).ok then o == Outcome(db, Refused(Unavailable))
            else if !identity.emailVerified then o == Outcome(db, Refused(OAuthEmailNotVerified))
            else
              SignsIn(cfg, db, address, if identity.name == "" then address else identity.name,
                      Some(q.pc.redirectTo), w, 2, o)
  {
    var identity := cfg.exchange(q.pc.code);
    var address := NormalizeEmail(identity.email);
    var name := if identity.name == "" then address else identity.name;
    Unroll(cfg, db, q, w, 1);
    if w(1).ok && identity.emailVerified {
      FindSignsIn(cfg, db, q.Goto(FindAccount(ByGoogle(q.pc.redirectTo), address, name)), w, 2);
    }
  }

  // ---------------------------------------------------------------- whom a sign-in serves

  /** The pair is for the account that was there, which stays as it was, or for the one added. */
  ghost predicate Serves(db: Db, address: string, name: string, t: Tick, o: Outcome) {
    && o.response.Granted?
    && var access := o.response.pair.access;
       match FindUserByEmail(db, address)
       case Some(u) =>
         && o.db.users == db.users
         && access.sub == u.id && access.email == address && access.name == u.name && access.roles == u.roles
       case None =>
         && t.id !in db.users
         && o.db.users == db.users[t.id := User(t.id, address, None, name, ["CUSTOMER"], t.now, t.now)]
         && access.sub == t.id && access.email == address && access.name == name && access.roles == ["CUSTOMER"]
  }

  lemma SignInServes(cfg: Config, db: Db, email: string, name: string, redirectTo: Option<string>,
                     w: Ticks, k: nat, o: Outcome)
    requires SignsIn(cfg, db, email, name, redirectTo, w, k, o) && o.response.Granted?
    ensures Serves(db, email, name, w(k), o) && o.response.redirectTo == redirectTo
  {
  }

  /** What stands between a sign-in and its pair. */
  ghost predicate Unhindered(cfg: Config, db: Db, email: string, name: string, w: Ticks, k: nat) {
    && w(k).ok
    && match FindUserByEmail(db, email)
       case Some(u) => w(k + 1).ok && w(k + 2).ok && TokenFits(cfg, db, u, w(k + 1))
       case None =>
         var u := User(w(k).id, email, None, name, ["CUSTOMER"], w(k).now, w(k).now);
         && w(k + 1).ok && w(k + 2).ok && w(k + 3).ok
         && UserFits(db, u) && TokenFits(cfg, db.(users := db.users[u.id := u]), u, w(k + 2))
  }

  lemma SignInGrantedIff(cfg: Config, db: Db, email: string, name: string, redirectTo: Option<string>,
                         w: Ticks, k: nat, o: Outcome)
    requires SignsIn(cfg, db, email, name, redirectTo, w, k, o)
    ensures o.response.Granted? <==> Unhindered(cfg, db, email, name, w, k)
  {
  }

  /** A granted code sign-in serves the address; a new account carries the address as its name. */
  lemma CodeSignInServes(cfg: Config, db: Db, email: string, code: string, w: Ticks)
    requires Constraints(db) && Answer(Serve(cfg, db, VerifyCode(email, code), w)).response.Granted?
    ensures var address := NormalizeEmail(email);
            Serves(db, address, address, w(3), Answer(Serve(cfg, db, VerifyCode(email, code), w)))
  {
    var address, o := NormalizeEmail(email), Answer(Serve(cfg, db, VerifyCode(email, code), w));
    VerifyAnswers(cfg, db, email, code, w);
    var row := FindLatestByEmail(db, address, w(0).pick, w(0).ok).value;
    SignInServes(cfg, Consumed(db, row, w(2).now), address, address, None, w, 3, o);
  }

  /** A Google sign-in is granted exactly when the state opens, the exchange works, the address is
      verified and nothing stands in the way of account and token; and then it serves the address and
      names the target. A new account is named by the identity or, without a name, by the address. */
  lemma GoogleGrantedIff(cfg: Config, db: Db, state: string, code: string, w: Ticks)
    ensures var o, identity := Answer(Serve(cfg, db, CompleteGoogle(state, code), w)), cfg.exchange(code);
            var address := NormalizeEmail(identity.email);
            var name := if identity.name == "" then address else identity.name;
            && (o.response.Granted? <==>
                  && cfg.openState(state, w(0).now).Some? && w(1).ok && identity.emailVerified
                  && Unhindered(cfg, db, address, name, w, 2))
            && (o.response.Granted? ==>
                  && Serves(db, address, name, w(2), o)
                  && o.response.redirectTo == cfg.openState(state, w(0).now))
  {
    var o, identity := Answer(Serve(cfg, db, CompleteGoogle(state, code), w)), cfg.exchange(code);
    var address := NormalizeEmail(identity.email);
    var name := if identity.name == "" then address else identity.name;
    GoogleAnswers(cfg, db, state, code, w);
    var target := cfg.openState(state, w(0).now);
    if target.Some? && w(1).ok && identity.emailVerified {
      SignInGrantedIff(cfg, db, address, name, target, w, 2, o);
      if o.response.Granted? {
        SignInServes(cfg, db, address, name, target, w, 2, o);
      }
    }
  }
}
