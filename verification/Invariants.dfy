/** What every reachable state satisfies, under every interleaving and every failure. */
module Invariants {
  import opened Wrappers
  import opened Domain
  import opened Emails
  import opened Claims
  import opened Tables
  import opened Protocol

  // ---------------------------------------------------------------- the tables

  ghost predicate RolesOk(roles: seq<string>) {
    roles == [ROLE_CUSTOMER] || roles == [ROLE_CUSTOMER, ROLE_SELLER]
  }

  ghost predicate AccountOk(u: User) {
    Normalized(u.email) && RolesOk(u.roles)
  }

  ghost predicate DbInv(db: Db) {
    && Constraints(db)
    && forall i | i in db.users :: AccountOk(db.users[i])
  }

  // ---------------------------------------------------------------- one request

  /** The address a request acts for. */
  function AddressOf(cfg: Config, input: Input): Option<string> {
    match input
    case Register(email, _, _) => Some(NormalizeEmail(email))
    case Login(email, _) => Some(NormalizeEmail(email))
    case VerifyCode(email, _) => Some(NormalizeEmail(email))
    case CompleteGoogle(_, code) => Some(NormalizeEmail(cfg.exchange(code).email))
    case _ => None
  }

  /** The snapshot of a refresh under way: the presented token, unrevoked when it was read. */
  ghost predicate Presented(cfg: Config, db: Db, input: Input, stored: RefreshToken) {
    && input.Refresh? && KnownToken(db, stored)
    && stored.tokenHash == cfg.digest(input.token) && stored.revokedAt.None?
  }

  ghost predicate SpentToken(db: Db, id: Id) {
    id in db.tokens && db.tokens[id].revokedAt.Some?
  }

  ghost predicate SpentCode(db: Db, id: Id) {
    id in db.codes && db.codes[id].consumedAt.Some?
  }

  /** What justifies a grant to `user`: the evidence was checked and, if it can be used up, is used up. */
  ghost predicate GrantOk(cfg: Config, db: Db, q: Req, grant: Grant, user: User) {
    match grant
    case ByPassword =>
      && q.input.Login? && user.email == NormalizeEmail(q.input.email)
      && user.passwordHash.Some? && cfg.matches(user.passwordHash.value, q.input.password)
    case ByRefresh(stored) =>
      && Presented(cfg, db, q.input, stored) && SpentToken(db, stored.id) && user.id == stored.userId
    case ByCode(record) =>
      && CodeGrantOk(cfg, db, q, record)
      && user.email == NormalizeEmail(q.input.email)
    case ByGoogle(redirectTo) =>
      && q.input.CompleteGoogle? && GoogleGrantOk(cfg, q.input.code)
      && user.email == NormalizeEmail(cfg.exchange(q.input.code).email)
  }

  ghost predicate CodeGrantOk(cfg: Config, db: Db, q: Req, record: VerificationCode) {
    && q.input.VerifyCode? && q.guess == Redeemed(record.id)
    && KnownCode(db, record) && SpentCode(db, record.id)
    && record.codeHash == cfg.digest(q.input.code)
    && record.email == NormalizeEmail(q.input.email)
  }

  predicate GoogleGrantOk(cfg: Config, code: string) {
    cfg.exchange(code).emailVerified
  }

  /** Row and pair are dated alike: the row lives for the refresh TTL from the instant it was made at,
      the access token for the access TTL from the second of that instant. */
  ghost predicate Timely(cfg: Config, row: RefreshToken, pair: TokenPair) {
    && row.expiresAt == row.createdAt + cfg.refreshTtl
    && InSecond(pair.access.iat, row.createdAt)
    && InSecond(pair.access.exp, row.createdAt + cfg.accessTtl)
    && WholeOfDuration(pair.expiresIn, cfg.accessTtl)
  }

  lemma MintIsTimely(cfg: Config, user: User, t: Tick)
    ensures Timely(cfg, NewRow(cfg, user, t), NewPair(cfg, user, t))
  {
    UnixIsInSecond(t.now);
    UnixIsInSecond(t.now + cfg.accessTtl);
    WholeSecondsAreWhole(cfg.accessTtl);
  }

  /** A minted but perhaps not yet stored row and pair for `user`. */
  ghost predicate MintedFor(cfg: Config, user: User, row: RefreshToken, pair: TokenPair) {
    && row.userId == user.id && row.revokedAt.None?
    && row.tokenHash == cfg.digest(pair.refresh)
    && pair.access.sub == user.id && pair.access.email == user.email
    && pair.access.name == user.name && pair.access.roles == user.roles
    && Timely(cfg, row, pair)
  }

  /** A verification in progress on `record`, and whether its comparison is already made. */
  ghost predicate Examines(cfg: Config, db: Db, q: Req, record: VerificationCode, email: string, guess: Guess) {
    && q.input.VerifyCode? && email == NormalizeEmail(q.input.email)
    && KnownCode(db, record) && record.email == email && q.guess == guess
  }

  ghost predicate ReqInv(cfg: Config, db: Db, q: Req) {
    match q.pc
    case Begin => q.guess == NoGuess
    case HashPassword(email, password, name) =>
      && q.input.Register? && email == NormalizeEmail(q.input.email) && q.guess == NoGuess
    case InsertRegistered(user) =>
      && q.input.Register? && q.guess == NoGuess && user.email == NormalizeEmail(q.input.email)
      && user.passwordHash.Some? && user.roles == [ROLE_CUSTOMER]
    case Validate(stored) =>
      && q.input.Refresh? && KnownToken(db, stored)
      && stored.tokenHash == cfg.digest(q.input.token) && q.guess == NoGuess
    case LoadOwner(stored) => Presented(cfg, db, q.input, stored) && q.guess == NoGuess
    case RevokeUsed(stored, user) =>
      && Presented(cfg, db, q.input, stored) && KnownUser(db, user) && user.id == stored.userId && q.guess == NoGuess
    case RevokeOnly(stored) =>
      && q.input.Logout? && KnownToken(db, stored)
      && stored.tokenHash == cfg.digest(q.input.token) && q.guess == NoGuess
    case StoreCode(record, code) =>
      && q.input.RequestCode? && record.email == NormalizeEmail(q.input.email)
      && record.consumedAt.None? && record.attempts == 0 && q.guess == NoGuess
      && IsSixDigits(code) && record.codeHash == cfg.digest(code)
    case SendCode(record, code) =>
      && q.input.RequestCode? && record.email == NormalizeEmail(q.input.email)
      && KnownCode(db, record) && q.guess == NoGuess
      && IsSixDigits(code) && record.codeHash == cfg.digest(code)
    case Inspect(record, email, code) =>
      Examines(cfg, db, q, record, email, NoGuess) && code == q.input.code
    case CountMiss(record) =>
      && q.input.VerifyCode? && KnownCode(db, record) && q.guess == Pending(record.id)
      && record.codeHash != cfg.digest(q.input.code) && record.email == NormalizeEmail(q.input.email)
    case Redeem(record, email) =>
      Examines(cfg, db, q, record, email, Pending(record.id)) && record.codeHash == cfg.digest(q.input.code)
    case Exchange(redirectTo, code) =>
      && q.input.CompleteGoogle? && code == q.input.code && q.guess == NoGuess
    case FindAccount(grant, email, name) => FindInv(cfg, db, q, grant, email)
    case CreateAccount(grant, user) =>
      && FindInv(cfg, db, q, grant, user.email)
      && user.passwordHash.None? && user.roles == [ROLE_CUSTOMER]
    case Mint(grant, user) => KnownUser(db, user) && GrantOk(cfg, db, q, grant, user) && GuessFits(q, grant)
    case Persist(grant, user, row, pair) =>
      && KnownUser(db, user) && GrantOk(cfg, db, q, grant, user) && GuessFits(q, grant)
      && MintedFor(cfg, user, row, pair)
    case Issued(grant, user, row, pair) =>
      && KnownUser(db, user) && GrantOk(cfg, db, q, grant, user) && GuessFits(q, grant)
      && MintedFor(cfg, user, row, pair) && KnownToken(db, row)
    case Finished(reply) =>
      q.guess == NoGuess && ReplyOk(db, q.input, reply)
    case Failed(error) =>
      // A refresh never meets a missing user: the foreign key and the absence of deletes rule it out.
      && (error == UserNotFound ==> q.input.AddRole?)
      && !q.guess.Pending?
  }

  ghost predicate ReplyOk(db: Db, input: Input, reply: Reply) {
    match reply
    case Registered(user) =>
      && input.Register? && KnownUser(db, user)
      && user.email == NormalizeEmail(input.email) && user.passwordHash.Some?
    case LoggedOut => input.Logout?
    case CodeSent => input.RequestCode?
    case RoleAdded(user) => input.AddRole? && KnownUser(db, user) && user.roles == [ROLE_CUSTOMER, ROLE_SELLER]
  }

  /** The account step of a code or Google sign-in. */
  ghost predicate FindInv(cfg: Config, db: Db, q: Req, grant: Grant, email: string) {
    match grant
    case ByCode(record) => CodeGrantOk(cfg, db, q, record) && email == NormalizeEmail(q.input.email)
    case ByGoogle(redirectTo) =>
      && q.input.CompleteGoogle? && GoogleGrantOk(cfg, q.input.code)
      && email == NormalizeEmail(cfg.exchange(q.input.code).email) && q.guess == NoGuess
    case _ => false
  }

  predicate GuessFits(q: Req, grant: Grant) {
    if grant.ByCode? then q.guess == Redeemed(grant.record.id) else q.guess == NoGuess
  }

  // ---------------------------------------------------------------- one step

  /** What a step does to the tables: at most one statement. */
  ghost function Effect(db: Db, q: Req, t: Tick): Db {
    match q.pc
    case Begin =>
      if q.input.AddRole? && q.input.role == ROLE_SELLER
      then Tables.AddRole(db, q.input.userId, ROLE_SELLER, t.now, t.ok).db
      else db
    case InsertRegistered(user) => InsertUser(db, user, t.ok).db
    case CreateAccount(_, user) => InsertUser(db, user, t.ok).db
    case RevokeUsed(stored, _) => Revoke(db, stored.id, t.now, t.ok).db
    case RevokeOnly(stored) => Revoke(db, stored.id, t.now, t.ok).db
    case Persist(_, _, row, _) => InsertToken(db, row, t.ok).db
    case StoreCode(record, _) => InsertCode(db, record, t.ok).db
    case CountMiss(record) => IncrementAttempts(db, record.id, t.ok).db
    case Redeem(record, _) => MarkConsumed(db, record.id, t.now, t.ok).db
    case _ => db
  }

  lemma StepEffect(cfg: Config, db: Db, q: Req, t: Tick)
    ensures Step(cfg, db, q, t).db == Effect(db, q, t)
  {
  }

  lemma EffectEvolves(db: Db, q: Req, t: Tick)
    ensures Evolves(db, Effect(db, q, t))
  {
    EvolvesReflexive(db);
    match q.pc
    case Begin => if q.input.AddRole? { AddRoleEvolves(db, q.input.userId, ROLE_SELLER, t.now, t.ok); }
    case InsertRegistered(user) => InsertUserEvolves(db, user, t.ok);
    case CreateAccount(_, user) => InsertUserEvolves(db, user, t.ok);
    case RevokeUsed(stored, _) => RevokeEvolves(db, stored.id, t.now, t.ok);
    case RevokeOnly(stored) => RevokeEvolves(db, stored.id, t.now, t.ok);
    case Persist(_, _, row, _) => InsertTokenEvolves(db, row, t.ok);
    case StoreCode(record, _) => InsertCodeEvolves(db, record, t.ok);
    case CountMiss(record) => IncrementAttemptsEvolves(db, record.id, t.ok);
    case Redeem(record, _) => MarkConsumedEvolves(db, record.id, t.now, t.ok);
    case _ => assert Effect(db, q, t) == db;
  }

  /** Every row outlives the step, and only its lifecycle fields move, one way. */
  lemma StepEvolves(cfg: Config, db: Db, q: Req, t: Tick)
    ensures Evolves(db, Step(cfg, db, q, t).db)
  {
    StepEffect(cfg, db, q, t);
    EffectEvolves(db, q, t);
  }

  /** What other requests hold stays true of them while this one moves. */
  lemma ReqInvStable(cfg: Config, a: Db, b: Db, q: Req)
    requires ReqInv(cfg, a, q) && Evolves(a, b)
    ensures ReqInv(cfg, b, q)
  {
    KnownPersists(a, b);
  }

  /** The account a request is about to insert. */
  ghost function NewAccount(q: Req): Option<User> {
    match q.pc
    case InsertRegistered(user) => Some(user)
    case CreateAccount(_, user) => Some(user)
    case _ => None
  }

  lemma NewAccountOk(cfg: Config, db: Db, q: Req)
    requires ReqInv(cfg, db, q)
    ensures NewAccount(q).Some? ==> AccountOk(NewAccount(q).value)
  {
    if q.input.Register? || q.input.VerifyCode? {
      NormalizeEmailFixedPoints(q.input.email);
    } else if q.input.CompleteGoogle? {
      NormalizeEmailFixedPoints(cfg.exchange(q.input.code).email);
    }
  }

  lemma EffectKeepsConstraints(db: Db, q: Req, t: Tick)
    requires Constraints(db)
    ensures Constraints(Effect(db, q, t))
  {
    match q.pc
    case Begin => if q.input.AddRole? { AddRoleKeepsConstraints(db, q.input.userId, ROLE_SELLER, t.now, t.ok); }
    case InsertRegistered(user) => InsertUserKeepsConstraints(db, user, t.ok);
    case CreateAccount(_, user) => InsertUserKeepsConstraints(db, user, t.ok);
    case RevokeUsed(stored, _) => RevokeKeepsConstraints(db, stored.id, t.now, t.ok);
    case RevokeOnly(stored) => RevokeKeepsConstraints(db, stored.id, t.now, t.ok);
    case Persist(_, _, row, _) => InsertTokenKeepsConstraints(db, row, t.ok);
    case StoreCode(record, _) => InsertCodeKeepsConstraints(db, record, t.ok);
    case CountMiss(record) => IncrementAttemptsKeepsConstraints(db, record.id, t.ok);
    case Redeem(record, _) => MarkConsumedKeepsConstraints(db, record.id, t.now, t.ok);
    case _ =>
  }

  lemma EffectKeepsDb(db: Db, q: Req, t: Tick)
    requires DbInv(db)
    requires NewAccount(q).Some? ==> AccountOk(NewAccount(q).value)
    ensures DbInv(Effect(db, q, t))
  {
    EffectKeepsConstraints(db, q, t);
    if q.pc.Begin? && q.input.AddRole? { AddRoleKeepsDb(db, q.input.userId, t); }
  }

  /** Granting SELLER again changes nothing, so a role list never holds a role twice. */
  lemma AddRoleKeepsDb(db: Db, id: Id, t: Tick)
    requires DbInv(db)
    ensures DbInv(Tables.AddRole(db, id, ROLE_SELLER, t.now, t.ok).db)
  {
    AddRoleKeepsConstraints(db, id, ROLE_SELLER, t.now, t.ok);
    if id in db.users {
      assert AccountOk(db.users[id]);
      assert ROLE_SELLER != ROLE_CUSTOMER;
    }
  }

  lemma StepKeepsDb(cfg: Config, db: Db, q: Req, t: Tick)
    requires DbInv(db) && ReqInv(cfg, db, q)
    ensures DbInv(Step(cfg, db, q, t).db)
  {
    StepEffect(cfg, db, q, t);
    NewAccountOk(cfg, db, q);
    EffectKeepsDb(db, q, t);
  }

  // ---------------------------------------------------------------- the moving request

  ghost predicate KeepsReq(cfg: Config, db: Db, q: Req, t: Tick) {
    var m := Step(cfg, db, q, t);
    ReqInv(cfg, m.db, m.req)
  }

  lemma FoundByEmail(db: Db, email: string)
    requires Constraints(db)
    ensures var f := FindUserByEmail(db, email); f.Some? ==> KnownUser(db, f.value) && f.value.email == email
  {
  }

  lemma FoundByHash(db: Db, hash: string)
    requires Constraints(db)
    ensures var f := FindByTokenHash(db, hash); f.Some? ==> KnownToken(db, f.value) && f.value.tokenHash == hash
  {
  }

  lemma FoundLatest(db: Db, email: string, pick: Id, ok: bool)
    requires Constraints(db)
    ensures var f := FindLatestByEmail(db, email, pick, ok);
            AnswersLatest(db, email, f) && (f.Hit? ==> KnownCode(db, f.value) && f.value.email == email)
  {
  }

  /** A request's own facts survive its own step. */
  lemma StepKeepsReq(cfg: Config, db: Db, q: Req, t: Tick)
    requires DbInv(db) && ReqInv(cfg, db, q)
    ensures KeepsReq(cfg, db, q, t)
  {
    if q.pc.Begin? {
      OpenKeepsReq(cfg, db, q, t);
    } else if q.pc.LoadOwner? {
      OwnerExists(db, q.pc.stored);
      LoadOwnerKeepsReq(cfg, db, q, t, q.pc.stored);
    } else if q.pc.FindAccount? {
      FoundByEmail(db, q.pc.email);
      FindAccountKeepsReq(cfg, db, q, t, q.pc.grant, q.pc.email, q.pc.name);
    } else {
      LaterStepKeepsReq(cfg, db, q, t);
    }
  }

  /** The foreign key at work: the owner of a token a refresh holds is always found. */
  lemma OwnerExists(db: Db, stored: RefreshToken)
    requires Constraints(db) && KnownToken(db, stored)
    ensures var f := FindUserById(db, stored.userId);
            f.Some? && KnownUser(db, f.value) && f.value.id == stored.userId
  {
    assert db.tokens[stored.id].userId in db.users;
  }

  lemma LaterStepKeepsReq(cfg: Config, db: Db, q: Req, t: Tick)
    requires ReqInv(cfg, db, q)
    requires !q.pc.Begin? && !q.pc.LoadOwner? && !q.pc.FindAccount?
    ensures KeepsReq(cfg, db, q, t)
  {
    if {
      case q.pc.InsertRegistered? => InsertRegisteredKeepsReq(cfg, db, q, t, q.pc.user);
      case q.pc.Validate? => ValidateKeepsReq(cfg, db, q, t, q.pc.stored);
      case q.pc.RevokeUsed? => RevokeUsedKeepsReq(cfg, db, q, t, q.pc.stored, q.pc.user);
      case q.pc.StoreCode? => StoreCodeKeepsReq(cfg, db, q, t, q.pc.record, q.pc.code);
      case q.pc.Inspect? => InspectKeepsReq(cfg, db, q, t, q.pc.record, q.pc.email, q.pc.code);
      case q.pc.Redeem? => RedeemKeepsReq(cfg, db, q, t, q.pc.record, q.pc.email);
      case q.pc.Exchange? => ExchangeKeepsReq(cfg, db, q, t, q.pc.redirectTo, q.pc.code);
      case q.pc.CreateAccount? => CreateAccountKeepsReq(cfg, db, q, t, q.pc.grant, q.pc.user);
      case q.pc.Mint? => MintKeepsReq(cfg, db, q, t, q.pc.grant, q.pc.user);
      case q.pc.Persist? => PersistKeepsReq(cfg, db, q, t, q.pc.grant, q.pc.user, q.pc.row, q.pc.pair);
      case QuietPc(q.pc) => QuietKeepsReq(cfg, db, q, t);
    }
  }

  /** Program points whose step gathers no new fact. */
  ghost predicate QuietPc(pc: Pc) {
    pc.HashPassword? || pc.RevokeOnly? || pc.SendCode? || pc.CountMiss? || pc.Issued? || pc.Finished? || pc.Failed?
  }

  lemma QuietKeepsReq(cfg: Config, db: Db, q: Req, t: Tick)
    requires QuietPc(q.pc) && ReqInv(cfg, db, q)
    ensures KeepsReq(cfg, db, q, t)
  {
  }

  lemma OpenKeepsReq(cfg: Config, db: Db, q: Req, t: Tick)
    requires DbInv(db) && q.pc.Begin? && ReqInv(cfg, db, q)
    ensures KeepsReq(cfg, db, q, t)
  {
    match q.input
    case Login(email, _) =>
      FoundByEmail(db, NormalizeEmail(email));
      OpenLoginKeepsReq(cfg, db, q, t);
    case Refresh(token) =>
      FoundByHash(db, cfg.digest(token));
      OpenTokenKeepsReq(cfg, db, q, t);
    case Logout(token) =>
      FoundByHash(db, cfg.digest(token));
      OpenTokenKeepsReq(cfg, db, q, t);
    case VerifyCode(email, _) =>
      FoundLatest(db, NormalizeEmail(email), t.pick, t.ok);
      OpenVerifyKeepsReq(cfg, db, q, t);
    case AddRole(userId, _) =>
      if userId in db.users { assert AccountOk(db.users[userId]) && db.users[userId].id == userId; }
      OpenAddRoleKeepsReq(cfg, db, q, t);
    case _ => OpenOtherKeepsReq(cfg, db, q, t);
  }

  lemma OpenLoginKeepsReq(cfg: Config, db: Db, q: Req, t: Tick)
    requires q == NewRequest(q.input) && q.input.Login?
    requires var f := FindUserByEmail(db, NormalizeEmail(q.input.email));
             f.Some? ==> KnownUser(db, f.value) && f.value.email == NormalizeEmail(q.input.email)
    ensures KeepsReq(cfg, db, q, t)
  {
  }

  lemma OpenTokenKeepsReq(cfg: Config, db: Db, q: Req, t: Tick)
    requires q == NewRequest(q.input) && (q.input.Refresh? || q.input.Logout?)
    requires var f := FindByTokenHash(db, cfg.digest(q.input.token));
             f.Some? ==> KnownToken(db, f.value) && f.value.tokenHash == cfg.digest(q.input.token)
    ensures KeepsReq(cfg, db, q, t)
  {
  }

  lemma OpenVerifyKeepsReq(cfg: Config, db: Db, q: Req, t: Tick)
    requires q == NewRequest(q.input) && q.input.VerifyCode?
    requires var f := FindLatestByEmail(db, NormalizeEmail(q.input.email), t.pick, t.ok);
             f.Hit? ==> KnownCode(db, f.value) && f.value.email == NormalizeEmail(q.input.email)
    ensures KeepsReq(cfg, db, q, t)
  {
  }

  lemma OpenAddRoleKeepsReq(cfg: Config, db: Db, q: Req, t: Tick)
    requires q == NewRequest(q.input) && q.input.AddRole?
    requires q.input.userId in db.users ==>
               db.users[q.input.userId].id == q.input.userId && AccountOk(db.users[q.input.userId])
    ensures KeepsReq(cfg, db, q, t)
  {
    assert ROLE_SELLER != ROLE_CUSTOMER;
  }

  lemma OpenOtherKeepsReq(cfg: Config, db: Db, q: Req, t: Tick)
    requires q == NewRequest(q.input) && (q.input.Register? || q.input.RequestCode? || q.input.CompleteGoogle?)
    ensures KeepsReq(cfg, db, q, t)
  {
  }

  lemma InsertRegisteredKeepsReq(cfg: Config, db: Db, q: Req, t: Tick, user: User)
    requires q.pc == InsertRegistered(user) && ReqInv(cfg, db, q)
    ensures KeepsReq(cfg, db, q, t)
  {
  }

  lemma ValidateKeepsReq(cfg: Config, db: Db, q: Req, t: Tick, stored: RefreshToken)
    requires q.pc == Validate(stored) && ReqInv(cfg, db, q)
    ensures KeepsReq(cfg, db, q, t)
  {
  }

  lemma LoadOwnerKeepsReq(cfg: Config, db: Db, q: Req, t: Tick, stored: RefreshToken)
    requires q.pc == LoadOwner(stored) && ReqInv(cfg, db, q)
    requires var f := FindUserById(db, stored.userId);
             f.Some? && KnownUser(db, f.value) && f.value.id == stored.userId
    ensures KeepsReq(cfg, db, q, t)
  {
  }

  lemma RevokeUsedKeepsReq(cfg: Config, db: Db, q: Req, t: Tick, stored: RefreshToken, user: User)
    requires q.pc == RevokeUsed(stored, user) && ReqInv(cfg, db, q)
    ensures KeepsReq(cfg, db, q, t)
  {
    var m := Step(cfg, db, q, t);
    if t.ok {
      assert m.req.pc == Mint(ByRefresh(stored), user);
      assert GrantOk(cfg, m.db, m.req, ByRefresh(stored), user);
    }
  }

  lemma StoreCodeKeepsReq(cfg: Config, db: Db, q: Req, t: Tick, record: VerificationCode, code: string)
    requires q.pc == StoreCode(record, code) && ReqInv(cfg, db, q)
    ensures KeepsReq(cfg, db, q, t)
  {
  }

  lemma InspectKeepsReq(cfg: Config, db: Db, q: Req, t: Tick, record: VerificationCode, email: string, code: string)
    requires q.pc == Inspect(record, email, code) && ReqInv(cfg, db, q)
    ensures KeepsReq(cfg, db, q, t)
  {
  }

  lemma RedeemKeepsReq(cfg: Config, db: Db, q: Req, t: Tick, record: VerificationCode, email: string)
    requires q.pc == Redeem(record, email) && ReqInv(cfg, db, q)
    ensures KeepsReq(cfg, db, q, t)
  {
    var m := Step(cfg, db, q, t);
    if t.ok {
      assert m.req.pc == FindAccount(ByCode(record), email, email);
      assert FindInv(cfg, m.db, m.req, ByCode(record), email);
    }
  }

  lemma ExchangeKeepsReq(cfg: Config, db: Db, q: Req, t: Tick, redirectTo: string, code: string)
    requires q.pc == Exchange(redirectTo, code) && ReqInv(cfg, db, q)
    ensures KeepsReq(cfg, db, q, t)
  {
  }

  lemma FindAccountKeepsReq(cfg: Config, db: Db, q: Req, t: Tick, grant: Grant, email: string, name: string)
    requires q.pc == FindAccount(grant, email, name) && ReqInv(cfg, db, q)
    requires var f := FindUserByEmail(db, email); f.Some? ==> KnownUser(db, f.value) && f.value.email == email
    ensures KeepsReq(cfg, db, q, t)
  {
  }

  lemma CreateAccountKeepsReq(cfg: Config, db: Db, q: Req, t: Tick, grant: Grant, user: User)
    requires q.pc == CreateAccount(grant, user) && ReqInv(cfg, db, q)
    ensures KeepsReq(cfg, db, q, t)
  {
    var m := Step(cfg, db, q, t);
    if m.req.pc.Mint? {
      assert m.db == db.(users := db.users[user.id := user]);
      assert GrantOk(cfg, m.db, m.req, grant, user);
    }
  }

  lemma MintKeepsReq(cfg: Config, db: Db, q: Req, t: Tick, grant: Grant, user: User)
    requires q.pc == Mint(grant, user) && ReqInv(cfg, db, q)
    ensures KeepsReq(cfg, db, q, t)
  {
    var m := Step(cfg, db, q, t);
    assert GrantOk(cfg, db, m.req, grant, user);
    MintIsTimely(cfg, user, t);
    assert MintedFor(cfg, user, NewRow(cfg, user, t), NewPair(cfg, user, t));
  }

  lemma PersistKeepsReq(cfg: Config, db: Db, q: Req, t: Tick,
                        grant: Grant, user: User, row: RefreshToken, pair: TokenPair)
    requires q.pc == Persist(grant, user, row, pair) && ReqInv(cfg, db, q)
    ensures KeepsReq(cfg, db, q, t)
  {
    var m := Step(cfg, db, q, t);
    if m.req.pc.Issued? {
      assert m.db == db.(tokens := db.tokens[row.id := row]);
      assert GrantOk(cfg, m.db, m.req, grant, user);
    }
  }

  /** What an answered pair says about the tables. */
  lemma IssuedFacts(cfg: Config, db: Db, q: Req)
    requires ReqInv(cfg, db, q) && q.pc.Issued?
    ensures KnownUser(db, q.pc.user) && KnownToken(db, q.pc.row) && MintedFor(cfg, q.pc.user, q.pc.row, q.pc.pair)
    ensures AddressOf(cfg, q.input).Some? ==> q.pc.user.email == AddressOf(cfg, q.input).value
    ensures q.pc.grant.ByRefresh? <==> q.input.Refresh?
  {
  }
}
