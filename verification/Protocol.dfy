/** Every use case as a program: a request is a program counter with the values the Go function
    still holds, and Step runs it to its next statement. One step makes at most one repository
    call; clock readings, random values and failures come from the tick. */
module Protocol {
  import opened Wrappers
  import opened Domain
  import opened Emails
  import opened Claims
  import opened Tables

  // ---------------------------------------------------------------- inputs and results

  datatype GoogleIdentity = GoogleIdentity(email: string, emailVerified: bool, name: string)

  /** The collaborators the use cases are built with. Hashes are fixed but unspecified functions. */
  datatype Config = Config(
    digest: string -> string,                            // hex SHA-256, for token values and codes
    hashable: string -> bool,                            // whether bcrypt accepts the password
    matches: (string, string) -> bool,                   // bcrypt comparison
    openState: (string, Time) -> Option<string>,         // OAuth state signer, verifying direction
    exchange: string -> GoogleIdentity,                  // what Google vouches for
    accessTtl: Time,
    refreshTtl: Time)

  datatype Input =
    | Register(email: string, password: string, name: string)
    | Login(email: string, password: string)
    | Refresh(token: string)
    | Logout(token: string)
    | RequestCode(email: string)
    | VerifyCode(email: string, code: string)
    | CompleteGoogle(state: string, code: string)
    | AddRole(userId: Id, role: string)

  datatype TokenPair = TokenPair(access: AccessToken, refresh: string, expiresIn: int)

  /** Why a pair is being issued. */
  datatype Grant =
    | ByPassword
    | ByRefresh(stored: RefreshToken)
    | ByCode(record: VerificationCode)
    | ByGoogle(redirectTo: string)

  datatype Reply = Registered(user: User) | LoggedOut | CodeSent | RoleAdded(user: User)

  /** What the environment contributes to one step. */
  datatype Tick = Tick(
    now: Time,      // the clock
    ok: bool,       // whether the external call of this step succeeds
    id: Id,         // what uuid.New returns
    value: string,  // the random token, the generated code or the salted password hash
    pick: Id)       // the row the database chooses among equally new codes

  datatype Pc =
    | Begin
    | HashPassword(email: string, password: string, name: string)
    | InsertRegistered(user: User)
    | Validate(stored: RefreshToken)
    | LoadOwner(stored: RefreshToken)
    | RevokeUsed(stored: RefreshToken, user: User)
    | RevokeOnly(stored: RefreshToken)
    | StoreCode(record: VerificationCode, code: string)
    | SendCode(record: VerificationCode, code: string)
    | Inspect(record: VerificationCode, email: string, code: string)
    | CountMiss(record: VerificationCode)
    | Redeem(record: VerificationCode, email: string)
    | Exchange(redirectTo: string, code: string)
    | FindAccount(grant: Grant, email: string, name: string)
    | CreateAccount(grant: Grant, user: User)
    | Mint(grant: Grant, user: User)
    | Persist(grant: Grant, user: User, row: RefreshToken, pair: TokenPair)
    | Issued(grant: Grant, user: User, row: RefreshToken, pair: TokenPair)
    | Finished(reply: Reply)
    | Failed(error: Error)

  /** History of the one guess a VerifyCode request may make: on which code, and how it was stored. */
  datatype Guess =
    | NoGuess
    | Pending(code: Id)    // compared, write not yet done
    | Counted(code: Id)    // wrong, increment stored
    | Redeemed(code: Id)   // right, consumption stored
    | Unrecorded(code: Id) // the increment or the consumption failed

  datatype Req = Req(input: Input, pc: Pc, guess: Guess) {
    predicate Terminal() {
      pc.Issued? || pc.Finished? || pc.Failed?
    }

    function Goto(pc': Pc): Req {
      this.(pc := pc')
    }
  }

  datatype Move = Move(db: Db, req: Req)

  function NewRequest(input: Input): Req {
    Req(input, Begin, NoGuess)
  }

  // ---------------------------------------------------------------- local computations

  predicate IsSixDigits(code: string) {
    |code| == VERIFICATION_CODE_LENGTH && forall i :: 0 <= i < |code| ==> '0' <= code[i] <= '9'
  }

  function Passwordless(id: Id, email: string, name: string, now: Time): User {
    User(id, email, None, name, [ROLE_CUSTOMER], now, now)
  }

  function NewPair(cfg: Config, u: User, t: Tick): TokenPair {
    TokenPair(IssueAccessToken(u, t.now, cfg.accessTtl), t.value, WholeSeconds(cfg.accessTtl))
  }

  function NewRow(cfg: Config, u: User, t: Tick): RefreshToken {
    RefreshToken(t.id, u.id, cfg.digest(t.value), t.now + cfg.refreshTtl, None, t.now)
  }

  // ---------------------------------------------------------------- the programs

  ghost function Step(cfg: Config, db: Db, q: Req, t: Tick): Move {
    match q.pc
    case Begin => FirstStatement(cfg, db, q, t)
    case HashPassword(email, password, name) =>
      if t.ok && cfg.hashable(password)
      then Move(db, q.Goto(InsertRegistered(User(t.id, email, Some(t.value), name, [ROLE_CUSTOMER], t.now, t.now))))
      else Move(db, q.Goto(Failed(Unavailable)))
    case InsertRegistered(user) =>
      var w := InsertUser(db, user, t.ok);
      Move(w.db, q.Goto(if w.ok then Finished(Registered(user)) else Failed(Unavailable)))
    case Validate(stored) =>
      Move(db, q.Goto(if stored.IsValid(t.now) then LoadOwner(stored) else Failed(RefreshTokenInvalid)))
    case LoadOwner(stored) =>
      Move(db, q.Goto(
        if !t.ok then Failed(Unavailable)
        else match FindUserById(db, stored.userId)
          case None => Failed(UserNotFound)
          case Some(user) => RevokeUsed(stored, user)))
    case RevokeUsed(stored, user) =>
      var w := Revoke(db, stored.id, t.now, t.ok);
      Move(w.db, q.Goto(if w.ok then Mint(ByRefresh(stored), user) else Failed(Unavailable)))
    case RevokeOnly(stored) =>
      var w := Revoke(db, stored.id, t.now, t.ok);
      Move(w.db, q.Goto(if w.ok then Finished(LoggedOut) else Failed(Unavailable)))
    case StoreCode(record, code) =>
      var w := InsertCode(db, record, t.ok);
      Move(w.db, q.Goto(if w.ok then SendCode(record, code) else Failed(Unavailable)))
    case SendCode(record, code) =>
      Move(db, q.Goto(if t.ok then Finished(CodeSent) else Failed(Unavailable)))
    case Inspect(record, email, code) =>
      if record.consumedAt.Some? || t.now > record.expiresAt then Move(db, q.Goto(Failed(CodeInvalid)))
      else if record.attempts >= MAX_VERIFICATION_ATTEMPTS then Move(db, q.Goto(Failed(TooManyAttempts)))
      else Move(db, q.(pc := if cfg.digest(code) != record.codeHash then CountMiss(record) else Redeem(record, email),
                       guess := Pending(record.id)))
    case CountMiss(record) =>
      var w := IncrementAttempts(db, record.id, t.ok);
      Move(w.db, q.(pc := Failed(if w.ok then CodeInvalid else Unavailable),
                    guess := if w.ok then Counted(record.id) else Unrecorded(record.id)))
    case Redeem(record, email) =>
      var w := MarkConsumed(db, record.id, t.now, t.ok);
      Move(w.db, q.(pc := if w.ok then FindAccount(ByCode(record), email, email) else Failed(Unavailable),
                    guess := if w.ok then Redeemed(record.id) else Unrecorded(record.id)))
    case Exchange(redirectTo, code) =>
      var identity := cfg.exchange(code);
      var email := NormalizeEmail(identity.email);
      Move(db, q.Goto(
        if !t.ok then Failed(Unavailable)
        else if !identity.emailVerified then Failed(OAuthEmailNotVerified)
        else FindAccount(ByGoogle(redirectTo), email, if identity.name == "" then email else identity.name)))
    case FindAccount(grant, email, name) =>
      Move(db, q.Goto(
        if !t.ok then Failed(Unavailable)
        else match FindUserByEmail(db, email)
          case Some(user) => Mint(grant, user)
          case None => CreateAccount(grant, Passwordless(t.id, email, name, t.now))))
    case CreateAccount(grant, user) =>
      var w := InsertUser(db, user, t.ok);
      Move(w.db, q.Goto(if w.ok then Mint(grant, user) else Failed(Unavailable)))
    case Mint(grant, user) =>
      Move(db, q.Goto(
        if t.ok then Persist(grant, user, NewRow(cfg, user, t), NewPair(cfg, user, t)) else Failed(Unavailable)))
    case Persist(grant, user, row, pair) =>
      var w := InsertToken(db, row, t.ok);
      Move(w.db, q.Goto(if w.ok then Issued(grant, user, row, pair) else Failed(Unavailable)))
    case Issued(_, _, _, _) => Move(db, q)
    case Finished(_) => Move(db, q)
    case Failed(_) => Move(db, q)
  }

  /** The first statement of each use case. */
  ghost function FirstStatement(cfg: Config, db: Db, q: Req, t: Tick): Move {
    match q.input
    case Register(email, password, name) =>
      Move(db, q.Goto(
        if !t.ok then Failed(Unavailable)
        else if ExistsByEmail(db, NormalizeEmail(email)) then Failed(EmailAlreadyExists)
        else HashPassword(NormalizeEmail(email), password, name)))
    case Login(email, password) =>
      Move(db, q.Goto(
        if !t.ok then Failed(Unavailable)
        else match FindUserByEmail(db, NormalizeEmail(email))
          case None => Failed(InvalidCredentials)
          case Some(user) =>
            if user.passwordHash.None? || !cfg.matches(user.passwordHash.value, password)
            then Failed(InvalidCredentials)
            else Mint(ByPassword, user)))
    case Refresh(token) =>
      Move(db, q.Goto(
        if !t.ok then Failed(Unavailable)
        else match FindByTokenHash(db, cfg.digest(token))
          case None => Failed(RefreshTokenInvalid)
          case Some(stored) => Validate(stored)))
    case Logout(token) =>
      Move(db, q.Goto(
        if !t.ok then Failed(Unavailable)
        else match FindByTokenHash(db, cfg.digest(token))
          case None => Finished(LoggedOut)
          case Some(stored) => RevokeOnly(stored)))
    case RequestCode(email) =>
      Move(db, q.Goto(
        if t.ok && IsSixDigits(t.value)
        then StoreCode(VerificationCode(t.id, NormalizeEmail(email), cfg.digest(t.value),
                                        t.now + VERIFICATION_CODE_TTL, None, 0, t.now), t.value)
        else Failed(Unavailable)))
    case VerifyCode(email, code) =>
      Move(db, q.Goto(
        match FindLatestByEmail(db, NormalizeEmail(email), t.pick, t.ok)
        case Down => Failed(Unavailable)
        case Miss => Failed(CodeInvalid)
        case Hit(record) => Inspect(record, NormalizeEmail(email), code)))
    case CompleteGoogle(state, code) =>
      Move(db, q.Goto(
        match cfg.openState(state, t.now)
        case None => Failed(OAuthStateInvalid)
        case Some(redirectTo) => Exchange(redirectTo, code)))
    case AddRole(userId, role) =>
      if role != ROLE_SELLER then Move(db, q.Goto(Failed(InvalidRole)))
      else
        var w := Tables.AddRole(db, userId, role, t.now, t.ok);
        Move(w.db, q.Goto(
          if w.ok then Finished(RoleAdded(w.db.users[userId]))
          else Failed(if t.ok then UserNotFound else Unavailable)))
  }

  /** How many steps a request can still take; every step of an unfinished request uses some up. */
  function Rank(pc: Pc): nat {
    match pc
    case Begin => 7
    case Inspect(_, _, _) => 6
    case Redeem(_, _) => 5
    case Exchange(_, _) => 5
    case Validate(_) => 5
    case LoadOwner(_) => 4
    case FindAccount(_, _, _) => 4
    case RevokeUsed(_, _) => 3
    case CreateAccount(_, _) => 3
    case HashPassword(_, _, _) => 2
    case StoreCode(_, _) => 2
    case Mint(_, _) => 2
    case InsertRegistered(_) => 1
    case RevokeOnly(_) => 1
    case SendCode(_, _) => 1
    case CountMiss(_) => 1
    case Persist(_, _, _, _) => 1
    case Issued(_, _, _, _) => 0
    case Finished(_) => 0
    case Failed(_) => 0
  }

  /** Every step of an unfinished request uses up rank, of which there are seven at most. */
  lemma StepUsesRank(cfg: Config, db: Db, q: Req, t: Tick)
    ensures var m := Step(cfg, db, q, t);
            && m.req.input == q.input
            && if q.Terminal() then m == Move(db, q) else Rank(m.req.pc) < Rank(q.pc)
  {
  }
}
