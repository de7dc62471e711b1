/** The Handle methods of internal/usecase over the mutable store, one request at a time. Each is
    proved to answer, and to leave the tables, exactly as its step-by-step program run alone. */
module UseCases {
  import opened Wrappers
  import opened Domain
  import opened Emails
  import A = Answers
  import T = Tables
  import opened Protocol
  import opened Serial
  import opened Store
  import opened Bulk
  import opened CodeGenerator

  /** The environment in which the first step of a code request sees what the random source drew. */
  ghost function Drawing(w: Ticks, draws: Draws): Ticks {
    (k: nat) =>
      if k > 0 then w(k)
      else match Drawn(draws)
        case None => w(0).(ok := false)
        case Some(code) => w(0).(ok := true, value := code)
  }

  /** What is handed to the mailer. */
  datatype Mail = Mail(to: string, code: string)

  class Service {
    const cfg: Config
    const db: Database

    constructor (cfg: Config, db: Database)
      ensures this.cfg == cfg && this.db == db
    {
      this.cfg, this.db := cfg, db;
    }

    /** What request `q` still leads to from its k-th step on. */
    ghost function Rest(before: T.Db, q: Req, w: Ticks, k: nat): Outcome {
      Answer(RunAlone(cfg, before, q, w, k))
    }

    ghost function Served(before: T.Db, input: Input, w: Ticks): Outcome {
      Answer(Serve(cfg, before, input, w))
    }

    // -------------------------------------------------------------- login.go

    /** issueTokenPairFor: the only place a refresh-token row is created. */
    method IssueTokenPairFor(ghost q: Req, grant: Grant, user: User, w: Ticks, k: nat) returns (response: Response)
      requires db.Valid() && q.pc == Mint(grant, user)
      modifies db`tokens
      ensures db.Valid() && Outcome(db.View(), response) == Rest(old(db.View()), q, w, k)
      ensures A.Issues(cfg, old(db.View()), user, A.RedirectOf(grant), w(k), w(k + 1), Outcome(db.View(), response))
    {
      A.MintIssues(cfg, db.View(), q, w, k);
      Unroll(cfg, db.View(), q, w, k);
      if !w(k).ok {
        return Refused(Unavailable);
      }
      var pair := NewPair(cfg, user, w(k));
      var row := NewRow(cfg, user, w(k));
      response := StorePair(q.Goto(Persist(grant, user, row, pair)), grant, user, row, pair, w, k + 1);
    }

    /** The pair is answered only if its row was stored. */
    method StorePair(ghost q: Req, grant: Grant, ghost user: User, row: RefreshToken, pair: TokenPair, w: Ticks, k: nat)
      returns (response: Response)
      requires db.Valid() && q.pc == Persist(grant, user, row, pair)
      modifies db`tokens
      ensures db.Valid() && Outcome(db.View(), response) == Rest(old(db.View()), q, w, k)
    {
      Unroll(cfg, db.View(), q, w, k);
      var stored := db.InsertToken(row, w(k).ok);
      if !stored {
        return Refused(Unavailable);
      }
      response := Granted(pair, if grant.ByGoogle? then Some(grant.redirectTo) else None);
    }

    method Login(email: string, password: string, w: Ticks) returns (response: Response)
      requires db.Valid()
      modifies db`tokens
      ensures db.Valid() && Outcome(db.View(), response) == Served(old(db.View()), Input.Login(email, password), w)
      ensures A.LoginAnswer(cfg, old(db.View()), email, password, w, Outcome(db.View(), response))
    {
      A.LoginAnswers(cfg, db.View(), email, password, w);
      ghost var q := NewRequest(Input.Login(email, password));
      Unroll(cfg, db.View(), q, w, 0);
      var found := db.FindUserByEmail(NormalizeEmail(email), w(0).ok);
      if !found.Hit? {
        return Refused(if found.Down? then Unavailable else InvalidCredentials);
      }
      var user := found.value;
      if user.passwordHash.None? || !cfg.matches(user.passwordHash.value, password) {
        return Refused(InvalidCredentials);
      }
      response := IssueTokenPairFor(q.Goto(Mint(ByPassword, user)), ByPassword, user, w, 1);
    }

    // -------------------------------------------------------------- refresh.go, logout.go

    method Refresh(token: string, w: Ticks) returns (response: Response)
      requires db.Valid()
      modifies db`tokens
      ensures db.Valid() && Outcome(db.View(), response) == Served(old(db.View()), Input.Refresh(token), w)
      ensures A.RefreshAnswer(cfg, old(db.View()), token, w, Outcome(db.View(), response))
    {
      A.RefreshAnswers(cfg, db.View(), token, w);
      ghost var q := NewRequest(Input.Refresh(token));
      Unroll(cfg, db.View(), q, w, 0);
      var found := db.FindByTokenHash(cfg.digest(token), w(0).ok);
      if !found.Hit? {
        return Refused(if found.Down? then Unavailable else RefreshTokenInvalid);
      }
      response := ValidateAndRotate(q.Goto(Validate(found.value)), found.value, w);
    }

    method ValidateAndRotate(ghost q: Req, stored: RefreshToken, w: Ticks) returns (response: Response)
      requires db.Valid() && q.pc == Validate(stored)
      modifies db`tokens
      ensures db.Valid() && Outcome(db.View(), response) == Rest(old(db.View()), q, w, 1)
    {
      Unroll(cfg, db.View(), q, w, 1);
      if !stored.IsValid(w(1).now) {
        return Refused(RefreshTokenInvalid);
      }
      response := Rotate(q.Goto(LoadOwner(stored)), stored, w);
    }

    /** The second half of a refresh: load the owner, revoke, and only then issue. */
    method Rotate(ghost q: Req, stored: RefreshToken, w: Ticks) returns (response: Response)
      requires db.Valid() && q.pc == LoadOwner(stored)
      modifies db`tokens
      ensures db.Valid() && Outcome(db.View(), response) == Rest(old(db.View()), q, w, 2)
    {
      Unroll(cfg, db.View(), q, w, 2);
      var owner := db.FindUserById(stored.userId, w(2).ok);
      if !owner.Hit? {
        return Refused(if owner.Down? then Unavailable else UserNotFound);
      }
      response := RevokeAndIssue(q.Goto(RevokeUsed(stored, owner.value)), stored, owner.value, w);
    }

    method RevokeAndIssue(ghost q: Req, stored: RefreshToken, user: User, w: Ticks) returns (response: Response)
      requires db.Valid() && q.pc == RevokeUsed(stored, user)
      modifies db`tokens
      ensures db.Valid() && Outcome(db.View(), response) == Rest(old(db.View()), q, w, 3)
    {
      Unroll(cfg, db.View(), q, w, 3);
      var revoked := db.Revoke(stored.id, w(3).now, w(3).ok);
      if !revoked {
        return Refused(Unavailable);
      }
      response := IssueTokenPairFor(q.Goto(Mint(ByRefresh(stored), user)), ByRefresh(stored), user, w, 4);
    }

    method Logout(token: string, w: Ticks) returns (response: Response)
      requires db.Valid()
      modifies db`tokens
      ensures db.Valid() && Outcome(db.View(), response) == Served(old(db.View()), Input.Logout(token), w)
      ensures A.LogoutAnswer(cfg, old(db.View()), token, w, Outcome(db.View(), response))
    {
      A.LogoutAnswers(cfg, db.View(), token, w);
      ghost var q := NewRequest(Input.Logout(token));
      Unroll(cfg, db.View(), q, w, 0);
      var found := db.FindByTokenHash(cfg.digest(token), w(0).ok);
      if !found.Hit? {
        return if found.Down? then Refused(Unavailable) else Replied(LoggedOut);
      }
      response := RevokePresented(q.Goto(RevokeOnly(found.value)), found.value, w);
    }

    method RevokePresented(ghost q: Req, stored: RefreshToken, w: Ticks) returns (response: Response)
      requires db.Valid() && q.pc == RevokeOnly(stored)
      modifies db`tokens
      ensures db.Valid() && Outcome(db.View(), response) == Rest(old(db.View()), q, w, 1)
    {
      Unroll(cfg, db.View(), q, w, 1);
      var revoked := db.Revoke(stored.id, w(1).now, w(1).ok);
      response := if revoked then Replied(LoggedOut) else Refused(Unavailable);
    }

    // -------------------------------------------------------------- register.go, add_role.go

    method Register(email: string, password: string, name: string, w: Ticks) returns (response: Response)
      requires db.Valid()
      modifies db`users
      ensures db.Valid()
      ensures Outcome(db.View(), response) == Served(old(db.View()), Input.Register(email, password, name), w)
      ensures A.RegisterAnswer(cfg, old(db.View()), email, password, name, w, Outcome(db.View(), response))
    {
      A.RegisterAnswers(cfg, db.View(), email, password, name, w);
      ghost var q := NewRequest(Input.Register(email, password, name));
      var address := NormalizeEmail(email);
      Unroll(cfg, db.View(), q, w, 0);
      var taken := db.ExistsByEmail(address, w(0).ok);
      if taken != Hit(false) {
        return Refused(if taken.Down? then Unavailable else EmailAlreadyExists);
      }
      response := HashAndInsert(q.Goto(HashPassword(address, password, name)), address, password, name, w);
    }

    method HashAndInsert(ghost q: Req, address: string, password: string, name: string, w: Ticks)
      returns (response: Response)
      requires db.Valid() && q.pc == HashPassword(address, password, name)
      modifies db`users
      ensures db.Valid() && Outcome(db.View(), response) == Rest(old(db.View()), q, w, 1)
    {
      Unroll(cfg, db.View(), q, w, 1);
      if !(w(1).ok && cfg.hashable(password)) {
        return Refused(Unavailable);
      }
      var user := User(w(1).id, address, Some(w(1).value), name, [ROLE_CUSTOMER], w(1).now, w(1).now);
      Unroll(cfg, db.View(), q.Goto(InsertRegistered(user)), w, 2);
      var stored := db.InsertUser(user, w(2).ok);
      response := if stored then Replied(Registered(user)) else Refused(Unavailable);
    }

    method AddRole(userId: Id, role: string, w: Ticks) returns (response: Response)
      requires db.Valid()
      modifies db`users
      ensures db.Valid() && Outcome(db.View(), response) == Served(old(db.View()), Input.AddRole(userId, role), w)
      ensures A.AddRoleAnswer(old(db.View()), userId, role, w(0), Outcome(db.View(), response))
    {
      A.AddRoleAnswers(cfg, db.View(), userId, role, w);
      Unroll(cfg, db.View(), NewRequest(Input.AddRole(userId, role)), w, 0);
      if role != ROLE_SELLER {
        return Refused(InvalidRole);
      }
      var written := db.AddRole(userId, role, w(0).now, w(0).ok);
      response := match written
        case Down => Refused(Unavailable)
        case Miss => Refused(UserNotFound)
        case Hit(user) => Replied(RoleAdded(user));
    }

    // -------------------------------------------------------------- request_code.go, verify_code.go

    method RequestCode(email: string, draws: Draws, w: Ticks) returns (response: Response, mail: Option<Mail>)
      requires db.Valid()
      modifies db`codes
      ensures db.Valid()
      ensures Outcome(db.View(), response) == Served(old(db.View()), Input.RequestCode(email), Drawing(w, draws))
      ensures A.RequestAnswer(cfg, old(db.View()), email, Drawing(w, draws), Outcome(db.View(), response))
      ensures mail.Some? ==> mail.value.to == NormalizeEmail(email) && Mailable(mail.value, w(0).id)
      ensures response == Replied(CodeSent) ==> mail.Some?
    {
      A.RequestAnswers(cfg, db.View(), email, Drawing(w, draws));
      response, mail := DrawAndSend(email, draws, w);
    }

    /** The text of the mail hashes to what is stored in row `id`, under the address it goes to. */
    ghost predicate Mailable(mail: Mail, id: Id)
      reads db
    {
      id in db.codes && db.codes[id].email == mail.to && db.codes[id].codeHash == cfg.digest(mail.code)
    }

    method DrawAndSend(email: string, draws: Draws, w: Ticks) returns (response: Response, mail: Option<Mail>)
      requires db.Valid()
      modifies db`codes
      ensures db.Valid()
      ensures Outcome(db.View(), response) == Served(old(db.View()), Input.RequestCode(email), Drawing(w, draws))
      ensures mail.Some? ==> mail.value.to == NormalizeEmail(email) && Mailable(mail.value, w(0).id)
      ensures response == Replied(CodeSent) ==> mail.Some?
    {
      ghost var q := NewRequest(Input.RequestCode(email));
      Unroll(cfg, db.View(), q, Drawing(w, draws), 0);
      var code := GenerateVerificationCode(draws);
      if code.None? {
        return Refused(Unavailable), None;
      }
      var record := VerificationCode(w(0).id, NormalizeEmail(email), cfg.digest(code.value),
                                     w(0).now + VERIFICATION_CODE_TTL, None, 0, w(0).now);
      ghost var q' := q.Goto(StoreCode(record, code.value));
      SameFromHere(cfg, db.View(), q', w, Drawing(w, draws), 1);
      response, mail := StoreAndSend(q', record, code.value, w);
    }

    /** The code is stored before it is mailed, and stays stored if mailing fails. */
    method StoreAndSend(ghost q: Req, record: VerificationCode, code: string, w: Ticks)
      returns (response: Response, mail: Option<Mail>)
      requires db.Valid() && q.pc == StoreCode(record, code)
      modifies db`codes
      ensures db.Valid() && Outcome(db.View(), response) == Rest(old(db.View()), q, w, 1)
      ensures mail.Some? ==>
                mail.value == Mail(record.email, code) && record.id in db.codes && db.codes[record.id] == record
      ensures response == Replied(CodeSent) ==> mail.Some?
    {
      Unroll(cfg, db.View(), q, w, 1);
      var stored := db.InsertCode(record, w(1).ok);
      if !stored {
        return Refused(Unavailable), None;
      }
      Unroll(cfg, db.View(), q.Goto(SendCode(record, code)), w, 2);
      mail := Some(Mail(record.email, code));
      response := if w(2).ok then Replied(CodeSent) else Refused(Unavailable);
    }

    method VerifyCode(email: string, code: string, w: Ticks) returns (response: Response)
      requires db.Valid()
      modifies db`codes, db`users, db`tokens
      ensures db.Valid() && Outcome(db.View(), response) == Served(old(db.View()), Input.VerifyCode(email, code), w)
      ensures A.VerifyAnswer(cfg, old(db.View()), email, code, w, Outcome(db.View(), response))
    {
      A.VerifyAnswers(cfg, db.View(), email, code, w);
      ghost var q := NewRequest(Input.VerifyCode(email, code));
      var address := NormalizeEmail(email);
      Unroll(cfg, db.View(), q, w, 0);
      var found := db.FindLatestByEmail(address, w(0).pick, w(0).ok);
      if !found.Hit? {
        return Refused(if found.Down? then Unavailable else CodeInvalid);
      }
      response := Judge(q.Goto(Inspect(found.value, address, code)), found.value, address, code, w);
    }

    /** Decide on the snapshot: consumed or expired, used up, wrong, or right. */
    method Judge(ghost q: Req, record: VerificationCode, address: string, code: string, w: Ticks)
      returns (response: Response)
      requires db.Valid() && q.pc == Inspect(record, address, code)
      modifies db`codes, db`users, db`tokens
      ensures db.Valid() && Outcome(db.View(), response) == Rest(old(db.View()), q, w, 1)
    {
      Unroll(cfg, db.View(), q, w, 1);
      if record.consumedAt.Some? || w(1).now > record.expiresAt {
        return Refused(CodeInvalid);
      }
      if record.attempts >= MAX_VERIFICATION_ATTEMPTS {
        return Refused(TooManyAttempts);
      }
      if cfg.digest(code) != record.codeHash {
        response := Miss(q.(pc := CountMiss(record), guess := Pending(record.id)), record, w);
      } else {
        response := RedeemAndSignIn(q.(pc := Redeem(record, address), guess := Pending(record.id)), record, address, w);
      }
    }

    method Miss(ghost q: Req, record: VerificationCode, w: Ticks) returns (response: Response)
      requires db.Valid() && q.pc == CountMiss(record)
      modifies db`codes
      ensures db.Valid() && Outcome(db.View(), response) == Rest(old(db.View()), q, w, 2)
    {
      Unroll(cfg, db.View(), q, w, 2);
      var counted := db.IncrementAttempts(record.id, w(2).ok);
      response := Refused(if counted then CodeInvalid else Unavailable);
    }

    method RedeemAndSignIn(ghost q: Req, record: VerificationCode, address: string, w: Ticks)
      returns (response: Response)
      requires db.Valid() && q.pc == Redeem(record, address)
      modifies db`codes, db`users, db`tokens
      ensures db.Valid() && Outcome(db.View(), response) == Rest(old(db.View()), q, w, 2)
    {
      Unroll(cfg, db.View(), q, w, 2);
      var consumed := db.MarkConsumed(record.id, w(2).now, w(2).ok);
      if !consumed {
        return Refused(Unavailable);
      }
      ghost var q' := q.(pc := FindAccount(ByCode(record), address, address), guess := Redeemed(record.id));
      response := SignIn(q', ByCode(record), address, address, w, 3);
    }

    // -------------------------------------------------------------- complete_google_oauth.go

    method CompleteGoogle(state: string, code: string, w: Ticks) returns (response: Response)
      requires db.Valid()
      modifies db`users, db`tokens
      ensures db.Valid() && Outcome(db.View(), response) == Served(old(db.View()), Input.CompleteGoogle(state, code), w)
      ensures A.GoogleAnswer(cfg, old(db.View()), state, code, w, Outcome(db.View(), response))
    {
      A.GoogleAnswers(cfg, db.View(), state, code, w);
      ghost var q := NewRequest(Input.CompleteGoogle(state, code));
      Unroll(cfg, db.View(), q, w, 0);
      var target := cfg.openState(state, w(0).now);
      if target.None? {
        return Refused(OAuthStateInvalid);
      }
      response := ExchangeAndSignIn(q.Goto(Exchange(target.value, code)), target.value, code, w);
    }

    /** Once the state is accepted: ask Google who it is, insist on a verified address, sign in. */
    method ExchangeAndSignIn(ghost q: Req, redirectTo: string, code: string, w: Ticks) returns (response: Response)
      requires db.Valid() && q.pc == Exchange(redirectTo, code)
      modifies db`users, db`tokens
      ensures db.Valid() && Outcome(db.View(), response) == Rest(old(db.View()), q, w, 1)
    {
      Unroll(cfg, db.View(), q, w, 1);
      if !w(1).ok {
        return Refused(Unavailable);
      }
      var identity := cfg.exchange(code);
      if !identity.emailVerified {
        return Refused(OAuthEmailNotVerified);
      }
      var address := NormalizeEmail(identity.email);
      var name := if identity.name == "" then address else identity.name;
      var grant := ByGoogle(redirectTo);
      response := SignIn(q.Goto(FindAccount(grant, address, name)), grant, address, name, w, 2);
    }

    /** Find the account or create it without a password, then issue a pair for it. */
    method SignIn(ghost q: Req, grant: Grant, address: string, name: string, w: Ticks, k: nat)
      returns (response: Response)
      requires db.Valid() && q.pc == FindAccount(grant, address, name)
      modifies db`users, db`tokens
      ensures db.Valid() && Outcome(db.View(), response) == Rest(old(db.View()), q, w, k)
      ensures A.SignsIn(cfg, old(db.View()), address, name, A.RedirectOf(grant), w, k, Outcome(db.View(), response))
    {
      A.FindSignsIn(cfg, db.View(), q, w, k);
      Unroll(cfg, db.View(), q, w, k);
      var found := db.FindUserByEmail(address, w(k).ok);
      if found.Down? {
        return Refused(Unavailable);
      }
      if found.Hit? {
        response := IssueTokenPairFor(q.Goto(Mint(grant, found.value)), grant, found.value, w, k + 1);
        return;
      }
      var user := Passwordless(w(k).id, address, name, w(k).now);
      response := SignUp(q.Goto(CreateAccount(grant, user)), grant, user, w, k + 1);
    }

    method SignUp(ghost q: Req, grant: Grant, user: User, w: Ticks, k: nat) returns (response: Response)
      requires db.Valid() && q.pc == CreateAccount(grant, user)
      modifies db`users, db`tokens
      ensures db.Valid() && Outcome(db.View(), response) == Rest(old(db.View()), q, w, k)
    {
      Unroll(cfg, db.View(), q, w, k);
      var stored := db.InsertUser(user, w(k).ok);
      if !stored {
        return Refused(Unavailable);
      }
      response := IssueTokenPairFor(q.Goto(Mint(grant, user)), grant, user, w, k + 1);
    }

    // -------------------------------------------------------------- bulk_create.go

    method RegisterItem(item: BulkItem, w: Ticks) returns (response: Response)
      requires db.Valid()
      modifies db`users
      ensures db.Valid() && Outcome(db.View(), response) == RegisterOutcome(cfg, old(db.View()), item, w)
    {
      RegisterAlone(cfg, db.View(), item, w);
      response := Register(item.email, item.password, item.name, w);
    }

    method CreateUsersBulk(items: seq<BulkItem>, ws: BatchTicks)
      returns (created: seq<CreatedUser>, skipped: seq<SkippedUser>)
      requires db.Valid()
      modifies db`users
      ensures db.Valid()
      ensures BulkState(db.View(), created, skipped) == BulkUpTo(cfg, old(db.View()), items, ws, |items|)
    {
      created, skipped := [], [];
      for i := 0 to |items|
        invariant db.Valid()
        invariant BulkState(db.View(), created, skipped) == BulkUpTo(cfg, old(db.View()), items, ws, i)
      {
        var item := items[i];
        var response := RegisterItem(item, ws(i));
        if response.Replied? && response.reply.Registered? {
          created := created + [CreatedUser(response.reply.user.id, response.reply.user.email)];
        } else {
          var reason := if response == Refused(EmailAlreadyExists) then ALREADY_REGISTERED else UNKNOWN_ERROR;
          skipped := skipped + [SkippedUser(item.email, reason)];
        }
      }
    }
  }
}
