/** Served one at a time, the append-only refresh_tokens table answers exactly like a map of live
    sessions: a sign-in adds an entry, a refresh replaces it, a logout deletes it, expiry lapses it. */
module Sessions {
  import opened Wrappers
  import opened Domain
  import opened Emails
  import opened Tables
  import opened Protocol
  import opened Serial
  import opened Invariants

  // ---------------------------------------------------------------- the abstract service

  datatype Session = Session(owner: Id, expiresAt: Time)

  /** Live sessions by token hash. Rows, revocation times and creation times are gone; of the past
      only the names already given out remain, which the UNIQUE constraints refuse to give again. */
  datatype Directory = Directory(live: map<string, Session>, hashes: set<string>, ids: set<Id>)

  /** The whole service with the token table replaced by the directory. */
  datatype Web = Web(users: map<Id, User>, codes: map<Id, VerificationCode>, directory: Directory)

  datatype WebOutcome = WebOutcome(web: Web, response: Response)

  function Close(web: Web, hash: string): Web {
    web.(directory := web.directory.(live := web.directory.live - {hash}))
  }

  function OpenSession(web: Web, hash: string, id: Id, session: Session): Web {
    var d := web.directory;
    web.(directory := Directory(d.live[hash := session], d.hashes + {hash}, d.ids + {id}))
  }

  predicate Admits(web: Web, hash: string, id: Id, owner: Id) {
    && id !in web.directory.ids && hash !in web.directory.hashes && owner in web.users && |hash| <= 64
  }

  function Issue(cfg: Config, web: Web, grant: Grant, user: User, w: Ticks, k: nat): WebOutcome {
    var hash := cfg.digest(w(k).value);
    if w(k).ok && w(k + 1).ok && Admits(web, hash, w(k).id, user.id)
    then WebOutcome(OpenSession(web, hash, w(k).id, Session(user.id, w(k).now + cfg.refreshTtl)),
                    Granted(NewPair(cfg, user, w(k)), if grant.ByGoogle? then Some(grant.redirectTo) else None))
    else WebOutcome(web, Refused(Unavailable))
  }

  function Replace(cfg: Config, web: Web, token: string, w: Ticks): WebOutcome {
    var hash := cfg.digest(token);
    if !w(0).ok then WebOutcome(web, Refused(Unavailable))
    else if hash !in web.directory.live || w(1).now >= web.directory.live[hash].expiresAt
    then WebOutcome(web, Refused(RefreshTokenInvalid))
    else if !w(2).ok then WebOutcome(web, Refused(Unavailable))
    else if web.directory.live[hash].owner !in web.users then WebOutcome(web, Refused(UserNotFound))
    else if !w(3).ok then WebOutcome(web, Refused(Unavailable))
    else Issue(cfg, Close(web, hash), ByPassword, web.users[web.directory.live[hash].owner], w, 4)
  }

  function Delete(cfg: Config, web: Web, token: string, w: Ticks): WebOutcome {
    var hash := cfg.digest(token);
    if !w(0).ok then WebOutcome(web, Refused(Unavailable))
    else if hash !in web.directory.hashes then WebOutcome(web, Replied(LoggedOut))
    else if !w(1).ok then WebOutcome(web, Refused(Unavailable))
    else WebOutcome(Close(web, hash), Replied(LoggedOut))
  }

  /** The tables without the token table: all that a request other than refresh and logout can see
      until it issues a pair. */
  function Tokenless(web: Web): Db {
    Db(web.users, map[], web.codes)
  }

  ghost function ServeWeb(cfg: Config, web: Web, input: Input, w: Ticks): WebOutcome {
    match input
    case Refresh(token) => Replace(cfg, web, token, w)
    case Logout(token) => Delete(cfg, web, token, w)
    case _ =>
      var stop := Approach(cfg, Tokenless(web), NewRequest(input), w, 0);
      var web' := web.(users := stop.db.users, codes := stop.db.codes);
      if stop.req.pc.Mint?
      then Issue(cfg, web', stop.req.pc.grant, stop.req.pc.user, w, stop.k)
      else WebOutcome(web', Respond(stop.req.pc))
  }

  // ---------------------------------------------------------------- up to the issuing of a pair

  datatype Stop = Stop(db: Db, req: Req, k: nat)

  /** Run a request up to the point where it issues a pair, or to its end. */
  ghost function Approach(cfg: Config, db: Db, q: Req, w: Ticks, k: nat): Stop
    decreases Rank(q.pc)
  {
    if q.Terminal() || q.pc.Mint? then Stop(db, q, k)
    else
      StepUsesRank(cfg, db, q, w(k));
      var m := Step(cfg, db, q, w(k));
      Approach(cfg, m.db, m.req, w, k + 1)
  }

  lemma {:induction false} ApproachThenRest(cfg: Config, db: Db, q: Req, w: Ticks, k: nat)
    ensures var stop := Approach(cfg, db, q, w, k);
            RunAlone(cfg, db, q, w, k) == RunAlone(cfg, stop.db, stop.req, w, stop.k)
    decreases Rank(q.pc)
  {
    if !q.Terminal() && !q.pc.Mint? {
      StepUsesRank(cfg, db, q, w(k));
      Unroll(cfg, db, q, w, k);
      var m := Step(cfg, db, q, w(k));
      ApproachThenRest(cfg, m.db, m.req, w, k + 1);
    }
  }

  /** Program points that neither read nor write tokens. */
  ghost predicate TokenFree(q: Req) {
    && !q.pc.Validate? && !q.pc.LoadOwner? && !q.pc.RevokeUsed? && !q.pc.RevokeOnly? && !q.pc.Persist? && !q.pc.Issued?
    && (q.pc.Begin? ==> !q.input.Refresh? && !q.input.Logout?)
  }

  /** The step with the token table and the step without it are the same step. */
  ghost predicate SameStep(cfg: Config, db: Db, q: Req, t: Tick) {
    var m, n := Step(cfg, db, q, t), Step(cfg, db.(tokens := map[]), q, t);
    && TokenFree(m.req) && n.req == m.req
    && m.db.tokens == db.tokens && n.db == m.db.(tokens := map[])
  }

  lemma StepTokenFree(cfg: Config, db: Db, q: Req, t: Tick)
    requires TokenFree(q) && !q.Terminal() && !q.pc.Mint?
    ensures SameStep(cfg, db, q, t)
  {
    if q.pc.Begin? {
      OpenTokenFree(cfg, db, q, t);
    } else if q.pc.InsertRegistered? || q.pc.CreateAccount? || q.pc.FindAccount? {
      AccountTokenFree(cfg, db, q, t);
    } else {
      CodeTokenFree(cfg, db, q, t);
    }
  }

  lemma OpenTokenFree(cfg: Config, db: Db, q: Req, t: Tick)
    requires TokenFree(q) && q.pc.Begin?
    ensures SameStep(cfg, db, q, t)
  {
    if q.input.AddRole? {
      OpenAddRoleTokenFree(cfg, db, q, t);
    } else if q.input.VerifyCode? {
      FindLatestReadsCodes(db, db.(tokens := map[]), NormalizeEmail(q.input.email), t.pick, t.ok);
      OpenVerifyTokenFree(cfg, db, q, t);
    } else {
      OpenOtherTokenFree(cfg, db, q, t);
    }
  }

  lemma OpenAddRoleTokenFree(cfg: Config, db: Db, q: Req, t: Tick)
    requires q.pc.Begin? && q.input.AddRole?
    ensures SameStep(cfg, db, q, t)
  {
  }

  lemma OpenVerifyTokenFree(cfg: Config, db: Db, q: Req, t: Tick)
    requires q.pc.Begin? && q.input.VerifyCode?
    requires var email := NormalizeEmail(q.input.email);
             FindLatestByEmail(db, email, t.pick, t.ok)
             == FindLatestByEmail(db.(tokens := map[]), email, t.pick, t.ok)
    ensures SameStep(cfg, db, q, t)
  {
  }

  lemma OpenOtherTokenFree(cfg: Config, db: Db, q: Req, t: Tick)
    requires TokenFree(q) && q.pc.Begin? && !q.input.AddRole? && !q.input.VerifyCode?
    ensures SameStep(cfg, db, q, t)
  {
  }

  lemma AccountTokenFree(cfg: Config, db: Db, q: Req, t: Tick)
    requires q.pc.InsertRegistered? || q.pc.CreateAccount? || q.pc.FindAccount?
    ensures SameStep(cfg, db, q, t)
  {
  }

  lemma CodeTokenFree(cfg: Config, db: Db, q: Req, t: Tick)
    requires TokenFree(q) && !q.Terminal() && !q.pc.Mint?
    requires !q.pc.Begin? && !q.pc.InsertRegistered? && !q.pc.CreateAccount? && !q.pc.FindAccount?
    ensures SameStep(cfg, db, q, t)
  {
  }

  lemma {:induction false} ApproachTokenFree(cfg: Config, db: Db, q: Req, w: Ticks, k: nat)
    requires TokenFree(q)
    ensures var a, b := Approach(cfg, db, q, w, k), Approach(cfg, db.(tokens := map[]), q, w, k);
            && TokenFree(a.req) && (a.req.Terminal() || a.req.pc.Mint?)
            && b.req == a.req && b.k == a.k && a.db.tokens == db.tokens && b.db == a.db.(tokens := map[])
    decreases Rank(q.pc)
  {
    if !q.Terminal() && !q.pc.Mint? {
      StepUsesRank(cfg, db, q, w(k));
      StepTokenFree(cfg, db, q, w(k));
      assert SameStep(cfg, db, q, w(k));
      var m := Step(cfg, db, q, w(k));
      ApproachTokenFree(cfg, m.db, m.req, w, k + 1);
    }
  }

  // ---------------------------------------------------------------- the abstraction function

  ghost function HashesOf(tokens: map<Id, RefreshToken>): set<string> {
    set t | t in tokens :: tokens[t].tokenHash
  }

  ghost predicate LiveRow(tokens: map<Id, RefreshToken>, t: Id, hash: string) {
    t in tokens && tokens[t].revokedAt.None? && tokens[t].tokenHash == hash
  }

  ghost function LiveHashes(tokens: map<Id, RefreshToken>): set<string> {
    set t | t in tokens && tokens[t].revokedAt.None? :: tokens[t].tokenHash
  }

  ghost function SessionOf(tokens: map<Id, RefreshToken>, hash: string): Session {
    if t :| LiveRow(tokens, t, hash) then Session(tokens[t].userId, tokens[t].expiresAt) else Session(0, 0)
  }

  /** The directory of a token table: the unrevoked rows, and every name ever stored. */
  ghost function DirectoryOf(tokens: map<Id, RefreshToken>): Directory {
    Directory(map h | h in LiveHashes(tokens) :: SessionOf(tokens, h), HashesOf(tokens), tokens.Keys)
  }

  ghost function WebOf(db: Db): Web {
    Web(db.users, db.codes, DirectoryOf(db.tokens))
  }

  ghost predicate DistinctHashes(tokens: map<Id, RefreshToken>) {
    forall i, j | i in tokens && j in tokens && tokens[i].tokenHash == tokens[j].tokenHash :: i == j
  }

  lemma SessionOfRow(tokens: map<Id, RefreshToken>, t: Id)
    requires DistinctHashes(tokens) && t in tokens && tokens[t].revokedAt.None?
    ensures SessionOf(tokens, tokens[t].tokenHash) == Session(tokens[t].userId, tokens[t].expiresAt)
  {
    assert LiveRow(tokens, t, tokens[t].tokenHash);
  }

  lemma LiveHashMeans(tokens: map<Id, RefreshToken>, h: string)
    ensures h in LiveHashes(tokens) <==> exists t :: LiveRow(tokens, t, h)
  {
    if h in LiveHashes(tokens) {
      var t :| t in tokens && tokens[t].revokedAt.None? && tokens[t].tokenHash == h;
      assert LiveRow(tokens, t, h);
    }
  }

  /** Same live rows for a hash, same session for it. */
  lemma SameSession(a: map<Id, RefreshToken>, b: map<Id, RefreshToken>, h: string)
    requires DistinctHashes(a) && DistinctHashes(b)
    requires forall t :: LiveRow(a, t, h) ==> LiveRow(b, t, h) && a[t] == b[t]
    requires forall t :: LiveRow(b, t, h) ==> LiveRow(a, t, h)
    ensures h in LiveHashes(a) <==> h in LiveHashes(b)
    ensures h in LiveHashes(a) ==> SessionOf(a, h) == SessionOf(b, h)
  {
    LiveHashMeans(a, h);
    LiveHashMeans(b, h);
    if h in LiveHashes(a) {
      var t :| LiveRow(a, t, h);
      SessionOfRow(a, t);
      SessionOfRow(b, t);
    }
  }

  lemma HashesAfterInsert(tokens: map<Id, RefreshToken>, row: RefreshToken)
    requires row.id !in tokens
    ensures HashesOf(tokens[row.id := row]) == HashesOf(tokens) + {row.tokenHash}
  {
    var tokens' := tokens[row.id := row];
    forall h | h in HashesOf(tokens) + {row.tokenHash}
      ensures h in HashesOf(tokens')
    {
      if h == row.tokenHash {
        assert tokens'[row.id].tokenHash == h;
      } else {
        var t :| t in tokens && tokens[t].tokenHash == h;
        assert tokens'[t].tokenHash == h;
      }
    }
  }

  lemma HashesAfterRevoke(tokens: map<Id, RefreshToken>, x: Id, now: Time)
    requires x in tokens
    ensures HashesOf(tokens[x := tokens[x].(revokedAt := Some(now))]) == HashesOf(tokens)
  {
    var tokens' := tokens[x := tokens[x].(revokedAt := Some(now))];
    forall h | h in HashesOf(tokens)
      ensures h in HashesOf(tokens')
    {
      var t :| t in tokens && tokens[t].tokenHash == h;
      assert tokens'[t].tokenHash == h;
    }
  }

  lemma InsertDirectory(tokens: map<Id, RefreshToken>, row: RefreshToken)
    requires DistinctHashes(tokens) && row.id !in tokens && row.tokenHash !in HashesOf(tokens) && row.revokedAt.None?
    ensures var d := DirectoryOf(tokens);
            DirectoryOf(tokens[row.id := row]) ==
              Directory(d.live[row.tokenHash := Session(row.userId, row.expiresAt)],
                        d.hashes + {row.tokenHash}, d.ids + {row.id})
  {
    var d, tokens' := DirectoryOf(tokens), tokens[row.id := row];
    HashesAfterInsert(tokens, row);
    forall h
      ensures h in LiveHashes(tokens') <==> h in LiveHashes(tokens) || h == row.tokenHash
      ensures h in LiveHashes(tokens) ==> SessionOf(tokens', h) == SessionOf(tokens, h) && h != row.tokenHash
    {
      LiveAfterInsert(tokens, row, h);
    }
    LiveAfterInsert(tokens, row, row.tokenHash);
    assert DirectoryOf(tokens').live == d.live[row.tokenHash := Session(row.userId, row.expiresAt)];
  }

  lemma LiveAfterInsert(tokens: map<Id, RefreshToken>, row: RefreshToken, h: string)
    requires DistinctHashes(tokens) && row.id !in tokens && row.tokenHash !in HashesOf(tokens) && row.revokedAt.None?
    ensures var tokens' := tokens[row.id := row];
            && (h in LiveHashes(tokens') <==> h in LiveHashes(tokens) || h == row.tokenHash)
            && (h in LiveHashes(tokens) ==> SessionOf(tokens', h) == SessionOf(tokens, h) && h != row.tokenHash)
            && (h == row.tokenHash ==> SessionOf(tokens', h) == Session(row.userId, row.expiresAt))
  {
    var tokens' := tokens[row.id := row];
    assert forall t | t in tokens :: tokens[t].tokenHash in HashesOf(tokens);
    LiveHashMeans(tokens, h);
    if h == row.tokenHash {
      assert LiveRow(tokens', row.id, h);
      LiveHashMeans(tokens', h);
      SessionOfRow(tokens', row.id);
    } else {
      SameSession(tokens, tokens', h);
    }
  }

  lemma RevokeDirectory(tokens: map<Id, RefreshToken>, x: Id, now: Time)
    requires DistinctHashes(tokens) && x in tokens
    ensures var d := DirectoryOf(tokens);
            DirectoryOf(tokens[x := tokens[x].(revokedAt := Some(now))]) == d.(live := d.live - {tokens[x].tokenHash})
  {
    var d, hash, tokens' := DirectoryOf(tokens), tokens[x].tokenHash, tokens[x := tokens[x].(revokedAt := Some(now))];
    HashesAfterRevoke(tokens, x, now);
    forall h
      ensures h in LiveHashes(tokens') <==> h in LiveHashes(tokens) && h != hash
      ensures h in LiveHashes(tokens') ==> SessionOf(tokens', h) == SessionOf(tokens, h)
    {
      SessionAfterRevoke(tokens, x, now, h);
    }
    assert DirectoryOf(tokens').live == d.live - {hash};
  }

  lemma SessionAfterRevoke(tokens: map<Id, RefreshToken>, x: Id, now: Time, h: string)
    requires DistinctHashes(tokens) && x in tokens
    ensures var tokens' := tokens[x := tokens[x].(revokedAt := Some(now))];
            && (h in LiveHashes(tokens') <==> h in LiveHashes(tokens) && h != tokens[x].tokenHash)
            && (h in LiveHashes(tokens') ==> SessionOf(tokens', h) == SessionOf(tokens, h))
  {
    var tokens' := tokens[x := tokens[x].(revokedAt := Some(now))];
    if h == tokens[x].tokenHash {
      LiveHashMeans(tokens', h);
      assert forall t :: !LiveRow(tokens', t, h);
    } else {
      assert forall t :: LiveRow(tokens, t, h) <==> LiveRow(tokens', t, h);
      SameSession(tokens, tokens', h);
    }
  }

  lemma InsertWeb(db: Db, row: RefreshToken, ok: bool)
    requires Constraints(db) && row.revokedAt.None?
    ensures var n := InsertToken(db, row, ok);
            && n.ok == (ok && Admits(WebOf(db), row.tokenHash, row.id, row.userId))
            && WebOf(n.db) == if n.ok then
                                OpenSession(WebOf(db), row.tokenHash, row.id, Session(row.userId, row.expiresAt))
                              else WebOf(db)
  {
    assert (forall i | i in db.tokens :: db.tokens[i].tokenHash != row.tokenHash)
           <==> row.tokenHash !in HashesOf(db.tokens);
    if ok && Admits(WebOf(db), row.tokenHash, row.id, row.userId) {
      InsertDirectory(db.tokens, row);
    }
  }

  lemma RevokeWeb(db: Db, x: Id, now: Time)
    requires Constraints(db) && x in db.tokens
    ensures WebOf(Revoke(db, x, now, true).db) == Close(WebOf(db), db.tokens[x].tokenHash)
  {
    RevokeDirectory(db.tokens, x, now);
  }

  // ---------------------------------------------------------------- what the programs do to the token table

  function IssueOutcome(cfg: Config, db: Db, grant: Grant, user: User, w: Ticks, k: nat): Outcome {
    var n := InsertToken(db, NewRow(cfg, user, w(k)), w(k + 1).ok);
    if w(k).ok && n.ok
    then Outcome(n.db, Granted(NewPair(cfg, user, w(k)), if grant.ByGoogle? then Some(grant.redirectTo) else None))
    else Outcome(db, Refused(Unavailable))
  }

  ghost function LogoutOutcome(cfg: Config, db: Db, token: string, w: Ticks): Outcome {
    var found := FindByTokenHash(db, cfg.digest(token));
    if !w(0).ok then Outcome(db, Refused(Unavailable))
    else if found.None? then Outcome(db, Replied(LoggedOut))
    else if !w(1).ok then Outcome(db, Refused(Unavailable))
    else Outcome(Revoke(db, found.value.id, w(1).now, true).db, Replied(LoggedOut))
  }

  ghost function RefreshOutcome(cfg: Config, db: Db, token: string, w: Ticks): Outcome {
    var found := FindByTokenHash(db, cfg.digest(token));
    if !w(0).ok then Outcome(db, Refused(Unavailable))
    else if found.None? || !found.value.IsValid(w(1).now) then Outcome(db, Refused(RefreshTokenInvalid))
    else RotateOutcome(cfg, db, found.value, w)
  }

  function RotateOutcome(cfg: Config, db: Db, stored: RefreshToken, w: Ticks): Outcome {
    if !w(2).ok then Outcome(db, Refused(Unavailable))
    else if stored.userId !in db.users then Outcome(db, Refused(UserNotFound))
    else if !w(3).ok then Outcome(db, Refused(Unavailable))
    else IssueOutcome(cfg, Revoke(db, stored.id, w(3).now, true).db, ByPassword, db.users[stored.userId], w, 4)
  }

  lemma IssueAlone(cfg: Config, db: Db, q: Req, w: Ticks, k: nat)
    requires q.pc.Mint?
    ensures Answer(RunAlone(cfg, db, q, w, k)) == IssueOutcome(cfg, db, q.pc.grant, q.pc.user, w, k)
  {
    var row, pair := NewRow(cfg, q.pc.user, w(k)), NewPair(cfg, q.pc.user, w(k));
    Unroll(cfg, db, q, w, k);
    if w(k).ok {
      Unroll(cfg, db, q.Goto(Persist(q.pc.grant, q.pc.user, row, pair)), w, k + 1);
    }
  }

  lemma LogoutAlone(cfg: Config, db: Db, token: string, w: Ticks)
    ensures Answer(Serve(cfg, db, Input.Logout(token), w)) == LogoutOutcome(cfg, db, token, w)
  {
    var q, found := NewRequest(Input.Logout(token)), FindByTokenHash(db, cfg.digest(token));
    Unroll(cfg, db, q, w, 0);
    if w(0).ok && found.Some? {
      Unroll(cfg, db, q.Goto(RevokeOnly(found.value)), w, 1);
    }
  }

  lemma RefreshAlone(cfg: Config, db: Db, token: string, w: Ticks)
    ensures Answer(Serve(cfg, db, Input.Refresh(token), w)) == RefreshOutcome(cfg, db, token, w)
  {
    var q, found := NewRequest(Input.Refresh(token)), FindByTokenHash(db, cfg.digest(token));
    Unroll(cfg, db, q, w, 0);
    if w(0).ok && found.Some? {
      Unroll(cfg, db, q.Goto(Validate(found.value)), w, 1);
      RotateAlone(cfg, db, q.Goto(LoadOwner(found.value)), w);
    }
  }

  lemma RotateAlone(cfg: Config, db: Db, q: Req, w: Ticks)
    requires q.pc.LoadOwner?
    ensures Answer(RunAlone(cfg, db, q, w, 2)) == RotateOutcome(cfg, db, q.pc.stored, w)
  {
    var stored := q.pc.stored;
    Unroll(cfg, db, q, w, 2);
    if w(2).ok && stored.userId in db.users {
      var user := db.users[stored.userId];
      Unroll(cfg, db, q.Goto(RevokeUsed(stored, user)), w, 3);
      if w(3).ok {
        IssueAlone(cfg, Revoke(db, stored.id, w(3).now, true).db, q.Goto(Mint(ByRefresh(stored), user)), w, 4);
      }
    }
  }

  // ---------------------------------------------------------------- simulation of one request

  /** The outcome on the table is the outcome on the directory, seen through the abstraction. */
  ghost predicate Simulates(o: Outcome, a: WebOutcome) {
    o.response == a.response && WebOf(o.db) == a.web
  }

  lemma IssueSimulates(cfg: Config, db: Db, grant: Grant, user: User, w: Ticks, k: nat)
    requires Constraints(db)
    ensures Simulates(IssueOutcome(cfg, db, grant, user, w, k), Issue(cfg, WebOf(db), grant, user, w, k))
  {
    InsertWeb(db, NewRow(cfg, user, w(k)), w(k + 1).ok);
  }

  /** A look-up by hash and the directory agree on what exists and what is live. */
  lemma FoundIsListed(db: Db, hash: string)
    requires Constraints(db)
    ensures var found, d := FindByTokenHash(db, hash), DirectoryOf(db.tokens);
            && (found.Some? <==> hash in d.hashes)
            && (found.Some? ==>
                  && found.value.id in db.tokens && db.tokens[found.value.id] == found.value
                  && found.value.tokenHash == hash && found.value.userId in db.users)
            && (hash in d.live <==> found.Some? && found.value.revokedAt.None?)
            && (hash in d.live ==> d.live[hash] == Session(found.value.userId, found.value.expiresAt))
  {
    if hash in HashesOf(db.tokens) {
      var t :| t in db.tokens && db.tokens[t].tokenHash == hash;
      if db.tokens[t].revokedAt.None? {
        SessionOfRow(db.tokens, t);
      }
    }
  }

  lemma DeleteSimulates(cfg: Config, db: Db, token: string, w: Ticks)
    requires Constraints(db)
    ensures Simulates(LogoutOutcome(cfg, db, token, w), Delete(cfg, WebOf(db), token, w))
  {
    FoundIsListed(db, cfg.digest(token));
    var found := FindByTokenHash(db, cfg.digest(token));
    if found.Some? {
      RevokeWeb(db, found.value.id, w(1).now);
    }
  }

  lemma ReplaceSimulates(cfg: Config, db: Db, token: string, w: Ticks)
    requires Constraints(db)
    ensures Simulates(RefreshOutcome(cfg, db, token, w), Replace(cfg, WebOf(db), token, w))
  {
    FoundIsListed(db, cfg.digest(token));
    var found := FindByTokenHash(db, cfg.digest(token));
    if found.Some? && found.value.IsValid(w(1).now) {
      RotateSimulates(cfg, db, found.value, w);
    }
  }

  lemma RotateSimulates(cfg: Config, db: Db, stored: RefreshToken, w: Ticks)
    requires Constraints(db) && stored.id in db.tokens && db.tokens[stored.id] == stored && stored.userId in db.users
    ensures Simulates(RotateOutcome(cfg, db, stored, w),
                      if !w(2).ok || !w(3).ok then WebOutcome(WebOf(db), Refused(Unavailable))
                      else Issue(cfg, Close(WebOf(db), stored.tokenHash), ByPassword, db.users[stored.userId], w, 4))
  {
    RevokeWeb(db, stored.id, w(3).now);
    RevokeKeepsConstraints(db, stored.id, w(3).now, true);
    IssueSimulates(cfg, Revoke(db, stored.id, w(3).now, true).db, ByPassword, db.users[stored.userId], w, 4);
  }

  lemma {:induction false} RunAloneKeepsConstraints(cfg: Config, db: Db, q: Req, w: Ticks, k: nat)
    requires Constraints(db)
    ensures Constraints(RunAlone(cfg, db, q, w, k).db)
    ensures Constraints(Approach(cfg, db, q, w, k).db)
    decreases Rank(q.pc)
  {
    if !q.Terminal() {
      StepUsesRank(cfg, db, q, w(k));
      StepEffect(cfg, db, q, w(k));
      EffectKeepsConstraints(db, q, w(k));
      var m := Step(cfg, db, q, w(k));
      RunAloneKeepsConstraints(cfg, m.db, m.req, w, k + 1);
    }
  }

  lemma SignInSimulates(cfg: Config, db: Db, input: Input, w: Ticks)
    requires Constraints(db) && !input.Refresh? && !input.Logout?
    ensures var stop := Approach(cfg, db, NewRequest(input), w, 0);
            Simulates(if stop.req.pc.Mint?
                      then IssueOutcome(cfg, stop.db, stop.req.pc.grant, stop.req.pc.user, w, stop.k)
                      else Outcome(stop.db, Respond(stop.req.pc)),
                      ServeWeb(cfg, WebOf(db), input, w))
  {
    var stop := Approach(cfg, db, NewRequest(input), w, 0);
    ApproachTokenFree(cfg, db, NewRequest(input), w, 0);
    assert db.(tokens := map[]) == Tokenless(WebOf(db));
    if stop.req.pc.Mint? {
      RunAloneKeepsConstraints(cfg, db, NewRequest(input), w, 0);
      IssueSimulates(cfg, stop.db, stop.req.pc.grant, stop.req.pc.user, w, stop.k);
    }
  }

  lemma SignInAlone(cfg: Config, db: Db, input: Input, w: Ticks)
    requires !input.Refresh? && !input.Logout?
    ensures var stop := Approach(cfg, db, NewRequest(input), w, 0);
            Answer(Serve(cfg, db, input, w)) ==
              if stop.req.pc.Mint? then IssueOutcome(cfg, stop.db, stop.req.pc.grant, stop.req.pc.user, w, stop.k)
              else Outcome(stop.db, Respond(stop.req.pc))
  {
    var stop := Approach(cfg, db, NewRequest(input), w, 0);
    ApproachThenRest(cfg, db, NewRequest(input), w, 0);
    ApproachTokenFree(cfg, db, NewRequest(input), w, 0);
    if stop.req.pc.Mint? {
      IssueAlone(cfg, stop.db, stop.req, w, stop.k);
    }
  }

  /** One request: the same answer from the table and from the directory, and matching states after. */
  lemma ServeSimulates(cfg: Config, db: Db, input: Input, w: Ticks)
    requires Constraints(db)
    ensures Simulates(Answer(Serve(cfg, db, input, w)), ServeWeb(cfg, WebOf(db), input, w))
  {
    if input.Refresh? {
      RefreshAlone(cfg, db, input.token, w);
      ReplaceSimulates(cfg, db, input.token, w);
    } else if input.Logout? {
      LogoutAlone(cfg, db, input.token, w);
      DeleteSimulates(cfg, db, input.token, w);
    } else {
      SignInAlone(cfg, db, input, w);
      SignInSimulates(cfg, db, input, w);
    }
  }

  // ---------------------------------------------------------------- simulation of whole runs

  datatype Job = Job(input: Input, ticks: Ticks)

  ghost function Responses(cfg: Config, db: Db, jobs: seq<Job>): seq<Response>
    decreases |jobs|
  {
    if jobs == [] then []
    else
      var o := Answer(Serve(cfg, db, jobs[0].input, jobs[0].ticks));
      [o.response] + Responses(cfg, o.db, jobs[1..])
  }

  ghost function WebResponses(cfg: Config, web: Web, jobs: seq<Job>): seq<Response>
    decreases |jobs|
  {
    if jobs == [] then []
    else
      var o := ServeWeb(cfg, web, jobs[0].input, jobs[0].ticks);
      [o.response] + WebResponses(cfg, o.web, jobs[1..])
  }

  lemma {:induction false} JobsSimulate(cfg: Config, db: Db, jobs: seq<Job>)
    requires Constraints(db)
    ensures Responses(cfg, db, jobs) == WebResponses(cfg, WebOf(db), jobs)
    decreases |jobs|
  {
    if jobs != [] {
      ServeSimulates(cfg, db, jobs[0].input, jobs[0].ticks);
      assert Constraints(Serve(cfg, db, jobs[0].input, jobs[0].ticks).db) by {
        RunAloneKeepsConstraints(cfg, db, NewRequest(jobs[0].input), jobs[0].ticks, 0);
      }
      JobsSimulate(cfg, Serve(cfg, db, jobs[0].input, jobs[0].ticks).db, jobs[1..]);
    }
  }

  const NOBODY := Web(map[], map[], Directory(map[], {}, {}))

  /** No sequence of requests, with whatever failures, clock readings, identifiers and token values,
      can tell the append-only token table from the directory of live sessions. */
  lemma TableIsASessionDirectory(cfg: Config, jobs: seq<Job>)
    ensures Responses(cfg, EMPTY, jobs) == WebResponses(cfg, NOBODY, jobs)
  {
    assert LiveHashes(map[]) == {} && HashesOf(map[]) == {};
    assert DirectoryOf(map[]).live == map[];
    assert WebOf(EMPTY) == NOBODY;
    JobsSimulate(cfg, EMPTY, jobs);
  }
}
