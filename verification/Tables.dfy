/** The three tables and the repository statements on them (internal/adapter/postgres), with the
    constraints of the migrations. Each function is one atomic SQL statement; `ok` says whether the
    database carried it out, and a statement that fails changes nothing. */
module Tables {
  import opened Wrappers
  import opened Domain

  datatype Db = Db(
    users: map<Id, User>,
    tokens: map<Id, RefreshToken>,
    codes: map<Id, VerificationCode>)

  const EMPTY := Db(map[], map[], map[])

  /** The state a write leaves and whether it took effect. */
  datatype Written = Written(db: Db, ok: bool)

  /** A read answers what it found, if the database carries it out. */
  function Read<T>(found: Option<T>, ok: bool): Lookup<T> {
    if !ok then Down else if found.None? then Miss else Hit(found.value)
  }

  // ---------------------------------------------------------------- constraints

  predicate AdmitsUser(db: Db, u: User) {
    && u.id !in db.users
    && (forall i | i in db.users :: db.users[i].email != u.email)
    && |u.email| <= 255 && |u.name| <= 255
    && (u.passwordHash.Some? ==> |u.passwordHash.value| <= 255)
  }

  predicate AdmitsToken(db: Db, t: RefreshToken) {
    && t.id !in db.tokens
    && t.userId in db.users
    && (forall i | i in db.tokens :: db.tokens[i].tokenHash != t.tokenHash)
    && |t.tokenHash| <= 64
  }

  predicate AdmitsCode(db: Db, c: VerificationCode) {
    c.id !in db.codes && |c.email| <= 255 && |c.codeHash| <= 64
  }

  // ---------------------------------------------------------------- users

  function InsertUser(db: Db, u: User, ok: bool): Written {
    if ok && AdmitsUser(db, u) then Written(db.(users := db.users[u.id := u]), true) else Written(db, false)
  }

  predicate ExistsByEmail(db: Db, email: string) {
    exists i | i in db.users :: db.users[i].email == email
  }

  ghost function FindUserByEmail(db: Db, email: string): Option<User> {
    UserWithEmail(db.users, email)
  }

  ghost function UserWithEmail(users: map<Id, User>, email: string): Option<User> {
    if i :| i in users && users[i].email == email then Some(users[i]) else None
  }

  function FindUserById(db: Db, id: Id): Option<User> {
    if id in db.users then Some(db.users[id]) else None
  }

  function GrantRole(u: User, role: string, now: Time): User {
    u.(roles := if role in u.roles then u.roles else u.roles + [role], updatedAt := now)
  }

  /** UPDATE ... RETURNING: the written row is the answer, and no row means no such user. */
  function AddRole(db: Db, id: Id, role: string, now: Time, ok: bool): Written {
    if ok && id in db.users
    then Written(db.(users := db.users[id := GrantRole(db.users[id], role, now)]), true)
    else Written(db, false)
  }

  // ---------------------------------------------------------------- refresh tokens

  function InsertToken(db: Db, t: RefreshToken, ok: bool): Written {
    if ok && AdmitsToken(db, t) then Written(db.(tokens := db.tokens[t.id := t]), true) else Written(db, false)
  }

  ghost function FindByTokenHash(db: Db, hash: string): Option<RefreshToken> {
    if i :| i in db.tokens && db.tokens[i].tokenHash == hash then Some(db.tokens[i]) else None
  }

  /** An UPDATE that matches no row is not an error. */
  function Revoke(db: Db, id: Id, now: Time, ok: bool): Written {
    if !ok then Written(db, false)
    else if id in db.tokens
    then Written(db.(tokens := db.tokens[id := db.tokens[id].(revokedAt := Some(now))]), true)
    else Written(db, true)
  }

  // ---------------------------------------------------------------- verification codes

  function InsertCode(db: Db, c: VerificationCode, ok: bool): Written {
    if ok && AdmitsCode(db, c) then Written(db.(codes := db.codes[c.id := c]), true) else Written(db, false)
  }

  predicate HasCode(db: Db, email: string) {
    exists i | i in db.codes :: db.codes[i].email == email
  }

  /** Row `id` belongs to the address and no row of the address is newer. */
  predicate IsLatest(db: Db, email: string, id: Id) {
    && id in db.codes && db.codes[id].email == email
    && forall i | i in db.codes && db.codes[i].email == email :: db.codes[i].createdAt <= db.codes[id].createdAt
  }

  /** Row `i` comes first in the order of the query: it is a newest row of the address, and among equally
      new ones it is the one the database prefers, or else the one with the least identifier. */
  ghost predicate ComesFirst(db: Db, email: string, pick: Id, i: Id) {
    && IsLatest(db, email, i)
    && (i == pick || (!IsLatest(db, email, pick) && forall j | IsLatest(db, email, j) :: i <= j))
  }

  lemma {:induction false} NewestAmong(codes: map<Id, VerificationCode>, ids: set<Id>) returns (i: Id)
    requires ids != {} && ids <= codes.Keys
    ensures i in ids && forall j | j in ids :: codes[j].createdAt <= codes[i].createdAt
    decreases |ids|
  {
    i :| i in ids;
    var others := ids - {i};
    assert ids == others + {i};
    if others != {} {
      var best := NewestAmong(codes, others);
      if codes[i].createdAt < codes[best].createdAt { i := best; }
    }
  }

  lemma {:induction false} LeastAmong(ids: set<Id>) returns (i: Id)
    requires ids != {}
    ensures i in ids && forall j | j in ids :: i <= j
    decreases |ids|
  {
    i :| i in ids;
    var others := ids - {i};
    assert ids == others + {i};
    if others != {} {
      var least := LeastAmong(others);
      if least < i { i := least; }
    }
  }

  lemma SomeRowComesFirst(db: Db, email: string, pick: Id)
    requires HasCode(db, email)
    ensures exists i :: ComesFirst(db, email, pick, i)
  {
    if IsLatest(db, email, pick) {
      assert ComesFirst(db, email, pick, pick);
    } else {
      var rows := set i | i in db.codes && db.codes[i].email == email;
      var some :| some in db.codes && db.codes[some].email == email;
      assert some in rows;
      var newest := NewestAmong(db.codes, rows);
      var latest := set i | i in db.codes && IsLatest(db, email, i);
      assert newest in latest;
      var least := LeastAmong(latest);
      assert forall j | IsLatest(db, email, j) :: j in latest;
      assert ComesFirst(db, email, pick, least);
    }
  }

  /** ORDER BY created_at DESC LIMIT 1. Rows created at the same instant may come in any order, so
      `pick` is the one the database prefers among them. */
  ghost function FindLatestByEmail(db: Db, email: string, pick: Id, ok: bool): Lookup<VerificationCode> {
    if !ok then Down
    else if !HasCode(db, email) then Miss
    else
      SomeRowComesFirst(db, email, pick);
      var i :| ComesFirst(db, email, pick, i);
      Hit(db.codes[i])
  }

  /** The answer depends on the table of codes alone. */
  lemma FindLatestReadsCodes(a: Db, b: Db, email: string, pick: Id, ok: bool)
    requires a.codes == b.codes
    ensures FindLatestByEmail(a, email, pick, ok) == FindLatestByEmail(b, email, pick, ok)
  {
    assert forall i :: IsLatest(a, email, i) <==> IsLatest(b, email, i);
    assert forall i :: ComesFirst(a, email, pick, i) <==> ComesFirst(b, email, pick, i);
  }

  /** An answer is a stored row, and none of its address is newer. */
  ghost predicate AnswersLatest(db: Db, email: string, f: Lookup<VerificationCode>) {
    f.Hit? ==>
      f.value.id in db.codes && db.codes[f.value.id] == f.value && IsLatest(db, email, f.value.id)
  }

  function IncrementAttempts(db: Db, id: Id, ok: bool): Written {
    if !ok then Written(db, false)
    else if id in db.codes
    then Written(db.(codes := db.codes[id := db.codes[id].(attempts := db.codes[id].attempts + 1)]), true)
    else Written(db, true)
  }

  function MarkConsumed(db: Db, id: Id, now: Time, ok: bool): Written {
    if !ok then Written(db, false)
    else if id in db.codes
    then Written(db.(codes := db.codes[id := db.codes[id].(consumedAt := Some(now))]), true)
    else Written(db, true)
  }

  // ---------------------------------------------------------------- integrity

  /** Primary keys, the two UNIQUE constraints and the foreign key. */
  ghost predicate Constraints(db: Db) {
    && (forall i | i in db.users :: db.users[i].id == i)
    && (forall i | i in db.tokens :: db.tokens[i].id == i)
    && (forall i | i in db.codes :: db.codes[i].id == i)
    && UniqueEmails(db)
    && UniqueHashes(db)
    && (forall i | i in db.tokens :: db.tokens[i].userId in db.users)
  }

  ghost predicate UniqueEmails(db: Db) {
    forall i, j | i in db.users && j in db.users && db.users[i].email == db.users[j].email :: i == j
  }

  ghost predicate UniqueHashes(db: Db) {
    forall i, j | i in db.tokens && j in db.tokens && db.tokens[i].tokenHash == db.tokens[j].tokenHash :: i == j
  }

  /** Under the constraints a look-up by a unique column finds exactly the row that carries it. */
  lemma UniqueLookups(db: Db)
    requires Constraints(db)
    ensures forall i | i in db.users :: FindUserByEmail(db, db.users[i].email) == Some(db.users[i])
    ensures forall i | i in db.tokens :: FindByTokenHash(db, db.tokens[i].tokenHash) == Some(db.tokens[i])
  {
    forall i | i in db.users
      ensures FindUserByEmail(db, db.users[i].email) == Some(db.users[i])
    {
      assert db.users[i].email == db.users[i].email;
    }
  }

  // No statement breaks a constraint, whatever row it is given.

  lemma InsertUserKeepsConstraints(db: Db, u: User, ok: bool)
    requires Constraints(db)
    ensures Constraints(InsertUser(db, u, ok).db)
  {
  }

  lemma AddRoleKeepsConstraints(db: Db, id: Id, role: string, now: Time, ok: bool)
    requires Constraints(db)
    ensures Constraints(AddRole(db, id, role, now, ok).db)
  {
  }

  lemma InsertTokenKeepsConstraints(db: Db, t: RefreshToken, ok: bool)
    requires Constraints(db)
    ensures Constraints(InsertToken(db, t, ok).db)
  {
  }

  lemma RevokeKeepsConstraints(db: Db, id: Id, now: Time, ok: bool)
    requires Constraints(db)
    ensures Constraints(Revoke(db, id, now, ok).db)
  {
  }

  lemma InsertCodeKeepsConstraints(db: Db, c: VerificationCode, ok: bool)
    requires Constraints(db)
    ensures Constraints(InsertCode(db, c, ok).db)
  {
  }

  lemma IncrementAttemptsKeepsConstraints(db: Db, id: Id, ok: bool)
    requires Constraints(db)
    ensures Constraints(IncrementAttempts(db, id, ok).db)
  {
  }

  lemma MarkConsumedKeepsConstraints(db: Db, id: Id, now: Time, ok: bool)
    requires Constraints(db)
    ensures Constraints(MarkConsumed(db, id, now, ok).db)
  {
  }

  // ---------------------------------------------------------------- how rows may change

  /** What no statement ever changes in a user row; roles only grow at the end. */
  ghost predicate UserEvolves(a: User, b: User) {
    && b.id == a.id && b.email == a.email && b.passwordHash == a.passwordHash
    && b.name == a.name && b.createdAt == a.createdAt
    && a.roles <= b.roles
  }

  /** A token is frozen but for its revocation, which is never taken back. */
  ghost predicate TokenEvolves(a: RefreshToken, b: RefreshToken) {
    && b == a.(revokedAt := b.revokedAt)
    && (a.revokedAt.Some? ==> b.revokedAt.Some?)
  }

  /** A code is frozen but for its consumption, never taken back, and a counter that never drops. */
  ghost predicate CodeEvolves(a: VerificationCode, b: VerificationCode) {
    && b == a.(consumedAt := b.consumedAt, attempts := b.attempts)
    && (a.consumedAt.Some? ==> b.consumedAt.Some?)
    && a.attempts <= b.attempts
  }

  ghost predicate KnownUser(db: Db, u: User) {
    u.id in db.users && UserEvolves(u, db.users[u.id])
  }

  ghost predicate KnownToken(db: Db, t: RefreshToken) {
    t.id in db.tokens && TokenEvolves(t, db.tokens[t.id])
  }

  ghost predicate KnownCode(db: Db, c: VerificationCode) {
    c.id in db.codes && CodeEvolves(c, db.codes[c.id])
  }

  /** Every row of the first state is still in the second, grown as rows may grow. */
  ghost predicate Evolves(a: Db, b: Db) {
    && (forall i | i in a.users :: i in b.users && UserEvolves(a.users[i], b.users[i]))
    && (forall i | i in a.tokens :: i in b.tokens && TokenEvolves(a.tokens[i], b.tokens[i]))
    && (forall i | i in a.codes :: i in b.codes && CodeEvolves(a.codes[i], b.codes[i]))
  }

  lemma EvolvesReflexive(db: Db)
    ensures Evolves(db, db)
  {
  }

  // Every statement only lets rows grow.

  lemma InsertUserEvolves(db: Db, u: User, ok: bool)
    ensures Evolves(db, InsertUser(db, u, ok).db)
  {
  }

  lemma AddRoleEvolves(db: Db, id: Id, role: string, now: Time, ok: bool)
    ensures Evolves(db, AddRole(db, id, role, now, ok).db)
  {
  }

  lemma InsertTokenEvolves(db: Db, t: RefreshToken, ok: bool)
    ensures Evolves(db, InsertToken(db, t, ok).db)
  {
  }

  lemma RevokeEvolves(db: Db, id: Id, now: Time, ok: bool)
    ensures Evolves(db, Revoke(db, id, now, ok).db)
  {
  }

  lemma InsertCodeEvolves(db: Db, c: VerificationCode, ok: bool)
    ensures Evolves(db, InsertCode(db, c, ok).db)
  {
  }

  lemma IncrementAttemptsEvolves(db: Db, id: Id, ok: bool)
    ensures Evolves(db, IncrementAttempts(db, id, ok).db)
  {
  }

  lemma MarkConsumedEvolves(db: Db, id: Id, now: Time, ok: bool)
    ensures Evolves(db, MarkConsumed(db, id, now, ok).db)
  {
  }

  lemma EvolvesTransitive(a: Db, b: Db, c: Db)
    requires Evolves(a, b) && Evolves(b, c)
    ensures Evolves(a, c)
  {
    forall i | i in a.users
      ensures i in c.users && UserEvolves(a.users[i], c.users[i])
    {
      assert UserEvolves(a.users[i], b.users[i]) && UserEvolves(b.users[i], c.users[i]);
    }
    forall i | i in a.tokens
      ensures i in c.tokens && TokenEvolves(a.tokens[i], c.tokens[i])
    {
      assert TokenEvolves(a.tokens[i], b.tokens[i]) && TokenEvolves(b.tokens[i], c.tokens[i]);
    }
    forall i | i in a.codes
      ensures i in c.codes && CodeEvolves(a.codes[i], c.codes[i])
    {
      assert CodeEvolves(a.codes[i], b.codes[i]) && CodeEvolves(b.codes[i], c.codes[i]);
    }
  }

  lemma KnownPersists(a: Db, b: Db)
    requires Evolves(a, b)
    ensures forall u | KnownUser(a, u) :: KnownUser(b, u)
    ensures forall t | KnownToken(a, t) :: KnownToken(b, t)
    ensures forall c | KnownCode(a, c) :: KnownCode(b, c)
  {
    forall u | KnownUser(a, u)
      ensures KnownUser(b, u)
    {
      assert UserEvolves(a.users[u.id], b.users[u.id]);
    }
    forall t | KnownToken(a, t)
      ensures KnownToken(b, t)
    {
      assert TokenEvolves(a.tokens[t.id], b.tokens[t.id]);
    }
    forall c | KnownCode(a, c)
      ensures KnownCode(b, c)
    {
      assert CodeEvolves(a.codes[c.id], b.codes[c.id]);
    }
  }
}
