/** The mutable store behind the repositories of internal/adapter/postgres. */
module Store {
  import opened Wrappers
  import opened Domain
  import T = Tables

  class Database {
    var users: map<Id, User>
    var tokens: map<Id, RefreshToken>
    var codes: map<Id, VerificationCode>

    ghost function View(): T.Db
      reads this
    {
      T.Db(users, tokens, codes)
    }

    ghost predicate Valid()
      reads this
    {
      T.Constraints(View())
    }

    constructor ()
      ensures Valid() && View() == T.EMPTY
    {
      users, tokens, codes := map[], map[], map[];
    }

    // -------------------------------------------------------------- UserRepository

    /** SELECT count(*) ... WHERE email = ?, and whether the count is positive. */
    method ExistsByEmail(email: string, ok: bool) returns (r: Lookup<bool>)
      ensures !ok ==> r == Down
      ensures ok ==> r == Hit(|set i | i in users && users[i].email == email| > 0)
      ensures ok ==> r == Hit(T.ExistsByEmail(View(), email))
    {
      if !ok {
        return Down;
      }
      var count, rows := 0, users.Keys;
      ghost var matching: set<Id> := {};
      while rows != {}
        invariant rows <= users.Keys && count == |matching|
        invariant matching == set i | i in users && i !in rows && users[i].email == email
        decreases rows
      {
        var i :| i in rows;
        if users[i].email == email {
          count, matching := count + 1, matching + {i};
        }
        rows := rows - {i};
      }
      assert matching == set i | i in users && users[i].email == email;
      if i :| i in users && users[i].email == email {
        assert i in matching;
      }
      r := Hit(count > 0);
    }

    method FindUserByEmail(email: string, ok: bool) returns (r: Lookup<User>)
      requires Valid()
      ensures r == T.Read(T.FindUserByEmail(View(), email), ok)
    {
      if !ok {
        return Down;
      }
      if exists i | i in users :: users[i].email == email {
        var i :| i in users && users[i].email == email;
        r := Hit(users[i]);
      } else {
        r := Miss;
      }
    }

    /** WHERE id = ?: the primary key lets at most one row answer, and it answers with that id. */
    method FindUserById(id: Id, ok: bool) returns (r: Lookup<User>)
      requires Valid()
      ensures r.Down? <==> !ok
      ensures r.Hit? ==> r.value in users.Values && r.value.id == id
      ensures r.Miss? ==> forall u | u in users.Values :: u.id != id
      ensures r == T.Read(T.FindUserById(View(), id), ok)
    {
      if !ok {
        return Down;
      }
      r := if id in users then Hit(users[id]) else Miss;
    }

    method InsertUser(u: User, ok: bool) returns (stored: bool)
      requires Valid()
      modifies this`users
      ensures Valid() && T.Written(View(), stored) == T.InsertUser(old(View()), u, ok)
      ensures stored <==>
              && ok && u.id !in old(users) && (forall i | i in old(users) :: old(users)[i].email != u.email)
              && |u.email| <= 255 && |u.name| <= 255 && (u.passwordHash.Some? ==> |u.passwordHash.value| <= 255)
      ensures users == if stored then old(users)[u.id := u] else old(users)
    {
      T.InsertUserKeepsConstraints(View(), u, ok);
      stored := ok && T.AdmitsUser(T.Db(users, tokens, codes), u);
      if stored {
        users := users[u.id := u];
      }
    }

    method AddRole(id: Id, role: string, now: Time, ok: bool) returns (r: Lookup<User>)
      requires Valid()
      modifies this`users
      ensures Valid() && View() == T.AddRole(old(View()), id, role, now, ok).db
      ensures r == if !ok then Down else if id in old(users) then Hit(users[id]) else Miss
      ensures T.AddRole(old(View()), id, role, now, ok).ok == r.Hit?
      ensures users.Keys == old(users.Keys)
      ensures forall i | i in users ::
                var u := old(users)[i];
                users[i] == if !ok || i != id then u
                            else u.(roles := if role in u.roles then u.roles else u.roles + [role], updatedAt := now)
    {
      T.AddRoleKeepsConstraints(View(), id, role, now, ok);
      if !ok {
        return Down;
      }
      if id in users {
        users := users[id := T.GrantRole(users[id], role, now)];
        r := Hit(users[id]);
      } else {
        r := Miss;
      }
    }

    // -------------------------------------------------------------- RefreshTokenRepository

    method InsertToken(t: RefreshToken, ok: bool) returns (stored: bool)
      requires Valid()
      modifies this`tokens
      ensures Valid() && T.Written(View(), stored) == T.InsertToken(old(View()), t, ok)
      ensures stored <==>
              && ok && t.id !in old(tokens) && t.userId in users && |t.tokenHash| <= 64
              && forall i | i in old(tokens) :: old(tokens)[i].tokenHash != t.tokenHash
      ensures tokens == if stored then old(tokens)[t.id := t] else old(tokens)
    {
      T.InsertTokenKeepsConstraints(View(), t, ok);
      stored := ok && T.AdmitsToken(T.Db(users, tokens, codes), t);
      if stored {
        tokens := tokens[t.id := t];
      }
    }

    method FindByTokenHash(hash: string, ok: bool) returns (r: Lookup<RefreshToken>)
      requires Valid()
      ensures r == T.Read(T.FindByTokenHash(View(), hash), ok)
    {
      if !ok {
        return Down;
      }
      if exists i | i in tokens :: tokens[i].tokenHash == hash {
        var i :| i in tokens && tokens[i].tokenHash == hash;
        r := Hit(tokens[i]);
      } else {
        r := Miss;
      }
    }

    method Revoke(id: Id, now: Time, ok: bool) returns (done: bool)
      requires Valid()
      modifies this`tokens
      ensures Valid() && T.Written(View(), done) == T.Revoke(old(View()), id, now, ok)
      ensures done == ok
      ensures tokens == if ok && id in old(tokens) then old(tokens)[id := old(tokens)[id].(revokedAt := Some(now))]
                        else old(tokens)
    {
      T.RevokeKeepsConstraints(View(), id, now, ok);
      done := ok;
      if ok && id in tokens {
        tokens := tokens[id := tokens[id].(revokedAt := Some(now))];
      }
    }

    // -------------------------------------------------------------- VerificationCodeRepository

    method InsertCode(c: VerificationCode, ok: bool) returns (stored: bool)
      requires Valid()
      modifies this`codes
      ensures Valid() && T.Written(View(), stored) == T.InsertCode(old(View()), c, ok)
      ensures stored <==> ok && c.id !in old(codes) && |c.email| <= 255 && |c.codeHash| <= 64
      ensures codes == if stored then old(codes)[c.id := c] else old(codes)
    {
      T.InsertCodeKeepsConstraints(View(), c, ok);
      stored := ok && T.AdmitsCode(T.Db(users, tokens, codes), c);
      if stored {
        codes := codes[c.id := c];
      }
    }

    /** WHERE email = ? ORDER BY created_at DESC LIMIT 1: a scan that keeps the row of the address that
        comes first so far. */
    method FindLatestByEmail(email: string, pick: Id, ok: bool) returns (r: Lookup<VerificationCode>)
      requires Valid()
      ensures r.Down? <==> !ok
      ensures r.Hit? ==> r.value in codes.Values && r.value.email == email
      ensures r.Hit? ==> forall i | i in codes && codes[i].email == email :: codes[i].createdAt <= r.value.createdAt
      ensures r.Miss? <==> ok && forall i | i in codes :: codes[i].email != email
      ensures r == T.FindLatestByEmail(View(), email, pick, ok)
    {
      if !ok {
        return Down;
      }
      r := Miss;
      var rows := codes.Keys;
      while rows != {}
        invariant rows <= codes.Keys && First(r, email, pick, codes.Keys - rows)
        decreases rows
      {
        var i :| i in rows;
        if codes[i].email == email && (r.Miss? || Precedes(codes[i], r.value, pick)) {
          r := Hit(codes[i]);
        }
        rows := rows - {i};
      }
      assert codes.Keys - rows == codes.Keys;
      FirstIsAnswer(r, email, pick);
    }

    /** In the order of the query `a` goes before `b`. */
    predicate Precedes(a: VerificationCode, b: VerificationCode, pick: Id) {
      || b.createdAt < a.createdAt
      || (a.createdAt == b.createdAt && b.id != pick && (a.id == pick || a.id < b.id))
    }

    /** The outcome of scanning the rows `seen`. */
    ghost predicate First(r: Lookup<VerificationCode>, email: string, pick: Id, seen: set<Id>)
      requires seen <= codes.Keys
      reads this`codes
    {
      match r
      case Down => false
      case Miss => forall i | i in seen :: codes[i].email != email
      case Hit(c) =>
        && c.id in seen && codes[c.id] == c && c.email == email
        && forall i | i in seen && codes[i].email == email :: !Precedes(codes[i], c, pick)
    }

    lemma FirstIsAnswer(r: Lookup<VerificationCode>, email: string, pick: Id)
      requires Valid() && First(r, email, pick, codes.Keys)
      ensures r == T.FindLatestByEmail(View(), email, pick, true)
    {
      if r.Hit? {
        forall i | T.ComesFirst(View(), email, pick, i)
          ensures i == r.value.id
        {
          assert !Precedes(codes[i], r.value, pick);
          assert T.IsLatest(View(), email, r.value.id);
        }
        T.SomeRowComesFirst(View(), email, pick);
      }
    }

    method IncrementAttempts(id: Id, ok: bool) returns (done: bool)
      requires Valid()
      modifies this`codes
      ensures Valid() && T.Written(View(), done) == T.IncrementAttempts(old(View()), id, ok)
      ensures done == ok
      ensures codes == if ok && id in old(codes)
                       then old(codes)[id := old(codes)[id].(attempts := old(codes)[id].attempts + 1)]
                       else old(codes)
    {
      T.IncrementAttemptsKeepsConstraints(View(), id, ok);
      done := ok;
      if ok && id in codes {
        codes := codes[id := codes[id].(attempts := codes[id].attempts + 1)];
      }
    }

    method MarkConsumed(id: Id, now: Time, ok: bool) returns (done: bool)
      requires Valid()
      modifies this`codes
      ensures Valid() && T.Written(View(), done) == T.MarkConsumed(old(View()), id, now, ok)
      ensures done == ok
      ensures codes == if ok && id in old(codes) then old(codes)[id := old(codes)[id].(consumedAt := Some(now))]
                       else old(codes)
    {
      T.MarkConsumedKeepsConstraints(View(), id, now, ok);
      done := ok;
      if ok && id in codes {
        codes := codes[id := codes[id].(consumedAt := Some(now))];
      }
    }
  }
}
