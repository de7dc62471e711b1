/** What every interleaving keeps about accounts: one per address, a fixed identity, roles that only
    grow, and pairs that always go to the account they were asked for. */
module Accounts {
  import opened Wrappers
  import opened Domain
  import opened Emails
  import opened Tables
  import opened Protocol
  import opened System
  import opened Invariants
  import opened Reachability

  /** At most one account per normalised address, whoever raced to create it. */
  lemma OneAccountPerAddress(cfg: Config, s: Sys, i: Id, j: Id)
    requires Reachable(cfg, s) && i in s.db.users && j in s.db.users
    requires NormalizeEmail(s.db.users[i].email) == NormalizeEmail(s.db.users[j].email)
    ensures i == j
    ensures NormalizeEmail(s.db.users[i].email) == s.db.users[i].email
  {
    ReachableInv(cfg, s);
    assert AccountOk(s.db.users[i]) && AccountOk(s.db.users[j]);
    NormalizeEmailFixedPoints(s.db.users[i].email);
    NormalizeEmailFixedPoints(s.db.users[j].email);
  }

  /** A pair answered to a login, a code or a Google sign-in for an address carries, in the access
      token and in the stored row, the one account with that address. */
  lemma PairBelongsToAddress(cfg: Config, s: Sys, r: ReqId, email: string)
    requires Reachable(cfg, s) && r in s.reqs && s.reqs[r].pc.Issued?
    requires AddressOf(cfg, s.reqs[r].input) == Some(email)
    ensures var pc := s.reqs[r].pc;
            && pc.row.userId in s.db.users && s.db.users[pc.row.userId].email == email
            && pc.pair.access.sub == pc.row.userId && pc.pair.access.email == email
            && forall i | i in s.db.users && s.db.users[i].email == email :: i == pc.row.userId
  {
    ReachableInv(cfg, s);
    IssuedFacts(cfg, s.db, s.reqs[r]);
  }

  /** Password, code and Google sign-ins for the same address, however written, all reach one user. */
  lemma SameAddressSameSubject(cfg: Config, s: Sys, r: ReqId, r': ReqId, email: string)
    requires Reachable(cfg, s)
    requires r in s.reqs && s.reqs[r].pc.Issued? && AddressOf(cfg, s.reqs[r].input) == Some(email)
    requires r' in s.reqs && s.reqs[r'].pc.Issued? && AddressOf(cfg, s.reqs[r'].input) == Some(email)
    ensures s.reqs[r].pc.pair.access.sub == s.reqs[r'].pc.pair.access.sub
  {
    PairBelongsToAddress(cfg, s, r, email);
    PairBelongsToAddress(cfg, s, r', email);
  }

  /** Identity, address, password hash, name and creation time never change once a row exists. */
  lemma AccountFrame(cfg: Config, s: Sys, evs: seq<Event>, i: Id)
    requires i in s.db.users
    ensures var s' := Run(cfg, s, evs);
            && i in s'.db.users
            && s'.db.users[i] == s.db.users[i].(roles := s'.db.users[i].roles, updatedAt := s'.db.users[i].updatedAt)
            && s.db.users[i].roles <= s'.db.users[i].roles
  {
    RunEvolves(cfg, s, evs);
    assert UserEvolves(s.db.users[i], Run(cfg, s, evs).db.users[i]);
  }

  /** CUSTOMER first, at most SELLER after it, after any number of concurrent upgrades. */
  lemma RolesShape(cfg: Config, s: Sys, i: Id)
    requires Reachable(cfg, s) && i in s.db.users
    ensures s.db.users[i].roles == [ROLE_CUSTOMER] || s.db.users[i].roles == [ROLE_CUSTOMER, ROLE_SELLER]
  {
    ReachableInv(cfg, s);
    assert AccountOk(s.db.users[i]);
  }

  /** An account without a password never gets one, so no password ever opens it. */
  lemma PasswordlessNeverLogsIn(cfg: Config, s: Sys, evs: seq<Event>, i: Id, r: ReqId)
    requires Reachable(cfg, s) && i in s.db.users && s.db.users[i].passwordHash.None?
    ensures var s' := Run(cfg, s, evs);
            && i in s'.db.users && s'.db.users[i].passwordHash.None?
            && (r in s'.reqs && s'.reqs[r].input.Login? && s'.reqs[r].pc.Issued?
                ==> s'.reqs[r].pc.pair.access.sub != i && s'.reqs[r].pc.row.userId != i)
  {
    var s' := Run(cfg, s, evs);
    AccountFrame(cfg, s, evs, i);
    ReachableExtends(cfg, s, evs);
    ReachableInv(cfg, s');
    if r in s'.reqs {
      assert ReqInv(cfg, s'.db, s'.reqs[r]);
    }
  }

  // ---------------------------------------------------------------- the registration race

  ghost predicate Registers(s: Sys, r: ReqId, i: Id) {
    && r in s.reqs && s.reqs[r].pc.Finished?
    && s.reqs[r].pc.reply.Registered? && s.reqs[r].pc.reply.user.id == i
  }

  /** No account was registered twice. */
  ghost predicate OneRegistrar(s: Sys) {
    forall r, r', i | Registers(s, r, i) && Registers(s, r', i) :: r == r'
  }

  lemma StepRegisters(cfg: Config, db: Db, q: Req, t: Tick)
    requires !q.Terminal()
    ensures var m := Step(cfg, db, q, t);
            m.req.pc.Finished? && m.req.pc.reply.Registered? ==> m.req.pc.reply.user.id !in db.users
  {
  }

  lemma ApplyKeepsRegistrar(cfg: Config, s: Sys, ev: Event)
    requires Inv(cfg, s) && OneRegistrar(s)
    ensures OneRegistrar(Apply(cfg, s, ev))
  {
    var s' := Apply(cfg, s, ev);
    if ev.Advance? && ev.r in s.reqs && !s.reqs[ev.r].Terminal() {
      StepRegisters(cfg, s.db, s.reqs[ev.r], ev.tick.(now := Max(s.clock, ev.tick.now)));
    }
    forall r, i | Registers(s', r, i)
      ensures (Registers(s, r, i) && i in s.db.users) || (r == ev.r && i !in s.db.users)
    {
      if Registers(s, r, i) {
        assert ReqInv(cfg, s.db, s.reqs[r]);
      }
    }
  }

  lemma {:induction false} RunKeepsRegistrar(cfg: Config, s: Sys, evs: seq<Event>)
    requires Inv(cfg, s) && OneRegistrar(s)
    ensures OneRegistrar(Run(cfg, s, evs))
    decreases |evs|
  {
    if evs != [] {
      ApplyKeepsInv(cfg, s, evs[0]);
      ApplyKeepsRegistrar(cfg, s, evs[0]);
      RunKeepsRegistrar(cfg, Apply(cfg, s, evs[0]), evs[1..]);
    }
  }

  /** The check-then-insert race of Register: of all registrations for one address, however they
      interleave, at most one is answered with a user. */
  lemma OneRegistrationWins(cfg: Config, s: Sys, r: ReqId, r': ReqId)
    requires Reachable(cfg, s) && r in s.reqs && r' in s.reqs
    requires s.reqs[r].pc.Finished? && s.reqs[r].pc.reply.Registered?
    requires s.reqs[r'].pc.Finished? && s.reqs[r'].pc.reply.Registered?
    requires AddressOf(cfg, s.reqs[r].input) == AddressOf(cfg, s.reqs[r'].input)
    ensures r == r'
  {
    ReachableInv(cfg, s);
    var clock, evs :| s == Run(cfg, Init(clock), evs);
    InitInv(cfg, clock);
    RunKeepsRegistrar(cfg, Init(clock), evs);
    assert ReqInv(cfg, s.db, s.reqs[r]) && ReqInv(cfg, s.db, s.reqs[r']);
    var u, u' := s.reqs[r].pc.reply.user, s.reqs[r'].pc.reply.user;
    assert s.db.users[u.id].email == s.db.users[u'.id].email;
    assert Registers(s, r, u.id) && Registers(s, r', u.id);
  }
}
