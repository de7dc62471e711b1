/** The bound on successors cannot be lowered: from any live refresh token, and from the empty system,
    there are runs in which k overlapping refreshes all replace one token. */
module RotationTight {
  import opened Wrappers
  import opened Domain
  import opened Tables
  import opened Protocol
  import opened System
  import opened Serial
  import opened Schedules
  import opened Issuing
  import opened Invariants
  import opened Reachability
  import opened Rotation
  import opened RotationExact
  import opened Sets
  import B = CodeBudgetExact
  import U = SingleUse

  // ---------------------------------------------------------------- k refreshes load one token

  /** Token `x` is live, and `plaintext` presents it. */
  ghost predicate Live(cfg: Config, s: Sys, x: Id, plaintext: string) {
    x in s.db.tokens && s.db.tokens[x].IsValid(s.clock) && s.db.tokens[x].tokenHash == cfg.digest(plaintext)
  }

  /** The requests of `held` have loaded the live token and not checked it yet. */
  ghost predicate Loaded(s: Sys, x: Id, held: set<ReqId>)
    requires x in s.db.tokens
  {
    forall r | r in held :: r in s.reqs && s.reqs[r].pc == Validate(s.db.tokens[x])
  }

  /** Request numbers from `next` on are unused; of the refreshes in flight those of `held` have loaded
      the live token `x`, and what those of `others` do does not matter. */
  ghost predicate Stage(cfg: Config, s: Sys, x: Id, plaintext: string, next: nat,
                        others: set<ReqId>, held: set<ReqId>)
  {
    && Live(cfg, s, x, plaintext)
    && (forall r | r in s.reqs :: r < next)
    && RefreshesInFlight(s) == others + held && others !! held
    && Loaded(s, x, held)
  }

  /** A look-up with the plaintext finds row `x`. */
  ghost predicate Finds(cfg: Config, db: Db, x: Id, plaintext: string) {
    x in db.tokens && db.tokens[x].id == x && FindByTokenHash(db, cfg.digest(plaintext)) == Some(db.tokens[x])
  }

  lemma LiveIsFound(cfg: Config, s: Sys, x: Id, plaintext: string)
    requires Reachable(cfg, s) && Live(cfg, s, x, plaintext)
    ensures Finds(cfg, s.db, x, plaintext)
  {
    ReachableInv(cfg, s);
    UniqueLookups(s.db);
  }

  lemma LoadStep(cfg: Config, db: Db, x: Id, plaintext: string, t: Tick)
    requires Finds(cfg, db, x, plaintext) && t.ok
    ensures var q := NewRequest(Refresh(plaintext));
            Step(cfg, db, q, t) == Move(db, q.Goto(Validate(db.tokens[x])))
  {
  }

  lemma StageAfterLoad(cfg: Config, s: Sys, s': Sys, x: Id, plaintext: string, next: nat,
                       others: set<ReqId>, held: set<ReqId>)
    requires Stage(cfg, s, x, plaintext, next, others, held)
    requires s'.clock == s.clock && s'.db == s.db
    requires s'.reqs == s.reqs[next := NewRequest(Refresh(plaintext)).Goto(Validate(s.db.tokens[x]))]
    ensures Stage(cfg, s', x, plaintext, next + 1, others, held + {next})
  {
    assert RefreshesInFlight(s') == others + (held + {next});
  }

  lemma Load(cfg: Config, s: Sys, x: Id, plaintext: string, next: nat, others: set<ReqId>, held: set<ReqId>)
    returns (s2: Sys)
    requires Finds(cfg, s.db, x, plaintext) && Stage(cfg, s, x, plaintext, next, others, held)
    ensures var s1 := Apply(cfg, s, Arrive(next, Refresh(plaintext)));
            && RefreshesInFlight(s1) == others + (held + {next})
            && s2 == Apply(cfg, s1, Advance(next, Now(s)))
    ensures s2.db == s.db && s2.clock == s.clock
    ensures Stage(cfg, s2, x, plaintext, next + 1, others, held + {next})
  {
    var s1 := Apply(cfg, s, Arrive(next, Refresh(plaintext)));
    assert RefreshesInFlight(s1) == others + (held + {next});
    LoadStep(cfg, s.db, x, plaintext, Now(s));
    s2 := Apply(cfg, s1, Advance(next, Now(s)));
    StageAfterLoad(cfg, s, s2, x, plaintext, next, others, held);
  }

  /** One more refresh loads the token. */
  lemma Enter(cfg: Config, s: Sys, x: Id, plaintext: string, next: nat, others: set<ReqId>, held: set<ReqId>, k: nat)
    returns (evs: seq<Event>, s2: Sys)
    requires Finds(cfg, s.db, x, plaintext) && Stage(cfg, s, x, plaintext, next, others, held)
    requires |others| + |held| < k
    ensures s2 == Run(cfg, s, evs) && s2.db == s.db && s2.clock == s.clock
    ensures Stage(cfg, s2, x, plaintext, next + 1, others, held + {next})
    ensures Within(cfg, s, evs, k, RefreshesInFlight) && |RefreshesInFlight(s2)| <= k
  {
    var arrive, advance := Arrive(next, Refresh(plaintext)), Advance(next, Now(s));
    evs := [arrive, advance];
    s2 := Load(cfg, s, x, plaintext, next, others, held);
    UnionSize(others, held);
    UnionSize(others, held + {next});
    Pair(cfg, s, arrive, advance, k, RefreshesInFlight);
  }

  lemma {:induction false} EnterAll(cfg: Config, s: Sys, x: Id, plaintext: string, next: nat,
                                    others: set<ReqId>, held: set<ReqId>, n: nat, k: nat)
    returns (evs: seq<Event>, s': Sys, next': nat, held': set<ReqId>)
    requires Finds(cfg, s.db, x, plaintext) && Stage(cfg, s, x, plaintext, next, others, held)
    requires |held| <= n && |others| + n == k && |RefreshesInFlight(s)| <= k
    ensures s' == Run(cfg, s, evs) && s'.db == s.db && s'.clock == s.clock
    ensures |held'| == n && Stage(cfg, s', x, plaintext, next', others, held')
    ensures Within(cfg, s, evs, k, RefreshesInFlight)
    decreases n - |held|
  {
    if |held| == n {
      evs, s', next', held' := [], s, next, held;
    } else {
      var one, s1 := Enter(cfg, s, x, plaintext, next, others, held, k);
      var more: seq<Event>;
      more, s', next', held' := EnterAll(cfg, s1, x, plaintext, next + 1, others, held + {next}, n, k);
      evs := one + more;
      Join(cfg, s, one, more, k, RefreshesInFlight);
    }
  }

  lemma HeldUnderway(cfg: Config, s: Sys, x: Id, plaintext: string, next: nat, others: set<ReqId>, held: set<ReqId>)
    requires Stage(cfg, s, x, plaintext, next, others, held) && s.db.tokens[x].id == x
    ensures |RefreshesInFlight(s)| == |others| + |held|
    ensures forall r | r in held :: r in s.reqs && Underway(s.reqs[r], x, s.clock)
  {
    UnionSize(others, held);
  }

  lemma NobodyLoadedYet(cfg: Config, s: Sys, x: Id, plaintext: string, next: nat)
    requires Live(cfg, s, x, plaintext) && forall r | r in s.reqs :: r < next
    ensures Stage(cfg, s, x, plaintext, next, RefreshesInFlight(s), {})
  {
  }

  /** Whatever is in flight, `n` more refreshes can load a live token. */
  lemma LiveTokenLoads(cfg: Config, s: Sys, x: Id, plaintext: string, n: nat, k: nat)
    returns (evs: seq<Event>, s1: Sys, next: nat, held: set<ReqId>)
    requires Finds(cfg, s.db, x, plaintext) && Live(cfg, s, x, plaintext) && k == |RefreshesInFlight(s)| + n
    ensures s1 == Run(cfg, s, evs) && s1.db == s.db && s1.clock == s.clock && next !in s1.reqs
    ensures |held| == n && AllUnderway(s1, x, held) && |RefreshesInFlight(s1)| == k
    ensures Within(cfg, s, evs, k, RefreshesInFlight)
  {
    var first := Unused(s.reqs.Keys);
    NobodyLoadedYet(cfg, s, x, plaintext, first);
    evs, s1, next, held := EnterAll(cfg, s, x, plaintext, first, RefreshesInFlight(s), {}, n, k);
    HeldUnderway(cfg, s1, x, plaintext, next, RefreshesInFlight(s), held);
  }

  lemma BranchLiveToken(cfg: Config, s: Sys, x: Id, plaintext: string, ts: seq<Tick>)
    returns (evs: seq<Event>, s': Sys)
    requires Reachable(cfg, s) && Live(cfg, s, x, plaintext) && FreshAll(cfg, s.db, s.clock, ts)
    ensures s' == Run(cfg, s, evs) && |Successors(s', x)| >= |ts|
    ensures Within(cfg, s, evs, |RefreshesInFlight(s)| + |ts|, RefreshesInFlight)
  {
    LiveIsFound(cfg, s, x, plaintext);
    var k := |RefreshesInFlight(s)| + |ts|;
    var load, s1, next, held := LiveTokenLoads(cfg, s, x, plaintext, |ts|, k);
    var pass: seq<Event>;
    pass, s' := LoadedSucceed(cfg, s, load, s1, x, held, ts, k);
    evs := load + pass;
    Join(cfg, s, load, pass, k, RefreshesInFlight);
  }

  /** From any reachable state a live token can get as many successors as further refreshes are let
      overlap, whatever other requests are in flight. */
  lemma LiveTokenBranches(cfg: Config, s: Sys, x: Id, plaintext: string, ts: seq<Tick>)
    requires Reachable(cfg, s) && Live(cfg, s, x, plaintext) && FreshAll(cfg, s.db, s.clock, ts)
    ensures exists evs ::
              && Within(cfg, s, evs, |RefreshesInFlight(s)| + |ts|, RefreshesInFlight)
              && |Successors(Run(cfg, s, evs), x)| >= |ts|
  {
    var evs, s' := BranchLiveToken(cfg, s, x, plaintext, ts);
  }

  lemma LoadedSucceed(cfg: Config, s: Sys, load: seq<Event>, s1: Sys, x: Id, held: set<ReqId>, ts: seq<Tick>, k: nat)
    returns (evs: seq<Event>, s': Sys)
    requires Reachable(cfg, s) && s1 == Run(cfg, s, load) && |held| == |ts| && AllUnderway(s1, x, held)
    requires FreshAll(cfg, s1.db, s1.clock, ts) && |RefreshesInFlight(s1)| == k
    ensures s' == Run(cfg, s1, evs) && |Successors(s', x)| >= |ts|
    ensures Within(cfg, s1, evs, k, RefreshesInFlight)
  {
    ReachableExtends(cfg, s, load);
    evs, s' := HoldersSucceed(cfg, s1, x, held, ts);
  }

  // ---------------------------------------------------------------- a logout in between

  lemma LogoutAlone(cfg: Config, db: Db, x: Id, plaintext: string, t: Tick)
    requires Finds(cfg, db, x, plaintext) && t.ok
    ensures var q := NewRequest(Logout(plaintext));
            RunAlone(cfg, db, q, Always(t), 0) == Move(Revoke(db, x, t.now, true).db, q.Goto(Finished(LoggedOut)))
  {
    var q := NewRequest(Logout(plaintext));
    Unroll(cfg, db, q, Always(t), 0);
    RevokeOnlyAlone(cfg, db, q.Goto(RevokeOnly(db.tokens[x])), t);
  }

  lemma RevokeOnlyAlone(cfg: Config, db: Db, q: Req, t: Tick)
    requires q.pc.RevokeOnly? && t.ok
    ensures RunAlone(cfg, db, q, Always(t), 1)
            == Move(Revoke(db, q.pc.stored.id, t.now, true).db, q.Goto(Finished(LoggedOut)))
  {
    Unroll(cfg, db, q, Always(t), 1);
  }

  /** The events of a logout that nobody interrupts. */
  function LogoutRun(s: Sys, r: ReqId, plaintext: string): seq<Event> {
    [Arrive(r, Logout(plaintext))] + Turns(r, Always(Now(s)), 0, 7)
  }

  lemma LogoutServed(cfg: Config, s: Sys, x: Id, plaintext: string, r: ReqId)
    requires Finds(cfg, s.db, x, plaintext) && Live(cfg, s, x, plaintext) && r !in s.reqs
    ensures var s' := Run(cfg, s, LogoutRun(s, r, plaintext));
            && s'.db == Revoke(s.db, x, s.clock, true).db && s'.clock == s.clock
            && s'.reqs == s.reqs[r := NewRequest(Logout(plaintext)).Goto(Finished(LoggedOut))]
  {
    var s1 := Apply(cfg, s, Arrive(r, Logout(plaintext)));
    LogoutAlone(cfg, s.db, x, plaintext, Now(s));
    TurnsAtOnce(cfg, s1, r, Now(s), 0);
    RunAppend(cfg, s, [Arrive(r, Logout(plaintext))], Turns(r, Always(Now(s)), 0, 7));
    RunShort(cfg, s, Arrive(r, Logout(plaintext)), Arrive(r, Logout(plaintext)));
  }

  lemma UnspentUnreplaced(cfg: Config, s: Sys, x: Id)
    requires Reachable(cfg, s) && !SpentToken(s.db, x)
    ensures Successors(s, x) == {}
  {
    forall t | t in Successors(s, x)
      ensures false
    {
      SuccessorMeansRevoked(cfg, s, x, t);
    }
  }

  /** A logout answers nobody with a pair, so a token has no successor after it if it had none before. */
  lemma LogoutReplacesNothing(s: Sys, s': Sys, x: Id, r: ReqId, q: Req)
    requires Ledger(s) && LineageInv(s) && Ledger(s') && LineageInv(s')
    requires r !in s.reqs && s'.reqs == s.reqs[r := q] && !q.pc.Issued? && Successors(s, x) == {}
    ensures Successors(s', x) == {}
  {
    SuccessorsCountMakers(s, x);
    assert Makers(s', x) == Makers(s, x);
    SuccessorsCountMakers(s', x);
  }

  /** The snapshots of a token that is being logged out are as good after it as before. */
  lemma StillUnderway(s: Sys, s': Sys, x: Id, r: ReqId, q: Req, held: set<ReqId>)
    requires AllUnderway(s, x, held) && r !in s.reqs && s'.reqs == s.reqs[r := q] && s'.clock == s.clock
    ensures AllUnderway(s', x, held)
  {
  }

  lemma RevokedStillFresh(cfg: Config, db: Db, x: Id, now: Time, clock: Time, ts: seq<Tick>)
    requires x in db.tokens && FreshAll(cfg, db, clock, ts)
    ensures FreshAll(cfg, Revoke(db, x, now, true).db, clock, ts)
  {
    assert forall i | 0 <= i < |ts| :: UnusedHash(Revoke(db, x, now, true).db, cfg.digest(ts[i].value));
  }

  lemma AfterLogout(cfg: Config, s: Sys, x: Id, plaintext: string, r: ReqId, held: set<ReqId>, ts: seq<Tick>)
    returns (s': Sys)
    requires Reachable(cfg, s) && Live(cfg, s, x, plaintext) && r !in s.reqs
    requires FreshAll(cfg, s.db, s.clock, ts) && AllUnderway(s, x, held)
    ensures s' == Run(cfg, s, LogoutRun(s, r, plaintext))
    ensures SpentToken(s'.db, x) && Successors(s', x) == {}
    ensures r in s'.reqs && s'.reqs[r] == NewRequest(Logout(plaintext)).Goto(Finished(LoggedOut))
    ensures FreshAll(cfg, s'.db, s'.clock, ts) && AllUnderway(s', x, held)
  {
    s' := Run(cfg, s, LogoutRun(s, r, plaintext));
    var q := NewRequest(Logout(plaintext)).Goto(Finished(LoggedOut));
    assert s'.db == Revoke(s.db, x, s.clock, true).db && s'.clock == s.clock && s'.reqs == s.reqs[r := q] by {
      LiveIsFound(cfg, s, x, plaintext);
      LogoutServed(cfg, s, x, plaintext, r);
    }
    RevokedStillFresh(cfg, s.db, x, s.clock, s.clock, ts);
    StillUnderway(s, s', x, r, q, held);
    assert Successors(s', x) == {} by {
      UnspentUnreplaced(cfg, s, x);
      ReachableInv(cfg, s);
      RunKeepsInv(cfg, s, LogoutRun(s, r, plaintext));
      LogoutReplacesNothing(s, s', x, r, q);
    }
  }

  lemma OvertakeLogout(cfg: Config, s: Sys, x: Id, plaintext: string, ts: seq<Tick>)
    returns (evs: seq<Event>, s1: Sys, r: ReqId, more: seq<Event>, s2: Sys)
    requires Reachable(cfg, s) && Live(cfg, s, x, plaintext) && FreshAll(cfg, s.db, s.clock, ts)
    ensures s1 == Run(cfg, s, evs) && s2 == Run(cfg, s1, more)
    ensures r in s1.reqs && s1.reqs[r].input == Logout(plaintext) && s1.reqs[r].pc == Finished(LoggedOut)
    ensures SpentToken(s1.db, x) && Successors(s1, x) == {}
    ensures |Successors(s2, x)| >= |ts|
  {
    LiveIsFound(cfg, s, x, plaintext);
    var load, loaded, next, held := LiveTokenLoads(cfg, s, x, plaintext, |ts|, |RefreshesInFlight(s)| + |ts|);
    ReachableExtends(cfg, s, load);
    r := next;
    s1 := AfterLogout(cfg, loaded, x, plaintext, r, held, ts);
    ReachableExtends(cfg, loaded, LogoutRun(loaded, r, plaintext));
    more, s2 := HoldersSucceed(cfg, s1, x, held, ts);
    evs := load + LogoutRun(loaded, r, plaintext);
    RunAppend(cfg, s, load, LogoutRun(loaded, r, plaintext));
  }

  /** Request `r` was a logout with this plaintext, and it was answered with success. */
  ghost predicate LoggedOutBy(s: Sys, r: ReqId, plaintext: string) {
    r in s.reqs && s.reqs[r].input == Logout(plaintext) && s.reqs[r].pc == Finished(LoggedOut)
  }

  /** A logout does not end a session: from any reachable state with a live token there is a run after
      which a logout of it is answered with success while the token has no successor, and a further
      run after which it has as many as there were refreshes that had read it before the logout. */
  lemma LogoutIsOvertaken(cfg: Config, s: Sys, x: Id, plaintext: string, ts: seq<Tick>)
    requires Reachable(cfg, s) && Live(cfg, s, x, plaintext) && FreshAll(cfg, s.db, s.clock, ts)
    ensures exists evs, r, more ::
              && LoggedOutBy(Run(cfg, s, evs), r, plaintext)
              && SpentToken(Run(cfg, s, evs).db, x) && Successors(Run(cfg, s, evs), x) == {}
              && |Successors(Run(cfg, Run(cfg, s, evs), more), x)| >= |ts|
  {
    var evs, s1, r, more, s2 := OvertakeLogout(cfg, s, x, plaintext, ts);
    assert LoggedOutBy(Run(cfg, s, evs), r, plaintext);
    assert |Successors(Run(cfg, Run(cfg, s, evs), more), x)| >= |ts|;
  }

  // ---------------------------------------------------------------- a live token from nothing

  /** Runs to which no refresh arrives. */
  ghost predicate NoRefresh(evs: seq<Event>) {
    forall i | 0 <= i < |evs| :: evs[i].Arrive? ==> !evs[i].input.Refresh?
  }

  ghost predicate NoRefreshKnown(s: Sys) {
    forall r | r in s.reqs :: !s.reqs[r].input.Refresh?
  }

  lemma {:induction false} StaysRefreshless(cfg: Config, s: Sys, evs: seq<Event>, k: nat)
    requires NoRefreshKnown(s) && NoRefresh(evs)
    ensures NoRefreshKnown(Run(cfg, s, evs)) && RefreshesInFlight(Run(cfg, s, evs)) == {}
    ensures Within(cfg, s, evs, k, RefreshesInFlight)
    decreases |evs|
  {
    assert RefreshesInFlight(s) == {};
    if evs != [] {
      if evs[0].Advance? { StepKeepsInput(cfg, s, evs[0].r, evs[0].tick); }
      StaysRefreshless(cfg, Apply(cfg, s, evs[0]), evs[1..], k);
    }
  }

  lemma {:induction false} TurnsNoRefresh(r: ReqId, w: Ticks, j: nat, n: nat)
    ensures NoRefresh(Turns(r, w, j, n))
    decreases n
  {
    if n != 0 {
      TurnsNoRefresh(r, w, j + 1, n - 1);
      var rest := Turns(r, w, j + 1, n - 1);
      forall i | 0 <= i < |Turns(r, w, j, n)|
        ensures Turns(r, w, j, n)[i].Arrive? ==> !Turns(r, w, j, n)[i].input.Refresh?
      {
        assert i > 0 ==> Turns(r, w, j, n)[i] == rest[i - 1];
      }
    }
  }

  /** The mailbox, the code sent to it and guessed at once, and ticks to draw rows from. */
  ghost predicate Drawable(cfg: Config, g: B.Setting, first: Tick, ts: seq<Tick>) {
    && U.Drawable(cfg, g, [first]) && cfg.refreshTtl > 0
    && FreshAll(cfg, EMPTY, 0, [first] + ts)
  }

  /** A code is sent and read by one verification. */
  lemma ReadOnce(cfg: Config, g: B.Setting) returns (evs: seq<Event>, s: Sys)
    requires B.Possible(cfg, g) && g.before == map[]
    ensures s == Run(cfg, Init(0), evs) && B.Stage(cfg, g, s, 0, 2, {1}) && NoRefresh(evs)
  {
    assert B.Idle(g, Init(0), 0);
    var send, s1 := B.Send(cfg, g, Init(0), 0, 1);
    var enter: seq<Event>;
    enter, s := B.Enter(cfg, g, s1, 0, 1, {}, 1);
    evs := send + enter;
    RunAppend(cfg, Init(0), send, enter);
    assert {} + {1} == {1};
    PreambleNoRefresh(g);
  }

  lemma PreambleNoRefresh(g: B.Setting)
    ensures NoRefresh([Arrive(0, RequestCode(g.email))] + Turns(0, B.Ever(g), 0, 7) +
                      [Arrive(1, B.Attempt(g)), Advance(1, B.At(g))])
  {
    TurnsNoRefresh(0, B.Ever(g), 0, 7);
  }

  /** ... and answered with a pair. */
  lemma SignInOnce(cfg: Config, g: B.Setting, first: Tick) returns (evs: seq<Event>)
    requires U.Drawable(cfg, g, [first])
    ensures var s := Run(cfg, Init(0), evs);
            && NoRefresh(evs) && s.clock == 0 && first.id in s.db.tokens && U.Adds(cfg, EMPTY, s.db, first)
  {
    var read, s := ReadOnce(cfg, g);
    var turns := Turns(1, Always(first), 1, 7);
    evs := read + turns;
    assert Reachable(cfg, s);
    assert first == [first][0];
    assert U.Entitled(cfg, s.reqs[1], g.id, 0) && s.reqs[1].pc.Inspect? by {
      U.HeldAreEntitled(cfg, g, s, 2, {1}, 1);
    }
    assert s.db.tokens == map[] && s.db.users == map[];
    PaidHasRow(cfg, s, g.id, first);
    RunAppend(cfg, Init(0), read, turns);
    TurnsNoRefresh(1, Always(first), 1, 7);
  }

  lemma PaidHasRow(cfg: Config, s: Sys, c: Id, t: Tick)
    requires Reachable(cfg, s) && 1 in s.reqs && s.reqs[1].pc.Inspect? && U.Entitled(cfg, s.reqs[1], c, s.clock)
    requires s.db.tokens == map[] && s.db.users == map[] && t.now == s.clock && U.Supplied(cfg, s.db, t)
    ensures var s' := Run(cfg, s, Turns(1, Always(t), 1, 7));
            s'.clock == s.clock && t.id in s'.db.tokens && U.Adds(cfg, EMPTY, s'.db, t)
  {
    var turns := Turns(1, Always(t), 1, 7);
    var s' := Run(cfg, s, turns);
    ReachableInv(cfg, s);
    U.ReachableFits(cfg, s);
    U.GrantOne(cfg, s, 1, c, t);
    RunKeepsInv(cfg, s, turns);
    assert Produces(s', 1, s'.reqs[1].pc.row.id);
  }

  /** For every k there is a run with k refreshes in flight after which a token has k successors. */
  lemma SuccessorBoundIsTight(cfg: Config, g: B.Setting, first: Tick, ts: seq<Tick>)
    requires Drawable(cfg, g, first, ts)
    ensures exists evs ::
              && Within(cfg, Init(0), evs, |ts|, RefreshesInFlight)
              && |Successors(Run(cfg, Init(0), evs), first.id)| == |ts|
  {
    var k := |ts|;
    var start := SignInOnce(cfg, g, first);
    var s := Run(cfg, Init(0), start);
    StaysRefreshless(cfg, Init(0), start, k);
    assert ([first] + ts)[0] == first && ([first] + ts)[1..] == ts;
    OthersStillFresh(cfg, s.db, first, ts);
    assert Reachable(cfg, s);
    var branch, s' := BranchLiveToken(cfg, s, first.id, first.value, ts);
    Join(cfg, Init(0), start, branch, k, RefreshesInFlight);
    AtMostKSuccessors(cfg, 0, start + branch, k, first.id);
  }

  lemma OthersStillFresh(cfg: Config, db: Db, first: Tick, ts: seq<Tick>)
    requires FreshAll(cfg, EMPTY, 0, [first] + ts) && U.Adds(cfg, EMPTY, db, first)
    ensures FreshAll(cfg, db, 0, ts)
  {
    var all := [first] + ts;
    assert all[0] == first;
    forall i | 0 <= i < |ts|
      ensures ts[i].now == 0 && Fresh(cfg, db, ts[i])
    {
      assert all[i + 1] == ts[i];
    }
    forall i, j | 0 <= i < j < |ts|
      ensures ts[i].id != ts[j].id && cfg.digest(ts[i].value) != cfg.digest(ts[j].value)
    {
      assert all[i + 1] == ts[i] && all[j + 1] == ts[j];
    }
  }

  /** No run with at most `k` refreshes in flight replaces a token twice. */
  ghost predicate ReplacedOnce(cfg: Config, k: nat) {
    forall clock, evs, x ::
      Within(cfg, Init(clock), evs, k, RefreshesInFlight) ==> |Successors(Run(cfg, Init(clock), evs), x)| <= 1
  }

  /** Tokens can be relied on to have one successor exactly when refreshes do not overlap. */
  lemma ReplacedOnceIff(cfg: Config, g: B.Setting, first: Tick, ts: seq<Tick>)
    requires Drawable(cfg, g, first, ts)
    ensures ReplacedOnce(cfg, |ts|) <==> |ts| <= 1
  {
    if |ts| <= 1 {
      forall clock, evs, x | Within(cfg, Init(clock), evs, |ts|, RefreshesInFlight)
        ensures |Successors(Run(cfg, Init(clock), evs), x)| <= 1
      {
        AtMostKSuccessors(cfg, clock, evs, |ts|, x);
      }
    } else {
      SuccessorBoundIsTight(cfg, g, first, ts);
    }
  }
}
