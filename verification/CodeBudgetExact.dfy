/** The attempt bound cannot be lowered: for every number of verifications in flight there is a run in
    which the counter of a code reaches four more than that number, and one in which every code of an
    address, however many were sent, is guessed at that often. */
module CodeBudgetExact {
  import opened Wrappers
  import opened Domain
  import opened Emails
  import opened Tables
  import opened Protocol
  import opened System
  import opened Serial
  import opened Schedules
  import opened CodeBudget
  import opened Lifecycles
  import opened GuessesExact
  import opened Sets
  import T = RoundTrips

  /** A mailbox, the code sent to it, what everybody guesses, and the row of the code next to the rows
      that were there before. */
  datatype Setting = Setting(email: string, code: string, guess: string, id: Id, before: map<Id, VerificationCode>)

  ghost predicate Possible(cfg: Config, g: Setting) {
    && |NormalizeEmail(g.email)| <= 255 && IsSixDigits(g.code) && |cfg.digest(g.code)| <= 64
    && g.id !in g.before && forall i | i in g.before :: g.before[i].createdAt <= 0
  }

  /** The guess has another hash than the code. */
  ghost predicate Wrong(cfg: Config, g: Setting) {
    Possible(cfg, g) && cfg.digest(g.guess) != cfg.digest(g.code)
  }

  /** Everything happens at instant zero, succeeds, and concerns the one code. */
  function At(g: Setting): Tick {
    Tick(0, true, g.id, g.code, g.id)
  }

  function Ever(g: Setting): Ticks {
    Always(At(g))
  }

  function Code(cfg: Config, g: Setting, attempts: nat): VerificationCode {
    T.SentCode(cfg, g.email, At(g)).(attempts := attempts)
  }

  function Codes(cfg: Config, g: Setting, attempts: nat): Db {
    EMPTY.(codes := g.before[g.id := Code(cfg, g, attempts)])
  }

  function Attempt(g: Setting): Input {
    VerifyCode(g.email, g.guess)
  }

  /** Read the code while it was open, and is about to look at it. */
  ghost predicate HasRead(cfg: Config, g: Setting, q: Req) {
    && q.input == Attempt(g)
    && q.pc.Inspect? && q.pc.code == g.guess
    && exists a: nat | a < MAX_VERIFICATION_ATTEMPTS :: q.pc.record == Code(cfg, g, a)
  }

  /** The code is not sent yet, and no verification is in flight. */
  ghost predicate Idle(g: Setting, s: Sys, next: nat) {
    && s.clock == 0 && s.db == EMPTY.(codes := g.before)
    && (forall r | r in s.reqs :: r < next)
    && VerifiesInFlight(s) == {}
  }

  /** The code has been missed `a` times, request numbers from `next` on are unused, and the
      verifications in flight are those of `held`. */
  ghost predicate Stage(cfg: Config, g: Setting, s: Sys, a: nat, next: nat, held: set<ReqId>) {
    && s.clock == 0 && s.db == Codes(cfg, g, a)
    && (forall r | r in s.reqs :: r < next)
    && VerifiesInFlight(s) == held
    && forall r | r in held :: r in s.reqs && HasRead(cfg, g, s.reqs[r])
  }

  // ---------------------------------------------------------------- single requests

  lemma CodeIsSent(cfg: Config, g: Setting)
    requires Possible(cfg, g)
    ensures Serve(cfg, EMPTY.(codes := g.before), RequestCode(g.email), Ever(g)).db == Codes(cfg, g, 0)
  {
    T.RequestAlone(cfg, EMPTY.(codes := g.before), g.email, Ever(g));
  }

  lemma ReadStep(cfg: Config, g: Setting, a: nat)
    requires Possible(cfg, g) && a < MAX_VERIFICATION_ATTEMPTS
    ensures var m := Step(cfg, Codes(cfg, g, a), NewRequest(Attempt(g)), At(g));
            m.db == Codes(cfg, g, a) && HasRead(cfg, g, m.req)
  {
    var db := Codes(cfg, g, a);
    assert ComesFirst(db, NormalizeEmail(g.email), g.id, g.id);
    assert FindLatestByEmail(db, NormalizeEmail(g.email), g.id, true) == Hit(Code(cfg, g, a));
  }

  lemma GuessMisses(cfg: Config, g: Setting, q: Req, a: nat)
    requires Wrong(cfg, g) && HasRead(cfg, g, q)
    ensures var m := RunAlone(cfg, Codes(cfg, g, a), q, Ever(g), 0);
            m.db == Codes(cfg, g, a + 1) && m.req.Terminal()
  {
    T.InspectMisses(cfg, Codes(cfg, g, a), q, Ever(g), 0);
    assert IncrementAttempts(Codes(cfg, g, a), g.id, true).db == Codes(cfg, g, a + 1) by {
      var codes := g.before[g.id := Code(cfg, g, a)];
      assert codes[g.id := Code(cfg, g, a + 1)] == g.before[g.id := Code(cfg, g, a + 1)];
    }
  }

  // ---------------------------------------------------------------- the run, piece by piece

  lemma JoinRuns(cfg: Config, s: Sys, a: seq<Event>, b: seq<Event>, k: nat)
    requires Within(cfg, s, a, k, VerifiesInFlight) && Within(cfg, Run(cfg, s, a), b, k, VerifiesInFlight)
    ensures Within(cfg, s, a + b, k, VerifiesInFlight) && Run(cfg, s, a + b) == Run(cfg, Run(cfg, s, a), b)
  {
    Join(cfg, s, a, b, k, VerifiesInFlight);
  }

  lemma Knock(cfg: Config, g: Setting, s: Sys, a: nat, next: nat, held: set<ReqId>)
    requires Stage(cfg, g, s, a, next, held)
    ensures var s1 := Apply(cfg, s, Arrive(next, Attempt(g)));
            && VerifiesInFlight(s1) == held + {next}
            && s1 == s.(reqs := s.reqs[next := NewRequest(Attempt(g))])
  {
  }

  lemma Look(cfg: Config, g: Setting, s: Sys, s1: Sys, a: nat, next: nat, held: set<ReqId>)
    requires Possible(cfg, g) && Stage(cfg, g, s, a, next, held) && a < MAX_VERIFICATION_ATTEMPTS
    requires s1 == s.(reqs := s.reqs[next := NewRequest(Attempt(g))])
    ensures Stage(cfg, g, Apply(cfg, s1, Advance(next, At(g))), a, next + 1, held + {next})
  {
    ReadStep(cfg, g, a);
    var q' := Step(cfg, s.db, NewRequest(Attempt(g)), At(g)).req;
    StageAfterRead(cfg, g, s, Apply(cfg, s1, Advance(next, At(g))), a, next, held, q');
  }

  lemma StageAfterRead(cfg: Config, g: Setting, s: Sys, s': Sys, a: nat, next: nat, held: set<ReqId>, q': Req)
    requires Stage(cfg, g, s, a, next, held)
    requires s'.clock == 0 && s'.db == s.db && s'.reqs == s.reqs[next := q'] && HasRead(cfg, g, q')
    ensures Stage(cfg, g, s', a, next + 1, held + {next})
  {
    assert VerifiesInFlight(s') == held + {next};
  }

  /** One more verification reads the code. */
  lemma Enter(cfg: Config, g: Setting, s: Sys, a: nat, next: nat, held: set<ReqId>, k: nat)
    returns (evs: seq<Event>, s': Sys)
    requires Possible(cfg, g) && Stage(cfg, g, s, a, next, held) && a < MAX_VERIFICATION_ATTEMPTS && |held| < k
    ensures s' == Run(cfg, s, evs) && Stage(cfg, g, s', a, next + 1, held + {next})
    ensures evs == [Arrive(next, Attempt(g)), Advance(next, At(g))]
    ensures Within(cfg, s, evs, k, VerifiesInFlight)
  {
    var s1 := Apply(cfg, s, Arrive(next, Attempt(g)));
    Knock(cfg, g, s, a, next, held);
    Look(cfg, g, s, s1, a, next, held);
    Pair(cfg, s, Arrive(next, Attempt(g)), Advance(next, At(g)), k, VerifiesInFlight);
    evs := [Arrive(next, Attempt(g)), Advance(next, At(g))];
    s' := Apply(cfg, s1, Advance(next, At(g)));
  }

  lemma StageAfterMiss(cfg: Config, g: Setting, s: Sys, s': Sys, a: nat, next: nat, held: set<ReqId>, r: ReqId, q': Req)
    requires Stage(cfg, g, s, a, next, held) && r in held
    requires s'.clock == 0 && s'.db == Codes(cfg, g, a + 1)
    requires s'.reqs == s.reqs[r := q'] && q'.Terminal()
    ensures Stage(cfg, g, s', a + 1, next, held - {r})
  {
    assert VerifiesInFlight(s') == held - {r};
    forall i | i in held - {r}
      ensures i in s'.reqs && HasRead(cfg, g, s'.reqs[i])
    {
      assert s'.reqs[i] == s.reqs[i];
    }
  }

  /** One that has read the code misses. */
  lemma Leave(cfg: Config, g: Setting, s: Sys, a: nat, next: nat, held: set<ReqId>, k: nat)
    returns (evs: seq<Event>, s': Sys, rest: set<ReqId>)
    requires Wrong(cfg, g) && Stage(cfg, g, s, a, next, held) && held != {} && |held| <= k
    ensures |rest| == |held| - 1 && s' == Run(cfg, s, evs) && Stage(cfg, g, s', a + 1, next, rest)
    ensures Within(cfg, s, evs, k, VerifiesInFlight)
  {
    var r :| r in held;
    rest := held - {r};
    evs := Turns(r, Ever(g), 0, 7);
    s' := Run(cfg, s, evs);
    GuessMisses(cfg, g, s.reqs[r], a);
    TurnsAtOnce(cfg, s, r, At(g), 0);
    VerifiesEbb(cfg);
    TurnsWithin(cfg, s, r, Ever(g), 0, 7, k, VerifiesInFlight);
    StageAfterMiss(cfg, g, s, s', a, next, held, r, RunAlone(cfg, s.db, s.reqs[r], Ever(g), 0).req);
  }

  lemma {:induction false} EnterAll(cfg: Config, g: Setting, s: Sys, a: nat, next: nat, held: set<ReqId>, k: nat)
    returns (evs: seq<Event>, s': Sys, next': nat, held': set<ReqId>)
    requires Possible(cfg, g) && Stage(cfg, g, s, a, next, held) && a < MAX_VERIFICATION_ATTEMPTS && |held| <= k
    ensures |held'| == k && s' == Run(cfg, s, evs) && Stage(cfg, g, s', a, next', held')
    ensures Within(cfg, s, evs, k, VerifiesInFlight)
    decreases k - |held|
  {
    if |held| == k {
      evs, s', next', held' := [], s, next, held;
    } else {
      var one, s1 := Enter(cfg, g, s, a, next, held, k);
      var more: seq<Event>;
      more, s', next', held' := EnterAll(cfg, g, s1, a, next + 1, held + {next}, k);
      evs := one + more;
      JoinRuns(cfg, s, one, more, k);
    }
  }

  lemma {:induction false} LeaveAll(cfg: Config, g: Setting, s: Sys, a: nat, next: nat,
                                    held: set<ReqId>, total: nat, k: nat)
    returns (evs: seq<Event>, s': Sys)
    requires Wrong(cfg, g) && Stage(cfg, g, s, a, next, held) && |held| <= k && a + |held| == total
    ensures s' == Run(cfg, s, evs) && Stage(cfg, g, s', total, next, {})
    ensures Within(cfg, s, evs, k, VerifiesInFlight)
    decreases |held|
  {
    if held == {} {
      evs, s' := [], s;
    } else {
      var one, s1, rest := Leave(cfg, g, s, a, next, held, k);
      var more: seq<Event>;
      more, s' := LeaveAll(cfg, g, s1, a + 1, next, rest, total, k);
      evs := one + more;
      JoinRuns(cfg, s, one, more, k);
    }
  }

  /** k requests read the code before any of them counts. */
  lemma MissTogether(cfg: Config, g: Setting, s: Sys, a: nat, next: nat, k: nat, total: nat)
    returns (evs: seq<Event>, s': Sys, next': nat)
    requires Wrong(cfg, g) && Stage(cfg, g, s, a, next, {}) && a < MAX_VERIFICATION_ATTEMPTS && a + k == total
    ensures s' == Run(cfg, s, evs) && Stage(cfg, g, s', total, next', {})
    ensures Within(cfg, s, evs, k, VerifiesInFlight)
  {
    var enter: seq<Event>, leave: seq<Event>, s1: Sys, held: set<ReqId>;
    enter, s1, next', held := EnterAll(cfg, g, s, a, next, {}, k);
    leave, s' := LeaveAll(cfg, g, s1, a, next', held, total, k);
    evs := enter + leave;
    JoinRuns(cfg, s, enter, leave, k);
  }

  /** One after the other, up to the last attempt the check lets through. */
  lemma {:induction false} MissSerially(cfg: Config, g: Setting, s: Sys, a: nat, next: nat, k: nat)
    returns (evs: seq<Event>, s': Sys, next': nat)
    requires Wrong(cfg, g) && Stage(cfg, g, s, a, next, {}) && a < MAX_VERIFICATION_ATTEMPTS && k >= 1
    ensures s' == Run(cfg, s, evs) && Stage(cfg, g, s', MAX_VERIFICATION_ATTEMPTS - 1, next', {})
    ensures Within(cfg, s, evs, k, VerifiesInFlight)
    decreases MAX_VERIFICATION_ATTEMPTS - a
  {
    if a == MAX_VERIFICATION_ATTEMPTS - 1 {
      evs, s', next' := [], s, next;
    } else {
      var one, s1, next1 := MissTogether(cfg, g, s, a, next, 1, a + 1);
      WithinMore(cfg, s, one, 1, k, VerifiesInFlight);
      var more: seq<Event>;
      more, s', next' := MissSerially(cfg, g, s1, a + 1, next1, k);
      evs := one + more;
      JoinRuns(cfg, s, one, more, k);
    }
  }

  lemma StageAfterSending(cfg: Config, g: Setting, s: Sys, s': Sys, next: nat, q': Req)
    requires Idle(g, s, next) && s'.clock == 0 && s'.db == Codes(cfg, g, 0)
    requires s'.reqs == s.reqs[next := q'] && !q'.input.VerifyCode?
    ensures Stage(cfg, g, s', 0, next + 1, {})
  {
    forall r | r in s'.reqs
      ensures r !in VerifiesInFlight(s')
    {
      assert r != next ==> r !in VerifiesInFlight(s) && s'.reqs[r] == s.reqs[r];
    }
    assert VerifiesInFlight(s') == {};
  }

  /** The code is sent. */
  lemma Send(cfg: Config, g: Setting, s: Sys, next: nat, k: nat) returns (evs: seq<Event>, s': Sys)
    requires Possible(cfg, g) && Idle(g, s, next)
    ensures s' == Run(cfg, s, evs) && Stage(cfg, g, s', 0, next + 1, {})
    ensures evs == [Arrive(next, RequestCode(g.email))] + Turns(next, Ever(g), 0, 7)
    ensures Within(cfg, s, evs, k, VerifiesInFlight)
  {
    var arrive, turns := Arrive(next, RequestCode(g.email)), Turns(next, Ever(g), 0, 7);
    evs := [arrive] + turns;
    var s1 := Apply(cfg, s, arrive);
    s' := Run(cfg, s1, turns);
    CodeIsSent(cfg, g);
    TurnsAtOnce(cfg, s1, next, At(g), 0);
    RunAloneKeepsInput(cfg, s.db, NewRequest(RequestCode(g.email)), Ever(g), 0);
    StageAfterSending(cfg, g, s, s', next, RunAlone(cfg, s.db, NewRequest(RequestCode(g.email)), Ever(g), 0).req);
    SendWithin(cfg, g, s, next, k);
  }

  lemma SendWithin(cfg: Config, g: Setting, s: Sys, next: nat, k: nat)
    requires Idle(g, s, next)
    ensures var arrive, turns := Arrive(next, RequestCode(g.email)), Turns(next, Ever(g), 0, 7);
            && Within(cfg, s, [arrive] + turns, k, VerifiesInFlight)
            && Run(cfg, s, [arrive] + turns) == Run(cfg, Apply(cfg, s, arrive), turns)
  {
    var arrive := Arrive(next, RequestCode(g.email));
    var s1 := Apply(cfg, s, arrive);
    assert VerifiesInFlight(s1) == VerifiesInFlight(s);
    VerifiesEbb(cfg);
    TurnsWithin(cfg, s1, next, Ever(g), 0, 7, k, VerifiesInFlight);
    EventFirst(cfg, s, arrive, Turns(next, Ever(g), 0, 7), k, VerifiesInFlight);
  }

  /** A code is sent and missed 4 + k times, never with more than k verifications in flight. */
  lemma SendAndMiss(cfg: Config, g: Setting, s: Sys, next: nat, k: nat) returns (evs: seq<Event>, s': Sys, next': nat)
    requires Wrong(cfg, g) && Idle(g, s, next) && k >= 1
    ensures s' == Run(cfg, s, evs) && Stage(cfg, g, s', MAX_VERIFICATION_ATTEMPTS - 1 + k, next', {})
    ensures Within(cfg, s, evs, k, VerifiesInFlight)
  {
    var send, s1 := Send(cfg, g, s, next, k);
    var miss: seq<Event>;
    miss, s', next' := MissAll(cfg, g, s1, next + 1, k);
    evs := send + miss;
    JoinRuns(cfg, s, send, miss, k);
  }

  lemma MissAll(cfg: Config, g: Setting, s: Sys, next: nat, k: nat) returns (evs: seq<Event>, s': Sys, next': nat)
    requires Wrong(cfg, g) && Stage(cfg, g, s, 0, next, {}) && k >= 1
    ensures s' == Run(cfg, s, evs) && Stage(cfg, g, s', MAX_VERIFICATION_ATTEMPTS - 1 + k, next', {})
    ensures Within(cfg, s, evs, k, VerifiesInFlight)
  {
    var serial, s1, next1 := MissSerially(cfg, g, s, 0, next, k);
    var together: seq<Event>;
    var four := MAX_VERIFICATION_ATTEMPTS - 1;
    together, s', next' := MissTogether(cfg, g, s1, four, next1, k, four + k);
    evs := serial + together;
    JoinRuns(cfg, s, serial, together, k);
  }

  // ---------------------------------------------------------------- one code

  /** For every k, with k verifications in flight the counter does get to 4 + k: four misses one after
      the other, then k requests that all read the code before any of them counts. */
  lemma AttemptBoundIsTight(cfg: Config, g: Setting, k: nat)
    requires Wrong(cfg, g) && g.before == map[] && k >= 1
    ensures exists evs ::
              && Within(cfg, Init(0), evs, k, VerifiesInFlight)
              && AttemptsOf(Run(cfg, Init(0), evs).db, g.id) == MAX_VERIFICATION_ATTEMPTS - 1 + k
  {
    assert Idle(g, Init(0), 0);
    var evs, s', next := SendAndMiss(cfg, g, Init(0), 0, k);
    assert AttemptsOf(s'.db, g.id) == MAX_VERIFICATION_ATTEMPTS - 1 + k;
  }

  /** No run with at most `k` verifications in flight takes a counter past five. */
  ghost predicate LimitKept(cfg: Config, k: nat) {
    forall clock, evs, c ::
      Within(cfg, Init(clock), evs, k, VerifiesInFlight) ==>
        AttemptsOf(Run(cfg, Init(clock), evs).db, c) <= MAX_VERIFICATION_ATTEMPTS
  }

  /** The limit of five attempts can be relied on exactly when verifications do not overlap. */
  lemma LimitKeptIff(cfg: Config, g: Setting, k: nat)
    requires Wrong(cfg, g) && g.before == map[]
    ensures LimitKept(cfg, k) <==> k <= 1
  {
    if k <= 1 {
      forall clock, evs, c | Within(cfg, Init(clock), evs, k, VerifiesInFlight)
        ensures AttemptsOf(Run(cfg, Init(clock), evs).db, c) <= MAX_VERIFICATION_ATTEMPTS
      {
        if c in Run(cfg, Init(clock), evs).db.codes { AttemptBound(cfg, clock, evs, k, c); }
      }
    } else {
      AttemptBoundIsTight(cfg, g, k);
    }
  }

  // ---------------------------------------------------------------- any number of codes

  /** The `n` rows 0 to n - 1, each missed `a` times. */
  function Rows(cfg: Config, g: Setting, a: nat, n: nat): map<Id, VerificationCode> {
    if n == 0 then map[] else Rows(cfg, g, a, n - 1)[n - 1 := Code(cfg, g.(id := n - 1), a)]
  }

  lemma {:induction false} RowsShape(cfg: Config, g: Setting, a: nat, n: nat)
    ensures forall i: Id :: i in Rows(cfg, g, a, n) <==> i < n
    ensures forall i: Id | i < n :: Rows(cfg, g, a, n)[i] == Code(cfg, g.(id := i), a)
    decreases n
  {
    if n > 0 {
      RowsShape(cfg, g, a, n - 1);
    }
  }

  /** The setting of the n-th code. */
  function Nth(cfg: Config, g: Setting, a: nat, n: nat): Setting {
    g.(id := n, before := Rows(cfg, g, a, n))
  }

  lemma NthIsWrong(cfg: Config, g: Setting, a: nat, n: nat)
    requires Wrong(cfg, g)
    ensures Wrong(cfg, Nth(cfg, g, a, n))
    ensures Codes(cfg, Nth(cfg, g, a, n), a) == EMPTY.(codes := Rows(cfg, g, a, n + 1))
  {
    RowsShape(cfg, g, a, n);
  }

  lemma {:induction false} SendAndMissAll(cfg: Config, g: Setting, k: nat, n: nat)
    returns (evs: seq<Event>, s: Sys, next: nat)
    requires Wrong(cfg, g) && k >= 1
    ensures s == Run(cfg, Init(0), evs) && Within(cfg, Init(0), evs, k, VerifiesInFlight)
    ensures Idle(Nth(cfg, g, MAX_VERIFICATION_ATTEMPTS - 1 + k, n), s, next)
    decreases n
  {
    var a := MAX_VERIFICATION_ATTEMPTS - 1 + k;
    if n == 0 {
      evs, s, next := [], Init(0), 0;
    } else {
      var earlier, s1, next1 := SendAndMissAll(cfg, g, k, n - 1);
      NthIsWrong(cfg, g, a, n - 1);
      var more: seq<Event>;
      more, s, next := SendAndMiss(cfg, Nth(cfg, g, a, n - 1), s1, next1, k);
      evs := earlier + more;
      JoinRuns(cfg, Init(0), earlier, more, k);
    }
  }

  ghost function MissesOver(s: Sys, cs: set<Id>): set<ReqId> {
    set r | r in s.reqs && s.reqs[r].guess.Counted? && s.reqs[r].guess.code in cs
  }

  lemma {:induction false} MissesAddUp(s: Sys, cs: set<Id>, m: nat)
    requires forall c | c in cs :: |Misses(s, c)| == m
    ensures |MissesOver(s, cs)| == m * |cs|
    decreases |cs|
  {
    if cs == {} {
      assert MissesOver(s, cs) == {};
    } else {
      var c :| c in cs;
      var rest := cs - {c};
      MissesAddUp(s, rest, m);
      assert MissesOver(s, cs) == MissesOver(s, rest) + Misses(s, c);
      UnionSize(MissesOver(s, rest), Misses(s, c));
      assert |cs| == |rest| + 1;
      OneMoreTime(m, |rest|);
    }
  }

  lemma OneMoreTime(m: nat, n: nat)
    ensures m * (n + 1) == m * n + m
  {
  }

  lemma {:induction false} IdsBelow(ids: set<Id>, n: nat)
    requires forall i: Id :: i in ids <==> i < n
    ensures |ids| == n
    decreases n
  {
    if n == 0 {
      assert ids == {};
    } else {
      IdsBelow(ids - {n - 1}, n - 1);
    }
  }

  /** The rows 0 to n - 1 are the codes of the address, each with 4 + k stored misses. */
  lemma MissedRows(cfg: Config, g: Setting, s: Sys, a: nat, n: nat, next: nat)
    requires TallyInv(s) && Idle(Nth(cfg, g, a, n), s, next)
    ensures var cs := CodesOf(s, NormalizeEmail(g.email));
            |cs| == n && |MissesOver(s, cs)| == a * n
  {
    var cs := CodesOf(s, NormalizeEmail(g.email));
    RowsShape(cfg, g, a, n);
    IdsBelow(cs, n);
    forall c | c in cs
      ensures |Misses(s, c)| == a
    {
      assert Tallied(s, c);
    }
    MissesAddUp(s, cs, a);
  }

  /** The budget of an address is used up: for every k and n there is a run within k verifications in
      flight that sends n codes to the address and makes (4 + k) * n comparisons, not counting any
      whose write failed. */
  lemma GuessBudgetIsTight(cfg: Config, g: Setting, k: nat, n: nat)
    requires Wrong(cfg, g) && k >= 1
    ensures exists evs ::
              && Within(cfg, Init(0), evs, k, VerifiesInFlight)
              && var s := Run(cfg, Init(0), evs);
                 var cs := CodesOf(s, NormalizeEmail(g.email));
                 && |cs| == n
                 && |ComparisonsOver(s, cs) - LostOver(s, cs)| == (MAX_VERIFICATION_ATTEMPTS - 1 + k) * n
  {
    var a := MAX_VERIFICATION_ATTEMPTS - 1 + k;
    var evs, s, next := SendAndMissAll(cfg, g, k, n);
    var cs := CodesOf(s, NormalizeEmail(g.email));
    assert |cs| == n && |MissesOver(s, cs)| == a * n by {
      assert Reachable(cfg, s);
      ReachableTally(cfg, s);
      MissedRows(cfg, g, s, a, n, next);
    }
    GuessBudget(cfg, 0, evs, k, NormalizeEmail(g.email));
    Squeeze(s, cs, a * n);
  }

  lemma Squeeze(s: Sys, cs: set<Id>, n: nat)
    requires |MissesOver(s, cs)| == n && |ComparisonsOver(s, cs)| <= n + |LostOver(s, cs)|
    ensures |ComparisonsOver(s, cs) - LostOver(s, cs)| == n
  {
    var all, lost := ComparisonsOver(s, cs), LostOver(s, cs);
    SubsetSize(MissesOver(s, cs), all - lost);
    UnionSize(all - lost, lost);
    assert (all - lost) + lost == all;
  }
}
