/** Requests served one at a time: a request runs its program to the end with nothing in between. */
module Serial {
  import opened Wrappers
  import opened Domain
  import opened Tables
  import opened Protocol
  import opened System

  /** The environment of one request: the tick of each of its steps. */
  type Ticks = nat -> Tick

  ghost function RunAlone(cfg: Config, db: Db, q: Req, w: Ticks, k: nat): Move
    decreases Rank(q.pc)
  {
    if q.Terminal() then Move(db, q)
    else
      StepUsesRank(cfg, db, q, w(k));
      var m := Step(cfg, db, q, w(k));
      RunAlone(cfg, m.db, m.req, w, k + 1)
  }

  ghost function Serve(cfg: Config, db: Db, input: Input, w: Ticks): Move {
    RunAlone(cfg, db, NewRequest(input), w, 0)
  }

  /** One step off the front. */
  lemma Unroll(cfg: Config, db: Db, q: Req, w: Ticks, k: nat)
    requires !q.Terminal()
    ensures var m := Step(cfg, db, q, w(k));
            && RunAlone(cfg, db, q, w, k) == RunAlone(cfg, m.db, m.req, w, k + 1)
            && (m.req.Terminal() ==> RunAlone(cfg, db, q, w, k) == m)
  {
    StepUsesRank(cfg, db, q, w(k));
  }

  /** Only the ticks still to come matter. */
  lemma {:induction false} SameFromHere(cfg: Config, db: Db, q: Req, w: Ticks, w': Ticks, k: nat)
    requires forall j: nat | j >= k :: w(j) == w'(j)
    ensures RunAlone(cfg, db, q, w, k) == RunAlone(cfg, db, q, w', k)
    decreases Rank(q.pc)
  {
    if !q.Terminal() {
      StepUsesRank(cfg, db, q, w(k));
      var m := Step(cfg, db, q, w(k));
      SameFromHere(cfg, m.db, m.req, w, w', k + 1);
    }
  }

  // ---------------------------------------------------------------- answers

  datatype Response =
    | Granted(pair: TokenPair, redirectTo: Option<string>)
    | Replied(reply: Reply)
    | Refused(error: Error)

  datatype Outcome = Outcome(db: Db, response: Response)

  function Respond(pc: Pc): Response {
    match pc
    case Issued(grant, _, _, pair) => Granted(pair, if grant.ByGoogle? then Some(grant.redirectTo) else None)
    case Finished(reply) => Replied(reply)
    case Failed(error) => Refused(error)
    case _ => Refused(Unavailable)
  }

  function Answer(m: Move): Outcome {
    Outcome(m.db, Respond(m.req.pc))
  }

  lemma {:induction false} RunAloneEnds(cfg: Config, db: Db, q: Req, w: Ticks, k: nat)
    ensures RunAlone(cfg, db, q, w, k).req.Terminal()
    decreases Rank(q.pc)
  {
    if !q.Terminal() {
      StepUsesRank(cfg, db, q, w(k));
      var m := Step(cfg, db, q, w(k));
      RunAloneEnds(cfg, m.db, m.req, w, k + 1);
    }
  }

  // ---------------------------------------------------------------- serving is a serial run of the system

  /** The clock readings of a request follow each other and the clock it starts at. */
  ghost predicate Orderly(w: Ticks, clock: Time) {
    clock <= w(0).now && forall k: nat :: w(k).now <= w(k + 1).now
  }

  /** Seven turns in a row for one request: enough for any program. */
  function Turns(r: ReqId, w: Ticks, k: nat, n: nat): seq<Event>
    decreases n
  {
    if n == 0 then [] else [Advance(r, w(k))] + Turns(r, w, k + 1, n - 1)
  }

  lemma {:induction false} TurnsRunAlone(cfg: Config, s: Sys, r: ReqId, w: Ticks, k: nat, n: nat)
    requires r in s.reqs && Rank(s.reqs[r].pc) <= n && s.clock <= w(k).now
    requires forall j: nat :: w(j).now <= w(j + 1).now
    ensures var m := RunAlone(cfg, s.db, s.reqs[r], w, k);
            var s' := Run(cfg, s, Turns(r, w, k, n));
            s'.db == m.db && s'.reqs == s.reqs[r := m.req]
    decreases n
  {
    if s.reqs[r].Terminal() {
      VoidTurns(cfg, s, r, w, k, n);
    } else {
      var t := w(k);
      StepUsesRank(cfg, s.db, s.reqs[r], t);
      var s1 := Apply(cfg, s, Advance(r, t));
      assert t.(now := Max(s.clock, t.now)) == t;
      TurnsRunAlone(cfg, s1, r, w, k + 1, n - 1);
      assert Turns(r, w, k, n)[0] == Advance(r, t) && Turns(r, w, k, n)[1..] == Turns(r, w, k + 1, n - 1);
    }
  }

  lemma {:induction false} VoidTurns(cfg: Config, s: Sys, r: ReqId, w: Ticks, k: nat, n: nat)
    requires r in s.reqs && s.reqs[r].Terminal()
    ensures Run(cfg, s, Turns(r, w, k, n)) == s
    decreases n
  {
    if n != 0 {
      VoidTurns(cfg, s, r, w, k + 1, n - 1);
      assert Turns(r, w, k, n)[0] == Advance(r, w(k)) && Turns(r, w, k, n)[1..] == Turns(r, w, k + 1, n - 1);
    }
  }

  /** Serving a request is the run of the interleaved system in which nobody else moves. */
  lemma ServeIsASerialRun(cfg: Config, s: Sys, r: ReqId, input: Input, w: Ticks)
    requires r !in s.reqs && Orderly(w, s.clock)
    ensures var m := Serve(cfg, s.db, input, w);
            var s' := Run(cfg, s, [Arrive(r, input)] + Turns(r, w, 0, 7));
            s'.db == m.db && s'.reqs == s.reqs[r := m.req]
  {
    var s1 := Apply(cfg, s, Arrive(r, input));
    TurnsRunAlone(cfg, s1, r, w, 0, 7);
    RunAppend(cfg, s, [Arrive(r, input)], Turns(r, w, 0, 7));
    assert Run(cfg, s, [Arrive(r, input)]) == s1;
  }
}
