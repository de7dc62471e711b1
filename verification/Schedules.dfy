/** Runs put together from pieces, and how many requests of a kind they keep in flight. */
module Schedules {
  import opened Tables
  import opened Protocol
  import opened System
  import opened Serial
  import opened Sets

  type Kind = Sys -> set<ReqId>

  /** Requests of the kind leave the flight but never re-enter it by moving. */
  ghost predicate Ebbing(cfg: Config, kind: Kind) {
    forall s, r, t :: kind(Apply(cfg, s, Advance(r, t))) <= kind(s)
  }

  lemma StepKeepsInput(cfg: Config, s: Sys, r: ReqId, t: Tick)
    ensures var s' := Apply(cfg, s, Advance(r, t));
            && s'.reqs.Keys == s.reqs.Keys
            && forall i | i in s.reqs ::
                 s'.reqs[i].input == s.reqs[i].input && (s.reqs[i].Terminal() ==> s'.reqs[i].Terminal())
  {
    if r in s.reqs && !s.reqs[r].Terminal() {
      StepUsesRank(cfg, s.db, s.reqs[r], t.(now := Max(s.clock, t.now)));
    }
  }

  lemma VerifiesEbb(cfg: Config)
    ensures Ebbing(cfg, VerifiesInFlight)
  {
    forall s, r, t
      ensures VerifiesInFlight(Apply(cfg, s, Advance(r, t))) <= VerifiesInFlight(s)
    {
      StepKeepsInput(cfg, s, r, t);
    }
  }

  lemma RefreshesEbb(cfg: Config)
    ensures Ebbing(cfg, RefreshesInFlight)
  {
    forall s, r, t
      ensures RefreshesInFlight(Apply(cfg, s, Advance(r, t))) <= RefreshesInFlight(s)
    {
      StepKeepsInput(cfg, s, r, t);
    }
  }

  // ---------------------------------------------------------------- putting runs together

  lemma {:induction false} WithinAppend(cfg: Config, s: Sys, a: seq<Event>, b: seq<Event>, k: nat, kind: Kind)
    requires Within(cfg, s, a, k, kind) && Within(cfg, Run(cfg, s, a), b, k, kind)
    ensures Within(cfg, s, a + b, k, kind)
    decreases |a|
  {
    if a == [] {
      assert a + b == b;
    } else {
      assert (a + b)[0] == a[0] && (a + b)[1..] == a[1..] + b;
      WithinAppend(cfg, Apply(cfg, s, a[0]), a[1..], b, k, kind);
    }
  }

  lemma Join(cfg: Config, s: Sys, a: seq<Event>, b: seq<Event>, k: nat, kind: Kind)
    requires Within(cfg, s, a, k, kind) && Within(cfg, Run(cfg, s, a), b, k, kind)
    ensures Within(cfg, s, a + b, k, kind) && Run(cfg, s, a + b) == Run(cfg, Run(cfg, s, a), b)
  {
    WithinAppend(cfg, s, a, b, k, kind);
    RunAppend(cfg, s, a, b);
  }

  lemma EventFirst(cfg: Config, s: Sys, ev: Event, evs: seq<Event>, k: nat, kind: Kind)
    requires |kind(s)| <= k && Within(cfg, Apply(cfg, s, ev), evs, k, kind)
    ensures Within(cfg, s, [ev] + evs, k, kind)
    ensures Run(cfg, s, [ev] + evs) == Run(cfg, Apply(cfg, s, ev), evs)
  {
    assert ([ev] + evs)[0] == ev && ([ev] + evs)[1..] == evs;
  }

  lemma Pair(cfg: Config, s: Sys, a: Event, b: Event, k: nat, kind: Kind)
    requires |kind(s)| <= k && |kind(Apply(cfg, s, a))| <= k
    requires |kind(Apply(cfg, Apply(cfg, s, a), b))| <= k
    ensures Run(cfg, s, [a, b]) == Apply(cfg, Apply(cfg, s, a), b)
    ensures Within(cfg, s, [a, b], k, kind)
  {
    EventFirst(cfg, Apply(cfg, s, a), b, [], k, kind);
    EventFirst(cfg, s, a, [b] + [], k, kind);
    assert [a] + ([b] + []) == [a, b];
  }

  lemma {:induction false} TurnsWithin(cfg: Config, s: Sys, r: ReqId, w: Ticks, j: nat, n: nat, k: nat, kind: Kind)
    requires |kind(s)| <= k && Ebbing(cfg, kind)
    ensures Within(cfg, s, Turns(r, w, j, n), k, kind)
    decreases n
  {
    if n != 0 {
      var evs := Turns(r, w, j, n);
      assert evs[0] == Advance(r, w(j)) && evs[1..] == Turns(r, w, j + 1, n - 1);
      SubsetSize(kind(Apply(cfg, s, Advance(r, w(j)))), kind(s));
      TurnsWithin(cfg, Apply(cfg, s, Advance(r, w(j))), r, w, j + 1, n - 1, k, kind);
    }
  }

  /** A bound that holds for fewer in flight holds for more. */
  lemma {:induction false} WithinMore(cfg: Config, s: Sys, evs: seq<Event>, k: nat, k': nat, kind: Kind)
    requires Within(cfg, s, evs, k, kind) && k <= k'
    ensures Within(cfg, s, evs, k', kind)
    decreases |evs|
  {
    if evs != [] {
      WithinMore(cfg, Apply(cfg, s, evs[0]), evs[1..], k, k', kind);
    }
  }

  lemma {:induction false} TurnsEbb(cfg: Config, s: Sys, r: ReqId, w: Ticks, j: nat, n: nat, kind: Kind)
    requires Ebbing(cfg, kind)
    ensures kind(Run(cfg, s, Turns(r, w, j, n))) <= kind(s)
    decreases n
  {
    if n != 0 {
      var evs := Turns(r, w, j, n);
      assert evs[0] == Advance(r, w(j)) && evs[1..] == Turns(r, w, j + 1, n - 1);
      TurnsEbb(cfg, Apply(cfg, s, Advance(r, w(j))), r, w, j + 1, n - 1, kind);
    }
  }

  /** The turns of one request, then a run that keeps no more in flight than are left. */
  lemma TurnsThen(cfg: Config, s: Sys, r: ReqId, w: Ticks, j: nat, others: seq<Event>, kind: Kind)
    requires Ebbing(cfg, kind)
    requires var s1 := Run(cfg, s, Turns(r, w, j, 7)); Within(cfg, s1, others, |kind(s1)|, kind)
    ensures var turns := Turns(r, w, j, 7);
            && Run(cfg, s, turns + others) == Run(cfg, Run(cfg, s, turns), others)
            && Within(cfg, s, turns + others, |kind(s)|, kind)
  {
    var turns, k := Turns(r, w, j, 7), |kind(s)|;
    var s1 := Run(cfg, s, turns);
    TurnsEbb(cfg, s, r, w, j, 7, kind);
    SubsetSize(kind(s1), kind(s));
    TurnsWithin(cfg, s, r, w, j, 7, k, kind);
    WithinMore(cfg, s1, others, |kind(s1)|, k, kind);
    Join(cfg, s, turns, others, k, kind);
  }

  // ---------------------------------------------------------------- the same tick at every step

  /** A statement that works, at the present instant. */
  function Now(s: Sys): Tick {
    Tick(s.clock, true, 0, "", 0)
  }

  function Always(t: Tick): Ticks {
    (k: nat) => t
  }

  lemma AdvanceKeepsClock(cfg: Config, s: Sys, r: ReqId, t: Tick)
    requires t.now == s.clock
    ensures Apply(cfg, s, Advance(r, t)).clock == s.clock
  {
  }

  lemma {:induction false} TurnsKeepClock(cfg: Config, s: Sys, r: ReqId, t: Tick, k: nat, n: nat)
    requires t.now == s.clock
    ensures Run(cfg, s, Turns(r, Always(t), k, n)).clock == s.clock
    decreases n
  {
    if n != 0 {
      var evs := Turns(r, Always(t), k, n);
      assert evs[0] == Advance(r, t) && evs[1..] == Turns(r, Always(t), k + 1, n - 1);
      AdvanceKeepsClock(cfg, s, r, t);
      TurnsKeepClock(cfg, Apply(cfg, s, Advance(r, t)), r, t, k + 1, n - 1);
    }
  }

  /** A request runs to its end at one instant while nobody else moves. */
  lemma TurnsAtOnce(cfg: Config, s: Sys, r: ReqId, t: Tick, k: nat)
    requires r in s.reqs && t.now == s.clock
    ensures var s' := Run(cfg, s, Turns(r, Always(t), k, 7));
            var m := RunAlone(cfg, s.db, s.reqs[r], Always(t), k);
            s'.clock == s.clock && s'.db == m.db && s'.reqs == s.reqs[r := m.req]
  {
    TurnsRunAlone(cfg, s, r, Always(t), k, 7);
    TurnsKeepClock(cfg, s, r, t, k, 7);
  }

  lemma {:induction false} RunAloneKeepsInput(cfg: Config, db: Db, q: Req, w: Ticks, k: nat)
    ensures RunAlone(cfg, db, q, w, k).req.input == q.input
    decreases Rank(q.pc)
  {
    if !q.Terminal() {
      StepUsesRank(cfg, db, q, w(k));
      var m := Step(cfg, db, q, w(k));
      RunAloneKeepsInput(cfg, m.db, m.req, w, k + 1);
    }
  }

  /** Request numbers run out nowhere. */
  lemma {:induction false} Unused(rs: set<ReqId>) returns (next: ReqId)
    ensures forall r | r in rs :: r < next
    decreases |rs|
  {
    if rs == {} {
      next := 0;
    } else {
      var r :| r in rs;
      var n := Unused(rs - {r});
      next := if n <= r then r + 1 else n;
      forall x | x in rs
        ensures x < next
      {
        assert x == r || x in rs - {r};
      }
    }
  }
}
