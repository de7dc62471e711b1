/** Refreshes one at a time, everything else still interleaved: each sign-in's rotation history is a
    single path with at most one live token at its end, also when a refresh fails half-way. */
module SerialRotation {
  import opened Domain
  import opened Protocol
  import opened System
  import opened Invariants
  import opened Reachability
  import opened Rotation
  import opened Sets

  /** Two tokens that go back to the same sign-in. */
  ghost predicate SameOrigin(s: Sys, t: Id, u: Id) {
    && t in s.lineage && u in s.lineage && s.lineage[t] != [] && s.lineage[u] != []
    && s.lineage[t][0] == s.lineage[u][0]
  }

  ghost predicate Comparable(s: Sys, t: Id, u: Id)
    requires t in s.lineage && u in s.lineage
  {
    s.lineage[t] <= s.lineage[u] || s.lineage[u] <= s.lineage[t]
  }

  /** Tokens of one origin lie on one path. */
  ghost predicate Paths(s: Sys) {
    forall t, u | SameOrigin(s, t, u) :: Comparable(s, t, u)
  }

  /** A lineage that goes beyond `x` went through a successor of `x`. */
  lemma BeyondMeansReplaced(s: Sys, x: Id, t: Id)
    requires LineageInv(s) && x in s.lineage && t in s.lineage
    requires s.lineage[x] < s.lineage[t]
    ensures Successors(s, x) != {}
  {
    var n := |s.lineage[x]|;
    assert PrefixClosed(s, t) && Rooted(s, x);
    var c := s.lineage[t][n];
    assert s.lineage[c] == s.lineage[t][..n + 1];
    assert s.lineage[c][n - 1] == s.lineage[x][n - 1] == x;
    assert c in Successors(s, x);
  }

  /** With one holder at most, the request about to replace `x` is the first to do so. */
  lemma FirstToReplace(s: Sys, n: ReqId, x: Id)
    requires Ledger(s) && LineageInv(s) && |Holders(s, x)| <= 1
    requires n in Holders(s, x) && !s.reqs[n].pc.Issued?
    ensures Successors(s, x) == {}
  {
    SuccessorsCountMakers(s, x);
    NoMakerBeside(s, n, x);
  }

  lemma NoMakerBeside(s: Sys, n: ReqId, x: Id)
    requires |Holders(s, x)| <= 1 && n in Holders(s, x) && !s.reqs[n].pc.Issued?
    ensures Makers(s, x) == {}
  {
    forall m | m in Makers(s, x)
      ensures false
    {
      SubsetSize({m, n}, Holders(s, x));
    }
  }

  /** Extending a path at its end keeps it a path. */
  lemma StoreKeepsPaths(s: Sys, s': Sys, n: ReqId)
    requires LineageInv(s) && Paths(s) && Stores(s, s', n)
    requires var grant := s'.reqs[n].pc.grant;
             grant.ByRefresh? ==> grant.stored.id in s.lineage && Successors(s, grant.stored.id) == {}
    ensures Paths(s')
  {
    var grant, id := s'.reqs[n].pc.grant, s'.reqs[n].pc.row.id;
    forall t | SameOrigin(s', t, id) && t != id
      ensures Comparable(s', t, id)
    {
      assert Rooted(s, t) && PrefixClosed(s, t) && s.lineage[t][0] in s.lineage;
      if grant.ByRefresh? {
        var x := grant.stored.id;
        assert Rooted(s, x);
        assert SameOrigin(s, t, x);
        if s.lineage[x] < s.lineage[t] {
          BeyondMeansReplaced(s, x, t);
          assert false;
        }
        assert s.lineage[t] <= s.lineage[x] <= s'.lineage[id];
      }
    }
    forall t, u | SameOrigin(s', t, u)
      ensures Comparable(s', t, u)
    {
      if t == id {
        assert SameOrigin(s', u, id);
        assert u != id ==> Comparable(s', u, id);
      } else if u != id {
        assert SameOrigin(s, t, u);
      }
    }
  }

  lemma QuietKeepsPaths(s: Sys, s': Sys)
    requires Paths(s) && Quiet(s, s')
    ensures Paths(s')
  {
    forall t, u | SameOrigin(s', t, u)
      ensures Comparable(s', t, u)
    {
      assert SameOrigin(s, t, u);
    }
  }

  /** The request that stores a rotation holds the token it replaces, which is already revoked. */
  lemma StorerHolds(cfg: Config, s: Sys, ev: Event)
    requires RequestsOk(cfg, s) && Stores(s, Apply(cfg, s, ev), ev.r)
    ensures var grant := Apply(cfg, s, ev).reqs[ev.r].pc.grant;
            grant.ByRefresh? ==> ev.r in Holders(s, grant.stored.id) && SpentToken(s.db, grant.stored.id)
  {
    assert ReqInv(cfg, s.db, s.reqs[ev.r]);
    StepTokens(cfg, s.db, s.reqs[ev.r], ev.tick.(now := Max(s.clock, ev.tick.now)));
  }

  lemma ApplyKeepsPaths(cfg: Config, s: Sys, ev: Event)
    requires Inv(cfg, s) && Paths(s) && FewHolders(s, 1)
    ensures Paths(Apply(cfg, s, ev))
  {
    var s' := Apply(cfg, s, ev);
    EventKinds(cfg, s, ev);
    if Quiet(s, s') {
      QuietKeepsPaths(s, s');
    } else {
      var grant := s'.reqs[ev.r].pc.grant;
      StorerHolds(cfg, s, ev);
      if grant.ByRefresh? {
        FirstToReplace(s, ev.r, grant.stored.id);
      }
      StoreKeepsPaths(s, s', ev.r);
    }
  }

  lemma {:induction false} RunKeepsPaths(cfg: Config, s: Sys, evs: seq<Event>)
    requires Inv(cfg, s) && Paths(s) && FewHolders(s, 1) && Within(cfg, s, evs, 1, RefreshesInFlight)
    ensures Paths(Run(cfg, s, evs))
    decreases |evs|
  {
    if evs != [] {
      ApplyKeepsInv(cfg, s, evs[0]);
      ApplyFewHolders(cfg, s, evs[0], 1);
      ApplyKeepsPaths(cfg, s, evs[0]);
      RunKeepsPaths(cfg, Apply(cfg, s, evs[0]), evs[1..]);
    }
  }

  /** If no two refreshes ever overlap, the tokens of one sign-in form a path and at most one of them
      is unrevoked, at every step and after every failure. */
  lemma OneLiveTokenPerSignIn(cfg: Config, clock: Time, evs: seq<Event>, t: Id, u: Id)
    requires Within(cfg, Init(clock), evs, 1, RefreshesInFlight)
    requires SameOrigin(Run(cfg, Init(clock), evs), t, u)
    ensures var s := Run(cfg, Init(clock), evs);
            Comparable(s, t, u) && (Live(s, t) && Live(s, u) ==> t == u)
  {
    var s := Run(cfg, Init(clock), evs);
    assert LineageInv(s) && Paths(s) by {
      InitInv(cfg, clock);
      RunKeepsInv(cfg, Init(clock), evs);
      RunKeepsPaths(cfg, Init(clock), evs);
    }
    if Live(s, t) && Live(s, u) {
      LiveMeansTip(s, t, u);
      LiveMeansTip(s, u, t);
      assert Rooted(s, t) && Rooted(s, u);
    }
  }

  ghost predicate Live(s: Sys, t: Id) {
    t in s.db.tokens && s.db.tokens[t].revokedAt.None?
  }

  /** An unrevoked token is not an ancestor of anything. */
  lemma LiveMeansTip(s: Sys, t: Id, u: Id)
    requires LineageInv(s) && t in s.lineage && u in s.lineage && Live(s, t)
    ensures !(s.lineage[t] < s.lineage[u])
  {
    var n := |s.lineage[t]|;
    assert Rooted(s, t) && AncestorsSpent(s, u);
    if n < |s.lineage[u]| {
      assert SpentToken(s.db, s.lineage[u][n - 1]);
    }
  }
}
