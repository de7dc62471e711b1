/** CompleteGoogleOAuth with the real state signer in place: what the state decides, end to end. */
module GoogleSignIn {
  import opened Octets
  import opened Wrappers
  import opened Domain
  import opened Tables
  import opened Protocol
  import opened Serial
  import Utf8
  import Signer = OAuthState

  /** The state check of a service configured with `secret`. */
  function OpenWith(mac: Signer.Mac, secret: seq<Byte>): (string, Time) -> Option<string> {
    (state, now) =>
      match Signer.Verify(mac, secret, state, now)
      case Accepted(redirectTo) => Some(Utf8.Decode(redirectTo))
      case Refused(_) => None
  }

  /** Past the state check, on the way to `redirectTo`. */
  ghost predicate Carries(pc: Pc, redirectTo: string) {
    match pc
    case Exchange(target, _) => target == redirectTo
    case FindAccount(grant, _, _) => grant == ByGoogle(redirectTo)
    case CreateAccount(grant, _) => grant == ByGoogle(redirectTo)
    case Mint(grant, _) => grant == ByGoogle(redirectTo)
    case Persist(grant, _, _, _) => grant == ByGoogle(redirectTo)
    case Issued(grant, _, _, _) => grant == ByGoogle(redirectTo)
    case Failed(error) => error != OAuthStateInvalid
    case _ => false
  }

  lemma StepCarries(cfg: Config, db: Db, q: Req, t: Tick, redirectTo: string)
    requires Carries(q.pc, redirectTo)
    ensures Carries(Step(cfg, db, q, t).req.pc, redirectTo)
  {
  }

  lemma {:induction false} RunCarries(cfg: Config, db: Db, q: Req, w: Ticks, k: nat, redirectTo: string)
    requires Carries(q.pc, redirectTo)
    ensures Carries(RunAlone(cfg, db, q, w, k).req.pc, redirectTo)
    decreases Rank(q.pc)
  {
    if !q.Terminal() {
      StepUsesRank(cfg, db, q, w(k));
      StepCarries(cfg, db, q, w(k), redirectTo);
      var m := Step(cfg, db, q, w(k));
      RunCarries(cfg, m.db, m.req, w, k + 1, redirectTo);
    }
  }

  /** Signing in with a state the service itself signed: within its ten minutes the state is never the
      reason for a refusal and a granted pair comes with exactly the signed target; after that the
      request is refused for its state and nothing is stored. */
  lemma SignedStateComesBack(cfg: Config, mac: Signer.Mac, secret: seq<Byte>, redirectTo: string, nonce: seq<Byte>,
                             signedAt: Time, code: string, db: Db, w: Ticks)
    requires cfg.openState == OpenWith(mac, secret) && Signer.IsGoTime(signedAt)
    ensures var state := Signer.Sign(mac, secret, Utf8.Encode(redirectTo), nonce, signedAt);
            var outcome := Answer(Serve(cfg, db, CompleteGoogle(state, code), w));
            if w(0).now - signedAt + signedAt % SECOND <= Signer.OAUTH_STATE_TTL
            then outcome.response != Refused(OAuthStateInvalid)
                 && (outcome.response.Granted? ==> outcome.response.redirectTo == Some(redirectTo))
            else outcome == Outcome(db, Refused(OAuthStateInvalid))
  {
    var state := Signer.Sign(mac, secret, Utf8.Encode(redirectTo), nonce, signedAt);
    assert cfg.openState(state, w(0).now)
        == if w(0).now - signedAt + signedAt % SECOND <= Signer.OAUTH_STATE_TTL then Some(redirectTo) else None by {
      Signer.VerifySign(mac, secret, Utf8.Encode(redirectTo), nonce, signedAt, w(0).now);
      Utf8.DecodeEncode(redirectTo);
    }
    AfterStateCheck(cfg, state, code, db, w);
  }

  /** The same for any state text: all that matters is what the check makes of it. */
  lemma AfterStateCheck(cfg: Config, state: string, code: string, db: Db, w: Ticks)
    ensures var outcome := Answer(Serve(cfg, db, CompleteGoogle(state, code), w));
            match cfg.openState(state, w(0).now)
            case None => outcome == Outcome(db, Refused(OAuthStateInvalid))
            case Some(target) =>
              && outcome.response != Refused(OAuthStateInvalid)
              && (outcome.response.Granted? ==> outcome.response.redirectTo == Some(target))
  {
    var q := NewRequest(CompleteGoogle(state, code));
    Unroll(cfg, db, q, w, 0);
    if cfg.openState(state, w(0).now).Some? {
      var target := cfg.openState(state, w(0).now).value;
      RunCarries(cfg, db, q.Goto(Exchange(target, code)), w, 1, target);
      RunAloneEnds(cfg, db, q.Goto(Exchange(target, code)), w, 1);
    }
  }
}
