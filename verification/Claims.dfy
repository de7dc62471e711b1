/** IssueAccessToken of internal/adapter/jwt/issuer.go: the claims and the lifetime it reports. */
module Claims {
  import opened Domain
  import opened Octets

  datatype AccessToken = AccessToken(
    sub: Id,
    email: string,
    name: string,
    roles: seq<string>,
    iat: int,
    exp: int)

  /** Second `n` of the Unix count is under way at instant `t`. */
  predicate InSecond(n: int, t: Time) {
    n * 1_000_000_000 <= t < (n + 1) * 1_000_000_000
  }

  /** `n` are the whole seconds of a duration, without their sign. */
  predicate WholeOfDuration(n: int, d: Time) {
    if d >= 0 then InSecond(n, d) else InSecond(-n, -d)
  }

  lemma UnixIsInSecond(t: Time)
    ensures InSecond(Unix(t), t)
  {
  }

  lemma WholeSecondsAreWhole(d: Time)
    ensures WholeOfDuration(WholeSeconds(d), d)
  {
  }

  /** At most one second is under way at an instant. */
  lemma OneSecond(m: int, n: int, t: Time)
    requires InSecond(m, t) && InSecond(n, t)
    ensures m == n
  {
  }

  /** time.Time.Unix: whole seconds, rounded towards the past. */
  function Unix(t: Time): int {
    t / SECOND
  }

  /** int(d.Seconds()): whole seconds, truncated towards zero. */
  function WholeSeconds(d: Time): int {
    if d >= 0 then d / SECOND else -((-d) / SECOND)
  }

  function IssueAccessToken(u: User, now: Time, ttl: Time): AccessToken {
    AccessToken(u.id, u.email, u.name, u.roles, Unix(now), Unix(now + ttl))
  }

  lemma UnixShift(now: Time, seconds: int)
    ensures Unix(now + seconds * SECOND) == Unix(now) + seconds
  {
  }

  /** The reported lifetime equals exp - iat at every instant exactly when the configured TTL is
      a whole number of seconds, which main.go guarantees by multiplying by time.Second. */
  lemma ClaimsAgreeIffWholeSeconds(u: User, ttl: Time)
    ensures (forall now :: var a := IssueAccessToken(u, now, ttl); a.exp - a.iat == WholeSeconds(ttl))
            <==> ttl % SECOND == 0
  {
    var s, f := ttl / SECOND, ttl % SECOND;
    if f == 0 {
      forall now
        ensures var a := IssueAccessToken(u, now, ttl); a.exp - a.iat == WholeSeconds(ttl)
      {
        UnixShift(now, s);
      }
    } else {
      // An instant whose fraction makes the two roundings differ.
      var now := if ttl >= 0 then SECOND - f else 0;
      var a := IssueAccessToken(u, now, ttl);
      assert a.exp - a.iat != WholeSeconds(ttl);
    }
  }

  /** time.Duration(seconds) * time.Second of main.go, in 64 bits. */
  function ConfiguredTtl(seconds: int): Time {
    Wrap64(seconds * SECOND)
  }

  lemma WrapIsFar(n: int)
    ensures InInt64(Wrap64(n))
    ensures if InInt64(n) then Wrap64(n) == n
            else Wrap64(n) - n >= 0x1_0000_0000_0000_0000 || n - Wrap64(n) >= 0x1_0000_0000_0000_0000
  {
  }

  lemma WholeOf(seconds: int)
    ensures WholeSeconds(seconds * SECOND) == seconds
  {
  }

  lemma UnixOfTtl(ttl: Time)
    ensures Unix(0 + ttl) * SECOND <= ttl < Unix(0 + ttl) * SECOND + SECOND
  {
  }

  /** Lifetime and reported lifetime of a token issued at `now`. */
  predicate LivesFor(u: User, now: Time, ttl: Time, seconds: int) {
    var a := IssueAccessToken(u, now, ttl);
    a.exp - a.iat == seconds && WholeSeconds(ttl) == seconds
  }

  lemma LivesAsConfigured(u: User, now: Time, seconds: int)
    requires InInt64(seconds * SECOND)
    ensures LivesFor(u, now, ConfiguredTtl(seconds), seconds)
  {
    WrapIsFar(seconds * SECOND);
    UnixShift(now, seconds);
    WholeOf(seconds);
  }

  lemma LivesOtherwise(u: User, seconds: int)
    requires !InInt64(seconds * SECOND)
    ensures !LivesFor(u, 0, ConfiguredTtl(seconds), seconds)
  {
    WrapIsFar(seconds * SECOND);
    UnixOfTtl(ConfiguredTtl(seconds));
    assert IssueAccessToken(u, 0, ConfiguredTtl(seconds)).iat == 0;
  }

  /** A token lives, and is reported to live, exactly the configured seconds at every instant if and
      only if that many nanoseconds fit 64 bits. */
  lemma ConfiguredTtlIff(u: User, seconds: int)
    ensures (forall now :: LivesFor(u, now, ConfiguredTtl(seconds), seconds)) <==> InInt64(seconds * SECOND)
  {
    if InInt64(seconds * SECOND) {
      forall now
        ensures LivesFor(u, now, ConfiguredTtl(seconds), seconds)
      {
        LivesAsConfigured(u, now, seconds);
      }
    } else {
      LivesOtherwise(u, seconds);
    }
  }
}
