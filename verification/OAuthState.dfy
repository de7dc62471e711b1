/** The OAuth state of internal/usecase/oauth_state.go: a signed, dated JSON object in base64url. */
module OAuthState {
  import opened Octets
  import opened Wrappers
  import opened Domain
  import opened Claims
  import opened Json
  import Base64Url
  import Utf8

  /** HMAC-SHA-256 stays abstract: a function of the key and the text. */
  type Mac = (seq<Byte>, string) -> seq<Byte>

  const OAUTH_STATE_TTL: Time := 600 * SECOND

  datatype StateClaims = StateClaims(nonce: string, redirectTo: string, issuedAt: int)

  // ---------------------------------------------------------------- the payload

  function TimeMember(t: int): string {
    Name("t") + PrintInt(t) + "}"
  }

  function RedirectMember(redirectTo: seq<Option<char>>, t: int): string {
    Name("r") + Quote(redirectTo) + "," + TimeMember(t)
  }

  /** json.Marshal of the claims: its members in the order of the struct, and no space. */
  function Marshal(nonce: seq<Option<char>>, redirectTo: seq<Option<char>>, t: int): string {
    "{" + (Name("n") + Quote(nonce) + "," + RedirectMember(redirectTo, t))
  }

  /** encoding/json matches a member to a field whatever the case of its name. */
  function Field(name: string): Option<char> {
    if name == "n" || name == "N" then Some('n')
    else if name == "r" || name == "R" then Some('r')
    else if name == "t" || name == "T" then Some('t')
    else None
  }

  /** One member: null leaves the field alone, an unknown name is passed over, a wrong type fails. */
  function SetField(c: StateClaims, name: string, v: Value): Option<StateClaims> {
    if Field(name).None? || v.Null? then Some(c)
    else if Field(name) == Some('t') then
      if v.Number? && IntOf(v.literal).Some? then Some(c.(issuedAt := IntOf(v.literal).value)) else None
    else if !v.Text? then None
    else if Field(name) == Some('n') then Some(c.(nonce := v.text))
    else Some(c.(redirectTo := v.text))
  }

  function SetFields(c: StateClaims, members: seq<(string, Value)>): Option<StateClaims>
    decreases |members|
  {
    if members == [] then Some(c)
    else match SetField(c, members[0].0, members[0].1)
      case None => None
      case Some(c') => SetFields(c', members[1..])
  }

  /** json.Unmarshal into a zero struct; a later member of the same name replaces an earlier one. */
  function Unmarshal(s: string): Option<StateClaims> {
    match ReadDocument(s)
    case Some(Object(members)) => SetFields(StateClaims("", "", 0), members)
    case Some(Null) => Some(StateClaims("", "", 0))
    case _ => None
  }

  lemma ReadTimeMember(t: int, depth: nat)
    ensures ReadMembers(TimeMember(t), depth) == Read([("t", Number(PrintInt(t)))], "")
  {
    var afterName := PrintInt(t) + "}";
    ReadPrintedName("t", afterName);
    assert TimeMember(t) == Name("t") + afterName;
    ReadPrintedInt(t, "}", depth);
    ReadLastMember(TimeMember(t), depth, "t", afterName, Number(PrintInt(t)), "");
  }

  lemma Regroup(a: string, b: string, c: string, d: string)
    ensures a + b + c + d == a + (b + (c + d))
  {
  }

  lemma ReadTextMember(name: string, runes: seq<Option<char>>, rest: string, depth: nat)
    requires ReadMembers(rest, depth).Read?
    ensures var others := ReadMembers(rest, depth);
            ReadMembers(Name(name) + Quote(runes) + "," + rest, depth)
            == Read([(name, Text(Utf8.ShownAll(runes)))] + others.value, others.rest)
  {
    var afterName := Quote(runes) + ("," + rest);
    Regroup(Name(name), Quote(runes), ",", rest);
    ReadPrintedName(name, afterName);
    assert ReadValue(afterName, depth) == Read(Text(Utf8.ShownAll(runes)), "," + rest) by {
      ReadQuoted(runes, "," + rest, depth);
    }
    ReadMember(Name(name) + afterName, depth, name, afterName, Text(Utf8.ShownAll(runes)), rest);
  }

  function RedirectAndTime(redirectTo: string, t: int): seq<(string, Value)> {
    [("r", Text(redirectTo))] + [("t", Number(PrintInt(t)))]
  }

  lemma ReadRedirectMember(redirectTo: seq<Option<char>>, t: int, depth: nat)
    ensures ReadMembers(RedirectMember(redirectTo, t), depth)
            == Read(RedirectAndTime(Utf8.ShownAll(redirectTo), t), "")
  {
    ReadTimeMember(t, depth);
    ReadTextMember("r", redirectTo, TimeMember(t), depth);
  }

  lemma ReadMarshalled(nonce: seq<Option<char>>, redirectTo: seq<Option<char>>, t: int)
    ensures ReadDocument(Marshal(nonce, redirectTo, t))
            == Some(Object([("n", Text(Utf8.ShownAll(nonce)))] + RedirectAndTime(Utf8.ShownAll(redirectTo), t)))
  {
    ReadRedirectMember(redirectTo, t, 1);
    ReadTextMember("n", nonce, RedirectMember(redirectTo, t), 1);
    ReadObject(Name("n") + Quote(nonce) + "," + RedirectMember(redirectTo, t));
  }

  lemma ReadObject(members: string)
    requires members != "" && members[0] == '"' && ReadMembers(members, 1).Read? && ReadMembers(members, 1).rest == ""
    ensures ReadDocument("{" + members) == Some(Object(ReadMembers(members, 1).value))
  {
    assert ("{" + members)[1..] == members;
  }

  lemma SetFirstField(c: StateClaims, name: string, v: Value, others: seq<(string, Value)>)
    requires SetField(c, name, v).Some?
    ensures SetFields(c, [(name, v)] + others) == SetFields(SetField(c, name, v).value, others)
  {
    assert ([(name, v)] + others)[1..] == others;
  }

  lemma SetRedirectAndTime(c: StateClaims, r: string, t: int)
    requires InInt64(t)
    ensures SetFields(c, RedirectAndTime(r, t)) == Some(c.(redirectTo := r, issuedAt := t))
  {
    IntOfPrinted(t);
    SetFirstField(c, "r", Text(r), [("t", Number(PrintInt(t)))]);
    SetFirstField(c.(redirectTo := r), "t", Number(PrintInt(t)), []);
    assert [("t", Number(PrintInt(t)))] + [] == [("t", Number(PrintInt(t)))];
  }

  /** json.Unmarshal undoes json.Marshal up to bytes that are no UTF-8. */
  lemma UnmarshalMarshal(nonce: seq<Option<char>>, redirectTo: seq<Option<char>>, t: int)
    requires InInt64(t)
    ensures Unmarshal(Marshal(nonce, redirectTo, t))
            == Some(StateClaims(Utf8.ShownAll(nonce), Utf8.ShownAll(redirectTo), t))
  {
    ReadMarshalled(nonce, redirectTo, t);
    var n, r := Utf8.ShownAll(nonce), Utf8.ShownAll(redirectTo);
    SetFirstField(StateClaims("", "", 0), "n", Text(n), RedirectAndTime(r, t));
    SetRedirectAndTime(StateClaims(n, "", 0), r, t);
  }

  lemma NameOfLetter(c: char)
    requires 'a' <= c <= 'z'
    ensures Name([c]) == "\"" + [c] + "\":"
  {
    OthersAreThemselves(c);
    assert Runes([c]) == [Some(c)];
    assert EscapeAll([Some(c)]) == Escape(Some(c)) + EscapeAll([]);
  }

  function TextMember(c: char, text: string): string {
    ("\"" + [c] + "\":" + "\"") + text + ("\"" + ",")
  }

  lemma RegroupText(a: string, b: string, text: string, c: string, d: string)
    ensures a + (b + text + c) + d == (a + b) + text + (c + d)
  {
  }

  lemma TextMemberOf(c: char, runes: seq<Option<char>>, rest: string)
    requires 'a' <= c <= 'z'
    ensures Name([c]) + Quote(runes) + "," + rest == TextMember(c, EscapeAll(runes)) + rest
  {
    NameOfLetter(c);
    RegroupText("\"" + [c] + "\":", "\"", EscapeAll(runes), "\"", ",");
  }

  /** The text of a payload, member by member. */
  lemma MarshalledText(nonce: seq<Option<char>>, redirectTo: seq<Option<char>>, t: int)
    ensures Marshal(nonce, redirectTo, t)
            == "{" + (TextMember('n', EscapeAll(nonce))
                      + (TextMember('r', EscapeAll(redirectTo)) + ("\"t\":" + PrintInt(t) + "}")))
  {
    assert TimeMember(t) == "\"t\":" + PrintInt(t) + "}" by {
      NameOfLetter('t');
    }
    assert RedirectMember(redirectTo, t) == TextMember('r', EscapeAll(redirectTo)) + TimeMember(t) by {
      TextMemberOf('r', redirectTo, TimeMember(t));
    }
    TextMemberOf('n', nonce, RedirectMember(redirectTo, t));
  }

  // ---------------------------------------------------------------- time

  /** Seconds between year 1, which time.Time counts from, and 1970. */
  const UNIX_TO_INTERNAL: int := 62_135_596_800

  /** time.Unix(t, 0): a time.Time holds 64 bits of seconds, so the shift to year 1 may wrap. */
  function Instant(t: int): Time {
    (Wrap64(t + UNIX_TO_INTERNAL) - UNIX_TO_INTERNAL) * SECOND
  }

  /** An instant a time.Time holds and whose Unix seconds fit 64 bits. */
  predicate IsGoTime(now: Time) {
    InInt64(Unix(now)) && InInt64(Unix(now) + UNIX_TO_INTERNAL)
  }

  lemma InstantOfUnix(now: Time)
    requires IsGoTime(now)
    ensures Instant(Unix(now)) == now - now % SECOND
  {
  }

  // ---------------------------------------------------------------- sign and verify

  datatype Refusal = Malformed | Mismatch | NotBase64 | NotClaims | Expired

  datatype Verdict = Accepted(redirectTo: seq<Byte>) | Refused(why: Refusal)

  function Sig(mac: Mac, secret: seq<Byte>, encoded: string): string {
    Base64Url.Encode(mac(secret, encoded))
  }

  function Payload(redirectTo: seq<Byte>, nonce: seq<Byte>, now: Time): string {
    var text := Marshal(Utf8.Scan(Utf8.Encode(Base64Url.Encode(nonce))), Utf8.Scan(redirectTo), Unix(now));
    Base64Url.Encode(Utf8.Encode(text))
  }

  function Sign(mac: Mac, secret: seq<Byte>, redirectTo: seq<Byte>, nonce: seq<Byte>, now: Time): string {
    var encoded := Payload(redirectTo, nonce, now);
    encoded + "." + Sig(mac, secret, encoded)
  }

  /** strings.Cut at the first dot. */
  function Cut(s: string): (r: Option<(string, string)>)
    ensures r.None? ==> '.' !in s
    ensures r.Some? ==> s == r.value.0 + "." + r.value.1 && '.' !in r.value.0
  {
    if s == "" then None
    else if s[0] == '.' then Some(("", s[1..]))
    else
      assert s == [s[0]] + s[1..];
      match Cut(s[1..])
      case None => None
      case Some((before, after)) =>
        assert [s[0]] + before + "." + after == [s[0]] + (before + "." + after);
        Some(([s[0]] + before, after))
  }

  /** What an authentic payload says at instant `now`. */
  function Open(encoded: string, now: Time): Verdict {
    match Base64Url.Decode(encoded)
    case None => Refused(NotBase64)
    case Some(payload) =>
      match Unmarshal(Utf8.Decode(payload))
      case None => Refused(NotClaims)
      case Some(claims) =>
        if now - Instant(claims.issuedAt) > OAUTH_STATE_TTL then Refused(Expired)
        else Accepted(Utf8.Encode(claims.redirectTo))
  }

  function Verify(mac: Mac, secret: seq<Byte>, state: string, now: Time): Verdict {
    match Cut(state)
    case None => Refused(Malformed)
    case Some((encoded, sig)) =>
      if sig != Sig(mac, secret, encoded) then Refused(Mismatch) else Open(encoded, now)
  }

  lemma {:induction false} CutAtFirstDot(before: string, after: string)
    requires '.' !in before
    ensures Cut(before + "." + after) == Some((before, after))
    decreases |before|
  {
    var s := before + "." + after;
    if before == "" {
      assert s[1..] == after;
    } else {
      assert s[1..] == before[1..] + "." + after;
      CutAtFirstDot(before[1..], after);
      assert before == [before[0]] + before[1..];
    }
  }

  /** What verification makes of a payload under any signature. */
  lemma VerifySigned(mac: Mac, secret: seq<Byte>, encoded: string, sig: string, now: Time)
    requires '.' !in encoded
    ensures Verify(mac, secret, encoded + "." + sig, now)
            == if sig == Sig(mac, secret, encoded) then Open(encoded, now) else Refused(Mismatch)
  {
    CutAtFirstDot(encoded, sig);
  }

  lemma OpenEncoded(text: string, claims: StateClaims, later: Time)
    requires Unmarshal(text) == Some(claims)
    ensures Open(Base64Url.Encode(Utf8.Encode(text)), later)
            == if later - Instant(claims.issuedAt) > OAUTH_STATE_TTL then Refused(Expired)
               else Accepted(Utf8.Encode(claims.redirectTo))
  {
    Base64Url.DecodeEncode(Utf8.Encode(text));
    Utf8.DecodeEncode(text);
  }

  lemma OpenPayload(redirectTo: seq<Byte>, nonce: seq<Byte>, now: Time, later: Time)
    requires IsGoTime(now)
    ensures '.' !in Payload(redirectTo, nonce, now)
    ensures Open(Payload(redirectTo, nonce, now), later)
            == if later - (now - now % SECOND) > OAUTH_STATE_TTL then Refused(Expired)
               else Accepted(Utf8.Encode(Utf8.Decode(redirectTo)))
  {
    var nonceRunes, redirectRunes := Utf8.Scan(Utf8.Encode(Base64Url.Encode(nonce))), Utf8.Scan(redirectTo);
    var text := Marshal(nonceRunes, redirectRunes, Unix(now));
    Base64Url.DecodeEncode(Utf8.Encode(text));
    UnmarshalMarshal(nonceRunes, redirectRunes, Unix(now));
    InstantOfUnix(now);
    OpenEncoded(text, StateClaims(Utf8.ShownAll(nonceRunes), Utf8.ShownAll(redirectRunes), Unix(now)), later);
  }

  // ---------------------------------------------------------------- the theorems

  /** A state signed at `now` and verified at `later` is refused as expired exactly when it is more
      than ten minutes older than the whole second it was signed in; until then it yields the target,
      with the replacement character for every stray byte. */
  lemma VerifySign(mac: Mac, secret: seq<Byte>, redirectTo: seq<Byte>, nonce: seq<Byte>, now: Time, later: Time)
    requires IsGoTime(now)
    ensures Verify(mac, secret, Sign(mac, secret, redirectTo, nonce, now), later)
            == if later - now + now % SECOND > OAUTH_STATE_TTL then Refused(Expired)
               else Accepted(Utf8.Encode(Utf8.Decode(redirectTo)))
  {
    var encoded := Payload(redirectTo, nonce, now);
    OpenPayload(redirectTo, nonce, now, later);
    VerifySigned(mac, secret, encoded, Sig(mac, secret, encoded), later);
  }

  /** The round trip returns the redirect target exactly when it is valid UTF-8 and still fresh. */
  lemma RoundTripIff(mac: Mac, secret: seq<Byte>, redirectTo: seq<Byte>, nonce: seq<Byte>, now: Time, later: Time)
    requires IsGoTime(now)
    ensures Verify(mac, secret, Sign(mac, secret, redirectTo, nonce, now), later) == Accepted(redirectTo)
            <==> Utf8.WellFormed(redirectTo) && later - now + now % SECOND <= OAUTH_STATE_TTL
  {
    VerifySign(mac, secret, redirectTo, nonce, now, later);
    Utf8.EncodeDecodeIffWellFormed(redirectTo);
  }

  ghost predicate AcceptedAtAge(mac: Mac, secret: seq<Byte>, redirectTo: seq<Byte>, nonce: seq<Byte>,
                                now: Time, age: Time)
  {
    Verify(mac, secret, Sign(mac, secret, redirectTo, nonce, now), now + age).Accepted?
  }

  /** The instants within one second. */
  lemma WithinSecond(start: Time, fraction: Time)
    requires start % SECOND == 0 && 0 <= fraction < SECOND
    ensures Unix(start + fraction) == Unix(start) && (start + fraction) % SECOND == fraction
  {
  }

  lemma AcceptedAtAgeIff(mac: Mac, secret: seq<Byte>, redirectTo: seq<Byte>, nonce: seq<Byte>,
                         now: Time, fraction: Time, age: Time)
    requires IsGoTime(now) && now % SECOND == fraction
    ensures AcceptedAtAge(mac, secret, redirectTo, nonce, now, age) <==> age + fraction <= OAUTH_STATE_TTL
  {
    var later := now + age;
    VerifySign(mac, secret, redirectTo, nonce, now, later);
    assert later - now + now % SECOND == age + fraction;
  }

  /** Every real age up to 599 seconds and a nanosecond is accepted and every one above 600 refused. */
  lemma Window(mac: Mac, secret: seq<Byte>, redirectTo: seq<Byte>, nonce: seq<Byte>, now: Time, age: Time)
    requires IsGoTime(now)
    ensures age <= 599 * SECOND + 1 ==> AcceptedAtAge(mac, secret, redirectTo, nonce, now, age)
    ensures age > 600 * SECOND ==> !AcceptedAtAge(mac, secret, redirectTo, nonce, now, age)
  {
    AcceptedAtAgeIff(mac, secret, redirectTo, nonce, now, now % SECOND, age);
  }

  /** What lies in between cannot be narrowed: an age in it is accepted for a state signed on a full
      second and refused for one signed a nanosecond before the next. */
  lemma WindowIsTight(mac: Mac, secret: seq<Byte>, redirectTo: seq<Byte>, nonce: seq<Byte>,
                      start: Time, end: Time, age: Time)
    requires IsGoTime(start) && start % SECOND == 0 && end == start + SECOND - 1
    requires 599 * SECOND + 1 < age <= 600 * SECOND
    ensures AcceptedAtAge(mac, secret, redirectTo, nonce, start, age)
    ensures !AcceptedAtAge(mac, secret, redirectTo, nonce, end, age)
  {
    WithinSecond(start, SECOND - 1);
    AcceptedAtAgeIff(mac, secret, redirectTo, nonce, start, 0, age);
    AcceptedAtAgeIff(mac, secret, redirectTo, nonce, end, SECOND - 1, age);
  }

  /** The accepted states are exactly e + "." + sig(e) with e free of dots and saying so. */
  lemma AcceptedForm(mac: Mac, secret: seq<Byte>, state: string, now: Time, redirectTo: seq<Byte>)
    ensures Verify(mac, secret, state, now) == Accepted(redirectTo)
            <==> exists e ::
                   && '.' !in e && state == e + "." + Sig(mac, secret, e)
                   && Open(e, now) == Accepted(redirectTo)
  {
    if Verify(mac, secret, state, now) == Accepted(redirectTo) {
      var e := Cut(state).value.0;
      assert '.' !in e && state == e + "." + Sig(mac, secret, e) && Open(e, now) == Accepted(redirectTo);
    }
    forall e | '.' !in e && state == e + "." + Sig(mac, secret, e) && Open(e, now) == Accepted(redirectTo)
      ensures Verify(mac, secret, state, now) == Accepted(redirectTo)
    {
      VerifySigned(mac, secret, e, Sig(mac, secret, e), now);
    }
  }

  /** A payload has one accepted state at most: no second signature text goes with it. */
  lemma OneStatePerPayload(mac: Mac, secret: seq<Byte>, e: string, sig: string, sig': string, now: Time)
    requires '.' !in e
    requires Verify(mac, secret, e + "." + sig, now).Accepted? && Verify(mac, secret, e + "." + sig', now).Accepted?
    ensures sig == sig'
  {
    VerifySigned(mac, secret, e, sig, now);
    VerifySigned(mac, secret, e, sig', now);
  }

  /** A state signed under one secret passes under another exactly when the two MACs of its payload
      are equal byte for byte: the base64url of a MAC loses nothing. */
  lemma OtherSecret(mac: Mac, secret: seq<Byte>, other: seq<Byte>, redirectTo: seq<Byte>, nonce: seq<Byte>, now: Time)
    requires IsGoTime(now)
    ensures var e := Payload(redirectTo, nonce, now);
            var verdict := Verify(mac, other, Sign(mac, secret, redirectTo, nonce, now), now);
            && (verdict.Accepted? <==> mac(other, e) == mac(secret, e))
            && (!verdict.Accepted? ==> verdict == Refused(Mismatch))
  {
    var e := Payload(redirectTo, nonce, now);
    OpenPayload(redirectTo, nonce, now, now);
    VerifySigned(mac, other, e, Sig(mac, secret, e), now);
    Base64Url.DecodeEncode(mac(secret, e));
    Base64Url.DecodeEncode(mac(other, e));
  }

  /** A signed state: the base64url of the claims' JSON text, a dot, and the base64url of its MAC. The
      claims name the nonce in base64url, the target as text, and the whole second of signing. */
  ghost predicate Carries(state: string, mac: Mac, secret: seq<Byte>, redirectTo: seq<Byte>, nonce: seq<Byte>,
                          now: Time, encoded: string, claims: StateClaims)
  {
    && state == encoded + "." + Base64Url.Encode(mac(secret, encoded)) && '.' !in encoded
    && Base64Url.Decode(encoded).Some?
    && Unmarshal(Utf8.Decode(Base64Url.Decode(encoded).value)) == Some(claims)
    && claims.nonce == Base64Url.Encode(nonce) && Base64Url.Decode(claims.nonce) == Some(nonce)
    && claims.redirectTo == Utf8.Decode(redirectTo)
    && InSecond(claims.issuedAt, now)
  }

  lemma PayloadCarries(redirectTo: seq<Byte>, nonce: seq<Byte>, now: Time)
    requires IsGoTime(now)
    ensures var payload := Base64Url.Decode(Payload(redirectTo, nonce, now));
            && '.' !in Payload(redirectTo, nonce, now) && payload.Some?
            && Unmarshal(Utf8.Decode(payload.value))
               == Some(StateClaims(Base64Url.Encode(nonce), Utf8.Decode(redirectTo), Unix(now)))
  {
    var n := Base64Url.Encode(nonce);
    var text := Marshal(Utf8.Scan(Utf8.Encode(n)), Utf8.Scan(redirectTo), Unix(now));
    Base64Url.DecodeEncode(Utf8.Encode(text));
    Utf8.DecodeEncode(n);
    Utf8.DecodeEncode(text);
    UnmarshalMarshal(Utf8.Scan(Utf8.Encode(n)), Utf8.Scan(redirectTo), Unix(now));
  }

  /** Every signed state carries them. */
  lemma SignedStateCarries(mac: Mac, secret: seq<Byte>, redirectTo: seq<Byte>, nonce: seq<Byte>, now: Time)
    requires IsGoTime(now)
    ensures exists encoded: string, claims: StateClaims ::
              Carries(Sign(mac, secret, redirectTo, nonce, now), mac, secret, redirectTo, nonce, now, encoded, claims)
  {
    var encoded := Payload(redirectTo, nonce, now);
    var claims := StateClaims(Base64Url.Encode(nonce), Utf8.Decode(redirectTo), Unix(now));
    PayloadCarries(redirectTo, nonce, now);
    Base64Url.DecodeEncode(nonce);
    UnixIsInSecond(now);
    assert Carries(Sign(mac, secret, redirectTo, nonce, now), mac, secret, redirectTo, nonce, now, encoded, claims);
  }
}
