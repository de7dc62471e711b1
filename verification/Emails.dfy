/** normalizeEmail of internal/usecase/register.go: trim, then lower-case (ASCII letters). */
module Emails {

  /** The code points unicode.IsSpace accepts, which strings.TrimSpace removes. */
  predicate IsSpace(c: char) {
    || '\U{0009}' <= c <= '\U{000D}'
    || c == ' ' || c == '\U{0085}' || c == '\U{00A0}' || c == '\U{1680}'
    || '\U{2000}' <= c <= '\U{200A}'
    || c == '\U{2028}' || c == '\U{2029}' || c == '\U{202F}' || c == '\U{205F}' || c == '\U{3000}'
  }

  function LowerChar(c: char): char {
    if 'A' <= c <= 'Z' then (c as int + 32) as char else c
  }

  function TrimLeft(s: string): (r: string)
    ensures r == [] || !IsSpace(r[0])
  {
    if s != [] && IsSpace(s[0]) then TrimLeft(s[1..]) else s
  }

  function TrimRight(s: string): (r: string)
    ensures r <= s
    ensures r == [] || !IsSpace(r[|r| - 1])
  {
    if s != [] && IsSpace(s[|s| - 1]) then TrimRight(s[..|s| - 1]) else s
  }

  function Lower(s: string): (r: string)
    ensures |r| == |s|
    ensures forall i :: 0 <= i < |s| ==> r[i] == LowerChar(s[i])
  {
    seq(|s|, i requires 0 <= i < |s| => LowerChar(s[i]))
  }

  function NormalizeEmail(email: string): string {
    Lower(TrimRight(TrimLeft(email)))
  }

  /** A stored address: no surrounding space and no upper-case letter. */
  predicate Normalized(s: string) {
    && (s != [] ==> !IsSpace(s[0]) && !IsSpace(s[|s| - 1]))
    && forall i :: 0 <= i < |s| ==> !('A' <= s[i] <= 'Z')
  }

  /** Normalised addresses are exactly the fixed points, and normalising always yields one. */
  lemma NormalizeEmailFixedPoints(s: string)
    ensures Normalized(NormalizeEmail(s))
    ensures Normalized(s) <==> NormalizeEmail(s) == s
  {
    var l := TrimLeft(s);
    var t := TrimRight(l);
    if t != [] {
      assert t[0] == l[0];
    }
    if Normalized(s) {
      assert TrimLeft(s) == s;
      assert TrimRight(s) == s;
    }
  }

  // ---------------------------------------------------------------- what it means

  ghost predicate SpaceOnly(s: string) {
    forall i :: 0 <= i < |s| ==> IsSpace(s[i])
  }

  /** A text in three parts: space, a middle without space at either end, space. */
  ghost predicate Parts(s: string, a: string, m: string, b: string) {
    s == a + m + b && SpaceOnly(a) && SpaceOnly(b) && Trimmed(m)
  }

  /** The same text, each of the letters A to Z replaced by the letter 32 code points on. */
  ghost predicate InLowerCase(m: string, r: string) {
    && |r| == |m|
    && forall i :: 0 <= i < |m| ==>
         if 65 <= m[i] as int <= 90 then r[i] as int == m[i] as int + 32 else r[i] == m[i]
  }

  predicate SameLetter(c: char, d: char) {
    || c == d
    || (65 <= c as int <= 90 && d as int == c as int + 32)
    || (65 <= d as int <= 90 && c as int == d as int + 32)
  }

  ghost predicate SameUpToCase(m: string, m': string) {
    |m| == |m'| && forall i :: 0 <= i < |m| ==> SameLetter(m[i], m'[i])
  }

  /** The code points of the Unicode property White_Space. */
  lemma SpaceCodePoints(c: char)
    ensures IsSpace(c) <==>
            c as int in [9, 10, 11, 12, 13, 32, 133, 160, 5760, 8192, 8193, 8194, 8195, 8196, 8197, 8198, 8199,
                         8200, 8201, 8202, 8232, 8233, 8239, 8287, 12288]
  {
  }

  lemma {:induction false} TrimLeftCuts(s: string) returns (a: string)
    ensures s == a + TrimLeft(s) && SpaceOnly(a)
    decreases |s|
  {
    a := "";
    if s != [] && IsSpace(s[0]) {
      var a' := TrimLeftCuts(s[1..]);
      a := [s[0]] + a';
      assert s == [s[0]] + s[1..];
    }
  }

  lemma {:induction false} TrimRightCuts(s: string) returns (b: string)
    ensures s == TrimRight(s) + b && SpaceOnly(b)
    decreases |s|
  {
    b := "";
    if s != [] && IsSpace(s[|s| - 1]) {
      var front, last := s[..|s| - 1], s[|s| - 1];
      var b' := TrimRightCuts(front);
      b := b' + [last];
      assert s == front + [last] == TrimRight(front) + b' + [last];
    }
  }

  /** Around a middle everything is space, at its ends nothing is. */
  lemma AroundTheMiddle(s: string, a: string, m: string, b: string, i: nat)
    requires Parts(s, a, m, b) && i < |s|
    ensures i < |a| || |s| - |b| <= i ==> IsSpace(s[i])
    ensures m != "" ==> !IsSpace(s[|a|]) && !IsSpace(s[|s| - |b| - 1])
  {
    if i < |a| {
      assert s[i] == a[i];
    } else if |s| - |b| <= i {
      assert s[i] == b[i - |a| - |m|];
    }
  }

  /** No other middle of the text reaches beyond a middle. */
  lemma NoEarlierMiddle(s: string, a: string, m: string, b: string, a': string, m': string, b': string)
    requires Parts(s, a, m, b) && Parts(s, a', m', b') && m != ""
    ensures m' != "" && |a'| <= |a| && |b'| <= |b|
  {
    AroundTheMiddle(s, a, m, b, |a|);
    AroundTheMiddle(s, a', m', b', |a|);
    AroundTheMiddle(s, a', m', b', |a| + |m| - 1);
  }

  /** A text has one middle. */
  lemma OneMiddle(s: string, a: string, m: string, b: string, a': string, m': string, b': string)
    requires Parts(s, a, m, b) && Parts(s, a', m', b')
    ensures m == m'
  {
    if m != "" || m' != "" {
      if m != "" {
        NoEarlierMiddle(s, a, m, b, a', m', b');
      }
      if m' != "" {
        NoEarlierMiddle(s, a', m', b', a, m, b);
      }
      assert m == s[|a|..|s| - |b|] == m';
    }
  }

  /** The middle is what trimming leaves. */
  lemma MiddleIsTrimmed(s: string, a: string, m: string, b: string)
    requires Parts(s, a, m, b)
    ensures m == TrimRight(TrimLeft(s))
  {
    var t := TrimRight(TrimLeft(s));
    var a', b' := TrimmedParts(s);
    OneMiddle(s, a, m, b, a', t, b');
  }

  lemma TrimmedParts(s: string) returns (a: string, b: string)
    ensures Parts(s, a, TrimRight(TrimLeft(s)), b)
  {
    a := TrimLeftCuts(s);
    b := TrimRightCuts(TrimLeft(s));
    TrimmedIffUntouched(s);
    Regroup(a, TrimRight(TrimLeft(s)), b);
  }

  /** Normalising takes the text's one middle and puts it in lower case. */
  lemma NormalizeEmailMeans(s: string)
    ensures exists a: string, m: string, b: string :: Parts(s, a, m, b) && InLowerCase(m, NormalizeEmail(s))
  {
    var a, b := TrimmedParts(s);
    var m := TrimRight(TrimLeft(s));
    LowerIsLowerCase(m);
    assert Parts(s, a, m, b) && InLowerCase(m, NormalizeEmail(s));
  }

  lemma Regroup(a: string, m: string, b: string)
    ensures a + (m + b) == a + m + b
  {
  }

  lemma LowerIsLowerCase(m: string)
    ensures InLowerCase(m, Lower(m))
  {
  }

  /** Two addresses are one to the service exactly when their middles agree letter by letter up to case. */
  lemma SameAddressIff(s: string, a: string, m: string, b: string, s': string, a': string, m': string, b': string)
    requires Parts(s, a, m, b) && Parts(s', a', m', b')
    ensures InLowerCase(m, NormalizeEmail(s))
    ensures NormalizeEmail(s) == NormalizeEmail(s') <==> SameUpToCase(m, m')
  {
    MiddleIsTrimmed(s, a, m, b);
    MiddleIsTrimmed(s', a', m', b');
    LowerIsLowerCase(m);
    LowerIsLowerCase(m');
    SameFormIff(m, NormalizeEmail(s), m', NormalizeEmail(s'));
  }

  lemma SameFormIff(m: string, r: string, m': string, r': string)
    requires InLowerCase(m, r) && InLowerCase(m', r')
    ensures r == r' <==> SameUpToCase(m, m')
  {
    if r == r' {
      forall i | 0 <= i < |m|
        ensures SameLetter(m[i], m'[i])
      {
        SameFormOfLetters(m[i], r[i], m'[i], r'[i]);
      }
    }
    if SameUpToCase(m, m') {
      forall i | 0 <= i < |m|
        ensures r[i] == r'[i]
      {
        SameFormOfLetters(m[i], r[i], m'[i], r'[i]);
      }
    }
  }

  lemma SameFormOfLetters(c: char, l: char, d: char, k: char)
    requires if 65 <= c as int <= 90 then l as int == c as int + 32 else l == c
    requires if 65 <= d as int <= 90 then k as int == d as int + 32 else k == d
    ensures l == k <==> SameLetter(c, d)
  {
  }

  // ---------------------------------------------------------------- any lower-casing

  /** What lower-casing one character at a time must satisfy, as Unicode's mapping does. */
  ghost predicate Lowers(lower: char -> char) {
    forall c :: lower(lower(c)) == lower(c) && (IsSpace(lower(c)) <==> IsSpace(c))
  }

  function NormalizeWith(lower: char -> char, email: string): (r: string)
    ensures |r| == |TrimRight(TrimLeft(email))|
    ensures forall i :: 0 <= i < |r| ==> r[i] == lower(TrimRight(TrimLeft(email))[i])
  {
    var t := TrimRight(TrimLeft(email));
    seq(|t|, i requires 0 <= i < |t| => lower(t[i]))
  }

  predicate Trimmed(s: string) {
    s != [] ==> !IsSpace(s[0]) && !IsSpace(s[|s| - 1])
  }

  lemma TrimmedIffUntouched(s: string)
    ensures Trimmed(TrimRight(TrimLeft(s)))
    ensures Trimmed(s) <==> TrimRight(TrimLeft(s)) == s
  {
    var l := TrimLeft(s);
    var t := TrimRight(l);
    if t != [] {
      assert t[0] == l[0];
    }
    if Trimmed(s) {
      assert TrimLeft(s) == s;
      assert TrimRight(s) == s;
    }
  }

  /** Whatever the lower-casing, normalising twice is normalising once, and the fixed points are the
      trimmed texts of lower-case characters. */
  lemma NormalizeWithFixedPoints(lower: char -> char, s: string)
    requires Lowers(lower)
    ensures NormalizeWith(lower, NormalizeWith(lower, s)) == NormalizeWith(lower, s)
    ensures NormalizeWith(lower, s) == s <==> Trimmed(s) && forall i :: 0 <= i < |s| ==> lower(s[i]) == s[i]
  {
    var r := NormalizeWith(lower, s);
    TrimmedIffUntouched(s);
    assert Trimmed(r);
    TrimmedIffUntouched(r);
  }

  /** Whatever the lower-casing, two addresses are one exactly when it makes their middles equal. */
  lemma SameAddressWithIff(lower: char -> char, s: string, a: string, m: string, b: string,
                           s': string, a': string, m': string, b': string)
    requires Parts(s, a, m, b) && Parts(s', a', m', b')
    ensures NormalizeWith(lower, s) == NormalizeWith(lower, s')
            <==> |m| == |m'| && forall i :: 0 <= i < |m| ==> lower(m[i]) == lower(m'[i])
  {
    MiddleIsTrimmed(s, a, m, b);
    MiddleIsTrimmed(s', a', m', b');
    var r, r' := NormalizeWith(lower, s), NormalizeWith(lower, s');
    assert forall i :: 0 <= i < |r| ==> r[i] == lower(m[i]);
    assert forall i :: 0 <= i < |r'| ==> r'[i] == lower(m'[i]);
  }

  /** The ASCII lower-casing of the model is one of them. */
  lemma NormalizeEmailIsAnInstance(s: string)
    ensures Lowers(c => LowerChar(c)) && NormalizeEmail(s) == NormalizeWith(c => LowerChar(c), s)
  {
  }
}
