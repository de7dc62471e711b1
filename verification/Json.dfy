/** JSON text as Go's encoding/json writes and reads it (RFC 8259): the escaping of json.Marshal, and
    the whole grammar json.Unmarshal accepts. A text handed to the reader is what UTF-8 decoding shows,
    so a stray byte is the replacement character, as the decoder of encoding/json has it. */
module Json {
  import opened Octets
  import opened Wrappers
  import Utf8

  datatype Value =
    | Null
    | Bool(truth: bool)
    | Number(literal: string)
    | Text(text: string)
    | Array(items: seq<Value>)
    | Object(members: seq<(string, Value)>)

  datatype Read<+T> = Read(value: T, rest: string) | Bad

  const MAX_DEPTH: nat := 10000

  // ---------------------------------------------------------------- hexadecimal digits

  type Nibble = i: nat | i < 16

  function HexDigit(i: Nibble): char {
    "0123456789abcdef"[i]
  }

  function HexValue(c: char): Option<Nibble> {
    if '0' <= c <= '9' then Some(c as int - '0' as int)
    else if 'a' <= c <= 'f' then Some(c as int - 'a' as int + 10)
    else if 'A' <= c <= 'F' then Some(c as int - 'A' as int + 10)
    else None
  }

  function Hex4(n: nat): (s: string)
    requires n < 0x10000
    ensures |s| == 4
  {
    HexDigits(n / 16 / 16 / 16, n / 16 / 16 % 16, n / 16 % 16, n % 16)
  }

  function HexDigits(a: Nibble, b: Nibble, c: Nibble, d: Nibble): (s: string)
    ensures |s| == 4
  {
    [HexDigit(a), HexDigit(b), HexDigit(c), HexDigit(d)]
  }

  /** The value of four hexadecimal digits at the front. */
  function ReadHex4(s: string): (n: Option<nat>)
    ensures n.Some? ==> |s| >= 4 && n.value < 0x10000
  {
    if |s| < 4 || HexValue(s[0]).None? || HexValue(s[1]).None? || HexValue(s[2]).None? || HexValue(s[3]).None? then None
    else Some(Nibbles(HexValue(s[0]).value, HexValue(s[1]).value, HexValue(s[2]).value, HexValue(s[3]).value))
  }

  function Nibbles(a: Nibble, b: Nibble, c: Nibble, d: Nibble): (n: nat)
    ensures n < 0x10000
  {
    ((a * 16 + b) * 16 + c) * 16 + d
  }

  lemma NibblesOf(n: nat)
    requires n < 0x10000
    ensures Nibbles(n / 16 / 16 / 16, n / 16 / 16 % 16, n / 16 % 16, n % 16) == n
  {
    var m := n / 16;
    assert n == m * 16 + n % 16 && m == m / 16 * 16 + m % 16;
  }

  lemma HexValueOfDigit(i: Nibble)
    ensures HexValue(HexDigit(i)) == Some(i)
  {
  }

  lemma ReadHex4OfHex4(n: nat, tail: string)
    requires n < 0x10000
    ensures ReadHex4(Hex4(n) + tail) == Some(n)
  {
    var s := Hex4(n) + tail;
    assert s[..4] == Hex4(n);
    HexValueOfDigit(n / 16 / 16 / 16);
    HexValueOfDigit(n / 16 / 16 % 16);
    HexValueOfDigit(n / 16 % 16);
    HexValueOfDigit(n % 16);
    NibblesOf(n);
  }

  // ---------------------------------------------------------------- writing strings

  /** The letter of a two-character escape. */
  function ShortEscape(c: char): Option<char> {
    if c == '"' || c == '\\' then Some(c)
    else if c == '\U{0008}' then Some('b')
    else if c == '\U{000C}' then Some('f')
    else if c == '\n' then Some('n')
    else if c == '\r' then Some('r')
    else if c == '\t' then Some('t')
    else None
  }

  /** Besides control characters, json.Marshal escapes what HTML or JavaScript would misread. */
  predicate NeedsUnicodeEscape(c: char) {
    c < ' ' || c == '<' || c == '>' || c == '&' || c == '\U{2028}' || c == '\U{2029}'
  }

  function Escape(rune: Option<char>): (s: string)
    ensures s != "" && s[0] != '"'
  {
    match rune
    case None => "\\u" + Hex4(Utf8.REPLACEMENT as int)
    case Some(c) =>
      if ShortEscape(c).Some? then ['\\', ShortEscape(c).value]
      else if NeedsUnicodeEscape(c) then "\\u" + Hex4(c as int)
      else [c]
  }

  function EscapeAll(runes: seq<Option<char>>): string {
    if runes == [] then "" else Escape(runes[0]) + EscapeAll(runes[1..])
  }

  function Quote(runes: seq<Option<char>>): string {
    "\"" + EscapeAll(runes) + "\""
  }

  /** Quotation mark and backslash follow a backslash; five control characters are a backslash and the
      letter b, t, n, f or r. */
  lemma ShortEscapes(c: char)
    ensures c as int in [34, 92] ==> Escape(Some(c)) == [92 as char, c]
    ensures Escape(Some(8 as char)) == [92 as char, 'b'] && Escape(Some(9 as char)) == [92 as char, 't']
    ensures Escape(Some(10 as char)) == [92 as char, 'n'] && Escape(Some(12 as char)) == [92 as char, 'f']
    ensures Escape(Some(13 as char)) == [92 as char, 'r']
  {
  }

  lemma LastNibble(n: nat, m: nat, d: Nibble)
    requires n == m * 16 + d
    ensures n / 16 == m && n % 16 == d
  {
  }

  lemma Hex4OfNibbles(n: nat, a: Nibble, b: Nibble, c: Nibble, d: Nibble)
    requires n < 0x10000 && n / 16 == (a * 16 + b) * 16 + c && n % 16 == d
    ensures Hex4(n) == HexDigits(a, b, c, d)
  {
    var n1 := n / 16;
    LastNibble(n1, a * 16 + b, c);
    var n2 := n1 / 16;
    LastNibble(n2, a, b);
  }

  lemma NumberedEscape(rune: Option<char>, n: nat)
    requires if rune.None? then n == 65533 else n == rune.value as int
    requires rune.Some? ==> n < 32 || n == 38 || n == 60 || n == 62 || n == 8232 || n == 8233
    requires rune.Some? && n < 32 ==> n !in [8, 9, 10, 12, 13]
    ensures n < 0x10000 && Escape(rune) == [92 as char, 'u'] + Hex4(n)
  {
  }

  /** By number, in lower-case hexadecimal: stray bytes, the other control characters, and what HTML or
      JavaScript would misread, which is & < > and U+2028 and U+2029. */
  lemma NumberedEscapes(rune: Option<char>, n: nat, a: Nibble, b: Nibble, c: Nibble, d: Nibble)
    requires if rune.None? then n == 65533 else n == rune.value as int
    requires rune.Some? ==> n < 32 || n == 38 || n == 60 || n == 62 || n == 8232 || n == 8233
    requires rune.Some? && n < 32 ==> n !in [8, 9, 10, 12, 13]
    requires n == ((a * 16 + b) * 16 + c) * 16 + d
    ensures var digits := "0123456789abcdef";
            Escape(rune) == [92 as char, 'u', digits[a], digits[b], digits[c], digits[d]]
  {
    NumberedEscape(rune, n);
    LastNibble(n, (a * 16 + b) * 16 + c, d);
    Hex4OfNibbles(n, a, b, c, d);
  }

  lemma OthersAreThemselves(c: char)
    requires c as int >= 32 && c as int !in [34, 38, 60, 62, 92, 8232, 8233]
    ensures Escape(Some(c)) == [c]
  {
  }

  // ---------------------------------------------------------------- reading strings

  function Unescape(c: char): Option<char> {
    if c == '"' || c == '\\' || c == '/' then Some(c)
    else if c == 'b' then Some('\U{0008}')
    else if c == 'f' then Some('\U{000C}')
    else if c == 'n' then Some('\n')
    else if c == 'r' then Some('\r')
    else if c == 't' then Some('\t')
    else None
  }

  predicate IsHighSurrogate(n: nat) {
    0xD800 <= n < 0xDC00
  }

  predicate IsLowSurrogate(n: nat) {
    0xDC00 <= n < 0xE000
  }

  predicate StartsUnicode(s: string) {
    |s| >= 2 && s[0] == '\\' && s[1] == 'u'
  }

  /** A unicode escape, or two that form a surrogate pair; a lone surrogate shows as the replacement. */
  function ReadUnicode(s: string): (r: Read<char>)
    requires StartsUnicode(s)
    ensures r.Read? ==> |r.rest| < |s|
  {
    match ReadHex4(s[2..])
    case None => Bad
    case Some(n) =>
      if !IsHighSurrogate(n) && !IsLowSurrogate(n) then Read(n as char, s[6..])
      else if IsHighSurrogate(n) && StartsUnicode(s[6..])
              && ReadHex4(s[8..]).Some? && IsLowSurrogate(ReadHex4(s[8..]).value)
      then Read((0x10000 + (n - 0xD800) * 0x400 + (ReadHex4(s[8..]).value - 0xDC00)) as char, s[12..])
      else Read(Utf8.REPLACEMENT, s[6..])
  }

  function ReadChar(s: string): (r: Read<char>)
    requires s != ""
    ensures r.Read? ==> |r.rest| < |s|
  {
    if s[0] < ' ' then Bad
    else if s[0] != '\\' then Read(s[0], s[1..])
    else if StartsUnicode(s) then ReadUnicode(s)
    else if |s| >= 2 && Unescape(s[1]).Some? then Read(Unescape(s[1]).value, s[2..])
    else Bad
  }

  /** A string literal, from behind its opening quote. */
  function ReadText(s: string): (r: Read<string>)
    ensures r.Read? ==> |r.rest| < |s|
    decreases |s|
  {
    if s == "" then Bad
    else if s[0] == '"' then Read("", s[1..])
    else match ReadChar(s)
      case Bad => Bad
      case Read(c, rest) =>
        match ReadText(rest)
        case Bad => Bad
        case Read(text, rest') => Read([c] + text, rest')
  }

  lemma ReadUnicodeEscape(n: nat, tail: string)
    requires n < 0x10000 && !IsHighSurrogate(n) && !IsLowSurrogate(n)
    ensures ReadChar("\\u" + Hex4(n) + tail) == Read(n as char, tail)
  {
    var s := "\\u" + Hex4(n) + tail;
    ReadHex4OfHex4(n, tail);
    assert s[2..] == Hex4(n) + tail;
    assert s[6..] == tail;
  }

  /** Whatever rune was escaped, it reads back as the character it shows, with nothing more taken. */
  lemma ReadCharOfEscape(rune: Option<char>, tail: string)
    ensures ReadChar(Escape(rune) + tail) == Read(Utf8.Shown(rune), tail)
  {
    var s := Escape(rune) + tail;
    if rune.None? {
      ReadUnicodeEscape(Utf8.REPLACEMENT as int, tail);
    } else if ShortEscape(rune.value).Some? {
      assert s[2..] == tail;
    } else if NeedsUnicodeEscape(rune.value) {
      ReadUnicodeEscape(rune.value as int, tail);
    } else {
      assert s[1..] == tail;
    }
  }

  lemma {:induction false} ReadTextOfEscaped(runes: seq<Option<char>>, tail: string)
    ensures ReadText(EscapeAll(runes) + "\"" + tail) == Read(Utf8.ShownAll(runes), tail)
    decreases |runes|
  {
    var s := EscapeAll(runes) + "\"" + tail;
    if runes == [] {
      assert s[1..] == tail;
    } else {
      var rest := EscapeAll(runes[1..]) + "\"" + tail;
      assert s == Escape(runes[0]) + rest;
      ReadCharOfEscape(runes[0], rest);
      ReadTextOfEscaped(runes[1..], tail);
      assert Utf8.ShownAll(runes) == [Utf8.Shown(runes[0])] + Utf8.ShownAll(runes[1..]);
    }
  }

  // ---------------------------------------------------------------- numbers

  predicate IsDigit(c: char) {
    '0' <= c <= '9'
  }

  predicate AllDigits(s: string) {
    forall k :: 0 <= k < |s| ==> IsDigit(s[k])
  }

  function DigitChar(d: nat): char
    requires d < 10
  {
    ('0' as int + d) as char
  }

  function PrintNat(n: nat): (s: string)
    ensures s != "" && AllDigits(s)
    ensures s[0] == '0' ==> s == "0" && n == 0
  {
    if n < 10 then [DigitChar(n)] else PrintNat(n / 10) + [DigitChar(n % 10)]
  }

  function PrintInt(n: int): string {
    if n < 0 then "-" + PrintNat(-n) else PrintNat(n)
  }

  function DigitValue(c: char): nat
    requires IsDigit(c)
  {
    c as int - '0' as int
  }

  function NatOf(s: string): nat
    requires AllDigits(s)
  {
    if s == "" then 0 else NatOf(s[..|s| - 1]) * 10 + DigitValue(s[|s| - 1])
  }

  /** strconv.ParseInt in base ten, for 64 bits: a sign, then digits only, and within range. */
  function IntOf(s: string): Option<int> {
    var digits := if s != "" && s[0] == '-' then s[1..] else s;
    if digits == "" || !AllDigits(digits) then None
    else
      var n: int := if digits == s then NatOf(digits) else -(NatOf(digits) as int);
      if InInt64(n) then Some(n) else None
  }

  lemma {:induction false} NatOfPrinted(n: nat)
    ensures NatOf(PrintNat(n)) == n
  {
    if n >= 10 {
      NatOfPrinted(n / 10);
      assert PrintNat(n)[..|PrintNat(n)| - 1] == PrintNat(n / 10);
    }
  }

  lemma IntOfPrinted(n: int)
    ensures IntOf(PrintInt(n)) == if InInt64(n) then Some(n) else None
  {
    NatOfPrinted(if n < 0 then -n else n);
    IntOfDigits(PrintNat(if n < 0 then -n else n));
  }

  lemma IntOfDigits(s: string)
    requires s != "" && AllDigits(s)
    ensures IntOf(s) == if InInt64(NatOf(s)) then Some(NatOf(s)) else None
    ensures IntOf("-" + s) == if InInt64(-(NatOf(s) as int)) then Some(-(NatOf(s) as int)) else None
  {
    assert s[0] != '-';
    assert ("-" + s)[0] == '-' && ("-" + s)[1..] == s;
  }

  /** The digit of a number that has e digits behind it. */
  function Digit(n: nat, e: nat): nat {
    if e == 0 then n % 10 else Digit(n / 10, e - 1)
  }

  lemma {:induction false} PrintedDigits(n: nat, k: nat)
    requires k < |PrintNat(n)|
    ensures PrintNat(n)[k] as int == 48 + Digit(n, |PrintNat(n)| - 1 - k)
  {
    if k < |PrintNat(n)| - 1 {
      PrintedDigits(n / 10, k);
    }
  }

  function SkipDigits(s: string): (r: string)
    ensures |r| <= |s|
  {
    if s != "" && IsDigit(s[0]) then SkipDigits(s[1..]) else s
  }

  /** What follows a run of digits, if there is at least one. */
  function SkipSomeDigits(s: string): (r: Option<string>)
    ensures r.Some? ==> |r.value| < |s|
  {
    if s != "" && IsDigit(s[0]) then Some(SkipDigits(s[1..])) else None
  }

  function SkipFraction(s: string): (r: Option<string>)
    ensures r.Some? ==> |r.value| <= |s|
  {
    if s != "" && s[0] == '.' then SkipSomeDigits(s[1..]) else Some(s)
  }

  function SkipExponent(s: string): (r: Option<string>)
    ensures r.Some? ==> |r.value| <= |s|
  {
    if s == "" || (s[0] != 'e' && s[0] != 'E') then Some(s)
    else if |s| >= 2 && (s[1] == '+' || s[1] == '-') then SkipSomeDigits(s[2..])
    else SkipSomeDigits(s[1..])
  }

  /** What follows a number literal: no leading zero, and digits on both sides of a point. */
  function SkipNumber(s: string): (r: Option<string>)
    ensures r.Some? ==> |r.value| < |s|
  {
    var u := if s != "" && s[0] == '-' then s[1..] else s;
    if u == "" || !IsDigit(u[0]) then None
    else
      match SkipFraction(if u[0] == '0' then u[1..] else SkipDigits(u[1..]))
      case None => None
      case Some(v) => SkipExponent(v)
  }

  /** Text after which a number cannot go on. */
  predicate EndsNumber(s: string) {
    s == "" || (!IsDigit(s[0]) && s[0] != '.' && s[0] != 'e' && s[0] != 'E')
  }

  lemma {:induction false} SkipDigitsOf(digits: string, tail: string)
    requires AllDigits(digits) && EndsNumber(tail)
    ensures SkipDigits(digits + tail) == tail
    decreases |digits|
  {
    if digits == "" {
      assert digits + tail == tail;
    } else {
      assert (digits + tail)[1..] == digits[1..] + tail;
      SkipDigitsOf(digits[1..], tail);
    }
  }

  lemma SkipPrintedNat(n: nat, tail: string)
    requires EndsNumber(tail)
    ensures var s := PrintNat(n) + tail;
            IsDigit(s[0]) && (if s[0] == '0' then s[1..] else SkipDigits(s[1..])) == tail
  {
    var digits := PrintNat(n);
    assert (digits + tail)[1..] == digits[1..] + tail;
    SkipDigitsOf(digits[1..], tail);
    if digits[0] == '0' {
      assert digits[1..] + tail == tail;
    }
  }

  lemma SkipPrinted(n: int, tail: string)
    requires EndsNumber(tail)
    ensures SkipNumber(PrintInt(n) + tail) == Some(tail)
  {
    SkipPrintedNat(if n < 0 then -n else n, tail);
    if n < 0 {
      assert (PrintInt(n) + tail)[1..] == PrintNat(-n) + tail;
    }
  }

  // ---------------------------------------------------------------- values

  predicate IsSpace(c: char) {
    c == ' ' || c == '\t' || c == '\n' || c == '\r'
  }

  function SkipSpace(s: string): (r: string)
    ensures |r| <= |s|
    ensures r == "" || !IsSpace(r[0])
  {
    if s != "" && IsSpace(s[0]) then SkipSpace(s[1..]) else s
  }

  /** One value, and how many arrays and objects it lies in. */
  function ReadValue(s: string, depth: nat): (r: Read<Value>)
    ensures r.Read? ==> |r.rest| < |s|
    decreases |s|, 1
  {
    var t := SkipSpace(s);
    if t == "" then Bad
    else if t[0] == '"' then
      match ReadText(t[1..]) { case Bad => Bad case Read(text, rest) => Read(Text(text), rest) }
    else if t[0] == '{' || t[0] == '[' then
      if depth == MAX_DEPTH then Bad
      else if t[0] == '{' then
        var u := SkipSpace(t[1..]);
        if u != "" && u[0] == '}' then Read(Object([]), u[1..])
        else match ReadMembers(u, depth + 1) { case Bad => Bad case Read(ms, rest) => Read(Object(ms), rest) }
      else
        var u := SkipSpace(t[1..]);
        if u != "" && u[0] == ']' then Read(Array([]), u[1..])
        else match ReadItems(u, depth + 1) { case Bad => Bad case Read(vs, rest) => Read(Array(vs), rest) }
    else if "true" <= t then Read(Bool(true), t[4..])
    else if "false" <= t then Read(Bool(false), t[5..])
    else if "null" <= t then Read(Null, t[4..])
    else match SkipNumber(t)
      case None => Bad
      case Some(rest) => Read(Number(t[..|t| - |rest|]), rest)
  }

  /** What follows a list entry: the closing mark, or a comma and more entries. */
  function AfterEntry(s: string, close: char): (r: Read<bool>)
    ensures r.Read? ==> |r.rest| < |s|
  {
    var t := SkipSpace(s);
    if t != "" && t[0] == close then Read(true, t[1..])
    else if t != "" && t[0] == ',' then Read(false, t[1..])
    else Bad
  }

  function ReadItems(s: string, depth: nat): (r: Read<seq<Value>>)
    ensures r.Read? ==> |r.rest| < |s|
    decreases |s|, 2
  {
    match ReadValue(s, depth)
    case Bad => Bad
    case Read(v, rest) =>
      match AfterEntry(rest, ']')
      case Bad => Bad
      case Read(done, rest') =>
        if done then Read([v], rest')
        else match ReadItems(rest', depth)
          case Bad => Bad
          case Read(vs, rest'') => Read([v] + vs, rest'')
  }

  /** A member name and the colon behind it. */
  function ReadName(s: string): (r: Read<string>)
    ensures r.Read? ==> |r.rest| < |s|
  {
    var t := SkipSpace(s);
    if t == "" || t[0] != '"' then Bad
    else match ReadText(t[1..])
      case Bad => Bad
      case Read(name, rest) =>
        var u := SkipSpace(rest);
        if u == "" || u[0] != ':' then Bad else Read(name, u[1..])
  }

  function ReadMembers(s: string, depth: nat): (r: Read<seq<(string, Value)>>)
    ensures r.Read? ==> |r.rest| < |s|
    decreases |s|, 2
  {
    match ReadName(s)
    case Bad => Bad
    case Read(name, rest) =>
      match ReadValue(rest, depth)
      case Bad => Bad
      case Read(v, rest') =>
        match AfterEntry(rest', '}')
        case Bad => Bad
        case Read(done, rest'') =>
          if done then Read([(name, v)], rest'')
          else match ReadMembers(rest'', depth)
            case Bad => Bad
            case Read(ms, rest''') => Read([(name, v)] + ms, rest''')
  }

  /** A whole document: one value with nothing but space around it. */
  function ReadDocument(s: string): Option<Value> {
    match ReadValue(s, 0)
    case Bad => None
    case Read(v, rest) => if SkipSpace(rest) == "" then Some(v) else None
  }

  // ---------------------------------------------------------------- what the writer wrote

  lemma ReadQuoted(runes: seq<Option<char>>, tail: string, depth: nat)
    ensures ReadValue(Quote(runes) + tail, depth) == Read(Text(Utf8.ShownAll(runes)), tail)
  {
    var s := Quote(runes) + tail;
    assert s[1..] == EscapeAll(runes) + "\"" + tail;
    ReadTextOfEscaped(runes, tail);
  }

  lemma ReadPrintedInt(n: int, tail: string, depth: nat)
    requires EndsNumber(tail)
    ensures ReadValue(PrintInt(n) + tail, depth) == Read(Number(PrintInt(n)), tail)
  {
    var s := PrintInt(n) + tail;
    assert s[0] == PrintInt(n)[0];
    SkipPrinted(n, tail);
    assert s[..|s| - |tail|] == PrintInt(n);
  }

  function Runes(s: string): (runes: seq<Option<char>>)
    ensures |runes| == |s|
    ensures forall k :: 0 <= k < |s| ==> runes[k] == Some(s[k])
  {
    seq(|s|, k requires 0 <= k < |s| => Some(s[k]))
  }

  function Name(name: string): string {
    Quote(Runes(name)) + ":"
  }

  lemma AfterQuote(text: string, between: string, tail: string)
    ensures ("\"" + text + "\"" + between + tail)[1..] == text + "\"" + (between + tail)
  {
  }

  lemma ReadPrintedName(name: string, tail: string)
    ensures ReadName(Name(name) + tail) == Read(name, tail)
  {
    var runes := Runes(name);
    AfterQuote(EscapeAll(runes), ":", tail);
    ReadTextOfEscaped(runes, ":" + tail);
    assert Utf8.ShownAll(runes) == name;
    assert (":" + tail)[1..] == tail;
  }

  /** A member in front of others. */
  lemma ReadMember(s: string, depth: nat, name: string, afterName: string, v: Value, rest: string)
    requires ReadName(s) == Read(name, afterName)
    requires ReadValue(afterName, depth) == Read(v, "," + rest)
    requires ReadMembers(rest, depth).Read?
    ensures var others := ReadMembers(rest, depth);
            ReadMembers(s, depth) == Read([(name, v)] + others.value, others.rest)
  {
    assert ("," + rest)[1..] == rest;
    assert AfterEntry("," + rest, '}') == Read(false, rest);
  }

  /** The last member. */
  lemma ReadLastMember(s: string, depth: nat, name: string, afterName: string, v: Value, rest: string)
    requires ReadName(s) == Read(name, afterName)
    requires ReadValue(afterName, depth) == Read(v, "}" + rest)
    ensures ReadMembers(s, depth) == Read([(name, v)], rest)
  {
    assert ("}" + rest)[1..] == rest;
    assert AfterEntry("}" + rest, '}') == Read(true, rest);
  }
}
