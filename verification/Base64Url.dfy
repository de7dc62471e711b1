/** base64url without padding: section 5 of RFC 4648, as Go's base64.RawURLEncoding has it. The codec
    is written, and its round trips proved, for any alphabet of 64 letters and any way to regroup three
    bytes as four sextets and back. */
module Base64Url {
  import opened Octets
  import opened Wrappers

  type Sextet = i: nat | i < 64

  datatype Triple = Triple(b0: Byte, b1: Byte, b2: Byte)
  datatype Quad = Quad(i0: Sextet, i1: Sextet, i2: Sextet, i3: Sextet)

  datatype Alphabet = Alphabet(
    letter: Sextet -> char,
    value: char -> Option<Sextet>,
    split: Triple -> Quad,
    join: Quad -> Triple)

  /** Letters and values correspond, neither the dot nor a line break is a letter, and regrouping is
      one to one and leaves the sextets behind the last byte empty. */
  ghost predicate Proper(al: Alphabet) {
    && (forall i: Sextet :: al.value(al.letter(i)) == Some(i))
    && (forall c: char :: al.value(c).Some? ==> al.letter(al.value(c).value) == c)
    && al.value('.').None? && al.value('\n').None? && al.value('\r').None?
    && (forall t: Triple :: al.join(al.split(t)) == t)
    && (forall q: Quad :: al.split(al.join(q)) == q)
    && (forall b0: Byte :: al.split(Triple(b0, 0, 0)).i2 == 0)
    && (forall b0: Byte, b1: Byte :: al.split(Triple(b0, b1, 0)).i3 == 0)
  }

  // ---------------------------------------------------------------- groups

  /** Three bytes as four sextets; a last group of one or two bytes is filled up with zeros, and the
      sextets that carry none of its bits are left out. */
  function Sextets(al: Alphabet, bs: seq<Byte>): seq<Sextet>
    decreases |bs|
  {
    if |bs| == 0 then []
    else if |bs| == 1 then
      var q := al.split(Triple(bs[0], 0, 0)); [q.i0, q.i1]
    else if |bs| == 2 then
      var q := al.split(Triple(bs[0], bs[1], 0)); [q.i0, q.i1, q.i2]
    else
      var q := al.split(Triple(bs[0], bs[1], bs[2])); [q.i0, q.i1, q.i2, q.i3] + Sextets(al, bs[3..])
  }

  /** Not strict: bits left over in the last sextet are dropped, not checked. */
  function Bytes(al: Alphabet, xs: seq<Sextet>): Option<seq<Byte>>
    decreases |xs|
  {
    if |xs| == 0 then Some([])
    else if |xs| == 1 then None
    else if |xs| == 2 then
      Some([al.join(Quad(xs[0], xs[1], 0, 0)).b0])
    else if |xs| == 3 then
      var t := al.join(Quad(xs[0], xs[1], xs[2], 0)); Some([t.b0, t.b1])
    else match Bytes(al, xs[4..])
      case None => None
      case Some(rest) =>
        var t := al.join(Quad(xs[0], xs[1], xs[2], xs[3])); Some([t.b0, t.b1, t.b2] + rest)
  }

  /** No lone sextet at the end, and no bit of the last one beyond the last byte. */
  predicate NothingLeftOver(al: Alphabet, xs: seq<Sextet>)
    decreases |xs|
  {
    if |xs| == 0 then true
    else if |xs| == 1 then false
    else if |xs| == 2 then
      var t := al.join(Quad(xs[0], xs[1], 0, 0)); t.b1 == 0 && t.b2 == 0
    else if |xs| == 3 then al.join(Quad(xs[0], xs[1], xs[2], 0)).b2 == 0
    else NothingLeftOver(al, xs[4..])
  }

  lemma {:induction false} BytesOfSextets(al: Alphabet, bs: seq<Byte>)
    requires Proper(al)
    ensures Bytes(al, Sextets(al, bs)) == Some(bs) && NothingLeftOver(al, Sextets(al, bs))
    decreases |bs|
  {
    var xs := Sextets(al, bs);
    if |bs| == 1 {
      assert al.join(Quad(xs[0], xs[1], 0, 0)) == Triple(bs[0], 0, 0);
      assert bs == [bs[0]];
    } else if |bs| == 2 {
      assert al.join(Quad(xs[0], xs[1], xs[2], 0)) == Triple(bs[0], bs[1], 0);
      assert bs == [bs[0], bs[1]];
    } else if |bs| >= 3 {
      BytesOfSextets(al, bs[3..]);
      assert xs[4..] == Sextets(al, bs[3..]);
      assert bs == [bs[0], bs[1], bs[2]] + bs[3..];
    }
  }

  lemma {:induction false} SextetsOfBytes(al: Alphabet, xs: seq<Sextet>)
    requires Proper(al) && NothingLeftOver(al, xs)
    ensures Bytes(al, xs).Some? && Sextets(al, Bytes(al, xs).value) == xs
    decreases |xs|
  {
    if |xs| == 2 {
      var t := al.join(Quad(xs[0], xs[1], 0, 0));
      assert al.split(Triple(t.b0, 0, 0)) == Quad(xs[0], xs[1], 0, 0);
    } else if |xs| == 3 {
      var t := al.join(Quad(xs[0], xs[1], xs[2], 0));
      assert al.split(Triple(t.b0, t.b1, 0)) == Quad(xs[0], xs[1], xs[2], 0);
    } else if |xs| >= 4 {
      SextetsOfBytes(al, xs[4..]);
      assert Bytes(al, xs).value[3..] == Bytes(al, xs[4..]).value;
    }
  }

  // ---------------------------------------------------------------- letters

  function Letters(al: Alphabet, xs: seq<Sextet>): (s: string)
    ensures |s| == |xs|
    ensures forall k :: 0 <= k < |xs| ==> s[k] == al.letter(xs[k])
  {
    seq(|xs|, k requires 0 <= k < |xs| => al.letter(xs[k]))
  }

  predicate AllLetters(al: Alphabet, s: string) {
    forall k :: 0 <= k < |s| ==> al.value(s[k]).Some?
  }

  function Values(al: Alphabet, s: string): (xs: seq<Sextet>)
    requires AllLetters(al, s)
    ensures |xs| == |s|
    ensures forall k :: 0 <= k < |s| ==> Some(xs[k]) == al.value(s[k])
  {
    seq(|s|, k requires 0 <= k < |s| => al.value(s[k]).value)
  }

  lemma LettersAndValues(al: Alphabet, xs: seq<Sextet>, s: string)
    requires Proper(al)
    ensures AllLetters(al, Letters(al, xs)) && Values(al, Letters(al, xs)) == xs
    ensures AllLetters(al, s) ==> Letters(al, Values(al, s)) == s
  {
  }

  // ---------------------------------------------------------------- the codec

  function EncodeWith(al: Alphabet, bs: seq<Byte>): string {
    Letters(al, Sextets(al, bs))
  }

  predicate IsLineBreak(c: char) {
    c == '\n' || c == '\r'
  }

  /** Go's decoder passes over line breaks wherever they stand. */
  function WithoutLineBreaks(s: string): string {
    if s == "" then ""
    else (if IsLineBreak(s[0]) then "" else [s[0]]) + WithoutLineBreaks(s[1..])
  }

  function DecodeWith(al: Alphabet, s: string): Option<seq<Byte>> {
    var t := WithoutLineBreaks(s);
    if AllLetters(al, t) then Bytes(al, Values(al, t)) else None
  }

  lemma {:induction false} NoLineBreaksToDrop(s: string)
    requires forall k :: 0 <= k < |s| ==> !IsLineBreak(s[k])
    ensures WithoutLineBreaks(s) == s
    decreases |s|
  {
    if s != "" {
      NoLineBreaksToDrop(s[1..]);
      assert s == [s[0]] + s[1..];
    }
  }

  lemma LettersAreClean(al: Alphabet, s: string)
    requires Proper(al) && AllLetters(al, s)
    ensures WithoutLineBreaks(s) == s && '.' !in s
  {
    NoLineBreaksToDrop(s);
  }

  lemma DecodeEncodeWith(al: Alphabet, bs: seq<Byte>)
    requires Proper(al)
    ensures DecodeWith(al, EncodeWith(al, bs)) == Some(bs) && '.' !in EncodeWith(al, bs)
  {
    LettersAndValues(al, Sextets(al, bs), "");
    LettersAreClean(al, EncodeWith(al, bs));
    BytesOfSextets(al, bs);
  }

  predicate CanonicalWith(al: Alphabet, s: string) {
    AllLetters(al, s) && NothingLeftOver(al, Values(al, s))
  }

  lemma EncodeDecodeWith(al: Alphabet, s: string)
    requires Proper(al) && DecodeWith(al, s).Some?
    ensures EncodeWith(al, DecodeWith(al, s).value) == s <==> CanonicalWith(al, s)
  {
    var bs := DecodeWith(al, s).value;
    LettersAndValues(al, Sextets(al, bs), s);
    BytesOfSextets(al, bs);
    if CanonicalWith(al, s) {
      LettersAreClean(al, s);
      SextetsOfBytes(al, Values(al, s));
    }
  }

  // ---------------------------------------------------------------- the URL alphabet

  function UrlLetter(i: Sextet): char {
    if i < 26 then ('A' as int + i) as char
    else if i < 52 then ('a' as int + i - 26) as char
    else if i < 62 then ('0' as int + i - 52) as char
    else if i == 62 then '-' else '_'
  }

  function UrlValue(c: char): Option<Sextet> {
    if 'A' <= c <= 'Z' then Some(c as int - 'A' as int)
    else if 'a' <= c <= 'z' then Some(c as int - 'a' as int + 26)
    else if '0' <= c <= '9' then Some(c as int - '0' as int + 52)
    else if c == '-' then Some(62)
    else if c == '_' then Some(63)
    else None
  }

  /** The bits of three bytes, in order, six by six. */
  function SplitBits(t: Triple): Quad {
    Quad(t.b0 / 4, t.b0 % 4 * 16 + t.b1 / 16, t.b1 % 16 * 4 + t.b2 / 64, t.b2 % 64)
  }

  function JoinBits(q: Quad): Triple {
    Triple(q.i0 * 4 + q.i1 / 16, q.i1 % 16 * 16 + q.i2 / 4, q.i2 % 4 * 64 + q.i3)
  }

  lemma HighAndLow(a: int, r: int)
    ensures 0 <= r < 4 ==> (a * 4 + r) / 4 == a && (a * 4 + r) % 4 == r
    ensures 0 <= r < 16 ==> (a * 16 + r) / 16 == a && (a * 16 + r) % 16 == r
    ensures 0 <= r < 64 ==> (a * 64 + r) / 64 == a && (a * 64 + r) % 64 == r
  {
  }

  lemma JoinSplitBits(t: Triple)
    ensures JoinBits(SplitBits(t)) == t
  {
    HighAndLow(t.b0 % 4, t.b1 / 16);
    HighAndLow(t.b1 % 16, t.b2 / 64);
  }

  lemma SplitJoinBits(q: Quad)
    ensures SplitBits(JoinBits(q)) == q
  {
    HighAndLow(q.i0, q.i1 / 16);
    HighAndLow(q.i1 % 16, q.i2 / 4);
    HighAndLow(q.i2 % 4, q.i3);
  }

  const URL := Alphabet((i: Sextet) => UrlLetter(i), c => UrlValue(c), t => SplitBits(t), q => JoinBits(q))

  lemma UrlIsProper()
    ensures Proper(URL)
  {
    forall i: Sextet
      ensures URL.value(URL.letter(i)) == Some(i)
    {
      assert UrlValue(UrlLetter(i)) == Some(i);
    }
    forall c: char | URL.value(c).Some?
      ensures URL.letter(URL.value(c).value) == c
    {
      assert UrlLetter(UrlValue(c).value) == c;
    }
    forall t: Triple
      ensures URL.join(URL.split(t)) == t
    {
      JoinSplitBits(t);
    }
    forall q: Quad
      ensures URL.split(URL.join(q)) == q
    {
      SplitJoinBits(q);
    }
  }

  function Encode(bs: seq<Byte>): string {
    EncodeWith(URL, bs)
  }

  function Decode(s: string): Option<seq<Byte>> {
    DecodeWith(URL, s)
  }

  /** Decoding undoes encoding for every byte string, and no encoding contains a dot. */
  lemma DecodeEncode(bs: seq<Byte>)
    ensures Decode(Encode(bs)) == Some(bs) && '.' !in Encode(bs)
  {
    UrlIsProper();
    DecodeEncodeWith(URL, bs);
  }

  /** A text is the encoding of what it decodes to exactly when it is canonical; every other text the
      decoder takes, with line breaks or leftover bits, is a second spelling of some byte string. */
  lemma EncodeDecodeIffCanonical(s: string)
    requires Decode(s).Some?
    ensures Encode(Decode(s).value) == s <==> CanonicalWith(URL, s)
  {
    UrlIsProper();
    EncodeDecodeWith(URL, s);
  }
}
