/** UTF-8 as Go's unicode/utf8 reads and writes it: a byte that starts no well-formed sequence is read
    on its own, as the replacement character. */
module Utf8 {
  import opened Octets
  import opened Wrappers

  const REPLACEMENT: char := '\U{FFFD}'

  function Continuation(n: nat): Byte {
    0x80 + n % 0x40
  }

  function EncodeChar(c: char): (bs: seq<Byte>)
    ensures 1 <= |bs| <= 4
  {
    var n0 := c as int;
    var n1 := n0 / 0x40;
    var n2 := n1 / 0x40;
    var n3 := n2 / 0x40;
    if n0 < 0x80 then [n0]
    else if n0 < 0x800 then [0xC0 + n1, Continuation(n0)]
    else if n0 < 0x10000 then [0xE0 + n2, Continuation(n1), Continuation(n0)]
    else [0xF0 + n3, Continuation(n2), Continuation(n1), Continuation(n0)]
  }

  function Encode(s: string): seq<Byte> {
    if s == "" then [] else EncodeChar(s[0]) + Encode(s[1..])
  }

  predicate Continues(b: Byte) {
    0x80 <= b < 0xC0
  }

  /** Six more bits at the right. */
  function Append(n: int, b: int): int {
    n * 0x40 + (b - 0x80)
  }

  // The second byte is held to the ranges that rule out overlong forms, surrogates and code points
  // past U+10FFFF.

  predicate Starts2(bs: seq<Byte>) {
    |bs| >= 2 && 0xC2 <= bs[0] < 0xE0 && Continues(bs[1])
  }

  predicate Starts3(bs: seq<Byte>) {
    && |bs| >= 3 && 0xE0 <= bs[0] < 0xF0 && Continues(bs[1]) && Continues(bs[2])
    && (bs[0] == 0xE0 ==> 0xA0 <= bs[1]) && (bs[0] == 0xED ==> bs[1] < 0xA0)
  }

  predicate Starts4(bs: seq<Byte>) {
    && |bs| >= 4 && 0xF0 <= bs[0] < 0xF5 && Continues(bs[1]) && Continues(bs[2]) && Continues(bs[3])
    && (bs[0] == 0xF0 ==> 0x90 <= bs[1]) && (bs[0] == 0xF4 ==> bs[1] < 0x90)
  }

  /** The character a well-formed sequence at the front spells, if there is one. */
  function Front(bs: seq<Byte>): Option<char>
    requires bs != []
  {
    if bs[0] < 0x80 then Some(bs[0] as char)
    else if Starts2(bs) then Some(Append(bs[0] as int - 0xC0, bs[1]) as char)
    else if Starts3(bs) then Some(Append(Append(bs[0] as int - 0xE0, bs[1]), bs[2]) as char)
    else if Starts4(bs) then Some(Append(Append(Append(bs[0] as int - 0xF0, bs[1]), bs[2]), bs[3]) as char)
    else None
  }

  lemma AppendSplits(n: nat, b: Byte)
    requires Continues(b)
    ensures Append(n, b) / 0x40 == n && Continuation(Append(n, b)) == b
  {
  }

  lemma SplitAppends(n: nat)
    ensures Continues(Continuation(n)) && Append(n / 0x40, Continuation(n)) == n
  {
  }

  lemma FrontOfEncoding(c: char, tail: seq<Byte>)
    ensures Front(EncodeChar(c) + tail) == Some(c)
  {
    var n, bs := c as int, EncodeChar(c) + tail;
    SplitAppends(n);
    if n < 0x80 {
    } else if n < 0x800 {
      assert bs[..2] == EncodeChar(c);
      assert Starts2(bs);
    } else if n < 0x10000 {
      assert bs[..3] == EncodeChar(c);
      SplitAppends(n / 0x40);
      assert Starts3(bs);
    } else {
      assert bs[..4] == EncodeChar(c);
      SplitAppends(n / 0x40);
      SplitAppends(n / 0x40 / 0x40);
      assert Starts4(bs);
    }
  }

  lemma EncodingOfFront(bs: seq<Byte>)
    requires bs != [] && Front(bs).Some?
    ensures EncodeChar(Front(bs).value) <= bs
  {
    if bs[0] < 0x80 {
    } else if Starts2(bs) {
      AppendSplits(bs[0] as int - 0xC0, bs[1]);
      assert EncodeChar(Front(bs).value) == bs[..2];
    } else if Starts3(bs) {
      var n := Append(bs[0] as int - 0xE0, bs[1]);
      AppendSplits(bs[0] as int - 0xE0, bs[1]);
      AppendSplits(n, bs[2]);
      assert EncodeChar(Front(bs).value) == bs[..3];
    } else {
      var n := Append(bs[0] as int - 0xF0, bs[1]);
      AppendSplits(bs[0] as int - 0xF0, bs[1]);
      AppendSplits(n, bs[2]);
      AppendSplits(Append(n, bs[2]), bs[3]);
      assert EncodeChar(Front(bs).value) == bs[..4];
    }
  }

  /** The characters of a byte string in order, None for each byte that belongs to none. */
  function Scan(bs: seq<Byte>): seq<Option<char>>
    decreases |bs|
  {
    if bs == [] then []
    else match Front(bs)
      case None => [None] + Scan(bs[1..])
      case Some(c) =>
        EncodingOfFront(bs);
        [Some(c)] + Scan(bs[|EncodeChar(c)|..])
  }

  predicate WellFormed(bs: seq<Byte>) {
    None !in Scan(bs)
  }

  function Shown(rune: Option<char>): char {
    if rune.Some? then rune.value else REPLACEMENT
  }

  function ShownAll(runes: seq<Option<char>>): (s: string)
    ensures |s| == |runes|
    ensures forall k :: 0 <= k < |runes| ==> s[k] == Shown(runes[k])
  {
    seq(|runes|, k requires 0 <= k < |runes| => Shown(runes[k]))
  }

  function Decode(bs: seq<Byte>): string {
    ShownAll(Scan(bs))
  }

  /** Decoding undoes encoding, and an encoding has no stray byte. */
  lemma {:induction false} DecodeEncode(s: string)
    ensures WellFormed(Encode(s)) && Decode(Encode(s)) == s
    decreases |s|
  {
    if s != "" {
      var c, rest := s[0], s[1..];
      DecodeEncode(rest);
      FrontOfEncoding(c, Encode(rest));
      DecodeFront(Encode(s), c);
      assert Encode(s)[|EncodeChar(c)|..] == Encode(rest);
      assert s == [c] + rest;
    }
  }

  /** Encoding undoes decoding exactly for well-formed bytes; every stray byte is lost. */
  lemma EncodeDecodeIffWellFormed(bs: seq<Byte>)
    ensures Encode(Decode(bs)) == bs <==> WellFormed(bs)
  {
    if WellFormed(bs) {
      EncodeDecode(bs);
    }
    DecodeEncode(Decode(bs));
  }

  lemma DecodeFront(bs: seq<Byte>, c: char)
    requires bs != [] && Front(bs) == Some(c)
    ensures var rest := bs[|EncodeChar(c)|..];
            && bs == EncodeChar(c) + rest
            && Scan(bs) == [Some(c)] + Scan(rest) && Decode(bs) == [c] + Decode(rest)
  {
    EncodingOfFront(bs);
  }

  lemma EncodeFront(c: char, s: string)
    ensures Encode([c] + s) == EncodeChar(c) + Encode(s)
  {
    assert ([c] + s)[1..] == s;
  }

  lemma {:induction false} EncodeDecode(bs: seq<Byte>)
    requires WellFormed(bs)
    ensures Encode(Decode(bs)) == bs
    decreases |bs|
  {
    if bs != [] {
      assert Scan(bs)[0] != None;
      var c := Front(bs).value;
      DecodeFront(bs, c);
      var rest := bs[|EncodeChar(c)|..];
      EncodeDecode(rest);
      EncodeFront(c, Decode(rest));
    }
  }

  // ---------------------------------------------------------------- the bytes of a character

  /** The number byte k contributes, less the mark it carries. */
  function Bits(bs: seq<Byte>, k: nat, mark: int): int
    requires k < |bs|
  {
    bs[k] as int - mark
  }

  /** The code point in the bytes the Unicode Standard gives it (Table 3-6): a lead byte that tells the
      length, then bytes from 128 to 191 of six bits each. */
  ghost predicate Spells(bs: seq<Byte>, c: char) {
    var n := c as int;
    && (forall k :: 1 <= k < |bs| ==> 128 <= bs[k] < 192)
    && if n < 128 then |bs| == 1 && bs[0] == n
       else if n < 2048 then |bs| == 2 && 192 <= bs[0] < 224 && n == Bits(bs, 0, 192) * 64 + Bits(bs, 1, 128)
       else if n < 65536 then
         && |bs| == 3 && 224 <= bs[0] < 240
         && n == Bits(bs, 0, 224) * 4096 + Bits(bs, 1, 128) * 64 + Bits(bs, 2, 128)
       else
         && |bs| == 4 && 240 <= bs[0] < 248
         && n == Bits(bs, 0, 240) * 262144 + Bits(bs, 1, 128) * 4096 + Bits(bs, 2, 128) * 64 + Bits(bs, 3, 128)
  }

  lemma EncodeCharSpells(c: char)
    ensures Spells(EncodeChar(c), c)
  {
    var n := c as int;
    SplitAppends(n);
    SplitAppends(n / 64);
    SplitAppends(n / 64 / 64);
  }
}
