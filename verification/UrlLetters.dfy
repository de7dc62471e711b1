/** Which letters a base64url text has: letter k names the six bits at position 6 * k of the bytes, read
    as one big-endian number and filled up with zero bytes to whole groups of three. */
module UrlLetters {
  import opened Octets
  import opened Base64Url

  /** Table 2 of RFC 4648, section 5. */
  const CAPITALS: string := "ABCDEFGHIJKLMNOPQRSTUVWXYZ"
  const SMALLS: string := "abcdefghijklmnopqrstuvwxyz"
  const DIGITS: string := "0123456789"
  const LETTERS: string := CAPITALS + SMALLS + DIGITS + "-_"

  /** The six bits of a number that have 6 * e bits behind them. */
  function SixBits(x: nat, e: nat): (v: nat)
    ensures v < 64
  {
    if e == 0 then x % 64 else SixBits(x / 64, e - 1)
  }

  /** Whole groups of three bytes. */
  function Padded(bs: seq<Byte>): (r: seq<Byte>)
    ensures |r| % 3 == 0 && bs <= r && |r| < |bs| + 3
    ensures forall i :: |bs| <= i < |r| ==> r[i] == 0
  {
    if |bs| % 3 == 1 then bs + [0, 0] else if |bs| % 3 == 2 then bs + [0] else bs
  }

  ghost predicate SpellsOutIn(table: string, bs: seq<Byte>, s: string) {
    var p := Padded(bs);
    && |table| == 64
    && |s| == (4 * |bs| + 2) / 3
    && forall k :: 0 <= k < |s| ==> s[k] == table[SixBits(Number(p), |p| / 3 * 4 - 1 - k)]
  }

  ghost predicate SpellsOut(bs: seq<Byte>, s: string) {
    SpellsOutIn(LETTERS, bs, s)
  }

  // ---------------------------------------------------------------- whole groups

  lemma FirstGroup(al: Alphabet, bs: seq<Byte>, rest: seq<Byte>)
    requires |bs| == 3
    ensures Sextets(al, bs + rest) == Sextets(al, bs) + Sextets(al, rest) && |Sextets(al, bs)| == 4
  {
    var all, q := bs + rest, al.split(Triple(bs[0], bs[1], bs[2]));
    assert all[3..] == rest && bs[3..] == [];
    assert Sextets(al, all) == [q.i0, q.i1, q.i2, q.i3] + Sextets(al, rest);
    assert Sextets(al, bs) == [q.i0, q.i1, q.i2, q.i3] + Sextets(al, []);
  }

  lemma {:induction false} GroupsAppend(al: Alphabet, bs: seq<Byte>, tail: seq<Byte>, groups: nat)
    requires |bs| == groups * 3
    ensures Sextets(al, bs + tail) == Sextets(al, bs) + Sextets(al, tail)
    ensures |Sextets(al, bs)| == groups * 4
    decreases groups
  {
    if groups == 0 {
      assert bs == [] && bs + tail == tail;
    } else {
      var first, rest := bs[..3], bs[3..];
      assert bs == first + rest && bs + tail == first + (rest + tail);
      GroupsAppend(al, rest, tail, groups - 1);
      FirstGroup(al, first, rest);
      FirstGroup(al, first, rest + tail);
      Regroup(Sextets(al, first), Sextets(al, rest), Sextets(al, tail));
    }
  }

  lemma Regroup(a: seq<Sextet>, b: seq<Sextet>, c: seq<Sextet>)
    ensures a + (b + c) == a + b + c
  {
  }

  /** Sextets as one number, the first the most significant. */
  function NumberOf(xs: seq<Sextet>): nat {
    if xs == [] then 0 else NumberOf(xs[..|xs| - 1]) * 64 + xs[|xs| - 1]
  }

  lemma {:induction false} SixBitsOfNumber(xs: seq<Sextet>, k: nat)
    requires k < |xs|
    ensures SixBits(NumberOf(xs), |xs| - 1 - k) == xs[k]
    decreases |xs|
  {
    var front, last := xs[..|xs| - 1], xs[|xs| - 1];
    assert NumberOf(xs) / 64 == NumberOf(front) && NumberOf(xs) % 64 == last;
    if k < |xs| - 1 {
      SixBitsOfNumber(front, k);
    }
  }

  lemma NumberAfterSextet(xs: seq<Sextet>, i: Sextet)
    ensures NumberOf(xs + [i]) == NumberOf(xs) * 64 + i
  {
    assert (xs + [i])[..|xs|] == xs;
  }

  lemma NumberAfterQuad(xs: seq<Sextet>, q: Quad)
    ensures NumberOf(xs + [q.i0, q.i1, q.i2, q.i3])
            == NumberOf(xs) * 0x100_0000 + q.i0 * 0x4_0000 + q.i1 * 0x1000 + q.i2 * 64 + q.i3
  {
    NumberAfterSextet(xs, q.i0);
    NumberAfterSextet(xs + [q.i0], q.i1);
    NumberAfterSextet(xs + [q.i0] + [q.i1], q.i2);
    NumberAfterSextet(xs + [q.i0] + [q.i1] + [q.i2], q.i3);
    assert xs + [q.i0] + [q.i1] + [q.i2] + [q.i3] == xs + [q.i0, q.i1, q.i2, q.i3];
  }

  lemma NumberAfterByte(bs: seq<Byte>, b: Byte)
    ensures Number(bs + [b]) == Number(bs) * 256 + b
  {
    assert (bs + [b])[..|bs|] == bs;
  }

  lemma NumberAfterTriple(bs: seq<Byte>, t: Triple)
    ensures Number(bs + [t.b0, t.b1, t.b2]) == Number(bs) * 0x100_0000 + t.b0 * 0x1_0000 + t.b1 * 0x100 + t.b2
  {
    NumberAfterByte(bs, t.b0);
    NumberAfterByte(bs + [t.b0], t.b1);
    NumberAfterByte(bs + [t.b0] + [t.b1], t.b2);
    assert bs + [t.b0] + [t.b1] + [t.b2] == bs + [t.b0, t.b1, t.b2];
  }

  lemma SplitKeepsValue(t: Triple)
    ensures var q := SplitBits(t);
            q.i0 * 0x4_0000 + q.i1 * 0x1000 + q.i2 * 64 + q.i3 == t.b0 * 0x1_0000 + t.b1 * 0x100 + t.b2
  {
  }

  /** Regrouping whole groups does not change the number. */
  lemma {:induction false} SextetsKeepNumber(bs: seq<Byte>)
    requires |bs| % 3 == 0
    ensures NumberOf(Sextets(URL, bs)) == Number(bs)
    decreases |bs|
  {
    if bs != [] {
      var n := |bs| - 3;
      var front, t := bs[..n], Triple(bs[n], bs[n + 1], bs[n + 2]);
      var q := SplitBits(t);
      SextetsKeepNumber(front);
      GroupsAppend(URL, front, [t.b0, t.b1, t.b2], n / 3);
      assert bs == front + [t.b0, t.b1, t.b2];
      assert Sextets(URL, [t.b0, t.b1, t.b2]) == [q.i0, q.i1, q.i2, q.i3];
      NumberAfterQuad(Sextets(URL, front), q);
      NumberAfterTriple(front, t);
      SplitKeepsValue(t);
    }
  }

  // ---------------------------------------------------------------- a last group of one or two bytes

  lemma SextetsOfTail(al: Alphabet, tail: seq<Byte>)
    requires |tail| < 3
    ensures Sextets(al, tail) <= Sextets(al, Padded(tail)) && |Sextets(al, tail)| == (4 * |tail| + 2) / 3
    ensures |Padded(tail)| == (if tail == [] then 0 else 3)
    ensures |Sextets(al, Padded(tail))| == if tail == [] then 0 else 4
  {
    if tail != [] {
      assert Sextets(al, Padded(tail)[3..]) == [];
    }
  }

  lemma SextetsOfGroupsAndTail(al: Alphabet, front: seq<Byte>, tail: seq<Byte>, groups: nat)
    requires |front| == groups * 3 && |tail| < 3
    ensures var xs, ys := Sextets(al, front + tail), Sextets(al, front + Padded(tail));
            && xs <= ys && |xs| == groups * 4 + (4 * |tail| + 2) / 3
            && |ys| == (if tail == [] then groups else groups + 1) * 4
  {
    SextetsOfTail(al, tail);
    GroupsAppend(al, front, tail, groups);
    GroupsAppend(al, front, Padded(tail), groups);
  }

  lemma GroupsAndTail(bs: seq<Byte>) returns (front: seq<Byte>, tail: seq<Byte>, groups: nat)
    ensures bs == front + tail && Padded(bs) == front + Padded(tail)
    ensures |front| == groups * 3 && |tail| < 3
    ensures |Padded(bs)| == (if tail == [] then groups else groups + 1) * 3
  {
    groups := |bs| / 3;
    front, tail := bs[..groups * 3], bs[groups * 3..];
  }

  /** What padding adds comes after the sextets of the bytes. */
  lemma SextetsOfPadded(al: Alphabet, bs: seq<Byte>)
    ensures Sextets(al, bs) <= Sextets(al, Padded(bs))
    ensures |Sextets(al, bs)| == (4 * |bs| + 2) / 3
    ensures |Sextets(al, Padded(bs))| == |Padded(bs)| / 3 * 4
  {
    var front, tail, groups := GroupsAndTail(bs);
    SextetsOfGroupsAndTail(al, front, tail, groups);
  }

  // ---------------------------------------------------------------- letters

  lemma CapitalOfTable(i: nat)
    requires i < 26
    ensures |CAPITALS| == 26 && CAPITALS[i] == ('A' as int + i) as char
  {
  }

  lemma SmallOfTable(i: nat)
    requires i < 26
    ensures |SMALLS| == 26 && SMALLS[i] == ('a' as int + i) as char
  {
  }

  lemma LetterOfTable(i: Sextet)
    ensures |LETTERS| == 64 && LETTERS[i] == UrlLetter(i)
  {
    if i < 26 {
      CapitalOfTable(i);
    } else if i < 52 {
      SmallOfTable(i - 26);
    }
  }

  ghost predicate Lists(table: string, al: Alphabet) {
    |table| == 64 && forall i: Sextet :: table[i] == al.letter(i)
  }

  lemma LetterAt(table: string, al: Alphabet, xs: seq<Sextet>, ys: seq<Sextet>, k: nat)
    requires Lists(table, al) && xs <= ys && k < |xs|
    ensures Letters(al, xs)[k] == table[SixBits(NumberOf(ys), |ys| - 1 - k)]
  {
    SixBitsOfNumber(ys, k);
  }

  lemma LettersAreSpelt(table: string, al: Alphabet, xs: seq<Sextet>, ys: seq<Sextet>)
    requires Lists(table, al) && xs <= ys
    ensures forall k :: 0 <= k < |xs| ==> Letters(al, xs)[k] == table[SixBits(NumberOf(ys), |ys| - 1 - k)]
  {
    forall k | 0 <= k < |xs|
      ensures Letters(al, xs)[k] == table[SixBits(NumberOf(ys), |ys| - 1 - k)]
    {
      LetterAt(table, al, xs, ys, k);
    }
  }

  lemma EncodeIsSpelt(table: string, al: Alphabet, bs: seq<Byte>)
    requires Lists(table, al) && NumberOf(Sextets(al, Padded(bs))) == Number(Padded(bs))
    ensures SpellsOutIn(table, bs, EncodeWith(al, bs))
  {
    SextetsOfPadded(al, bs);
    LettersAreSpelt(table, al, Sextets(al, bs), Sextets(al, Padded(bs)));
  }

  lemma OneSpelling(table: string, bs: seq<Byte>, s: string, t: string)
    requires SpellsOutIn(table, bs, s) && SpellsOutIn(table, bs, t)
    ensures s == t
  {
  }

  /** The encoding of a byte string is the text that spells it out, and no other text does. */
  lemma EncodeSpellsOut(bs: seq<Byte>, s: string)
    ensures SpellsOut(bs, s) <==> s == Encode(bs)
  {
    assert Lists(LETTERS, URL) by {
      LetterOfTable(0);
      forall i: Sextet
        ensures LETTERS[i] == URL.letter(i)
      {
        LetterOfTable(i);
      }
    }
    SextetsKeepNumber(Padded(bs));
    EncodeIsSpelt(LETTERS, URL, bs);
    if SpellsOut(bs, s) {
      OneSpelling(LETTERS, bs, s, Encode(bs));
    }
  }
}
