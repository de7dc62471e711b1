/** BuildJWKSet of internal/adapter/jwt/jwks.go: an RSA public key as a JSON Web Key (RFC 7517), its
    numbers in big-endian bytes and base64url (section 6.3.1 of RFC 7518). */
module Jwks {
  import opened Octets
  import opened Wrappers
  import Base64Url
  import UrlLetters

  datatype PublicKey = PublicKey(modulus: int, exponent: int)

  datatype Jwk = Jwk(kty: string, use: string, kid: string, alg: string, n: string, e: string)

  function Magnitude(x: int): nat {
    if x < 0 then -x else x
  }

  /** big.Int.Bytes of a magnitude: big-endian, and nothing for zero. */
  function BigEndian(x: nat): seq<Byte> {
    if x == 0 then [] else BigEndian(x / 256) + [x % 256]
  }

  function BuildJwkSet(key: PublicKey, kid: string): seq<Jwk> {
    [Jwk("RSA", "sig", kid, "RS256",
         Base64Url.Encode(BigEndian(Magnitude(key.modulus))),
         Base64Url.Encode(BigEndian(Magnitude(key.exponent))))]
  }

  /** What a client makes of a key: decode both fields and read the bytes as numbers. */
  function ReadJwk(k: Jwk): Option<PublicKey> {
    var n, e := Base64Url.Decode(k.n), Base64Url.Decode(k.e);
    if n.None? || e.None? then None else Some(PublicKey(Number(n.value), Number(e.value)))
  }

  lemma {:induction false} NumberOfBigEndian(x: nat)
    ensures Number(BigEndian(x)) == x
  {
    if x != 0 {
      NumberOfBigEndian(x / 256);
      assert BigEndian(x)[..|BigEndian(x)| - 1] == BigEndian(x / 256);
    }
  }

  lemma {:induction false} NoLeadingZero(x: nat)
    ensures BigEndian(x) != [] ==> BigEndian(x)[0] != 0
  {
    if x != 0 {
      NoLeadingZero(x / 256);
      if x / 256 != 0 {
        assert BigEndian(x / 256) != [];
      }
    }
  }

  /** A form without a leading zero octet is the one BigEndian gives. */
  lemma {:induction false} LeanIsBigEndian(bs: seq<Byte>)
    requires bs != [] ==> bs[0] != 0
    ensures BigEndian(Number(bs)) == bs
    decreases |bs|
  {
    if bs != [] {
      var front, last := bs[..|bs| - 1], bs[|bs| - 1];
      LeanIsBigEndian(front);
      assert bs == front + [last];
      assert Number(bs) / 256 == Number(front) && Number(bs) % 256 == last;
      assert Number(bs) != 0;
    }
  }

  /** Leading zeros add length and no value. */
  lemma {:induction false} NumberAfterZero(bs: seq<Byte>)
    requires bs != [] && bs[0] == 0
    ensures Number(bs) == Number(bs[1..])
    decreases |bs|
  {
    if |bs| > 1 {
      NumberAfterZero(bs[..|bs| - 1]);
      assert bs[..|bs| - 1][1..] == bs[1..][..|bs| - 2];
    }
  }

  /** BigEndian is the shortest byte string with its value, and the only one of its length. */
  lemma {:induction false} BigEndianIsMinimal(bs: seq<Byte>)
    ensures |BigEndian(Number(bs))| <= |bs|
    ensures |BigEndian(Number(bs))| == |bs| ==> BigEndian(Number(bs)) == bs
    decreases |bs|
  {
    if bs == [] || bs[0] != 0 {
      LeanIsBigEndian(bs);
    } else {
      NumberAfterZero(bs);
      BigEndianIsMinimal(bs[1..]);
    }
  }

  /** The published set holds one key, and decoding it gives back modulus and exponent exactly when
      neither is negative, as in every RSA key. */
  lemma RoundTripIff(key: PublicKey, kid: string)
    ensures var keys := BuildJwkSet(key, kid);
            && |keys| == 1 && keys[0].kid == kid
            && (ReadJwk(keys[0]) == Some(key) <==> key.modulus >= 0 && key.exponent >= 0)
  {
    Base64Url.DecodeEncode(BigEndian(Magnitude(key.modulus)));
    Base64Url.DecodeEncode(BigEndian(Magnitude(key.exponent)));
    NumberOfBigEndian(Magnitude(key.modulus));
    NumberOfBigEndian(Magnitude(key.exponent));
  }

  /** The fields of a key are the minimal octets of its numbers: no leading zero, none longer than any
      other byte string a client would read as the same number. */
  lemma FieldsAreMinimal(key: PublicKey, kid: string, bs: seq<Byte>)
    ensures var k := BuildJwkSet(key, kid)[0];
            var n, e := Base64Url.Decode(k.n), Base64Url.Decode(k.e);
            && n.Some? && e.Some?
            && (n.value != [] ==> n.value[0] != 0) && (e.value != [] ==> e.value[0] != 0)
            && (Number(bs) == Number(n.value) ==> |n.value| <= |bs|)
            && (Number(bs) == Number(e.value) ==> |e.value| <= |bs|)
  {
    var m, x := Magnitude(key.modulus), Magnitude(key.exponent);
    Base64Url.DecodeEncode(BigEndian(m));
    Base64Url.DecodeEncode(BigEndian(x));
    NumberOfBigEndian(m);
    NumberOfBigEndian(x);
    NoLeadingZero(m);
    NoLeadingZero(x);
    BigEndianIsMinimal(bs);
  }

  /** A number in big-endian octets without a leading zero, in the letters of base64url. */
  ghost predicate IsField(x: nat, field: string) {
    exists bs: seq<Byte> ::
      Number(bs) == x && (bs != [] ==> bs[0] != 0) && UrlLetters.SpellsOut(bs, field)
  }

  /** The published set, member by member. */
  lemma PublishedKey(key: PublicKey, kid: string)
    requires key.modulus >= 0 && key.exponent >= 0
    ensures var keys := BuildJwkSet(key, kid);
            && |keys| == 1
            && keys[0].kty == "RSA" && keys[0].use == "sig" && keys[0].alg == "RS256" && keys[0].kid == kid
            && IsField(key.modulus, keys[0].n) && IsField(key.exponent, keys[0].e)
  {
    FieldOf(key.modulus);
    FieldOf(key.exponent);
  }

  lemma FieldOf(x: nat)
    ensures IsField(x, Base64Url.Encode(BigEndian(x)))
  {
    NumberOfBigEndian(x);
    NoLeadingZero(x);
    UrlLetters.EncodeSpellsOut(BigEndian(x), Base64Url.Encode(BigEndian(x)));
  }
}
