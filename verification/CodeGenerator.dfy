/** generateVerificationCode of internal/usecase/request_code.go. */
module CodeGenerator {
  import opened Wrappers
  import opened Domain
  import opened Protocol

  type Digit = d: nat | d < 10

  /** What the random source answers to the i-th request for a number below ten. */
  type Draws = nat -> Option<Digit>

  function DigitChar(d: Digit): char {
    "0123456789"[d]
  }

  /** The text of a row of digits. */
  function Spell(ds: seq<Digit>): (code: string)
    ensures |code| == |ds|
    ensures forall i :: 0 <= i < |ds| ==> code[i] == DigitChar(ds[i])
  {
    seq(|ds|, i requires 0 <= i < |ds| => DigitChar(ds[i]))
  }

  /** Every six-digit code is spelt by exactly one row of six digits, so equally likely rows make
      equally likely codes, leading zeros included. */
  lemma OneDrawPerCode(ds: seq<Digit>, ds': seq<Digit>, code: string)
    requires |ds| == VERIFICATION_CODE_LENGTH && |ds'| == VERIFICATION_CODE_LENGTH
    ensures IsSixDigits(Spell(ds))
    ensures Spell(ds) == Spell(ds') ==> ds == ds'
    ensures IsSixDigits(code) ==> exists es: seq<Digit> :: |es| == VERIFICATION_CODE_LENGTH && Spell(es) == code
  {
    if Spell(ds) == Spell(ds') {
      forall i | 0 <= i < |ds|
        ensures ds[i] == ds'[i]
      {
        assert DigitChar(ds[i]) == Spell(ds)[i] == Spell(ds')[i] == DigitChar(ds'[i]);
      }
    }
    if IsSixDigits(code) {
      var es: seq<Digit> := seq(|code|, i requires 0 <= i < |code| => code[i] as int - '0' as int);
      assert Spell(es) == code;
    }
  }

  /** The code six draws spell, unless one of them fails. */
  function Drawn(draws: Draws): Option<string> {
    if forall i: nat | i < VERIFICATION_CODE_LENGTH :: draws(i).Some?
    then
      Some(Spell(seq(VERIFICATION_CODE_LENGTH,
                     i requires 0 <= i < VERIFICATION_CODE_LENGTH && draws(i).Some? => draws(i).value)))
    else None
  }

  /** Six draws, or an error as soon as one fails. */
  method GenerateVerificationCode(draws: Draws) returns (code: Option<string>)
    ensures code.Some? <==> forall i: nat :: i < VERIFICATION_CODE_LENGTH ==> draws(i).Some?
    ensures code.Some? ==> IsSixDigits(code.value)
    ensures code == Drawn(draws)
    ensures code.Some? ==> forall i: nat :: i < 6 ==> code.value[i] as int == '0' as int + draws(i).value
  {
    var b := new char[VERIFICATION_CODE_LENGTH];
    for i := 0 to b.Length
      invariant forall j: nat :: j < i ==> draws(j).Some? && b[j] == DigitChar(draws(j).value)
    {
      var n := draws(i);
      if n.None? {
        return None;
      }
      b[i] := DigitChar(n.value);
    }
    code := Some(b[..]);
    assert b[..] == Drawn(draws).value;
  }
}
