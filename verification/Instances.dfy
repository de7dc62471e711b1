/** One configuration in which the limits the code sets itself are broken as soon as two requests
    overlap: what the exact conditions exclude does happen. */
module Instances {
  import opened Wrappers
  import opened Domain
  import opened Emails
  import opened Tables
  import opened Protocol
  import opened RotationExact
  import Issuing
  import B = CodeBudgetExact
  import U = SingleUse
  import R = RotationTight

  /** Hashing that keeps the text, passwords that are stored as they are, and an hour of refreshing. */
  const EXAMPLE := Config(
    digest := (text: string) => text,
    hashable := (password: string) => true,
    matches := (hash: string, password: string) => hash == password,
    openState := (state: string, now: Time) => None,
    exchange := (code: string) => GoogleIdentity("a", true, "a"),
    accessTtl := 300 * SECOND,
    refreshTtl := 3600 * SECOND)

  /** The code 000000, sent to the mailbox "a", and what is guessed. */
  function Mailbox(guess: string): B.Setting {
    B.Setting("a", "000000", guess, 0, map[])
  }

  function Draw(id: Id, value: string): Tick {
    Tick(0, true, id, value, 0)
  }

  const TWO := [Draw(2, "y"), Draw(3, "z")]

  lemma MailboxIsPossible(guess: string)
    ensures B.Possible(EXAMPLE, Mailbox(guess))
  {
    assert TrimLeft("a") == "a" && TrimRight("a") == "a";
    assert |NormalizeEmail("a")| == 1;
  }

  lemma DrawIsFresh(id: Id, value: string)
    requires |value| <= 64
    ensures Issuing.Fresh(EXAMPLE, EMPTY, Draw(id, value))
  {
  }

  lemma TwoAreFresh()
    ensures U.SuppliedAll(EXAMPLE, EMPTY, 0, TWO)
  {
    DrawIsFresh(2, "y");
    DrawIsFresh(3, "z");
    assert "y"[0] != "z"[0];
  }

  lemma ThreeAreFresh()
    ensures FreshAll(EXAMPLE, EMPTY, 0, [Draw(1, "x")] + TWO)
  {
    TwoAreFresh();
    DrawIsFresh(1, "x");
    assert [Draw(1, "x")] + TWO == [Draw(1, "x"), Draw(2, "y"), Draw(3, "z")];
    assert "x"[0] != "y"[0] && "x"[0] != "z"[0] && "y"[0] != "z"[0];
  }

  /** Two overlapping wrong guesses take a counter past five. */
  lemma LimitIsBroken()
    ensures !B.LimitKept(EXAMPLE, 2)
  {
    MailboxIsPossible("1");
    assert |"1"| != |"000000"|;
    B.LimitKeptIff(EXAMPLE, Mailbox("1"), 2);
  }

  /** Two overlapping right guesses are both paid for one code. */
  lemma CodeIsPaidTwice()
    ensures !U.PaidOnce(EXAMPLE, 2)
  {
    MailboxIsPossible("000000");
    TwoAreFresh();
    U.PaidOnceIff(EXAMPLE, Mailbox("000000"), TWO);
  }

  /** Two overlapping refreshes both replace one token. */
  lemma TokenIsReplacedTwice()
    ensures !R.ReplacedOnce(EXAMPLE, 2)
  {
    MailboxIsPossible("000000");
    DrawIsFresh(1, "x");
    ThreeAreFresh();
    R.ReplacedOnceIff(EXAMPLE, Mailbox("000000"), Draw(1, "x"), TWO);
  }
}
