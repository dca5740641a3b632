/** mask_card_number and mask_account_number. */
module Masking {
  import opened PyStr

  /** f"{s[:4]} {s[4:6]}** **** {s[-4:]}" */
  function MaskCardNumber(cardNumber: string): (r: string)
    ensures |cardNumber| >= 6 ==>
      && |r| == 19
      && r[..4] == cardNumber[..4]
      && r[4] == ' '
      && r[5..7] == cardNumber[4..6]
      && r[7..15] == "** **** "
      && r[15..] == cardNumber[|cardNumber| - 4..]
  {
    Prefix(cardNumber, 4) + " " + Slice(cardNumber, 4, 6) + "** **** " + Suffix(cardNumber, 4)
  }

  /** f"**{s[-4:]}" */
  function MaskAccountNumber(accountNumber: string): (r: string)
    ensures |accountNumber| >= 4 ==> |r| == 6 && r[..2] == "**" && r[2..] == accountNumber[|accountNumber| - 4..]
    ensures |accountNumber| < 4 ==> r == "**" + accountNumber
  {
    "**" + Suffix(accountNumber, 4)
  }

  /**
   * The card mask shows the first six and the last four characters and nothing
   * else: two card numbers get the same mask exactly when those agree.
   */
  lemma MaskCardNumberHidesMiddle(s: string, t: string)
    requires |s| >= 6 && |t| >= 6
    ensures MaskCardNumber(s) == MaskCardNumber(t)
      <==> s[..6] == t[..6] && s[|s| - 4..] == t[|t| - 4..]
  {
    var ms, mt := MaskCardNumber(s), MaskCardNumber(t);
    if s[..6] == t[..6] && s[|s| - 4..] == t[|t| - 4..] {
      assert s[..4] == s[..6][..4] && t[..4] == t[..6][..4];
      assert s[4..6] == s[..6][4..] && t[4..6] == t[..6][4..];
    }
    if ms == mt {
      assert s[..6] == ms[..4] + ms[5..7];
      assert t[..6] == mt[..4] + mt[5..7];
    }
  }

  /** The account mask keeps the last four characters and nothing else. */
  lemma MaskAccountNumberHidesAllButLastFour(s: string, t: string)
    requires |s| >= 4 && |t| >= 4
    ensures MaskAccountNumber(s) == MaskAccountNumber(t) <==> s[|s| - 4..] == t[|t| - 4..]
  {
    var ms, mt := MaskAccountNumber(s), MaskAccountNumber(t);
    if ms == mt {
      assert ms[2..] == mt[2..];
    }
  }

  /** The examples of tests.py:40-46, one lemma each. */
  lemma MaskCardNumberExample1()
    ensures MaskCardNumber("1234567890123456") == "1234 56** **** 3456"
  {
  }

  lemma MaskCardNumberExample2()
    ensures MaskCardNumber("6543210987654321") == "6543 21** **** 4321"
  {
  }

  lemma MaskAccountNumberExample1()
    ensures MaskAccountNumber("1234567890") == "**7890"
  {
  }

  lemma MaskAccountNumberExample2()
    ensures MaskAccountNumber("9876543210") == "**3210"
  {
  }
}
