/**
 * The body of the loop of print_last_operations for one operation: splitting
 * each side into label and identifier, masking it, and assembling the lines.
 */
module Formatting {
  import opened Wrappers
  import opened PyStr
  import opened Dates
  import opened Operations
  import opened Masking

  /** Python truthiness of an optional string: present and non-empty. */
  predicate Truthy(side: Option<string>) {
    side.Some? && side.value != ""
  }

  /**
   * s.split(), then, when there are more than two tokens, all but the last
   * joined by single spaces followed by the last.
   */
  function SideParts(s: string): (r: seq<string>)
    ensures |r| == Min(|Split(s)|, 2)
    ensures |r| == 2 ==> r[1] == Split(s)[|Split(s)| - 1]
  {
    var t := Split(s);
    if |t| > 2 then [Join(t[..|t| - 1], " "), t[|t| - 1]] else t
  }

  /** The two-space string "  " the code indexes instead when from_account is falsy. */
  const Placeholder: seq<string> := [" ", " "]

  /**
   * The display text of one side: label and masked card number when the side
   * string is longer than six characters, masked account number when it is
   * shorter, empty when the side is falsy. Indexing parts[0] or parts[1] of a
   * shorter list raises IndexError.
   */
  function SideText(side: Option<string>, parts: seq<string>): (r: Result<string, PyError>)
    ensures r.Err? <==> Truthy(side) && |parts| < 2
    ensures r.Err? ==> r.error == IndexError
    ensures !Truthy(side) ==> r == Ok("")
  {
    if Truthy(side) && |side.value| > 6 then
      if |parts| < 2 then Err(IndexError) else Ok(parts[0] + " " + MaskCardNumber(parts[1]))
    else if Truthy(side) then
      if |parts| < 2 then Err(IndexError) else Ok(MaskAccountNumber(parts[1]))
    else
      Ok("")
  }

  /** The optional second line: "from -> to", or "to" alone, or nothing. */
  function Route(fromText: string, toText: string): (r: Option<string>)
    ensures r.Some? <==> toText != ""
    ensures r.Some? ==> |toText| <= |r.value| && r.value[|r.value| - |toText|..] == toText
    ensures r.Some? && fromText != "" ==> |fromText| <= |r.value| && r.value[..|fromText|] == fromText
  {
    if fromText != "" && toText != "" then Some(fromText + " -> " + toText)
    else if toText != "" then Some(toText)
    else None
  }

  /** What is printed for one operation, before the print calls themselves. */
  datatype Block = Block(header: string, route: Option<string>, amountLine: string)

  /** The amount line: amount and currency name separated by a space. */
  function AmountLine(op: Operation): string
  {
    op.operationAmount.amount + " " + op.operationAmount.currency.name
  }

  /** The first line: the date as DD.MM.YYYY, a space and the description. */
  function Header(op: Operation): string
  {
    FormatDate(op.date) + " " + op.description
  }

  /**
   * The sides of one operation, down to the optional second line, or the
   * exception raised on the way.
   */
  function RouteOf(op: Operation): Result<Option<string>, PyError>
  {
    var fromTruthy := Truthy(op.fromAccount);
    if fromTruthy && op.toAccount.None? then Err(AttributeError)
    else
      var fr := if fromTruthy then SideParts(op.fromAccount.value) else Placeholder;
      var to := if fromTruthy then SideParts(op.toAccount.value) else Placeholder;
      match SideText(op.fromAccount, fr)
      case Err(e) => Err(e)
      case Ok(fromText) =>
        match SideText(op.toAccount, to)
        case Err(e) => Err(e)
        case Ok(toText) => Ok(Route(fromText, toText))
  }

  /** One iteration of the loop of print_last_operations, up to its print calls. */
  function FormatBlock(op: Operation): Result<Block, PyError>
  {
    match RouteOf(op)
    case Err(e) => Err(e)
    case Ok(route) => Ok(Block(Header(op), route, AmountLine(op)))
  }

  /** The arguments of the print calls for one block, in order. */
  function BlockPrints(b: Block): seq<string>
  {
    [b.header] + (if b.route.Some? then [b.route.value] else []) + [b.amountLine + "\n"]
  }

  // ---------------------------------------------------------------------------
  // An independent reading of a side string: its label is every token but the
  // last, joined by single spaces, and its identifier is the last token. These
  // say what a side means rather than how the code rearranges its token list;
  // SidePartsAreLabelAndIdentifier and SideTextIsDisplaySide prove that
  // SideParts and SideText agree with them.

  function Label(s: string): string
    requires |Split(s)| >= 1
  {
    var t := Split(s);
    Join(t[..|t| - 1], " ")
  }

  function Identifier(s: string): string
    requires |Split(s)| >= 1
  {
    var t := Split(s);
    t[|t| - 1]
  }

  /** How a present side with at least two tokens is displayed. */
  function DisplaySide(s: string): string
    requires |Split(s)| >= 2
  {
    if |s| > 6 then Label(s) + " " + MaskCardNumber(Identifier(s)) else MaskAccountNumber(Identifier(s))
  }

  /** When the code does not raise: the operation shapes it can display. */
  predicate WellFormed(op: Operation) {
    Truthy(op.fromAccount) ==>
      && op.toAccount.Some?
      && |Split(op.fromAccount.value)| >= 2
      && (Truthy(op.toAccount) ==> |Split(op.toAccount.value)| >= 2)
  }

  /**
   * The side split yields [label, identifier] as defined above whenever the side
   * has at least two tokens, and the label splits back into the leading tokens.
   */
  lemma SidePartsAreLabelAndIdentifier(s: string)
    ensures |SideParts(s)| >= 2 <==> |Split(s)| >= 2
    ensures |Split(s)| >= 2 ==>
      && SideParts(s) == [Label(s), Identifier(s)]
      && Split(Label(s)) == Split(s)[..|Split(s)| - 1]
  {
    var t := Split(s);
    if |t| >= 2 {
      SplitJoin(t[..|t| - 1]);
      if |t| == 2 {
        assert t[..1] == [t[0]];
      }
    }
  }

  /** A truthy side never displays as the empty string. */
  lemma SideTextNonEmpty(side: Option<string>, parts: seq<string>)
    requires Truthy(side) && SideText(side, parts).Ok?
    ensures SideText(side, parts).value != ""
  {
    var r := SideText(side, parts).value;
    if |side.value| > 6 {
      assert r[|parts[0]|] == ' ';
    } else {
      assert r[0] == '*';
    }
  }

  /** The code raises exactly on the operations that are not well formed. */
  lemma FormatBlockSucceeds(op: Operation)
    ensures FormatBlock(op).Ok? <==> WellFormed(op)
    ensures FormatBlock(op) == Err(AttributeError) <==> Truthy(op.fromAccount) && op.toAccount.None?
    ensures FormatBlock(op).Err? && FormatBlock(op) != Err(AttributeError) ==> FormatBlock(op) == Err(IndexError)
  {
    if Truthy(op.fromAccount) {
      SidePartsAreLabelAndIdentifier(op.fromAccount.value);
      if op.toAccount.Some? {
        SidePartsAreLabelAndIdentifier(op.toAccount.value);
      }
    }
  }

  /** A second line is printed exactly when to_account is truthy. */
  lemma RouteExactlyWhenToPresent(op: Operation)
    requires FormatBlock(op).Ok?
    ensures FormatBlock(op).value.route.Some? <==> Truthy(op.toAccount)
  {
    var fromTruthy := Truthy(op.fromAccount);
    var fr := if fromTruthy then SideParts(op.fromAccount.value) else Placeholder;
    var to := if fromTruthy then SideParts(op.toAccount.value) else Placeholder;
    if Truthy(op.toAccount) {
      SideTextNonEmpty(op.toAccount, to);
    }
  }

  /**
   * With both sides present, the second line is "from -> to", each side shown as
   * its label and masked card number or as its masked account number.
   */
  lemma RouteWithBothSides(op: Operation)
    requires Truthy(op.fromAccount) && Truthy(op.toAccount) && WellFormed(op)
    ensures FormatBlock(op).Ok?
    ensures FormatBlock(op).value.route
      == Some(DisplaySide(op.fromAccount.value) + " -> " + DisplaySide(op.toAccount.value))
  {
    SideTextIsDisplaySide(op.fromAccount.value);
    SideTextIsDisplaySide(op.toAccount.value);
  }

  /** A present side with at least two tokens is displayed as DisplaySide says, never as "". */
  lemma SideTextIsDisplaySide(s: string)
    requires |Split(s)| >= 2
    ensures SideText(Some(s), SideParts(s)) == Ok(DisplaySide(s))
    ensures DisplaySide(s) != ""
  {
    SidePartsAreLabelAndIdentifier(s);
    SideTextNonEmpty(Some(s), SideParts(s));
  }

  /**
   * With from_account present and to_account an empty string, nothing is
   * printed on the second line, though the from side was formatted.
   */
  lemma RouteDroppedWithoutTo(op: Operation)
    requires Truthy(op.fromAccount) && op.toAccount == Some("") && |Split(op.fromAccount.value)| >= 2
    ensures FormatBlock(op).Ok? && FormatBlock(op).value.route == None
  {
    FormatBlockSucceeds(op);
  }

  /**
   * With from_account absent or empty, the to side is derived from the
   * placeholder "  " and not from to_account: only the length of to_account
   * matters.
   */
  lemma RouteFromPlaceholder(op: Operation)
    requires !Truthy(op.fromAccount)
    ensures FormatBlock(op).Ok?
    ensures FormatBlock(op).value.route ==
      if !Truthy(op.toAccount) then None
      else if |op.toAccount.value| > 6 then Some("    ** ****  ")
      else Some("** ")
  {
    assert Placeholder[0] == " " && Placeholder[1] == " ";
    assert MaskCardNumber(" ") == "  ** ****  ";
    assert MaskAccountNumber(" ") == "** ";
    assert " " + " " + "  ** ****  " == "    ** ****  ";
  }

  /**
   * The first line is the date as DD.MM.YYYY, a space and the description: it
   * is read from the date and the description only, never from the sides.
   */
  lemma HeaderLine(op: Operation, fromAccount: Option<string>, toAccount: Option<string>)
    requires FormatBlock(op).Ok?
    requires FormatBlock(op.(fromAccount := fromAccount, toAccount := toAccount)).Ok?
    ensures var h := FormatBlock(op).value.header;
      && |h| == 11 + |op.description|
      && h[..10] == FormatDate(op.date)
      && ReadDayMonthYear(h[..10]) == (op.date.day, op.date.month, op.date.year)
      && h[10] == ' '
      && h[11..] == op.description
    ensures FormatBlock(op.(fromAccount := fromAccount, toAccount := toAccount)).value.header
      == FormatBlock(op).value.header
    ensures FormatBlock(op.(fromAccount := fromAccount, toAccount := toAccount)).value.amountLine
      == FormatBlock(op).value.amountLine
  {
    var h := Header(op);
    assert h[..10] == FormatDate(op.date);
    FormatDateRoundTrip(op.date);
  }

  // ---------------------------------------------------------------------------
  // The sides of the test data. The verifier unfolds recursive functions such as
  // Split and Join all at once when they are applied to string literals, so each
  // example receives its literals as parameters fixed by its requires clauses,
  // and each step (the words, their join, the masked text) is a small lemma.

  /**
   * A side longer than six characters that splits into a label and a card
   * number shows the label and the masked card number.
   */
  lemma CardSide(s: string, words: seq<string>, name: string, card: string, shown: string)
    requires |words| >= 2
    requires forall i | 0 <= i < |words| :: IsWord(words[i])
    requires s == Join(words, " ") && |s| > 6
    requires name == Join(words[..|words| - 1], " ") && card == words[|words| - 1]
    requires shown == name + " " + MaskCardNumber(card)
    ensures SideText(Some(s), SideParts(s)) == Ok(shown)
  {
    TwoPartSide(s, words, name, card);
  }

  lemma TwoPartSide(s: string, words: seq<string>, name: string, card: string)
    requires |words| >= 2
    requires forall i | 0 <= i < |words| :: IsWord(words[i])
    requires s == Join(words, " ")
    requires name == Join(words[..|words| - 1], " ") && card == words[|words| - 1]
    ensures SideParts(s) == [name, card]
  {
    SplitJoin(words);
    if |words| == 2 {
      assert words[..1] == [words[0]];
    }
  }

  lemma VisaPlatinumWords(words: seq<string>)
    requires words == ["Visa", "Platinum", "700079******6361"]
    ensures forall i | 0 <= i < |words| :: IsWord(words[i])
  {
    assert IsWord(words[0]);
    assert IsWord(words[1]);
    assert IsWord(words[2]);
  }

  lemma VisaPlatinumJoin(s: string, words: seq<string>)
    requires s == "Visa Platinum 700079******6361"
    requires words == ["Visa", "Platinum", "700079******6361"]
    ensures s == Join(words, " ")
  {
    assert Join(words[2..], " ") == words[2];
  }

  lemma VisaPlatinumName(name: string, words: seq<string>)
    requires name == "Visa Platinum"
    requires words == ["Visa", "Platinum", "700079******6361"]
    ensures name == Join(words[..2], " ")
  {
    assert words[..2][1..] == ["Platinum"];
  }

  lemma VisaPlatinumShown(shown: string, name: string, card: string)
    requires shown == "Visa Platinum 7000 79** **** 6361"
    requires name == "Visa Platinum" && card == "700079******6361"
    ensures shown == name + " " + MaskCardNumber(card)
  {
    VisaPlatinumCard();
  }

  lemma VisaPlatinumCard()
    ensures MaskCardNumber("700079******6361") == "7000 79** **** 6361"
  {
  }

  /** The side of the first operation of tests.py:14-18, as the code shows it. */
  lemma VisaPlatinumSide(s: string, shown: string)
    requires s == "Visa Platinum 700079******6361"
    requires shown == "Visa Platinum 7000 79** **** 6361"
    ensures SideText(Some(s), SideParts(s)) == Ok(shown)
  {
    var words := ["Visa", "Platinum", "700079******6361"];
    VisaPlatinumWords(words);
    VisaPlatinumJoin(s, words);
    VisaPlatinumName("Visa Platinum", words);
    VisaPlatinumShown(shown, "Visa Platinum", "700079******6361");
    CardSide(s, words, "Visa Platinum", "700079******6361", shown);
  }

  /** The side "Счет <id>" is the word "Счет" and the identifier joined by a space. */
  lemma AccountSideWords(s: string, words: seq<string>, id: string)
    requires IsWord(id)
    requires s == "Счет " + id
    requires words == ["Счет", id]
    ensures forall i | 0 <= i < |words| :: IsWord(words[i])
    ensures s == Join(words, " ")
    ensures Join(words[..1], " ") == words[0]
  {
    assert IsWord(words[0]);
    assert words[..1] == [words[0]];
    assert Join(words[1..], " ") == id;
  }

  lemma AccountSideShown(shown: string, id: string)
    requires id == "**9638"
    requires shown == "Счет **96 38** **** 9638"
    ensures shown == "Счет" + " " + MaskCardNumber(id)
  {
    AccountSideCard();
  }

  lemma AccountSideCard()
    ensures MaskCardNumber("**9638") == "**96 38** **** 9638"
  {
  }

  lemma MasterCardToSideShown(shown: string, id: string)
    requires id == "**1234"
    requires shown == "Счет **12 34** **** 1234"
    ensures shown == "Счет" + " " + MaskCardNumber(id)
  {
    MasterCardToSideCard();
  }

  lemma MasterCardToSideCard()
    ensures MaskCardNumber("**1234") == "**12 34** **** 1234"
  {
  }

  /**
   * "Счет **9638", the to side of tests.py:18, is eleven characters long, so the
   * code takes the card branch and shows "Счет **96 38** **** 9638", not the
   * "Счет **9638" tests.py:55 expects.
   */
  lemma AccountSideTakesCardBranch(s: string, shown: string)
    requires s == "Счет **9638"
    requires shown == "Счет **96 38** **** 9638"
    ensures SideText(Some(s), SideParts(s)) == Ok(shown)
  {
    var id, words := "**9638", ["Счет", "**9638"];
    assert IsWord(id);
    AccountSideWords(s, words, id);
    AccountSideShown(shown, id);
    CardSide(s, words, "Счет", id, shown);
  }

  /**
   * "Счет **1234", the to side of tests.py:27, takes the card branch as well and
   * shows "Счет **12 34** **** 1234", not the "Счет **1234" tests.py:52 expects.
   */
  lemma MasterCardToSideTakesCardBranch(s: string, shown: string)
    requires s == "Счет **1234"
    requires shown == "Счет **12 34** **** 1234"
    ensures SideText(Some(s), SideParts(s)) == Ok(shown)
  {
    var id, words := "**1234", ["Счет", "**1234"];
    assert IsWord(id);
    AccountSideWords(s, words, id);
    MasterCardToSideShown(shown, id);
    CardSide(s, words, "Счет", id, shown);
  }
}
