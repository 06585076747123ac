/** Amounts as the patterns of the classifier capture them from texts, and the numbers read from them. */
module AmountText {
  import opened Common
  import CursorText

  predicate IsDigit(c: char) {
    '0' <= c <= '9'
  }

  predicate AllDigits(text: string) {
    forall k :: 0 <= k < |text| ==> IsDigit(text[k])
  }

  /** Where the one or two decimals begin, with their point; the length of the text if there are none. */
  function PointAt(text: string): (k: nat)
    ensures k <= |text|
  {
    if |text| >= 3 && text[|text| - 3] == '.' then |text| - 3
    else if |text| >= 2 && text[|text| - 2] == '.' then |text| - 2
    else |text|
  }

  function Whole(text: string): string {
    text[..PointAt(text)]
  }

  function Decimals(text: string): string {
    if PointAt(text) == |text| then "" else text[PointAt(text) + 1..]
  }

  /** The pre-extraction's group: digits and commas in any order, then at most two decimals. */
  predicate Loose(text: string) {
    && Whole(text) != "" && AllDigits(Decimals(text))
    && forall k :: 0 <= k < |Whole(text)| ==> IsDigit(Whole(text)[k]) || Whole(text)[k] == ','
  }

  /** Up to six digits, then groups of a comma and three digits. */
  predicate Grouped(text: string) {
    || (1 <= |text| <= 6 && AllDigits(text))
    || (|text| > 4 && text[|text| - 4] == ',' && AllDigits(text[|text| - 3..]) && Grouped(text[..|text| - 4]))
  }

  /** The classifier's group: such a number, then at most two decimals. */
  predicate Strict(text: string) {
    Grouped(Whole(text)) && AllDigits(Decimals(text))
  }

  type LooseText = text: string | Loose(text) witness "0"
  type StrictText = text: string | Strict(text) witness "0"

  /** The number that the digits of a text stand for, when all else is dropped. */
  function Number(text: string): nat {
    if text == "" then 0
    else
      var front, last := text[..|text| - 1], text[|text| - 1];
      if IsDigit(last) then 10 * Number(front) + (last as int - '0' as int) else Number(front)
  }

  /** What is read from a captured text, in cents; commas alone are no number. */
  function Cents(text: string): Option<nat> {
    if forall k :: 0 <= k < |text| ==> !IsDigit(text[k]) then None
    else
      var decimals := Number(Decimals(text));
      Some(100 * Number(Whole(text)) + if |Decimals(text)| == 1 then 10 * decimals else decimals)
  }

  function Amount(text: Option<string>): Option<real> {
    if text.None? || Cents(text.value).None? then None else Some(InCents(Cents(text.value).value))
  }

  function InCents(cents: nat): real {
    cents as real / 100.0
  }

  // --- Which amounts can be captured ---

  function ThreeDigits(n: nat): (text: string)
    requires n < 1000
    ensures |text| == 3
  {
    [CursorText.Digit(n / 100)] + CursorText.TwoDigits(n % 100)
  }

  /** The number with a comma before every three digits. */
  function WithCommas(n: nat): (text: string) {
    if n < 1000 then ThreeDigits(n) else WithCommas(n / 1000) + "," + ThreeDigits(n % 1000)
  }

  function Written(cents: nat): string {
    WithCommas(cents / 100) + "." + CursorText.TwoDigits(cents % 100)
  }

  lemma NumberOneMore(front: string, n: nat)
    requires n < 10
    ensures Number(front + [CursorText.Digit(n)]) == 10 * Number(front) + n && IsDigit(CursorText.Digit(n))
  {
    assert (front + [CursorText.Digit(n)])[..|front|] == front;
  }

  lemma NumberTwoMore(front: string, n: nat)
    requires n < 100
    ensures Number(front + CursorText.TwoDigits(n)) == 100 * Number(front) + n && AllDigits(CursorText.TwoDigits(n))
  {
    NumberOneMore(front, n / 10);
    NumberOneMore(front + [CursorText.Digit(n / 10)], n % 10);
    assert front + CursorText.TwoDigits(n) == front + [CursorText.Digit(n / 10)] + [CursorText.Digit(n % 10)];
  }

  lemma NumberThreeMore(front: string, n: nat)
    requires n < 1000
    ensures Number(front + ThreeDigits(n)) == 1000 * Number(front) + n && AllDigits(ThreeDigits(n))
  {
    NumberOneMore(front, n / 100);
    NumberTwoMore(front + [CursorText.Digit(n / 100)], n % 100);
    assert front + ThreeDigits(n) == front + [CursorText.Digit(n / 100)] + CursorText.TwoDigits(n % 100);
  }

  lemma GroupAppended(front: string, tail: string)
    requires Grouped(front) && |tail| == 3 && AllDigits(tail)
    ensures Grouped(front + "," + tail) && Number(front + ",") == Number(front)
  {
    var text := front + "," + tail;
    assert text[|text| - 3..] == tail && text[..|text| - 4] == front && (front + ",")[..|front|] == front;
  }

  lemma {:induction false} WithCommasReads(n: nat)
    ensures Grouped(WithCommas(n)) && Number(WithCommas(n)) == n
  {
    hide Number, Grouped, AllDigits, ThreeDigits;
    if n < 1000 {
      ShortReads(n);
    } else {
      WithCommasReads(n / 1000);
      NumberThreeMore(WithCommas(n / 1000) + ",", n % 1000);
      GroupAppended(WithCommas(n / 1000), ThreeDigits(n % 1000));
    }
  }

  lemma ShortReads(n: nat)
    requires n < 1000
    ensures Grouped(ThreeDigits(n)) && Number(ThreeDigits(n)) == n
  {
    NumberThreeMore("", n);
    assert "" + ThreeDigits(n) == ThreeDigits(n);
  }

  /** Every amount in whole cents can be captured, and is read as it was written. */
  lemma {:induction false} WrittenIsRead(cents: nat)
    ensures Strict(Written(cents)) && Cents(Written(cents)) == Some(cents)
  {
    hide *;
    WrittenParts(cents);
    WithCommasReads(cents / 100);
    TwoRead(cents % 100);
    Parts(WithCommas(cents / 100), CursorText.TwoDigits(cents % 100));
  }

  lemma WrittenParts(cents: nat)
    ensures Written(cents) == WithCommas(cents / 100) + "." + CursorText.TwoDigits(cents % 100)
  {
    hide WithCommas, CursorText.TwoDigits;
  }

  lemma TwoRead(n: nat)
    requires n < 100
    ensures var text := CursorText.TwoDigits(n); |text| == 2 && AllDigits(text) && Number(text) == n
  {
    NumberTwoMore("", n);
    assert "" + CursorText.TwoDigits(n) == CursorText.TwoDigits(n);
  }

  lemma Parts(whole: string, decimals: string)
    requires Grouped(whole) && |decimals| == 2 && AllDigits(decimals)
    ensures var text := whole + "." + decimals;
            Strict(text) && Cents(text) == Some(100 * Number(whole) + Number(decimals))
  {
    var text := whole + "." + decimals;
    hide Grouped, Number;
    assert text[|text| - 3] == '.' && text[|text| - 1] == decimals[1];
    assert Whole(text) == whole && Decimals(text) == decimals;
  }

  lemma {:induction false} GroupedIsLoose(text: string)
    requires Grouped(text)
    ensures text != "" && forall k :: 0 <= k < |text| ==> IsDigit(text[k]) || text[k] == ','
    ensures IsDigit(text[0])
  {
    if !(1 <= |text| <= 6 && AllDigits(text)) {
      var front, tail := text[..|text| - 4], text[|text| - 3..];
      GroupedIsLoose(front);
      assert text == front + [','] + tail;
    }
  }

  /** What the classifier captures the pre-extraction could capture too, and it always stands for a number. */
  lemma {:induction false} StrictIsLoose(text: string)
    requires Strict(text)
    ensures Loose(text) && Cents(text).Some?
  {
    GroupedIsLoose(Whole(text));
    assert text[0] == Whole(text)[0];
  }
}
