/** The text of a listing cursor: the date and the id of the last row shown, joined by a bar. */
module CursorText {
  import opened Common

  datatype Date = Date(year: nat, month: nat, day: nat)

  predicate Leap(year: nat) {
    year % 4 == 0 && (year % 100 != 0 || year % 400 == 0)
  }

  function DaysIn(year: nat, month: nat): nat {
    if month == 2 then (if Leap(year) then 29 else 28)
    else if month in {4, 6, 9, 11} then 30
    else 31
  }

  /** The dates that exist in the calendar, year 1 to year 9999. */
  predicate Real(d: Date) {
    1 <= d.year <= 9999 && 1 <= d.month <= 12 && 1 <= d.day <= DaysIn(d.year, d.month)
  }

  function Digit(n: nat): (c: char)
    requires n < 10
  {
    "0123456789"[n]
  }

  function Value(c: char): (n: Option<nat>) {
    if '0' <= c <= '9' then Some(c as int - '0' as int) else None
  }

  function TwoDigits(n: nat): (text: string)
    requires n < 100
    ensures |text| == 2
  {
    [Digit(n / 10), Digit(n % 10)]
  }

  function ReadTwo(a: char, b: char): (n: Option<nat>)
    ensures n.Some? ==> n.value < 100
  {
    if Value(a).Some? && Value(b).Some? then Some(10 * Value(a).value + Value(b).value) else None
  }

  /** YYYY-MM-DD. */
  function IsoFormat(d: Date): (text: string)
    requires Real(d)
    ensures |text| == 10
  {
    TwoDigits(d.year / 100) + TwoDigits(d.year % 100) + "-" + TwoDigits(d.month) + "-" + TwoDigits(d.day)
  }

  /** The shape of YYYY-MM-DD; a week date of that length has a digit where this has its second dash. */
  predicate Dashed(text: string) {
    |text| == 10 && text[4] == '-' && text[7] == '-'
  }

  /**
   The library's reader. Besides YYYY-MM-DD it takes other ISO forms, such as YYYYMMDD or week dates, which the
   code never writes; `other` says what it makes of those.
   */
  function FromIsoFormat(other: string -> Option<Date>, text: string): Option<Date> {
    if Dashed(text) then ReadDashed(text) else other(text)
  }

  function ReadDashed(text: string): (d: Option<Date>)
    requires Dashed(text)
    ensures d.Some? ==> Real(d.value)
  {
    var century := ReadTwo(text[0], text[1]);
    var rest := ReadTwo(text[2], text[3]);
    var month := ReadTwo(text[5], text[6]);
    var day := ReadTwo(text[8], text[9]);
    if century.None? || rest.None? || month.None? || day.None? then None
    else
      var d := Date(100 * century.value + rest.value, month.value, day.value);
      if Real(d) then Some(d) else None
  }

  /** The pieces between the bars. */
  function Split(text: string): (parts: seq<string>)
    ensures |parts| > 0
  {
    if text == [] then [[]]
    else
      var rest := Split(text[1..]);
      if text[0] == '|' then [[]] + rest else [[text[0]] + rest[0]] + rest[1..]
  }

  function Encode(d: Date, id: string): string
    requires Real(d)
  {
    IsoFormat(d) + "|" + id
  }

  /** Nothing stands for the answer "Invalid cursor format". */
  function Decode(other: string -> Option<Date>, text: string): (key: Option<(Date, string)>) {
    var parts := Split(text);
    if |parts| != 2 then None
    else
      var d := FromIsoFormat(other, parts[0]);
      if d.None? then None else Some((d.value, parts[1]))
  }

  /** The pieces with a bar between each two of them. */
  function Join(parts: seq<string>): string
    requires |parts| > 0
  {
    if |parts| == 1 then parts[0] else parts[0] + "|" + Join(parts[1..])
  }

  /** Splitting loses nothing, and no piece has a bar. */
  lemma {:induction false} JoinSplit(text: string)
    ensures Join(Split(text)) == text
    ensures forall i :: 0 <= i < |Split(text)| ==> '|' !in Split(text)[i]
  {
    if text != [] {
      var rest := Split(text[1..]);
      var parts := Split(text);
      JoinSplit(text[1..]);
      assert text == [text[0]] + text[1..];
      if text[0] == '|' {
        assert parts[1..] == rest;
      } else {
        assert parts[1..] == rest[1..];
        if |rest| > 1 {
          assert Join(parts) == ([text[0]] + rest[0]) + "|" + Join(rest[1..]);
        }
      }
    }
  }

  /** The text up to the first bar is the first piece. */
  lemma {:induction false} SplitFirst(a: string, b: string)
    requires '|' !in a
    ensures Split(a) == [a]
    ensures Split(a + "|" + b) == [a] + Split(b)
  {
    var text := a + "|" + b;
    if a == [] {
      assert text[0] == '|' && text[1..] == b;
    } else {
      SplitFirst(a[1..], b);
      assert text[0] == a[0] && text[1..] == a[1..] + "|" + b;
      assert [a[0]] + a[1..] == a;
      assert ([a[1..]] + Split(b))[1..] == Split(b);
      assert Split(a) == [[a[0]] + a[1..]] + [];
    }
  }

  lemma {:induction false} SplitTwo(a: string, b: string, text: string)
    ensures Split(text) == [a, b] <==> text == a + "|" + b && '|' !in a && '|' !in b
  {
    if Split(text) == [a, b] {
      JoinSplit(text);
      assert '|' !in Split(text)[0] && '|' !in Split(text)[1];
      assert [a, b][1..] == [b];
      assert Join([b]) == b;
    } else if text == a + "|" + b && '|' !in a && '|' !in b {
      SplitFirst(a, b);
      SplitFirst(b, []);
    }
  }

  lemma TwoDigitsExact(a: char, b: char, n: nat)
    requires n < 100
    ensures ReadTwo(a, b) == Some(n) <==> [a, b] == TwoDigits(n)
  {
    assert Value(Digit(n / 10)) == Some(n / 10) && Value(Digit(n % 10)) == Some(n % 10);
    if ReadTwo(a, b) == Some(n) {
      assert Value(a).value == n / 10 && Value(b).value == n % 10;
      DigitExact(a, n / 10);
      DigitExact(b, n % 10);
    }
    if [a, b] == TwoDigits(n) {
      assert a == [a, b][0] && b == [a, b][1];
    }
  }

  lemma DigitExact(c: char, n: nat)
    requires n < 10
    ensures Value(c) == Some(n) <==> c == Digit(n)
  {
  }

  lemma IsoPieces(text: string, d: Date)
    requires |text| == 10 && Real(d)
    ensures text == IsoFormat(d) <==>
            && text[0..2] == TwoDigits(d.year / 100) && text[2..4] == TwoDigits(d.year % 100) && text[4] == '-'
            && text[5..7] == TwoDigits(d.month) && text[7] == '-' && text[8..10] == TwoDigits(d.day)
  {
    hide TwoDigits;
    var iso := IsoFormat(d);
    assert iso[0..2] == TwoDigits(d.year / 100) && iso[2..4] == TwoDigits(d.year % 100);
    assert iso[5..7] == TwoDigits(d.month) && iso[8..10] == TwoDigits(d.day);
    assert text == text[0..2] + text[2..4] + [text[4]] + text[5..7] + [text[7]] + text[8..10];
  }

  lemma PairAt(text: string, i: nat, n: nat)
    requires i + 1 < |text| && n < 100
    ensures ReadTwo(text[i], text[i + 1]) == Some(n) <==> text[i..i + 2] == TwoDigits(n)
  {
    TwoDigitsExact(text[i], text[i + 1], n);
    assert text[i..i + 2] == [text[i], text[i + 1]];
  }

  /** Of the texts of this shape, exactly the date's own one is read as the date. */
  lemma {:induction false} IsoFormatExact(other: string -> Option<Date>, text: string, d: Date)
    requires Real(d)
    ensures text == IsoFormat(d) <==> Dashed(text) && FromIsoFormat(other, text) == Some(d)
  {
    hide TwoDigits, ReadTwo, IsoFormat;
    if |text| == 10 {
      PairAt(text, 0, d.year / 100);
      PairAt(text, 2, d.year % 100);
      PairAt(text, 5, d.month);
      PairAt(text, 8, d.day);
      IsoPieces(text, d);
    }
  }

  /** The text stands for the date: it is the date's own text, or another ISO form that the library reads as it. */
  predicate Names(other: string -> Option<Date>, text: string, d: Date)
    requires Real(d)
  {
    text == IsoFormat(d) || (!Dashed(text) && other(text) == Some(d))
  }

  /**
   The texts that decode to a key: a text that stands for the date, a bar, and the id, with no further bar.
   No other text is taken for a cursor of that key.
   */
  lemma {:induction false} DecodedTexts(other: string -> Option<Date>, text: string, d: Date, id: string)
    requires Real(d)
    ensures Decode(other, text) == Some((d, id)) <==>
            '|' !in id && exists day :: '|' !in day && Names(other, day, d) && text == day + "|" + id
  {
    if Decode(other, text) == Some((d, id)) {
      var parts := Split(text);
      assert parts == [parts[0], id];
      SplitTwo(parts[0], id, text);
      IsoFormatExact(other, parts[0], d);
    }
    if day :| '|' !in id && '|' !in day && Names(other, day, d) && text == day + "|" + id {
      SplitTwo(day, id, text);
      IsoFormatExact(other, day, d);
    }
  }

  /** What was encoded is decoded again, if and only if the id has no bar; ids are dashed hexadecimal texts. */
  lemma {:induction false} DecodeInvertsEncode(other: string -> Option<Date>, d: Date, id: string)
    requires Real(d)
    ensures Decode(other, Encode(d, id)) == Some((d, id)) <==> '|' !in id
  {
    var iso, text := IsoFormat(d), Encode(d, id);
    NoBarInDate(d);
    IsoFormatExact(other, iso, d);
    if '|' !in id {
      SplitTwo(iso, id, text);
    } else if Decode(other, text) == Some((d, id)) {
      DecodedTexts(other, text, d, id);
    }
  }

  lemma NoBarInDate(d: Date)
    requires Real(d)
    ensures '|' !in IsoFormat(d)
  {
    TwoDigitsHaveNoBar(d.year / 100);
    TwoDigitsHaveNoBar(d.year % 100);
    TwoDigitsHaveNoBar(d.month);
    TwoDigitsHaveNoBar(d.day);
  }

  lemma TwoDigitsHaveNoBar(n: nat)
    requires n < 100
    ensures '|' !in TwoDigits(n)
  {
  }
}
