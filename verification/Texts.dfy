/** Strings as the two sides spell numbers and lists: canonical decimals, and splitting at a character. */
module Texts {
  import opened Words

  predicate IsDigit(c: char) {
    '0' <= c <= '9'
  }

  predicate AllDigits(text: string) {
    forall i :: 0 <= i < |text| ==> IsDigit(text[i])
  }

  function DigitValue(c: char): (value: nat)
    requires IsDigit(c)
    ensures value < 10
  {
    c as int - '0' as int
  }

  function DigitChar(value: nat): (c: char)
    requires value < 10
    ensures IsDigit(c) && DigitValue(c) == value
  {
    ('0' as int + value) as char
  }

  /** What a run of digits is worth. */
  function Value(text: string): nat
    requires AllDigits(text)
  {
    if text == "" then 0 else Value(text[..|text| - 1]) * 10 + DigitValue(text[|text| - 1])
  }

  /** The canonical decimal of a number. */
  function Decimal(n: nat): (text: string)
    ensures text != "" && AllDigits(text)
  {
    if n < 10 then [DigitChar(n)] else Decimal(n / 10) + [DigitChar(n % 10)]
  }

  /** No sign, and no leading zero but for "0" itself. */
  predicate Canonical(text: string) {
    text != "" && AllDigits(text) && (|text| > 1 ==> text[0] != '0')
  }

  /** A canonical decimal of at most 32 bits. */
  function Number(text: string): Option<Uint32> {
    if Canonical(text) && Value(text) <= UINT32_MAX then Some(Value(text)) else None
  }

  lemma {:induction false} DecimalIsCanonical(n: nat)
    ensures Canonical(Decimal(n)) && Value(Decimal(n)) == n
    ensures n > 0 ==> Decimal(n)[0] != '0'
    decreases n
  {
    if n < 10 {
      assert Decimal(n)[..0] == "";
    } else {
      DecimalIsCanonical(n / 10);
      var front := Decimal(n / 10);
      assert Decimal(n)[..|Decimal(n)| - 1] == front;
      assert Decimal(n)[0] == front[0];
    }
  }

  lemma {:induction false} CanonicalIsDecimal(text: string)
    requires Canonical(text)
    ensures Decimal(Value(text)) == text
    ensures text[0] != '0' ==> Value(text) > 0
    decreases |text|
  {
    var front, last := text[..|text| - 1], text[|text| - 1];
    if |text| == 1 {
      assert front == "";
      assert Value(text) == DigitValue(last);
      assert text == [last];
    } else {
      assert front[0] == text[0];
      CanonicalIsDecimal(front);
      var value := Value(front) * 10 + DigitValue(last);
      assert value >= 10 && value / 10 == Value(front) && value % 10 == DigitValue(last);
      assert text == front + [last];
    }
  }

  /** Numbers round-trip through their spelling, and the spelling through its number. */
  lemma NumberRoundTrip(text: string, n: Uint32)
    ensures Number(text) == Some(n) <==> text == Decimal(n)
  {
    DecimalIsCanonical(n);
    if Canonical(text) {
      CanonicalIsDecimal(text);
    }
  }

  function Pow10(k: nat): (p: nat)
    ensures p >= 1
  {
    if k == 0 then 1 else 10 * Pow10(k - 1)
  }

  lemma {:induction false} ValueFits(text: string)
    requires AllDigits(text)
    ensures Value(text) < Pow10(|text|)
    decreases |text|
  {
    if text != "" {
      ValueFits(text[..|text| - 1]);
    }
  }

  lemma {:induction false} DecimalFits(n: nat, k: nat)
    requires 1 <= k && n < Pow10(k)
    ensures |Decimal(n)| <= k
    decreases k
  {
    if n >= 10 {
      assert k > 1 by {
        assert Pow10(1) == 10 * Pow10(0);
      }
      DecimalFits(n / 10, k - 1);
    }
  }

  lemma {:induction false} ValueGrows(text: string, k: nat)
    requires AllDigits(text) && k <= |text|
    ensures AllDigits(text[..k]) && Value(text[..k]) <= Value(text)
    decreases |text|
  {
    if k == |text| {
      assert text[..k] == text;
    } else {
      ValueGrows(text[..|text| - 1], k);
      assert text[..|text| - 1][..k] == text[..k];
    }
  }

  /** parse_uint32 of common/cut_schedule.hpp: digit by digit, refused as soon as 32 bits overflow. */
  method ParseUint32(text: string) returns (number: Option<Uint32>)
    ensures number == Number(text)
  {
    if text == "" || (|text| > 1 && text[0] == '0') {
      return None;
    }
    var value := 0;
    for k := 0 to |text|
      invariant AllDigits(text[..k]) && value == Value(text[..k]) <= UINT32_MAX
    {
      var digit := FindDigit(text[k]);
      if digit.None? {
        return None;
      }
      assert text[..k + 1][..k] == text[..k];
      value := value * 10 + digit.value;
      if value > UINT32_MAX {
        if AllDigits(text) {
          ValueGrows(text, k + 1);
        }
        return None;
      }
    }
    assert text[..|text|] == text;
    number := Some(value);
  }

  /** The place of a character among the ten digits. */
  method FindDigit(c: char) returns (digit: Option<nat>)
    ensures digit == if IsDigit(c) then Some(DigitValue(c)) else None
  {
    var digits := "0123456789";
    for value := 0 to |digits|
      invariant IsDigit(c) ==> value <= DigitValue(c)
    {
      if digits[value] == c {
        return Some(value);
      }
    }
    digit := None;
  }

  /** Where a character first stands. */
  function Find(text: string, c: char): (at: Option<nat>)
    ensures at.Some? ==> at.value < |text| && text[at.value] == c && c !in text[..at.value]
    ensures at.None? ==> c !in text
  {
    if text == "" then None
    else if text[0] == c then Some(0)
    else
      match Find(text[1..], c)
      case Some(at) =>
        assert text[..at + 1] == [text[0]] + text[1..][..at];
        Some(at + 1)
      case None => None
  }

  lemma FindIs(text: string, c: char, at: nat)
    requires at < |text| && text[at] == c && c !in text[..at]
    ensures Find(text, c) == Some(at)
  {
  }

  lemma SplitAt(text: string, c: char, at: nat)
    requires at < |text| && text[at] == c && c !in text[..at]
    ensures Split(text, c) == [text[..at]] + Split(text[at + 1..], c)
  {
    hide Find;
    FindIs(text, c, at);
  }

  /** The pieces between the separators. */
  function Split(text: string, c: char): (pieces: seq<string>)
    ensures pieces != []
    decreases |text|
  {
    match Find(text, c)
    case None => [text]
    case Some(at) => [text[..at]] + Split(text[at + 1..], c)
  }

  function Join(pieces: seq<string>, c: char): string
    requires pieces != []
  {
    if |pieces| == 1 then pieces[0] else pieces[0] + [c] + Join(pieces[1..], c)
  }

  lemma SplitWhole(text: string, c: char)
    requires c !in text
    ensures Split(text, c) == [text]
  {
    hide Find;
  }

  lemma {:induction false} SplitJoined(pieces: seq<string>, c: char)
    requires pieces != [] && forall i :: 0 <= i < |pieces| ==> c !in pieces[i]
    ensures Split(Join(pieces, c), c) == pieces
    decreases |pieces|
  {
    hide Find, Split;
    if |pieces| == 1 {
      SplitWhole(pieces[0], c);
    } else {
      SplitJoined(pieces[1..], c);
      var text := Join(pieces, c);
      var at := |pieces[0]|;
      assert text[..at] == pieces[0] && text[at + 1..] == Join(pieces[1..], c);
      SplitAt(text, c, at);
      assert pieces == [pieces[0]] + pieces[1..];
    }
  }

  lemma {:induction false} JoinSplit(text: string, c: char)
    ensures Join(Split(text, c), c) == text
    decreases |text|
  {
    var at := Find(text, c);
    if at.Some? {
      JoinSplit(text[at.value + 1..], c);
      var rest := Split(text[at.value + 1..], c);
      assert Split(text, c)[1..] == rest;
      assert text == text[..at.value] + [c] + text[at.value + 1..];
    }
  }
}
