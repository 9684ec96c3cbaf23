/**
 Gaps and durations of a playlist (common/playlist.hpp, host/make_playlist.py): seconds
 with up to three decimals, kept as whole milliseconds of 48 frames.
 */
module Seconds {
  import opened Words
  import opened Texts

  const FRAMES_PER_MILLISECOND: nat := 48
  const MAX_DECIMALS: nat := 3
  const GAP_DIGITS: nat := 4
  const DURATION_DIGITS: nat := 5
  const MAX_GAP_MS: nat := 3600 * 1000
  const MIN_DURATION_MS: nat := 1000
  const MAX_DURATION_MS: nat := 86400 * 1000

  /** One to three decimals as thousandths: "5" is 500. */
  function Thousandths(fraction: string): (ms: nat)
    requires AllDigits(fraction) && 1 <= |fraction| <= MAX_DECIMALS
    ensures ms < 1000
  {
    if |fraction| == 1 then DigitValue(fraction[0]) * 100
    else if |fraction| == 2 then DigitValue(fraction[0]) * 100 + DigitValue(fraction[1]) * 10
    else DigitValue(fraction[0]) * 100 + DigitValue(fraction[1]) * 10 + DigitValue(fraction[2])
  }

  /** The pattern of a time: whole seconds without a leading zero, and decimals if it has any. */
  ghost predicate Matches(text: string, whole: string, fraction: string, digits: nat) {
    && text == whole + (if fraction == "" then "" else "." + fraction)
    && Canonical(whole) && |whole| <= digits
    && AllDigits(fraction) && |fraction| <= MAX_DECIMALS
  }

  function Milliseconds(whole: string, fraction: string): nat
    requires AllDigits(whole) && AllDigits(fraction) && |fraction| <= MAX_DECIMALS
  {
    Value(whole) * 1000 + if fraction == "" then 0 else Thousandths(fraction)
  }

  ghost predicate Spells(text: string, whole: string, fraction: string, digits: nat, ms: nat) {
    Matches(text, whole, fraction, digits) && Milliseconds(whole, fraction) == ms
  }

  /** A time in milliseconds, taken apart at its first point. */
  function ParseMilliseconds(text: string, digits: nat): Option<nat> {
    var point := Find(text, '.');
    var whole := if point.Some? then text[..point.value] else text;
    if !Canonical(whole) || |whole| > digits then None
    else if point.None? then Some(Value(whole) * 1000)
    else
      var fraction := text[point.value + 1..];
      if fraction == "" || |fraction| > MAX_DECIMALS || !AllDigits(fraction) then None
      else Some(Value(whole) * 1000 + Thousandths(fraction))
  }

  /** The parser takes exactly the pattern. */
  lemma ParseIsPattern(text: string, digits: nat, ms: nat)
    ensures ParseMilliseconds(text, digits) == Some(ms) <==> exists whole, fraction :: Spells(text, whole, fraction, digits, ms)
  {
    hide ParseMilliseconds, Spells;
    if ParseMilliseconds(text, digits) == Some(ms) {
      var whole, fraction := PatternOf(text, digits);
    }
    forall whole, fraction | Spells(text, whole, fraction, digits, ms)
      ensures ParseMilliseconds(text, digits) == Some(ms)
    {
      ParseMatch(text, whole, fraction, digits, ms);
    }
  }

  lemma PatternOf(text: string, digits: nat) returns (whole: string, fraction: string)
    requires ParseMilliseconds(text, digits).Some?
    ensures Spells(text, whole, fraction, digits, ParseMilliseconds(text, digits).value)
  {
    hide Value, Thousandths;
    var point := Find(text, '.');
    hide Find;
    whole := if point.Some? then text[..point.value] else text;
    fraction := if point.Some? then text[point.value + 1..] else "";
    assert text == whole + (if fraction == "" then "" else "." + fraction);
  }

  lemma ParseMatch(text: string, whole: string, fraction: string, digits: nat, ms: nat)
    requires Spells(text, whole, fraction, digits, ms)
    ensures ParseMilliseconds(text, digits) == Some(ms)
  {
    hide Value, Find, Thousandths;
    assert '.' !in whole;
    if fraction == "" {
      assert text == whole;
    } else {
      assert text[..|whole|] == whole && text[|whole| + 1..] == fraction;
      FindIs(text, '.', |whole|);
    }
  }

  function ParseGap(text: string): Option<nat> {
    var ms := ParseMilliseconds(text, GAP_DIGITS);
    if ms.None? || ms.value > MAX_GAP_MS then None else Some(ms.value * FRAMES_PER_MILLISECOND)
  }

  function ParseDuration(text: string): Option<nat> {
    var ms := ParseMilliseconds(text, DURATION_DIGITS);
    if ms.None? || ms.value < MIN_DURATION_MS || ms.value > MAX_DURATION_MS then None
    else Some(ms.value * FRAMES_PER_MILLISECOND)
  }

  // Spelling.

  function ThreeDigits(n: nat): (text: string)
    requires n < 1000
    ensures |text| == 3 && AllDigits(text)
  {
    [DigitChar(n / 100), DigitChar(n / 10 % 10), DigitChar(n % 10)]
  }

  /** Without the zeros at its end. */
  function Stripped(text: string): (stripped: string)
    ensures |stripped| <= |text| && stripped == text[..|stripped|]
    ensures forall i :: |stripped| <= i < |text| ==> text[i] == '0'
    ensures stripped != "" ==> stripped[|stripped| - 1] != '0'
  {
    if text == "" || text[|text| - 1] != '0' then text else Stripped(text[..|text| - 1])
  }

  /** format_gap: whole seconds, or the decimals the time needs. */
  function Format(frames: nat): string {
    var ms := frames / FRAMES_PER_MILLISECOND;
    var seconds, rest := ms / 1000, ms % 1000;
    if rest == 0 then Decimal(seconds) else Decimal(seconds) + "." + Stripped(ThreeDigits(rest))
  }

  lemma StrippedThousandths(n: nat)
    requires 0 < n < 1000
    ensures var fraction := Stripped(ThreeDigits(n));
            1 <= |fraction| <= MAX_DECIMALS && AllDigits(fraction) && Thousandths(fraction) == n
  {
    hide Stripped, Thousandths;
    assert n == n / 100 * 100 + n / 10 % 10 * 10 + n % 10;
    StrippedValue(ThreeDigits(n), n);
  }

  lemma StrippedValue(text: string, n: nat)
    requires |text| == 3 && AllDigits(text) && n > 0
    requires n == DigitValue(text[0]) * 100 + DigitValue(text[1]) * 10 + DigitValue(text[2])
    ensures var fraction := Stripped(text);
            1 <= |fraction| <= MAX_DECIMALS && AllDigits(fraction) && Thousandths(fraction) == n
  {
    var a, b, c := text[0], text[1], text[2];
    assert text == [a, b, c];
    assert [a, b, c][..2] == [a, b] && [a, b][..1] == [a] && [a][..0] == [];
    if c != '0' {
      assert Stripped(text) == text;
    } else if b != '0' {
      assert Stripped(text) == Stripped([a, b]) == [a, b];
    } else {
      assert Stripped(text) == Stripped([a, b]) == Stripped([a]) == [a];
    }
  }

  /** A time of whole milliseconds is spelt so that it parses back, in so many digits. */
  lemma FormatParses(ms: nat, digits: nat)
    requires 1 <= digits && ms / 1000 < Pow10(digits)
    ensures ParseMilliseconds(Format(ms * FRAMES_PER_MILLISECOND), digits) == Some(ms)
    ensures |Format(ms * FRAMES_PER_MILLISECOND)| <= digits + 4
    ensures forall c :: c in Format(ms * FRAMES_PER_MILLISECOND) ==> IsDigit(c) || c == '.'
  {
    hide Value, Decimal, Thousandths, ParseMilliseconds, Stripped, ThreeDigits;
    var seconds, rest := ms / 1000, ms % 1000;
    assert ms * FRAMES_PER_MILLISECOND / FRAMES_PER_MILLISECOND == ms;
    DecimalIsCanonical(seconds);
    DecimalFits(seconds, digits);
    var fraction := if rest == 0 then "" else Stripped(ThreeDigits(rest));
    if rest != 0 {
      StrippedThousandths(rest);
    }
    var text := Format(ms * FRAMES_PER_MILLISECOND);
    assert text == Decimal(seconds) + (if fraction == "" then "" else "." + fraction);
    ParseMatch(text, Decimal(seconds), fraction, digits, ms);
  }

  /** A gap the player keeps: whole milliseconds, at most an hour. */
  predicate IsGap(frames: nat) {
    frames % FRAMES_PER_MILLISECOND == 0 && frames / FRAMES_PER_MILLISECOND <= MAX_GAP_MS
  }

  predicate IsDuration(frames: nat) {
    frames % FRAMES_PER_MILLISECOND == 0 && MIN_DURATION_MS <= frames / FRAMES_PER_MILLISECOND <= MAX_DURATION_MS
  }

  /** Every gap and duration a parser gives is one; spelt, it parses back to itself. */
  lemma GapRoundTrip(frames: nat)
    requires IsGap(frames)
    ensures ParseGap(Format(frames)) == Some(frames) && |Format(frames)| <= 8
    ensures forall c :: c in Format(frames) ==> IsDigit(c) || c == '.'
  {
    hide ParseMilliseconds, Format;
    var ms := frames / FRAMES_PER_MILLISECOND;
    Tens();
    FormatParses(ms, GAP_DIGITS);
  }

  lemma DurationRoundTrip(frames: nat)
    requires IsDuration(frames)
    ensures ParseDuration(Format(frames)) == Some(frames) && |Format(frames)| <= 9
    ensures forall c :: c in Format(frames) ==> IsDigit(c) || c == '.'
  {
    hide ParseMilliseconds, Format;
    var ms := frames / FRAMES_PER_MILLISECOND;
    Tens();
    FormatParses(ms, DURATION_DIGITS);
  }

  lemma Tens()
    ensures Pow10(4) == 10000 && Pow10(5) == 100000 && Pow10(1) == 10
  {
    assert Pow10(0) == 1 && Pow10(1) == 10 * Pow10(0) && Pow10(2) == 10 * Pow10(1) && Pow10(3) == 10 * Pow10(2);
    assert Pow10(4) == 10 * Pow10(3) && Pow10(5) == 10 * Pow10(4);
  }

  lemma ParsedTimes(text: string)
    ensures ParseGap(text).Some? ==> IsGap(ParseGap(text).value)
    ensures ParseDuration(text).Some? ==> IsDuration(ParseDuration(text).value)
  {
    hide ParseMilliseconds;
    var gap, duration := ParseMilliseconds(text, GAP_DIGITS), ParseMilliseconds(text, DURATION_DIGITS);
    if gap.Some? {
      WholeMs(gap.value);
    }
    if duration.Some? {
      WholeMs(duration.value);
    }
  }

  lemma WholeMs(ms: nat)
    ensures ms * FRAMES_PER_MILLISECOND % FRAMES_PER_MILLISECOND == 0 && ms * FRAMES_PER_MILLISECOND / FRAMES_PER_MILLISECOND == ms
  {
  }

  // The board's parser.

  /** fraction_milliseconds: three places, zero past the decimals given. */
  method FractionMilliseconds(fraction: string) returns (ms: Option<Uint32>)
    ensures ms == if 1 <= |fraction| <= MAX_DECIMALS && AllDigits(fraction) then Some(Thousandths(fraction)) else None
  {
    if fraction == "" || |fraction| > MAX_DECIMALS {
      return None;
    }
    var milliseconds: Uint32 := 0;
    for place := 0 to MAX_DECIMALS
      invariant forall i :: 0 <= i < place && i < |fraction| ==> IsDigit(fraction[i])
      invariant place == 0 ==> milliseconds == 0
      invariant place == 1 ==> milliseconds == Place(fraction, 0)
      invariant place == 2 ==> milliseconds == Place(fraction, 0) * 10 + Place(fraction, 1)
      invariant place == 3 ==> milliseconds == Place(fraction, 0) * 100 + Place(fraction, 1) * 10 + Place(fraction, 2)
    {
      var digit := Some(0 as nat);
      if place < |fraction| {
        digit := FindDigit(fraction[place]);
      }
      if digit.None? {
        return None;
      }
      milliseconds := milliseconds * 10 + digit.value;
    }
    ms := Some(milliseconds);
  }

  function Place(fraction: string, place: nat): nat {
    if place < |fraction| && IsDigit(fraction[place]) then DigitValue(fraction[place]) else 0
  }

  /** parse_milliseconds: with at most five digits of seconds the 32-bit product and sum do not overflow. */
  method ReadMilliseconds(text: string, digits: nat) returns (ms: Option<Uint32>)
    requires digits <= DURATION_DIGITS
    ensures ms == ParseMilliseconds(text, digits)
  {
    hide Find, Value, Thousandths, AllDigits;
    var point := Find(text, '.');
    var whole := if point.Some? then text[..point.value] else text;
    var seconds := ParseUint32(whole);
    if Canonical(whole) && |whole| <= digits {
      ValueFits(whole);
      PowerGrows(|whole|, DURATION_DIGITS);
      Tens();
    }
    if seconds.None? || |whole| > digits {
      return None;
    }
    if point.None? {
      var whole: Uint32 := seconds.value * 1000;
      return Some(whole);
    }
    var fraction := FractionMilliseconds(text[point.value + 1..]);
    if fraction.None? {
      return None;
    }
    var sum: Uint32 := seconds.value * 1000 + fraction.value;
    ms := Some(sum);
  }

  lemma {:induction false} PowerGrows(a: nat, b: nat)
    requires a <= b
    ensures Pow10(a) <= Pow10(b)
    decreases b - a
  {
    if a < b {
      PowerGrows(a + 1, b);
    }
  }

  method ReadGap(text: string) returns (frames: Option<Uint32>)
    ensures frames == ParseGap(text)
  {
    hide ParseMilliseconds;
    var ms := ReadMilliseconds(text, GAP_DIGITS);
    frames := if ms.None? || ms.value > MAX_GAP_MS then None else Some(ms.value * FRAMES_PER_MILLISECOND);
  }

  method ReadDuration(text: string) returns (frames: Option<Uint32>)
    ensures frames == ParseDuration(text)
  {
    hide ParseMilliseconds;
    var ms := ReadMilliseconds(text, DURATION_DIGITS);
    frames := if ms.None? || ms.value < MIN_DURATION_MS || ms.value > MAX_DURATION_MS then None
              else Some(ms.value * FRAMES_PER_MILLISECOND);
  }
}
