/**
 A playlist item's attenuation (common/attenuation.hpp, host/attenuation.py): a Q1.31
 gain from a falling table, a product rounded half to even, and the spelling of a level.
 */
module Attenuation {
  import opened Words
  import opened Texts

  const UNITY: int := 0x8000_0000
  const HALF: int := 0x4000_0000
  const MAX_TENTHS: nat := 400
  const PCM24_MIN: int := -8388608
  const PCM24_MAX: int := 8388607

  type Sample = x: int | -8388608 <= x <= 8388607
  type Gain = g: int | 0 <= g <= 0x8000_0000

  /** The table of gains, one for each tenth of a decibel: it falls from unity. */
  ghost predicate IsTable(gains: seq<Gain>) {
    |gains| == MAX_TENTHS + 1 && gains[0] == UNITY && forall i, j :: 0 <= i < j < |gains| ==> gains[j] < gains[i]
  }

  // Rounding.

  /** `q` is the product over 2^31 rounded to the nearest, and at a half to the even one. */
  ghost predicate HalfEven(product: int, q: int) {
    var twice := 2 * (product - q * UNITY);
    -UNITY < twice < UNITY || ((twice == UNITY || twice == -UNITY) && q % 2 == 0)
  }

  /** The remainder of a division that truncates toward zero. */
  function TruncatedParity(q: int): int {
    if q >= 0 then q % 2 else -((-q) % 2)
  }

  /** round_q31: an arithmetic shift, and up past half or at half from an odd quotient. */
  function RoundQ31(product: int): int {
    var quotient := product / UNITY;
    var remainder := product - quotient * UNITY;
    var odd := TruncatedParity(quotient) != 0;
    quotient + if remainder > HALF || (remainder == HALF && odd) then 1 else 0
  }

  /** apply() of host/attenuation.py: floor division and its remainder. */
  function HostRound(product: int): int {
    var quotient, remainder := product / UNITY, product % UNITY;
    if remainder > HALF || (remainder == HALF && quotient % 2 == 1) then quotient + 1 else quotient
  }

  lemma RoundIsHalfEven(product: int)
    ensures HalfEven(product, RoundQ31(product)) && HostRound(product) == RoundQ31(product)
  {
    assert product == product / UNITY * UNITY + product % UNITY;
  }

  /** There is only one such quotient. */
  lemma HalfEvenIsUnique(product: int, a: int, b: int)
    requires HalfEven(product, a) && HalfEven(product, b)
    ensures a == b
  {
  }

  lemma RoundIsOdd(product: int)
    ensures RoundQ31(-product) == -RoundQ31(product)
  {
    RoundIsHalfEven(product);
    RoundIsHalfEven(-product);
    HalfEvenIsUnique(-product, RoundQ31(-product), -RoundQ31(product));
  }

  lemma RoundIsMonotone(a: int, b: int)
    requires a <= b
    ensures RoundQ31(a) <= RoundQ31(b)
  {
    RoundIsHalfEven(a);
    RoundIsHalfEven(b);
  }

  lemma RoundOfWhole(q: int)
    ensures RoundQ31(q * UNITY) == q
  {
    RoundIsHalfEven(q * UNITY);
    HalfEvenIsUnique(q * UNITY, RoundQ31(q * UNITY), q);
  }

  // Samples.

  /** A sample attenuated. */
  function Scaled(gain: Gain, sample: int): int {
    RoundQ31(sample * gain)
  }

  /** The exact product over 2^31, to the nearest, at a half to the even one. */
  lemma ScaledIsNearest(gain: Gain, sample: int)
    ensures var apart := 2 * (sample * gain - Scaled(gain, sample) * 0x8000_0000);
            -0x8000_0000 <= apart <= 0x8000_0000 && (apart in {-0x8000_0000, 0x8000_0000} ==> Scaled(gain, sample) % 2 == 0)
  {
    RoundIsHalfEven(sample * gain);
  }

  function Magnitude(x: int): nat {
    if x >= 0 then x else -x
  }

  /** An attenuated sample is never larger than it was, on the same side of zero, and stays PCM24 without wrapping. */
  lemma ScaledShrinks(gain: Gain, sample: int)
    ensures Magnitude(Scaled(gain, sample)) <= Magnitude(sample)
    ensures sample >= 0 ==> Scaled(gain, sample) >= 0
    ensures sample <= 0 ==> Scaled(gain, sample) <= 0
    ensures PCM24_MIN <= sample <= PCM24_MAX ==> PCM24_MIN <= Scaled(gain, sample) <= PCM24_MAX
    ensures PCM24_MIN <= sample <= PCM24_MAX ==> -0x8000_0000_0000_0000 <= sample * gain <= 0x7FFF_FFFF_FFFF_FFFF
  {
    hide RoundQ31;
    RoundOfWhole(0);
    RoundOfWhole(sample);
    ProductBound(gain, sample);
    if sample >= 0 {
      RoundIsMonotone(0, sample * gain);
      RoundIsMonotone(sample * gain, sample * UNITY);
    } else {
      RoundIsMonotone(sample * gain, 0);
      RoundIsMonotone(sample * UNITY, sample * gain);
    }
  }

  lemma ProductBound(gain: Gain, sample: int)
    ensures sample >= 0 ==> 0 <= sample * gain <= sample * UNITY
    ensures sample <= 0 ==> sample * UNITY <= sample * gain <= 0
  {
  }

  /** Symmetric about zero. */
  lemma ScaledIsOdd(gain: Gain, sample: int)
    ensures Scaled(gain, -sample) == -Scaled(gain, sample)
  {
    hide RoundQ31;
    assert (-sample) * gain == -(sample * gain);
    RoundIsOdd(sample * gain);
  }

  /** Never reorders two samples. */
  lemma ScaledIsMonotone(gain: Gain, a: int, b: int)
    requires a <= b
    ensures Scaled(gain, a) <= Scaled(gain, b)
  {
    hide RoundQ31;
    assert a * gain <= b * gain;
    RoundIsMonotone(a * gain, b * gain);
  }

  /** Zero stays zero, and unity changes nothing. */
  lemma ScaledKeeps(gain: Gain, sample: int)
    ensures Scaled(gain, 0) == 0 && Scaled(UNITY, sample) == sample
  {
    hide RoundQ31;
    RoundOfWhole(0);
    RoundOfWhole(sample);
  }

  /** More tenths of attenuation never leave a sample louder. */
  lemma MoreIsQuieter(gains: seq<Gain>, less: nat, more: nat, sample: int)
    requires IsTable(gains) && less <= more <= MAX_TENTHS
    ensures Magnitude(Scaled(gains[more], sample)) <= Magnitude(Scaled(gains[less], sample))
  {
    hide RoundQ31;
    assert gains[more] <= gains[less];
    ScaledShrinks(gains[more], sample);
    ScaledShrinks(gains[less], sample);
    GainOrders(gains[more], gains[less], sample);
    if sample >= 0 {
      RoundIsMonotone(sample * gains[more], sample * gains[less]);
    } else {
      RoundIsMonotone(sample * gains[less], sample * gains[more]);
    }
  }

  lemma GainOrders(low: Gain, high: Gain, sample: int)
    requires low <= high
    ensures sample >= 0 ==> sample * low <= sample * high
    ensures sample <= 0 ==> sample * high <= sample * low
  {
  }

  // Spelling: an optional minus, whole decibels without a leading zero, at most one decimal.

  /** The pattern a level is spelt by: its sign, its whole decibels, its decimal if it has one. */
  ghost predicate Matches(text: string, negative: bool, whole: string, tenth: string) {
    && text == (if negative then "-" else "") + whole + (if tenth == "" then "" else "." + tenth)
    && Canonical(whole) && |whole| <= 2
    && |tenth| <= 1 && AllDigits(tenth)
  }

  /** A text that spells a level the player takes. */
  ghost predicate Spells(text: string, negative: bool, whole: string, tenth: string, tenths: nat) {
    && Matches(text, negative, whole, tenth)
    && Tenths(whole, tenth) == tenths <= MAX_TENTHS && (tenths == 0 || negative)
  }

  function Tenths(whole: string, tenth: string): nat
    requires AllDigits(whole) && AllDigits(tenth)
  {
    Value(whole) * 10 + Value(tenth)
  }

  /** A level in tenths: not above full level, not below -40.0 dB. */
  function Parse(text: string): Option<nat> {
    var negative := text != "" && text[0] == '-';
    var magnitude := if negative then text[1..] else text;
    var point := Find(magnitude, '.');
    var whole := if point.Some? then magnitude[..point.value] else magnitude;
    var tenth := if point.Some? then magnitude[point.value + 1..] else "0";
    if !Canonical(whole) || |whole| > 2 || |tenth| != 1 || !AllDigits(tenth) then None
    else if Tenths(whole, tenth) != 0 && !negative then None
    else if Tenths(whole, tenth) > MAX_TENTHS then None
    else Some(Tenths(whole, tenth))
  }

  /** The parser takes exactly the pattern, and reads its one way of matching. */
  lemma ParseIsPattern(text: string, tenths: nat)
    ensures Parse(text) == Some(tenths) <==>
            exists negative, whole, tenth :: Spells(text, negative, whole, tenth, tenths)
  {
    hide Parse, Spells;
    if Parse(text) == Some(tenths) {
      var negative, whole, tenth := PatternOf(text);
    }
    forall minus, whole, tenth | Spells(text, minus, whole, tenth, tenths)
      ensures Parse(text) == Some(tenths)
    {
      ParseMatch(text, minus, whole, tenth, tenths);
    }
  }

  lemma PatternOf(text: string) returns (negative: bool, whole: string, tenth: string)
    requires Parse(text).Some?
    ensures Spells(text, negative, whole, tenth, Parse(text).value)
  {
    hide Value, AllDigits;
    NoDigits();
    negative := text != "" && text[0] == '-';
    var magnitude := if negative then text[1..] else text;
    assert text == (if negative then "-" else "") + magnitude;
    var point := Find(magnitude, '.');
    hide Find;
    whole := if point.Some? then magnitude[..point.value] else magnitude;
    tenth := if point.Some? then magnitude[point.value + 1..] else "";
    NoneIsZero(whole);
    assert magnitude == whole + (if tenth == "" then "" else "." + tenth);
  }

  lemma NoDigits()
    ensures AllDigits("")
  {
  }

  lemma NoneIsZero(whole: string)
    requires AllDigits(whole)
    ensures Tenths(whole, "") == Tenths(whole, "0")
  {
    assert "0"[..0] == "";
  }

  lemma ParseMatch(text: string, minus: bool, whole: string, tenth: string, tenths: nat)
    requires Spells(text, minus, whole, tenth, tenths)
    ensures Parse(text) == Some(tenths)
  {
    hide Value, Find;
    assert whole[0] != '-';
    var magnitude := whole + (if tenth == "" then "" else "." + tenth);
    assert text[if minus then 1 else 0..] == magnitude;
    if tenth == "" {
      assert magnitude == whole;
      NoneIsZero(whole);
      assert '.' !in whole;
    } else {
      assert magnitude[..|whole|] == whole && magnitude[|whole| + 1..] == tenth;
      FindIs(magnitude, '.', |whole|);
    }
  }

  /** The canonical spelling of a level. */
  function Spelling(tenths: nat): string {
    if tenths == 0 then "0"
    else "-" + Decimal(tenths / 10) + if tenths % 10 == 0 then "" else "." + [DigitChar(tenths % 10)]
  }

  /** A level's spelling parses back to the level. */
  lemma SpellingParses(tenths: nat)
    requires tenths <= MAX_TENTHS
    ensures Parse(Spelling(tenths)) == Some(tenths)
    ensures |Spelling(tenths)| <= 5
  {
    hide Value, Decimal;
    var whole := if tenths == 0 then "0" else Decimal(tenths / 10);
    var tenth := if tenths % 10 == 0 then "" else [DigitChar(tenths % 10)];
    OneDigit();
    DecimalIsCanonical(tenths / 10);
    assert Pow10(2) == 10 * Pow10(1) == 100 * Pow10(0);
    DecimalFits(tenths / 10, 2);
    if tenths % 10 != 0 {
      DigitIs(DigitChar(tenths % 10));
    }
    ParseMatch(Spelling(tenths), tenths != 0, whole, tenth, tenths);
  }

  lemma OneDigit()
    ensures Value("") == 0 && Canonical("0") && Value("0") == 0
  {
    assert "0"[..0] == "";
  }

  lemma DigitIs(c: char)
    requires IsDigit(c)
    ensures Value([c]) == DigitValue(c)
  {
    assert [c][..0] == "";
  }

  /** whole_decibels of common/attenuation.hpp. */
  method WholeDecibels(text: string) returns (value: Option<nat>)
    ensures value == if Canonical(text) && |text| <= 2 then Some(Value(text)) else None
  {
    if text == "" || |text| > 2 || (|text| > 1 && text[0] == '0') {
      return None;
    }
    var total := 0;
    for k := 0 to |text|
      invariant AllDigits(text[..k]) && total == Value(text[..k])
    {
      var place := FindDigit(text[k]);
      if place.None? {
        return None;
      }
      assert text[..k + 1][..k] == text[..k];
      total := total * 10 + place.value;
    }
    assert text[..|text|] == text;
    value := Some(total);
  }

  /** parse of common/attenuation.hpp. */
  method ParseLevel(text: string) returns (tenths: Option<nat>)
    ensures tenths == Parse(text)
  {
    hide Value, Find, Canonical;
    var negative := text != "" && text[0] == '-';
    var magnitude := if negative then text[1..] else text;
    var point := Find(magnitude, '.');
    var whole := WholeDecibels(if point.Some? then magnitude[..point.value] else magnitude);
    var decimals := if point.Some? then magnitude[point.value + 1..] else "0";
    var tenth: Option<nat> := None;
    if |decimals| == 1 {
      tenth := FindDigit(decimals[0]);
      if IsDigit(decimals[0]) {
        DigitIs(decimals[0]);
        assert decimals == [decimals[0]];
      }
    }
    if whole.None? || tenth.None? {
      return None;
    }
    var total := whole.value * 10 + tenth.value;
    if total != 0 && !negative {
      return None;
    }
    tenths := if total > MAX_TENTHS then None else Some(total);
  }
}
