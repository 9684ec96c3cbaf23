/**
 The reflected 32-bit CRCs: CRC-32 by table (common/crc32.hpp, section 8 of RFC 1952) and
 CRC-32C bit by bit (host/dd008.py, section 12.1 of RFC 3720). Both are the same division
 with another polynomial, so everything here is stated for any polynomial.
 */
module Crc {
  import opened Words

  type Byte = bv8

  const CRC32_POLYNOMIAL: bv32 := 0xEDB8_8320
  const CRC32C_POLYNOMIAL: bv32 := 0x82F6_3B78
  const INITIAL: bv32 := 0xFFFF_FFFF
  const FINAL_XOR: bv32 := 0xFFFF_FFFF
  const TABLE_SIZE: nat := 256

  // Word operations by name, so that proofs can treat them as a whole.

  function Xor(a: bv32, b: bv32): bv32 {
    a ^ b
  }

  function Wide(byte: Byte): bv32 {
    byte as bv32
  }

  predicate Odd(s: bv32) {
    s & 1 != 0
  }

  function Half(s: bv32): bv32 {
    s >> 1
  }

  function LowByte(s: bv32): bv32 {
    s & 0xFF
  }

  function Down(s: bv32): bv32 {
    s >> 8
  }

  function Up(s: bv32): bv32 {
    s << 8
  }

  /** The same bytes as a CRC sees them. */
  function Raw(bytes: Bytes): (raw: seq<Byte>)
    ensures |raw| == |bytes|
  {
    seq(|bytes|, i requires 0 <= i < |bytes| => bytes[i] as bv8)
  }

  lemma RawJoins(a: Bytes, b: Bytes)
    ensures Raw(a + b) == Raw(a) + Raw(b)
  {
  }

  /** One bit of the division. */
  function Step(poly: bv32, s: bv32): bv32 {
    if Odd(s) then Xor(Half(s), poly) else Half(s)
  }

  function Steps(poly: bv32, s: bv32, bits: nat): bv32
    decreases bits
  {
    if bits == 0 then s else Steps(poly, Step(poly, s), bits - 1)
  }

  /** The state after one byte: eight steps of the state with the byte taken in. */
  function TakeByte(poly: bv32, s: bv32, byte: Byte): bv32 {
    Steps(poly, Xor(s, Wide(byte)), 8)
  }

  function Take(poly: bv32, s: bv32, bytes: seq<Byte>): bv32
    decreases |bytes|
  {
    if bytes == [] then s
    else TakeByte(poly, Take(poly, s, bytes[..|bytes| - 1]), bytes[|bytes| - 1])
  }

  /** The check value of a message. */
  function Checksum(poly: bv32, bytes: seq<Byte>): bv32 {
    Xor(Take(poly, INITIAL, bytes), FINAL_XOR)
  }

  /** A polynomial whose division can be undone: both have the top bit. */
  predicate TopSet(poly: bv32) {
    poly & 0x8000_0000 != 0
  }

  // Facts of 32-bit words.

  lemma XorCancels(a: bv32, b: bv32)
    ensures Xor(Xor(a, b), b) == a && Xor(b, Xor(b, a)) == a
  {
  }

  lemma XorGroups(a: bv32, b: bv32, c: bv32)
    ensures Xor(Xor(a, b), c) == Xor(a, Xor(b, c))
  {
  }

  lemma XorZero(a: bv32)
    ensures Xor(a, 0) == a
  {
  }

  lemma SplitWord(s: bv32)
    ensures s == Xor(Up(Down(s)), LowByte(s))
    ensures LowByte(Up(Down(s))) == 0 && Down(Up(Down(s))) == Down(s)
  {
  }

  lemma ByteBelow(s: bv32, byte: Byte)
    ensures Down(Xor(s, Wide(byte))) == Down(s)
  {
  }

  lemma ByteAndRest(first: Byte, later: bv32)
    requires later <= 0xFF_FFFF
    ensures Down(Xor(Wide(first), Up(later))) == later && LowByte(Xor(Wide(first), Up(later))) == Wide(first)
    ensures LowByte(Up(later)) == 0 && Down(Up(later)) == later
  {
  }

  lemma ByteGrows(first: Byte, later: bv32)
    ensures later == 0 ==> Xor(Wide(first), Up(later)) <= 0xFF
    ensures later <= 0xFF ==> Xor(Wide(first), Up(later)) <= 0xFFFF
    ensures later <= 0xFFFF ==> Xor(Wide(first), Up(later)) <= 0xFF_FFFF
  {
  }

  lemma WideApart(a: Byte, b: Byte)
    requires a != b
    ensures Wide(a) != Wide(b)
  {
  }

  lemma Halves(a: bv32, b: bv32)
    ensures Half(Xor(a, b)) == Xor(Half(a), Half(b))
  {
  }

  lemma OddOrEven(a: bv32)
    ensures a & 1 == if Odd(a) then 1 else 0
  {
  }

  lemma Parity(a: bv32, b: bv32)
    ensures (a ^ b) & 1 == (a & 1) ^ (b & 1)
  {
  }

  lemma Odds(a: bv32, b: bv32)
    ensures Odd(Xor(a, b)) == (Odd(a) != Odd(b))
  {
    OddOrEven(a);
    OddOrEven(b);
    Parity(a, b);
  }

  lemma XorCommutes(a: bv32, b: bv32)
    ensures Xor(a, b) == Xor(b, a)
  {
  }

  lemma FoldOnce(p: bv32, a: bv32, b: bv32)
    ensures Xor(Xor(a, p), Xor(b, p)) == Xor(a, b)
    ensures Xor(Xor(a, p), b) == Xor(Xor(a, b), p)
    ensures Xor(a, Xor(b, p)) == Xor(Xor(a, b), p)
  {
    hide Xor;
    XorGroups(a, p, Xor(b, p));
    XorCommutes(b, p);
    XorCancels(p, b);
    XorCommutes(p, Xor(p, b));
    XorCancels(b, p);
    XorGroups(a, p, b);
    XorGroups(a, b, p);
  }

  // The division.

  lemma StepIsLinear(poly: bv32, a: bv32, b: bv32)
    ensures Step(poly, Xor(a, b)) == Xor(Step(poly, a), Step(poly, b))
  {
    hide Xor, Half, Odd;
    Halves(a, b);
    Odds(a, b);
    FoldOnce(poly, Half(a), Half(b));
  }

  lemma {:induction false} StepsAreLinear(poly: bv32, a: bv32, b: bv32, bits: nat)
    ensures Steps(poly, Xor(a, b), bits) == Xor(Steps(poly, a, bits), Steps(poly, b, bits))
    decreases bits
  {
    hide Step, Xor;
    if bits > 0 {
      StepIsLinear(poly, a, b);
      StepsAreLinear(poly, Step(poly, a), Step(poly, b), bits - 1);
    }
  }

  lemma {:induction false} StepsAdd(poly: bv32, s: bv32, m: nat, n: nat)
    ensures Steps(poly, Steps(poly, s, m), n) == Steps(poly, s, m + n)
    decreases m
  {
    hide Step;
    if m > 0 {
      StepsAdd(poly, Step(poly, s), m - 1, n);
    }
  }

  lemma LowBitClear(s: bv32, low: bv32)
    requires s & ((low << 1) | 1) == 0
    ensures s & 1 == 0 && (s >> 1) & low == 0
  {
  }

  /** With the bits under the mask clear, a step only shifts, and the smaller mask is clear after it. */
  lemma ShiftOne(poly: bv32, s: bv32, low: bv32, bits: nat)
    requires s & ((low << 1) | 1) == 0
    ensures Steps(poly, s, bits + 1) == Steps(poly, s >> 1, bits) && (s >> 1) & low == 0
  {
    LowBitClear(s, low);
    assert Step(poly, s) == s >> 1;
  }

  lemma Masks()
    ensures ((0x7F as bv32) << 1) | 1 == 0xFF && ((0x3F as bv32) << 1) | 1 == 0x7F && ((0x1F as bv32) << 1) | 1 == 0x3F
    ensures ((0x0F as bv32) << 1) | 1 == 0x1F && ((0x07 as bv32) << 1) | 1 == 0x0F && ((0x03 as bv32) << 1) | 1 == 0x07
    ensures ((0x01 as bv32) << 1) | 1 == 0x03 && ((0x00 as bv32) << 1) | 1 == 0x01
  {
  }

  lemma EightShifts(s: bv32)
    ensures (((((((s >> 1) >> 1) >> 1) >> 1) >> 1) >> 1) >> 1) >> 1 == s >> 8
  {
  }

  lemma NoSteps(poly: bv32, s: bv32)
    ensures Steps(poly, s, 0) == s
  {
  }

  /** With the low byte zero, eight steps only shift. */
  lemma ShiftOnly(poly: bv32, s: bv32)
    requires LowByte(s) == 0
    ensures Steps(poly, s, 8) == Down(s)
  {
    hide Step, Steps;
    Masks();
    ShiftOne(poly, s, 0x7F, 7);
    var s1 := s >> 1;
    ShiftOne(poly, s1, 0x3F, 6);
    var s2 := s1 >> 1;
    ShiftOne(poly, s2, 0x1F, 5);
    var s3 := s2 >> 1;
    ShiftOne(poly, s3, 0x0F, 4);
    var s4 := s3 >> 1;
    ShiftOne(poly, s4, 0x07, 3);
    var s5 := s4 >> 1;
    ShiftOne(poly, s5, 0x03, 2);
    var s6 := s5 >> 1;
    ShiftOne(poly, s6, 0x01, 1);
    var s7 := s6 >> 1;
    ShiftOne(poly, s7, 0x00, 0);
    NoSteps(poly, s7 >> 1);
    EightShifts(s);
  }

  /** The table step, the entry for the low byte folded with the rest of the state, is eight single steps. */
  lemma TableStep(poly: bv32, s: bv32, byte: Byte)
    ensures Xor(Down(s), Steps(poly, LowByte(Xor(s, Wide(byte))), 8)) == TakeByte(poly, s, byte)
  {
    hide Step, Steps, Xor, Wide, LowByte, Up, Down;
    var t := Xor(s, Wide(byte));
    SplitWord(t);
    ByteBelow(s, byte);
    StepsAreLinear(poly, Up(Down(t)), LowByte(t), 8);
    ShiftOnly(poly, Up(Down(t)));
  }

  /** Any split of the input gives the same state. */
  lemma {:induction false} TakeInParts(poly: bv32, s: bv32, a: seq<Byte>, b: seq<Byte>)
    ensures Take(poly, s, a + b) == Take(poly, Take(poly, s, a), b)
    decreases |b|
  {
    hide TakeByte;
    if b == [] {
      assert a + b == a;
    } else {
      TakeInParts(poly, s, a, b[..|b| - 1]);
      assert (a + b)[..|a + b| - 1] == a + b[..|b| - 1];
    }
  }

  // The standard check value.

  lemma OneMore(poly: bv32, s: bv32, bytes: seq<Byte>, byte: Byte)
    ensures Take(poly, s, bytes + [byte]) == TakeByte(poly, Take(poly, s, bytes), byte)
  {
    hide TakeByte;
    assert (bytes + [byte])[..|bytes|] == bytes;
  }

  lemma EightSteps(poly: bv32, s: bv32)
    ensures Steps(poly, s, 8) == Step(poly, Step(poly, Step(poly, Step(poly, Step(poly, Step(poly, Step(poly, Step(poly, s))))))))
  {
    hide Step;
  }

  /** The ASCII digits from 1 to 9. */
  const DIGITS: seq<Byte> := [0x31, 0x32, 0x33, 0x34, 0x35, 0x36, 0x37, 0x38, 0x39]

  /** The states after each of the nine digits. */
  lemma DigitByDigit()
    ensures TakeByte(CRC32_POLYNOMIAL, 0xFFFF_FFFF, 0x31) == 0x7C23_1048
    ensures TakeByte(CRC32_POLYNOMIAL, 0x7C23_1048, 0x32) == 0xB0AC_BB32
    ensures TakeByte(CRC32_POLYNOMIAL, 0xB0AC_BB32, 0x33) == 0x77B7_9C2D
    ensures TakeByte(CRC32_POLYNOMIAL, 0x77B7_9C2D, 0x34) == 0x641C_1F5C
    ensures TakeByte(CRC32_POLYNOMIAL, 0x641C_1F5C, 0x35) == 0x340A_C5E3
    ensures TakeByte(CRC32_POLYNOMIAL, 0x340A_C5E3, 0x36) == 0xF68D_2C9E
    ensures TakeByte(CRC32_POLYNOMIAL, 0xF68D_2C9E, 0x37) == 0xAFFC_9660
    ensures TakeByte(CRC32_POLYNOMIAL, 0xAFFC_9660, 0x38) == 0x651F_2550
    ensures TakeByte(CRC32_POLYNOMIAL, 0x651F_2550, 0x39) == 0x340B_C6D9
  {
    EightSteps(CRC32_POLYNOMIAL, 0xFFFF_FFCE);
    EightSteps(CRC32_POLYNOMIAL, 0x7C23_107A);
    EightSteps(CRC32_POLYNOMIAL, 0xB0AC_BB01);
    EightSteps(CRC32_POLYNOMIAL, 0x77B7_9C19);
    EightSteps(CRC32_POLYNOMIAL, 0x641C_1F69);
    EightSteps(CRC32_POLYNOMIAL, 0x340A_C5D5);
    EightSteps(CRC32_POLYNOMIAL, 0xF68D_2CA9);
    EightSteps(CRC32_POLYNOMIAL, 0xAFFC_9658);
    EightSteps(CRC32_POLYNOMIAL, 0x651F_2569);
  }

  lemma DigitByDigitC()
    ensures TakeByte(CRC32C_POLYNOMIAL, 0xFFFF_FFFF, 0x31) == 0x6F0A_661C
    ensures TakeByte(CRC32C_POLYNOMIAL, 0x6F0A_661C, 0x32) == 0x8CAA_3B9F
    ensures TakeByte(CRC32C_POLYNOMIAL, 0x8CAA_3B9F, 0x33) == 0xEF84_D04D
    ensures TakeByte(CRC32C_POLYNOMIAL, 0xEF84_D04D, 0x34) == 0x09C5_0B11
    ensures TakeByte(CRC32C_POLYNOMIAL, 0x09C5_0B11, 0x35) == 0xE72E_DCCA
    ensures TakeByte(CRC32C_POLYNOMIAL, 0xE72E_DCCA, 0x36) == 0xBECA_8E79
    ensures TakeByte(CRC32C_POLYNOMIAL, 0xBECA_8E79, 0x37) == 0xEDBD_6815
    ensures TakeByte(CRC32C_POLYNOMIAL, 0xEDBD_6815, 0x38) == 0x9F78_7F65
    ensures TakeByte(CRC32C_POLYNOMIAL, 0x9F78_7F65, 0x39) == 0x1CF9_6D7C
  {
    EightSteps(CRC32C_POLYNOMIAL, 0xFFFF_FFCE);
    EightSteps(CRC32C_POLYNOMIAL, 0x6F0A_662E);
    EightSteps(CRC32C_POLYNOMIAL, 0x8CAA_3BAC);
    EightSteps(CRC32C_POLYNOMIAL, 0xEF84_D079);
    EightSteps(CRC32C_POLYNOMIAL, 0x09C5_0B24);
    EightSteps(CRC32C_POLYNOMIAL, 0xE72E_DCFC);
    EightSteps(CRC32C_POLYNOMIAL, 0xBECA_8E4E);
    EightSteps(CRC32C_POLYNOMIAL, 0xEDBD_682D);
    EightSteps(CRC32C_POLYNOMIAL, 0x9F78_7F5C);
  }

  /** Nine bytes, one at a time. */
  lemma NineBytes(poly: bv32, s: bv32, b: seq<Byte>)
    requires |b| == 9
    ensures Take(poly, s, b)
         == TakeByte(poly, TakeByte(poly, TakeByte(poly, TakeByte(poly, TakeByte(poly, TakeByte(poly, TakeByte(poly, TakeByte(poly,
              TakeByte(poly, s, b[0]), b[1]), b[2]), b[3]), b[4]), b[5]), b[6]), b[7]), b[8])
  {
    hide TakeByte;
    assert b[..0] == [] && b[..9] == b;
    for k := 0 to 8
      invariant forall i :: 0 <= i < k ==> Take(poly, s, b[..i + 1]) == TakeByte(poly, Take(poly, s, b[..i]), b[i])
    {
      assert b[..k + 1] == b[..k] + [b[k]];
      OneMore(poly, s, b[..k], b[k]);
    }
    assert b == b[..8] + [b[8]];
    OneMore(poly, s, b[..8], b[8]);
  }

  /** The standard check values: both CRCs of the ASCII digits from 1 to 9, and of nothing. */
  lemma StandardChecks()
    ensures Checksum(CRC32_POLYNOMIAL, DIGITS) == 0xCBF4_3926 && Checksum(CRC32C_POLYNOMIAL, DIGITS) == 0xE306_9283
    ensures Checksum(CRC32_POLYNOMIAL, []) == 0 && Checksum(CRC32C_POLYNOMIAL, []) == 0
  {
    hide TakeByte;
    NineBytes(CRC32_POLYNOMIAL, INITIAL, DIGITS);
    NineBytes(CRC32C_POLYNOMIAL, INITIAL, DIGITS);
    DigitByDigit();
    DigitByDigitC();
  }

  // No two states meet again.

  function Unstep(poly: bv32, r: bv32): bv32 {
    if TopSet(r) then DoubleOdd(Xor(poly, r)) else Double(r)
  }

  function Double(s: bv32): bv32 {
    s << 1
  }

  function DoubleOdd(s: bv32): bv32 {
    (s << 1) | 1
  }

  lemma DoubleBack(s: bv32)
    ensures Odd(s) ==> DoubleOdd(Half(s)) == s
    ensures !Odd(s) ==> Double(Half(s)) == s
    ensures !TopSet(Half(s))
  {
  }

  lemma TopStays(a: bv32, poly: bv32)
    requires !TopSet(a) && TopSet(poly)
    ensures TopSet(Xor(a, poly))
  {
  }

  lemma StepUndone(poly: bv32, s: bv32)
    requires TopSet(poly)
    ensures Unstep(poly, Step(poly, s)) == s
  {
    hide Xor, Half, Odd, TopSet, Double, DoubleOdd;
    DoubleBack(s);
    TopStays(Half(s), poly);
    XorCommutes(Half(s), poly);
    XorCancels(Half(s), poly);
  }

  lemma {:induction false} StepsApart(poly: bv32, a: bv32, b: bv32, bits: nat)
    requires TopSet(poly) && a != b
    ensures Steps(poly, a, bits) != Steps(poly, b, bits)
    decreases bits
  {
    hide Step, Unstep, TopSet;
    if bits > 0 {
      StepUndone(poly, a);
      StepUndone(poly, b);
      StepsApart(poly, Step(poly, a), Step(poly, b), bits - 1);
    }
  }

  lemma ByteApart(poly: bv32, s: bv32, t: bv32, byte: Byte)
    requires TopSet(poly) && s != t
    ensures TakeByte(poly, s, byte) != TakeByte(poly, t, byte)
  {
    hide Step, Steps, Xor, TopSet, Wide;
    XorCancels(s, Wide(byte));
    XorCancels(t, Wide(byte));
    StepsApart(poly, Xor(s, Wide(byte)), Xor(t, Wide(byte)), 8);
  }

  /** States that differ stay different through the same bytes. */
  lemma {:induction false} TakeApart(poly: bv32, a: bv32, b: bv32, bytes: seq<Byte>)
    requires TopSet(poly) && a != b
    ensures Take(poly, a, bytes) != Take(poly, b, bytes)
    decreases |bytes|
  {
    hide TakeByte, TopSet;
    if bytes != [] {
      var front := bytes[..|bytes| - 1];
      TakeApart(poly, a, b, front);
      ByteApart(poly, Take(poly, a, front), Take(poly, b, front), bytes[|bytes| - 1]);
    }
  }

  // Four bytes as one word.

  /** At most four bytes as one word, the first byte lowest. */
  function Packed(bytes: seq<Byte>): bv32 {
    if bytes == [] then 0 else Xor(Wide(bytes[0]), Up(Packed(bytes[1..])))
  }

  lemma PackedFits(bytes: seq<Byte>)
    requires |bytes| <= 3
    ensures Packed(bytes) <= 0xFF_FFFF
  {
    hide Xor, Wide, Up;
    if bytes != [] {
      ByteGrows(bytes[0], Packed(bytes[1..]));
      if |bytes| > 1 {
        ByteGrows(bytes[1], Packed(bytes[2..]));
        assert bytes[1..][0] == bytes[1] && bytes[1..][1..] == bytes[2..];
        if |bytes| > 2 {
          ByteGrows(bytes[2], Packed(bytes[3..]));
          assert bytes[2..][0] == bytes[2] && bytes[2..][1..] == bytes[3..];
        }
      }
    }
  }

  lemma {:induction false} PackedApart(a: seq<Byte>, b: seq<Byte>)
    requires |a| == |b| <= 4 && a != b
    ensures Packed(a) != Packed(b)
    decreases |a|
  {
    hide Xor, Wide, Up, Down, LowByte;
    PackedFits(a[1..]);
    PackedFits(b[1..]);
    ByteAndRest(a[0], Packed(a[1..]));
    ByteAndRest(b[0], Packed(b[1..]));
    if a[1..] != b[1..] {
      PackedApart(a[1..], b[1..]);
    } else {
      assert a == [a[0]] + a[1..] && b == [b[0]] + b[1..];
      WideApart(a[0], b[0]);
    }
  }

  /** Taking a word in after a byte's steps is taking it in one byte higher before them. */
  lemma TakeLater(poly: bv32, s: bv32, byte: Byte, word: bv32)
    requires word <= 0xFF_FFFF
    ensures Xor(TakeByte(poly, s, byte), word) == Steps(poly, Xor(s, Xor(Wide(byte), Up(word))), 8)
  {
    hide Step, Steps, Xor, Wide, Up, Down, LowByte;
    ByteAndRest(byte, word);
    ShiftOnly(poly, Up(word));
    StepsAreLinear(poly, Xor(s, Wide(byte)), Up(word), 8);
    XorGroups(s, Wide(byte), Up(word));
  }

  lemma OneByte(poly: bv32, s: bv32, byte: Byte)
    ensures Take(poly, s, [byte]) == TakeByte(poly, s, byte)
  {
    hide TakeByte;
    assert [byte][..0] == [];
    assert Take(poly, s, [byte][..0]) == s;
  }

  /** Up to four bytes act as one word taken in before all of their steps. */
  lemma {:induction false} TakeWord(poly: bv32, s: bv32, bytes: seq<Byte>)
    requires |bytes| <= 4
    ensures Take(poly, s, bytes) == Steps(poly, Xor(s, Packed(bytes)), 8 * |bytes|)
    decreases |bytes|
  {
    hide Step, Steps, TakeByte, Xor, Wide, Up;
    if bytes == [] {
      NoSteps(poly, s);
      XorZero(s);
    } else {
      var rest := bytes[1..];
      TakeInParts(poly, s, [bytes[0]], rest);
      assert bytes == [bytes[0]] + rest;
      OneByte(poly, s, bytes[0]);
      TakeWord(poly, TakeByte(poly, s, bytes[0]), rest);
      PackedFits(rest);
      TakeLater(poly, s, bytes[0], Packed(rest));
      StepsAdd(poly, Xor(s, Packed(bytes)), 8, 8 * |rest|);
    }
  }

  /** Different windows of at most four bytes leave different states. */
  lemma WindowsApart(poly: bv32, s: bv32, p: seq<Byte>, q: seq<Byte>)
    requires TopSet(poly) && |p| == |q| <= 4 && p != q
    ensures Take(poly, s, p) != Take(poly, s, q)
  {
    hide Step, Steps, Take, Packed, Xor, TopSet;
    TakeWord(poly, s, p);
    TakeWord(poly, s, q);
    PackedApart(p, q);
    XorCancels(Packed(p), s);
    XorCancels(Packed(q), s);
    StepsApart(poly, Xor(s, Packed(p)), Xor(s, Packed(q)), 8 * |p|);
  }

  /** A message changed only within four consecutive bytes has another check value. */
  lemma BurstIsSeen(poly: bv32, a: seq<Byte>, b: seq<Byte>, at: nat)
    requires TopSet(poly) && |a| == |b| && a != b
    requires forall k :: 0 <= k < |a| && !(at <= k < at + 4) ==> a[k] == b[k]
    ensures Checksum(poly, a) != Checksum(poly, b)
  {
    hide Take, Xor, TopSet;
    assert at < |a|;
    var end := if at + 4 <= |a| then at + 4 else |a|;
    var front, back := a[..at], a[end..];
    var p, q := a[at..end], b[at..end];
    assert a == (front + p) + back;
    assert b == (front + q) + back;
    TakeInParts(poly, INITIAL, front + p, back);
    TakeInParts(poly, INITIAL, front + q, back);
    TakeInParts(poly, INITIAL, front, p);
    TakeInParts(poly, INITIAL, front, q);
    var s := Take(poly, INITIAL, front);
    WindowsApart(poly, s, p, q);
    TakeApart(poly, Take(poly, s, p), Take(poly, s, q), back);
    XorCancels(Take(poly, INITIAL, a), FINAL_XOR);
    XorCancels(Take(poly, INITIAL, b), FINAL_XOR);
  }

  // A message and its own check value.

  function LowOf(s: bv32): Byte {
    (s & 0xFF) as bv8
  }

  /** A check value's bytes, lowest first. */
  function CrcBytes(crc: bv32): (bytes: seq<Byte>)
    ensures |bytes| == 4
  {
    [LowOf(crc), LowOf(Down(crc)), LowOf(Down(Down(crc))), LowOf(Down(Down(Down(crc))))]
  }

  lemma Peel(s: bv32)
    ensures s == Xor(Wide(LowOf(s)), Up(Down(s)))
  {
  }

  lemma FourBytesDown(s: bv32)
    ensures Down(Down(Down(Down(s)))) == 0 && Up(0) == 0
  {
  }

  lemma CrcBytesPack(crc: bv32)
    ensures Packed(CrcBytes(crc)) == crc
  {
    hide Xor, Up, Down, LowOf, Wide;
    var bytes := CrcBytes(crc);
    var d1 := Down(crc);
    var d2 := Down(d1);
    var d3 := Down(d2);
    Peel(crc);
    Peel(d1);
    Peel(d2);
    Peel(d3);
    FourBytesDown(crc);
    assert bytes[1..] == [LowOf(d1), LowOf(d2), LowOf(d3)];
    assert bytes[1..][1..] == [LowOf(d2), LowOf(d3)];
    assert bytes[1..][1..][1..] == [LowOf(d3)];
    assert Packed([LowOf(d3)]) == d3;
    assert Packed([LowOf(d2), LowOf(d3)]) == d2;
    assert Packed([LowOf(d1), LowOf(d2), LowOf(d3)]) == d1;
  }

  /** A message followed by its check value always leaves the same state. */
  lemma Residue(poly: bv32, bytes: seq<Byte>)
    ensures Take(poly, INITIAL, bytes + CrcBytes(Checksum(poly, bytes))) == Steps(poly, FINAL_XOR, 32)
  {
    hide Take, Steps, Xor, Packed, CrcBytes;
    var s := Take(poly, INITIAL, bytes);
    var crc := Checksum(poly, bytes);
    TakeInParts(poly, INITIAL, bytes, CrcBytes(crc));
    TakeWord(poly, s, CrcBytes(crc));
    CrcBytesPack(crc);
    XorCancels(FINAL_XOR, s);
  }

  /** Changed within four consecutive bytes, a message and its check value never match again. */
  lemma CorruptionIsSeen(poly: bv32, a: seq<Byte>, b: seq<Byte>, at: nat)
    requires TopSet(poly)
    requires var s, t := a + CrcBytes(Checksum(poly, a)), b + CrcBytes(Checksum(poly, b));
             && |a| == |b|
             && forall k :: 0 <= k < |s| && !(at <= k < at + 4) ==> s[k] == t[k]
    ensures a == b
  {
    hide Take, Steps, Xor, TopSet, CrcBytes;
    var s, t := a + CrcBytes(Checksum(poly, a)), b + CrcBytes(Checksum(poly, b));
    Residue(poly, a);
    Residue(poly, b);
    if s != t {
      BurstIsSeen(poly, s, t, at);
      assert false;
    }
    assert a == s[..|a|] && b == t[..|a|];
  }

  lemma IntBack(x: nat)
    requires x < 256
    ensures (x as bv8) as int % 256 == x
  {
  }

  // The programs.

  /** make_crc32_table: every byte's remainder, bit by bit. */
  method MakeTable() returns (table: seq<bv32>)
    ensures |table| == TABLE_SIZE
    ensures forall k :: 0 <= k < TABLE_SIZE ==> table[k] == Steps(CRC32_POLYNOMIAL, k as bv32, 8)
  {
    hide Step, Steps;
    table := [];
    for byte := 0 to TABLE_SIZE
      invariant |table| == byte
      invariant forall k :: 0 <= k < byte ==> table[k] == Steps(CRC32_POLYNOMIAL, k as bv32, 8)
    {
      var entry := Remainder(byte as bv32);
      table := table + [entry];
    }
  }

  method Remainder(byte: bv32) returns (remainder: bv32)
    ensures remainder == Steps(CRC32_POLYNOMIAL, byte, 8)
  {
    hide Step;
    remainder := byte;
    for bit := 0 to 8
      invariant Steps(CRC32_POLYNOMIAL, remainder, 8 - bit) == Steps(CRC32_POLYNOMIAL, byte, 8)
    {
      remainder := Divide(remainder);
    }
  }

  method Divide(s: bv32) returns (r: bv32)
    ensures r == Step(CRC32_POLYNOMIAL, s)
  {
    r := if s & 1 != 0 then (s >> 1) ^ CRC32_POLYNOMIAL else s >> 1;
  }

  /** The running CRC-32: a table lookup a byte. */
  class Crc32 {
    const table: seq<bv32>
    var state: bv32

    ghost predicate Valid()
      reads this
    {
      |table| == TABLE_SIZE && forall k :: 0 <= k < TABLE_SIZE ==> table[k] == Steps(CRC32_POLYNOMIAL, k as bv32, 8)
    }

    constructor ()
      ensures Valid() && state == INITIAL
    {
      var made := MakeTable();
      table := made;
      state := INITIAL;
    }

    method Update(bytes: seq<Byte>)
      requires Valid()
      modifies `state
      ensures state == Take(CRC32_POLYNOMIAL, old(state), bytes)
    {
      hide Steps, TakeByte;
      for k := 0 to |bytes|
        invariant state == Take(CRC32_POLYNOMIAL, old(state), bytes[..k])
      {
        UpdateByte(bytes[k]);
        assert bytes[..k + 1][..k] == bytes[..k];
      }
      assert bytes[..|bytes|] == bytes;
    }

    method UpdateByte(byte: Byte)
      requires Valid()
      modifies `state
      ensures state == TakeByte(CRC32_POLYNOMIAL, old(state), byte)
    {
      hide Steps, Step, TakeByte, Xor, Wide, LowByte, Down;
      var index := LowByte(Xor(state, Wide(byte)));
      IndexFits(Xor(state, Wide(byte)));
      TableStep(CRC32_POLYNOMIAL, state, byte);
      state := Xor(Down(state), table[index as nat]);
    }

    method Reset()
      modifies `state
      ensures state == INITIAL
    {
      state := INITIAL;
    }

    function Value(): (value: bv32)
      reads this
    {
      Xor(state, FINAL_XOR)
    }
  }

  lemma IndexFits(s: bv32)
    ensures LowByte(s) as nat < TABLE_SIZE && (LowByte(s) as nat) as bv32 == LowByte(s)
  {
    assert LowByte(s) <= 0xFF;
  }

  /** The running CRC over any pieces of a message is the check value of the whole. */
  method Crc32OfPieces(pieces: seq<seq<Byte>>) returns (value: bv32)
    ensures value == Checksum(CRC32_POLYNOMIAL, Joined(pieces))
  {
    hide Take, Xor;
    var crc := new Crc32();
    assert pieces[..0] == [];
    assert Take(CRC32_POLYNOMIAL, INITIAL, []) == INITIAL by {
      Nothing(CRC32_POLYNOMIAL, INITIAL);
    }
    for k := 0 to |pieces|
      invariant crc.Valid() && crc.state == Take(CRC32_POLYNOMIAL, INITIAL, Joined(pieces[..k]))
    {
      TakeInParts(CRC32_POLYNOMIAL, INITIAL, Joined(pieces[..k]), pieces[k]);
      assert pieces[..k + 1][..k] == pieces[..k];
      crc.Update(pieces[k]);
    }
    assert pieces[..|pieces|] == pieces;
    value := crc.Value();
  }

  lemma Nothing(poly: bv32, s: bv32)
    ensures Take(poly, s, []) == s
  {
  }

  /** crc32c of host/dd008.py: bit by bit, the polynomial masked in. */
  method Crc32c(payload: seq<Byte>) returns (crc: bv32)
    ensures crc == Checksum(CRC32C_POLYNOMIAL, payload)
  {
    hide TakeByte;
    crc := INITIAL;
    for k := 0 to |payload|
      invariant crc == Take(CRC32C_POLYNOMIAL, INITIAL, payload[..k])
    {
      crc := EightBits(crc, payload[k]);
      assert payload[..k + 1][..k] == payload[..k];
    }
    assert payload[..|payload|] == payload;
    crc := Xor(crc, FINAL_XOR);
  }

  method EightBits(s: bv32, byte: Byte) returns (crc: bv32)
    ensures crc == TakeByte(CRC32C_POLYNOMIAL, s, byte)
  {
    hide Step, Xor, Wide;
    crc := Xor(s, Wide(byte));
    for bit := 0 to 8
      invariant Steps(CRC32C_POLYNOMIAL, crc, 8 - bit) == TakeByte(CRC32C_POLYNOMIAL, s, byte)
    {
      crc := MaskedStep(crc);
    }
  }

  method MaskedStep(s: bv32) returns (crc: bv32)
    ensures crc == Step(CRC32C_POLYNOMIAL, s)
  {
    var mask := 0 - (s & 1);
    MaskIsAllOrNothing(s);
    crc := (s >> 1) ^ (CRC32C_POLYNOMIAL & mask);
  }

  lemma MaskIsAllOrNothing(s: bv32)
    ensures s & 1 != 0 ==> CRC32C_POLYNOMIAL & (0 - (s & 1)) == CRC32C_POLYNOMIAL
    ensures s & 1 == 0 ==> (s >> 1) ^ (CRC32C_POLYNOMIAL & (0 - (s & 1))) == s >> 1
  {
  }
}
