/** Machine words and the small arithmetic shared by the other modules. */
module Words {
  const UINT32_MAX: nat := 0xFFFF_FFFF
  const UINT64_MAX: nat := 0xFFFF_FFFF_FFFF_FFFF

  type Uint8 = x: int | 0 <= x <= 0xFF
  type Uint32 = x: int | 0 <= x <= 0xFFFF_FFFF
  type Uint64 = x: int | 0 <= x <= 0xFFFF_FFFF_FFFF_FFFF

  datatype Option<+T> = None | Some(value: T)

  function Min(a: int, b: int): int {
    if a <= b then a else b
  }

  function Max(a: int, b: int): int {
    if a >= b then a else b
  }

  type Bytes = seq<Uint8>

  /** Little-endian words. */
  function Le16(x: nat): (bytes: Bytes)
    ensures |bytes| == 2
  {
    [x % 256, x / 256 % 256]
  }

  function Le32(x: nat): (bytes: Bytes)
    ensures |bytes| == 4
  {
    [x % 256, x / 256 % 256, x / 65536 % 256, x / 16777216 % 256]
  }

  function ReadLe16(bytes: Bytes, at: nat): nat
    requires at + 2 <= |bytes|
  {
    bytes[at] as int + 256 * bytes[at + 1] as int
  }

  function ReadLe32(bytes: Bytes, at: nat): Uint32
    requires at + 4 <= |bytes|
  {
    bytes[at] as int + 256 * bytes[at + 1] as int + 65536 * bytes[at + 2] as int + 16777216 * bytes[at + 3] as int
  }

  lemma ReadLe32Slice(bytes: Bytes, lo: nat, hi: nat, at: nat)
    requires lo <= hi <= |bytes| && at + 4 <= hi - lo
    ensures ReadLe32(bytes[lo..hi], at) == ReadLe32(bytes, lo + at)
  {
  }

  lemma Le32RoundTrip(x: nat)
    requires x <= UINT32_MAX
    ensures ReadLe32(Le32(x), 0) == x
  {
    var y, z := x / 256, x / 65536;
    assert x == 256 * y + x % 256 && y == 256 * z + y % 256 && y / 256 == z;
    var w := x / 16777216;
    assert z == 256 * w + z % 256 && z / 256 == w && w < 256;
  }

  lemma Le16RoundTrip(x: nat)
    requires x <= 0xFFFF
    ensures ReadLe16(Le16(x), 0) == x
  {
  }

  lemma HalfWordEncodes(bytes: Bytes, at: nat)
    requires at + 2 <= |bytes|
    ensures Le16(ReadLe16(bytes, at)) == bytes[at..at + 2]
  {
    var low, high := bytes[at] as int, bytes[at + 1] as int;
    assert (low + 256 * high) % 256 == low && (low + 256 * high) / 256 == high;
  }

  lemma WordEncodes(bytes: Bytes, at: nat)
    requires at + 4 <= |bytes|
    ensures Le32(ReadLe32(bytes, at)) == bytes[at..at + 4]
  {
    FourBytes(bytes[at], bytes[at + 1], bytes[at + 2], bytes[at + 3]);
  }

  lemma FourBytes(a: Uint8, b: Uint8, c: Uint8, d: Uint8)
    ensures Le32(a as int + 256 * b as int + 65536 * c as int + 16777216 * d as int) == [a, b, c, d]
  {
    var x := a as int + 256 * b as int + 65536 * c as int + 16777216 * d as int;
    var y := b as int + 256 * c as int + 65536 * d as int;
    var z := c as int + 256 * d as int;
    assert x == 256 * y + a && x / 256 == y && x % 256 == a;
    assert y == 256 * z + b && y / 256 == z && y % 256 == b;
    assert x / 65536 == z && x / 16777216 == d;
  }

  lemma LastOff<T>(s: seq<T>, last: T)
    ensures var longer := s + [last];
            longer != [] && longer[..|longer| - 1] == s && longer[|longer| - 1] == last
  {
  }

  /** Pieces put together again. */
  function Joined<T>(pieces: seq<seq<T>>): seq<T> {
    if pieces == [] then [] else Joined(pieces[..|pieces| - 1]) + pieces[|pieces| - 1]
  }

  lemma {:induction false} JoinedUpTo<T>(pieces: seq<seq<T>>, k: nat)
    requires k <= |pieces|
    ensures Joined(pieces[..k]) <= Joined(pieces)
    decreases |pieces| - k
  {
    if k == |pieces| {
      assert pieces[..k] == pieces;
    } else {
      JoinedUpTo(pieces, k + 1);
      assert pieces[..k + 1][..k] == pieces[..k];
    }
  }

  lemma {:induction false} JoinedParts<T>(a: seq<seq<T>>, b: seq<seq<T>>)
    ensures Joined(a + b) == Joined(a) + Joined(b)
    decreases |b|
  {
    if b == [] {
      assert a + b == a;
    } else {
      JoinedParts(a, b[..|b| - 1]);
      assert (a + b)[..|a + b| - 1] == a + b[..|b| - 1];
      assert (a + b)[|a + b| - 1] == b[|b| - 1];
    }
  }
}
