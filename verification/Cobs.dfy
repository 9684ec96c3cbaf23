/**
 Consistent overhead byte stuffing (Cheshire and Baker 1999), as host/dd008.py does it:
 zero-free encodings whose code bytes are patched in once a block is complete.
 */
module Cobs {
  import opened Words

  const FULL: nat := 254
  const FULL_CODE: Uint8 := 255

  datatype Decoded = Plain(bytes: Bytes) | ZeroCode | Truncated

  /** How many of the first bytes are not zero, up to a full block. */
  function Run(payload: Bytes): (n: nat)
    ensures n <= |payload| && n <= FULL
    ensures forall i :: 0 <= i < n ==> payload[i] != 0
    ensures n < |payload| && n < FULL ==> payload[n] == 0
  {
    RunFrom(payload, 0)
  }

  function RunFrom(payload: Bytes, at: nat): (n: nat)
    requires at <= |payload| && at <= FULL
    requires forall i :: 0 <= i < at ==> payload[i] != 0
    ensures at <= n <= |payload| && n <= FULL
    ensures forall i :: 0 <= i < n ==> payload[i] != 0
    ensures n < |payload| && n < FULL ==> payload[n] == 0
    decreases FULL - at
  {
    if at == |payload| || at == FULL || payload[at] == 0 then at else RunFrom(payload, at + 1)
  }

  /** One block: its code, one more than its length, and its bytes. */
  function Block(bytes: Bytes): (block: Bytes)
    requires |bytes| <= FULL
  {
    [|bytes| + 1] + bytes
  }

  /** The encoding, block by block: a zero ends a block and is dropped, a full block drops nothing. */
  function Encode(payload: Bytes): (encoded: Bytes)
    ensures encoded != []
    decreases |payload|
  {
    var n := Run(payload);
    if n == FULL then Block(payload[..n]) + Encode(payload[n..])
    else if n == |payload| then Block(payload)
    else Block(payload[..n]) + Encode(payload[n + 1..])
  }

  function Decode(packet: Bytes): (decoded: Decoded)
    decreases |packet|
  {
    if packet == [] then Plain([])
    else
      var code := packet[0];
      if code == 0 then ZeroCode
      else if code > |packet| then Truncated
      else
        match Decode(packet[code..])
        case Plain(rest) => Plain(packet[1..code] + (if code != FULL_CODE && code < |packet| then [0] else []) + rest)
        case failed => failed
  }

  /** Decoding undoes encoding, for every byte string. */
  lemma {:induction false} RoundTrip(payload: Bytes)
    ensures Decode(Encode(payload)) == Plain(payload)
    decreases |payload|
  {
    hide Decode, Run, RunFrom, Block;
    var n := Run(payload);
    if n == FULL {
      RoundTrip(payload[n..]);
      DecodeBlock(payload[..n], Encode(payload[n..]));
      assert payload == payload[..n] + payload[n..];
    } else if n == |payload| {
      NothingLeft();
      DecodeBlock(payload, []);
      assert Block(payload) + [] == Block(payload);
    } else {
      RoundTrip(payload[n + 1..]);
      DecodeBlock(payload[..n], Encode(payload[n + 1..]));
      assert payload == payload[..n] + [0] + payload[n + 1..];
    }
  }

  lemma NothingLeft()
    ensures Decode([]) == Plain([])
  {
  }

  lemma DecodeBlock(bytes: Bytes, rest: Bytes)
    requires |bytes| <= FULL
    requires Decode(rest).Plain?
    ensures Decode(Block(bytes) + rest)
         == Plain(bytes + (if |bytes| < FULL && rest != [] then [0] else []) + Decode(rest).bytes)
  {
    var packet := Block(bytes) + rest;
    assert packet[|bytes| + 1..] == rest;
    assert packet[1..|bytes| + 1] == bytes;
  }

  /** An encoding holds no zero. */
  lemma {:induction false} NoZero(payload: Bytes)
    ensures 0 !in Encode(payload)
    decreases |payload|
  {
    hide Run, RunFrom;
    var n := Run(payload);
    if n == FULL {
      NoZero(payload[n..]);
    } else if n < |payload| {
      NoZero(payload[n + 1..]);
    }
  }

  /** An encoding adds one byte, and one more for every 254. */
  lemma {:induction false} Length(payload: Bytes)
    ensures |payload| + 1 <= |Encode(payload)| <= |payload| + 1 + |payload| / FULL
    decreases |payload|
  {
    hide Run, RunFrom;
    var n := Run(payload);
    if n == FULL {
      Length(payload[n..]);
    } else if n < |payload| {
      Length(payload[n + 1..]);
    }
  }

  // The programs.

  /** What is still to be encoded: the open block and the bytes to come. */
  ghost predicate Open(block: Bytes) {
    |block| < FULL && 0 !in block
  }

  lemma AfterZero(block: Bytes, rest: Bytes)
    requires Open(block)
    ensures Encode(block + [0] + rest) == Block(block) + Encode(rest)
  {
    var payload := block + [0] + rest;
    RunIs(payload, |block|);
    assert payload[..|block|] == block && payload[|block| + 1..] == rest;
  }

  lemma AfterFull(block: Bytes, rest: Bytes)
    requires |block| == FULL && 0 !in block
    ensures Encode(block + rest) == Block(block) + Encode(rest)
  {
    var payload := block + rest;
    RunIs(payload, FULL);
    assert payload[..FULL] == block && payload[FULL..] == rest;
  }

  lemma AtEnd(block: Bytes)
    requires Open(block)
    ensures Encode(block) == Block(block)
  {
    RunIs(block, |block|);
  }

  lemma RunIs(payload: Bytes, n: nat)
    requires n <= |payload| && n <= FULL
    requires forall i :: 0 <= i < n ==> payload[i] != 0
    requires n == FULL || n == |payload| || payload[n] == 0
    ensures Run(payload) == n
  {
    hide RunFrom;
  }

  /** The output before the open block is final; the open block and the bytes to come are still to be encoded. */
  ghost predicate Writes(payload: Bytes, k: nat, output: Bytes, codeIndex: nat)
    requires k <= |payload| && codeIndex < |output|
  {
    && Open(output[codeIndex + 1..])
    && Encode(payload) == output[..codeIndex] + Encode(output[codeIndex + 1..] + payload[k..])
  }

  lemma WritesZero(payload: Bytes, k: nat, output: Bytes, codeIndex: nat, closed: Bytes)
    requires k < |payload| && codeIndex < |output| && payload[k] == 0
    requires Writes(payload, k, output, codeIndex)
    requires closed == output[..codeIndex] + Block(output[codeIndex + 1..]) + [0]
    ensures Writes(payload, k + 1, closed, |closed| - 1)
  {
    hide Encode, Block;
    var block, rest := output[codeIndex + 1..], payload[k + 1..];
    AfterZero(block, rest);
    assert block + payload[k..] == block + [0] + rest;
    assert closed[..|closed| - 1] == output[..codeIndex] + Block(block) && closed[|closed|..] + rest == rest;
  }

  lemma WritesByte(payload: Bytes, k: nat, output: Bytes, codeIndex: nat, longer: Bytes)
    requires k < |payload| && codeIndex < |output| && payload[k] != 0
    requires Writes(payload, k, output, codeIndex) && |output| - codeIndex < FULL
    requires longer == output + [payload[k]]
    ensures Writes(payload, k + 1, longer, codeIndex)
  {
    hide Encode;
    var block, rest := output[codeIndex + 1..], payload[k + 1..];
    assert longer[codeIndex + 1..] == block + [payload[k]] && longer[..codeIndex] == output[..codeIndex];
    assert block + payload[k..] == (block + [payload[k]]) + rest;
  }

  lemma WritesFull(payload: Bytes, k: nat, output: Bytes, codeIndex: nat, longer: Bytes, closed: Bytes)
    requires k < |payload| && codeIndex < |output| && payload[k] != 0
    requires Writes(payload, k, output, codeIndex) && |output| - codeIndex == FULL
    requires longer == output + [payload[k]]
    requires closed == longer[..codeIndex] + Block(longer[codeIndex + 1..]) + [0]
    ensures Writes(payload, k + 1, closed, |closed| - 1)
  {
    hide Encode, Block;
    var block, rest := output[codeIndex + 1..] + [payload[k]], payload[k + 1..];
    AfterFull(block, rest);
    assert longer[codeIndex + 1..] == block && longer[..codeIndex] == output[..codeIndex];
    assert output[codeIndex + 1..] + payload[k..] == block + rest;
    assert closed[..|closed| - 1] == output[..codeIndex] + Block(block) && closed[|closed|..] + rest == rest;
  }

  lemma WritesEnd(payload: Bytes, output: Bytes, codeIndex: nat)
    requires codeIndex < |output| && Writes(payload, |payload|, output, codeIndex)
    ensures Encode(payload) == output[..codeIndex] + Block(output[codeIndex + 1..])
  {
    hide Encode;
    AtEnd(output[codeIndex + 1..]);
    assert output[codeIndex + 1..] + payload[|payload|..] == output[codeIndex + 1..];
  }

  /** cobs_encode: bytes are appended as they come, the code of the open block is patched when it closes. */
  method CobsEncode(payload: Bytes) returns (output: Bytes)
    ensures output == Encode(payload)
  {
    hide Encode, Writes;
    output := [0];
    var codeIndex: nat, code: Uint8 := 0, 1;
    WritesNothing(payload);
    for k := 0 to |payload|
      invariant |output| == codeIndex + code && codeIndex < |output| && code <= FULL
      invariant Writes(payload, k, output, codeIndex)
    {
      var value := payload[k];
      ghost var was := output;
      if value == 0 {
        output, codeIndex := Close(output, codeIndex, code);
        WritesZero(payload, k, was, codeIndex - code, output);
        code := 1;
      } else {
        output := output + [value];
        code := code + 1;
        if code == 0xFF {
          ghost var longer, index := output, codeIndex;
          output, codeIndex := Close(output, codeIndex, code);
          WritesFull(payload, k, was, index, longer, output);
          code := 1;
        } else {
          WritesByte(payload, k, was, codeIndex, output);
        }
      }
    }
    WritesEnd(payload, output, codeIndex);
    output := output[codeIndex := code];
  }

  lemma WritesNothing(payload: Bytes)
    ensures Writes(payload, 0, [0], 0)
  {
    assert [0][1..] + payload[0..] == payload;
  }

  /** Patches the open block's code in and opens the next block. */
  method Close(output: Bytes, codeIndex: nat, code: Uint8) returns (closed: Bytes, next: nat)
    requires |output| == codeIndex + code && codeIndex < |output|
    ensures next == |output| && closed == output[..codeIndex] + Block(output[codeIndex + 1..]) + [0]
    ensures |closed| == next + 1
  {
    closed := output[codeIndex := code];
    next := |closed|;
    closed := closed + [0];
  }

  /** cobs_decode. */
  method CobsDecode(packet: Bytes) returns (decoded: Decoded)
    ensures decoded == Decode(packet)
  {
    hide Decode, After, Content;
    var output: Bytes, offset: nat := [], 0;
    DecodesSoFar(packet);
    while offset < |packet|
      invariant offset <= |packet|
      invariant Decode(packet) == After(output, Decode(packet[offset..]))
    {
      var code := packet[offset];
      ghost var left, before := packet[offset..], output;
      DecodeOne(left);
      offset := offset + 1;
      if code == 0 {
        AfterFailure(output, Decode(left));
        return ZeroCode;
      }
      var count := code - 1;
      if count > |packet| - offset {
        AfterFailure(output, Decode(left));
        return Truncated;
      }
      output := output + packet[offset..offset + count];
      offset := offset + count;
      Slices(packet, offset - count - 1, code);
      if code != 0xFF && offset < |packet| {
        output := output + [0];
      }
      BlockContent(before, left, output);
      AfterGroups(before, Content(left), Decode(left[code..]));
    }
    DecodeOne(packet[offset..]);
    AfterPlain(output);
    decoded := Plain(output);
  }

  /** What a decoding gives after bytes already decoded. */
  function After(bytes: Bytes, decoded: Decoded): Decoded {
    if decoded.Plain? then Plain(bytes + decoded.bytes) else decoded
  }

  /** The bytes a packet's first block stands for, its dropped zero included. */
  function Content(packet: Bytes): Bytes
    requires packet != [] && 0 < packet[0] <= |packet|
  {
    packet[1..packet[0]] + if packet[0] != FULL_CODE && packet[0] < |packet| then [0] else []
  }

  lemma BlockContent(before: Bytes, left: Bytes, output: Bytes)
    requires left != [] && 0 < left[0] <= |left|
    requires output == if left[0] != FULL_CODE && left[0] < |left| then before + left[1..left[0]] + [0] else before + left[1..left[0]]
    ensures output == before + Content(left)
  {
  }

  lemma Slices(packet: Bytes, at: nat, code: nat)
    requires 0 < code && at + code <= |packet|
    ensures packet[at..][code..] == packet[at + code..] && packet[at..][1..code] == packet[at + 1..at + code]
  {
  }

  lemma DecodesSoFar(packet: Bytes)
    ensures Decode(packet) == After([], Decode(packet[0..]))
  {
    hide Decode;
    assert packet[0..] == packet;
  }

  lemma AfterGroups(a: Bytes, b: Bytes, decoded: Decoded)
    ensures After(a, After(b, decoded)) == After(a + b, decoded)
  {
    if decoded.Plain? {
      assert a + (b + decoded.bytes) == (a + b) + decoded.bytes;
    }
  }

  lemma AfterFailure(a: Bytes, decoded: Decoded)
    ensures !decoded.Plain? ==> After(a, decoded) == decoded
  {
  }

  lemma AfterPlain(a: Bytes)
    ensures After(a, Plain([])) == Plain(a)
  {
    assert a + [] == a;
  }

  lemma DecodeOne(packet: Bytes)
    ensures packet == [] ==> Decode(packet) == Plain([])
    ensures packet != [] && packet[0] == 0 ==> Decode(packet) == ZeroCode
    ensures packet != [] && 0 < packet[0] && packet[0] > |packet| ==> Decode(packet) == Truncated
    ensures packet != [] && 0 < packet[0] <= |packet| ==> Decode(packet) == After(Content(packet), Decode(packet[packet[0]..]))
  {
  }

  // Which packets are encodings.

  /** Blocks that fill the packet, without a zero; one of 254 bytes drops no zero, so another block follows it. */
  ghost predicate Canonical(packet: Bytes)
    decreases |packet|
  {
    && packet != [] && 0 !in packet && packet[0] <= |packet|
    && if packet[0] == |packet| then packet[0] != 255 else Canonical(packet[packet[0]..])
  }

  lemma {:induction false} EncodingIsCanonical(payload: Bytes)
    ensures Canonical(Encode(payload))
    decreases |payload|
  {
    hide Run, RunFrom;
    NoZero(payload);
    var n := Run(payload);
    if n == FULL {
      EncodingIsCanonical(payload[n..]);
      assert Encode(payload)[n + 1..] == Encode(payload[n..]);
    } else if n < |payload| {
      EncodingIsCanonical(payload[n + 1..]);
      assert Encode(payload)[n + 1..] == Encode(payload[n + 1..]);
    }
  }

  lemma {:induction false} CanonicalIsEncoding(packet: Bytes)
    requires Canonical(packet)
    ensures Decode(packet).Plain? && packet == Encode(Decode(packet).bytes)
    decreases |packet|
  {
    hide Encode, Decode;
    var code := packet[0];
    var data := packet[1..code];
    DecodeOne(packet);
    assert packet == Block(data) + packet[code..];
    if code == |packet| {
      DecodeOne([]);
      assert packet[code..] == [];
      AtEnd(data);
      assert Decode(packet).bytes == data;
    } else {
      CanonicalIsEncoding(packet[code..]);
      var rest := Decode(packet[code..]).bytes;
      if code == 255 {
        AfterFull(data, rest);
        assert Decode(packet).bytes == data + rest;
      } else {
        AfterZero(data, rest);
        assert Decode(packet).bytes == data + [0] + rest;
      }
    }
  }

  /** Of all packets that decode to a payload, exactly the canonical one is its encoding. */
  lemma EncodingIsUnique(packet: Bytes, payload: Bytes)
    ensures packet == Encode(payload) <==> Canonical(packet) && Decode(packet) == Plain(payload)
  {
    hide Encode, Decode, Canonical;
    RoundTrip(payload);
    EncodingIsCanonical(payload);
    if Canonical(packet) {
      CanonicalIsEncoding(packet);
    }
  }
}
