/**
 The WAV reader (common/wav.hpp): a bounded walk over the RIFF chunks of any bytes,
 against the chunk layout itself, and on the files the writer makes.
 */
module Riff {
  import opened Words
  import opened PreparedFile
  import opened Artifact

  const HEADER_BYTE_LIMIT: nat := 65536
  const CHUNK_HEADER: nat := 8
  const FILE_HEADER: nat := 12

  datatype WavError = NoError | Io | InvalidRiff | MissingFormat | MissingData | UnsupportedFormat

  /** The file read: its bytes, and which of the callback's reads succeed. */
  datatype Reader = Reader(bytes: Bytes, works: (nat, nat) -> bool) {
    predicate Readable() {
      |bytes| <= UINT32_MAX
    }
  }

  datatype FormatFields = FormatFields(audioFormat: nat, channels: nat, sampleRate: nat, byteRate: nat,
                                       blockAlign: nat, bitsPerSample: nat)

  datatype Payload = Payload(offset: nat, bytes: nat)

  datatype Found = Found(format: Option<FormatFields>, payload: Option<Payload>)

  datatype Chunk = Chunk(id: Bytes, offset: nat, bytes: nat, next: nat)

  /** wav_read_exact(): nothing past the end is asked for. */
  function ReadExact(r: Reader, offset: Uint32, count: nat): (bytes: Option<Bytes>)
    requires r.Readable()
    ensures bytes.Some? ==> offset + count <= |r.bytes| && bytes.value == r.bytes[offset..offset + count]
    ensures bytes.None? <==> offset + count > |r.bytes| || !r.works(offset, count)
  {
    if offset > |r.bytes| || count > |r.bytes| - offset || !r.works(offset, count) then None
    else Some(r.bytes[offset..offset + count])
  }

  /** Reads the 12 bytes that a RIFF/WAVE file starts with; its size must be the file's. */
  method ReadRiffHeader(r: Reader) returns (error: WavError)
    requires r.Readable()
    ensures error == HeaderVerdict(r)
  {
    var header := if |r.bytes| < FILE_HEADER then None else ReadExact(r, 0, FILE_HEADER);
    if header.None? {
      return Io;
    }
    var riffBytes := ReadLe32(header.value, 4);
    if header.value[..4] != RIFF || header.value[8..12] != WAVE || riffBytes < 4 || riffBytes > 0xFFFF_FFFF - 8 ||
       riffBytes + 8 != |r.bytes| {
      return InvalidRiff;
    }
    return NoError;
  }

  function HeaderVerdict(r: Reader): WavError
    requires r.Readable()
  {
    if |r.bytes| < FILE_HEADER || !r.works(0, FILE_HEADER) then Io
    else if r.bytes[..4] == RIFF && r.bytes[8..12] == WAVE && ReadLe32(r.bytes, 4) + 8 == |r.bytes| then NoError
    else InvalidRiff
  }

  /** The chunk at `cursor`: whole inside the file with its pad, and its header bytes within the budget. */
  function ChunkAt(r: Reader, cursor: nat, headerBytes: nat): (chunk: Option<(Chunk, nat)>)
    requires r.Readable() && cursor <= |r.bytes| && headerBytes <= HEADER_BYTE_LIMIT
    ensures chunk.Some? ==>
              && cursor + CHUNK_HEADER <= chunk.value.0.offset + chunk.value.0.bytes <= chunk.value.0.next <= |r.bytes|
              && headerBytes < chunk.value.1 <= HEADER_BYTE_LIMIT
  {
    if |r.bytes| - cursor < CHUNK_HEADER || headerBytes + CHUNK_HEADER > HEADER_BYTE_LIMIT || !r.works(cursor, CHUNK_HEADER) then
      None
    else
      var id := r.bytes[cursor..cursor + 4];
      var bytes := ReadLe32(r.bytes, cursor + 4);
      var offset := cursor + CHUNK_HEADER;
      if offset + Padded(bytes) > |r.bytes| then None
      else
        var budget := headerBytes + CHUNK_HEADER + if id == DATA then 0 else Padded(bytes);
        if budget > HEADER_BYTE_LIMIT then None
        else Some((Chunk(id, offset, bytes, offset + Padded(bytes)), budget))
  }

  /** read_chunk(), in 32-bit words: no sum or difference of it wraps. */
  method ReadChunk(r: Reader, cursor: Uint32, headerBytes: Uint32) returns (chunk: Option<(Chunk, nat)>)
    requires r.Readable() && cursor <= |r.bytes| && headerBytes <= HEADER_BYTE_LIMIT
    ensures chunk == ChunkAt(r, cursor, headerBytes)
  {
    hide ReadLe32;
    var end: Uint32 := |r.bytes|;
    var left: Uint32 := end - cursor;
    if left < CHUNK_HEADER || headerBytes > HEADER_BYTE_LIMIT - CHUNK_HEADER {
      return None;
    }
    var header := ReadExact(r, cursor, CHUNK_HEADER);
    if header.None? {
      return None;
    }
    var id := header.value[..4];
    assert id == r.bytes[cursor..cursor + 4];
    ReadLe32Slice(r.bytes, cursor, cursor + CHUNK_HEADER, 4);
    var bytes: Uint32 := ReadLe32(header.value, 4);
    var offset: Uint32 := cursor + CHUNK_HEADER;
    var after: Uint32 := end - offset;
    if bytes > after {
      return None;
    }
    var paddedBytes: Uint32 := (bytes + bytes % 2) % 0x1_0000_0000;
    if paddedBytes < bytes || paddedBytes > after {
      return None;
    }
    var next: Uint32 := offset + paddedBytes;
    var budget: Uint32 := headerBytes + CHUNK_HEADER;
    if id != DATA {
      var room: Uint32 := HEADER_BYTE_LIMIT - budget;
      if paddedBytes > room {
        return None;
      }
      budget := budget + paddedBytes;
    }
    return Some((Chunk(id, offset, bytes, next), budget));
  }

  function FieldsAt(bytes: Bytes, at: nat): FormatFields
    requires at + 16 <= |bytes|
  {
    FormatFields(ReadLe16(bytes, at), ReadLe16(bytes, at + 2), ReadLe32(bytes, at + 4), ReadLe32(bytes, at + 8),
                 ReadLe16(bytes, at + 12), ReadLe16(bytes, at + 14))
  }

  datatype Parse = Bad(error: WavError) | Good(found: Found)

  /** What one chunk adds: the one format, the one data chunk; any other chunk is skipped. */
  function Take(r: Reader, chunk: Chunk, found: Found): Parse
    requires r.Readable() && chunk.offset + chunk.bytes <= |r.bytes|
  {
    if chunk.id == FMT then
      if found.format.Some? then Bad(InvalidRiff)
      else if chunk.bytes < 16 then Bad(UnsupportedFormat)
      else if !r.works(chunk.offset, 16) then Bad(Io)
      else Good(found.(format := Some(FieldsAt(r.bytes, chunk.offset))))
    else if chunk.id == DATA then
      if found.payload.Some? then Bad(InvalidRiff)
      else Good(found.(payload := Some(Payload(chunk.offset, chunk.bytes))))
    else Good(found)
  }

  method ReadFormat(r: Reader, chunk: Chunk, found: Found) returns (parse: Parse)
    requires r.Readable() && chunk.id == FMT && chunk.offset + chunk.bytes <= |r.bytes|
    ensures parse == Take(r, chunk, found)
  {
    if found.format.Some? {
      return Bad(InvalidRiff);
    }
    if chunk.bytes < 16 {
      return Bad(UnsupportedFormat);
    }
    var header := ReadExact(r, chunk.offset, 16);
    if header.None? {
      return Bad(Io);
    }
    return Good(found.(format := Some(FieldsAt(header.value, 0))));
  }

  /** The walk over the chunks from `cursor` to the file's end. */
  function Walk(r: Reader, cursor: nat, headerBytes: nat, found: Found): Parse
    requires r.Readable() && cursor <= |r.bytes| && headerBytes <= HEADER_BYTE_LIMIT
    decreases |r.bytes| - cursor
  {
    if cursor == |r.bytes| then Good(found)
    else
      match ChunkAt(r, cursor, headerBytes)
      case None => Bad(InvalidRiff)
      case Some((chunk, budget)) =>
        match Take(r, chunk, found)
        case Bad(error) => Bad(error)
        case Good(more) => Walk(r, chunk.next, budget, more)
  }

  /** parse_riff(): the loop over the chunks ends on any bytes. */
  method ParseRiff(r: Reader) returns (parse: Parse)
    requires r.Readable()
    ensures parse == if HeaderVerdict(r).NoError? then Walk(r, FILE_HEADER, FILE_HEADER, Found(None, None)) else Bad(HeaderVerdict(r))
  {
    var header := ReadRiffHeader(r);
    if !header.NoError? {
      return Bad(header);
    }
    var cursor: Uint32, headerBytes: Uint32 := FILE_HEADER, FILE_HEADER;
    var found := Found(None, None);
    while cursor < |r.bytes|
      invariant FILE_HEADER <= cursor <= |r.bytes| && headerBytes <= HEADER_BYTE_LIMIT
      invariant Walk(r, cursor, headerBytes, found) == Walk(r, FILE_HEADER, FILE_HEADER, Found(None, None))
    {
      var read := ReadChunk(r, cursor, headerBytes);
      if read.None? {
        return Bad(InvalidRiff);
      }
      var (chunk, budget) := read.value;
      var taken := Good(found);
      if chunk.id == FMT {
        taken := ReadFormat(r, chunk, found);
      } else if chunk.id == DATA {
        if found.payload.Some? {
          return Bad(InvalidRiff);
        }
        taken := Good(found.(payload := Some(Payload(chunk.offset, chunk.bytes))));
      }
      if taken.Bad? {
        return taken;
      }
      found := taken.found;
      cursor, headerBytes := chunk.next, budget;
    }
    return Good(found);
  }

  /** The checks on what the walk found. */
  function FormatVerdict(found: Found, channels: nat, bits: nat): WavError {
    if found.format.None? then MissingFormat
    else if found.payload.None? || found.payload.value.bytes == 0 then MissingData
    else
      var f := found.format.value;
      var frame := bits / 8 * channels;
      if (bits == 16 || bits == 24) && (channels == 1 || channels == 2) && (channels == 2 ==> bits == 24) &&
         f == FormatFields(1, channels, 48000, 48000 * frame, frame, bits) && frame != 0 && found.payload.value.bytes % frame == 0
      then NoError else UnsupportedFormat
  }

  /**
   validate_pcm_wav(): on any bytes it ends; success means that the payload lies inside
   the file and is whole frames of the required format.
   */
  method ValidatePcmWav(r: Reader, channels: nat, bits: nat) returns (error: WavError, payload: Payload, bytesPerFrame: nat)
    requires r.Readable()
    ensures error == Verdict(r, channels, bits)
    ensures error.NoError? ==>
              && FILE_HEADER + CHUNK_HEADER <= payload.offset && payload.offset + payload.bytes <= |r.bytes|
              && 0 < payload.bytes && bytesPerFrame == bits / 8 * channels > 0 && payload.bytes % bytesPerFrame == 0
              && Walk(r, FILE_HEADER, FILE_HEADER, Found(None, None)).Good?
              && Walk(r, FILE_HEADER, FILE_HEADER, Found(None, None)).found.payload == Some(payload)
  {
    payload, bytesPerFrame := Payload(0, 0), 0;
    var parse := ParseRiff(r);
    if HeaderVerdict(r).NoError? {
      WalkFindsInside(r, FILE_HEADER, FILE_HEADER, Found(None, None));
    }
    if parse.Bad? {
      return parse.error, payload, 0;
    }
    var found := parse.found;
    if found.format.None? {
      return MissingFormat, payload, 0;
    }
    if found.payload.None? || found.payload.value.bytes == 0 {
      return MissingData, payload, 0;
    }
    var f := found.format.value;
    var required := bits / 8 * channels;
    if (bits != 16 && bits != 24) || (channels != 1 && channels != 2) || (channels == 2 && bits != 24) ||
       f.audioFormat != 1 || f.channels != channels || f.sampleRate != 48000 || f.byteRate != 48000 * required ||
       f.blockAlign != required || f.bitsPerSample != bits || found.payload.value.bytes % required != 0 {
      return UnsupportedFormat, payload, 0;
    }
    return NoError, found.payload.value, f.blockAlign;
  }

  function Verdict(r: Reader, channels: nat, bits: nat): WavError
    requires r.Readable()
  {
    if !HeaderVerdict(r).NoError? then HeaderVerdict(r)
    else match Walk(r, FILE_HEADER, FILE_HEADER, Found(None, None))
      case Bad(error) => error
      case Good(found) => FormatVerdict(found, channels, bits)
  }

  lemma {:induction false} WalkFindsInside(r: Reader, cursor: nat, headerBytes: nat, found: Found)
    requires r.Readable() && FILE_HEADER <= cursor <= |r.bytes| && headerBytes <= HEADER_BYTE_LIMIT
    requires found.payload.Some? ==>
               FILE_HEADER + CHUNK_HEADER <= found.payload.value.offset &&
               found.payload.value.offset + found.payload.value.bytes <= |r.bytes|
    ensures var p := Walk(r, cursor, headerBytes, found);
            if p.Bad? then p.error != NoError
            else p.found.payload.Some? ==>
              FILE_HEADER + CHUNK_HEADER <= p.found.payload.value.offset &&
              p.found.payload.value.offset + p.found.payload.value.bytes <= |r.bytes|
    decreases |r.bytes| - cursor
  {
    if cursor < |r.bytes| && ChunkAt(r, cursor, headerBytes).Some? {
      var (chunk, budget) := ChunkAt(r, cursor, headerBytes).value;
      var taken := Take(r, chunk, found);
      if taken.Good? {
        WalkFindsInside(r, chunk.next, budget, taken.found);
      }
    }
  }

  // ---------------------------------------------------------------------
  // The chunk layout

  /** A chunk as the layout has it: an identifier, its data, and a pad byte after data of odd length. */
  datatype RiffChunk = RiffChunk(id: Bytes, body: Bytes, pad: Uint8) {
    predicate WellFormed() {
      |id| == 4 && |body| <= UINT32_MAX
    }
  }

  function Encode(c: RiffChunk): (bytes: Bytes) {
    c.id + Le32(|c.body|) + c.body + if |c.body| % 2 == 1 then [c.pad] else []
  }

  function EncodeAll(cs: seq<RiffChunk>): Bytes {
    if |cs| == 0 then [] else Encode(cs[0]) + EncodeAll(cs[1..])
  }

  function EncodeFile(cs: seq<RiffChunk>): Bytes {
    RIFF + Le32(4 + |EncodeAll(cs)|) + WAVE + EncodeAll(cs)
  }

  predicate WellFormed(cs: seq<RiffChunk>) {
    forall i :: 0 <= i < |cs| ==> cs[i].WellFormed()
  }

  /** One encoded chunk is read back as it is. */
  lemma {:induction false} ChunkReadsBack(r: Reader, c: RiffChunk, cursor: nat, headerBytes: nat, rest: Bytes)
    requires r.Readable() && cursor <= |r.bytes| && headerBytes <= HEADER_BYTE_LIMIT && c.WellFormed()
    requires r.works(cursor, CHUNK_HEADER)
    requires r.bytes[cursor..] == Encode(c) + rest
    ensures var budget := headerBytes + CHUNK_HEADER + if c.id == DATA then 0 else Padded(|c.body|);
            var next := cursor + CHUNK_HEADER + Padded(|c.body|);
            && ChunkAt(r, cursor, headerBytes) ==
               (if budget > HEADER_BYTE_LIMIT then None
                else Some((Chunk(c.id, cursor + CHUNK_HEADER, |c.body|, next), budget)))
            && next <= |r.bytes| && r.bytes[next..] == rest
            && r.bytes[cursor + CHUNK_HEADER..cursor + CHUNK_HEADER + |c.body|] == c.body
  {
    hide ReadLe32, Le32;
    var tail := r.bytes[cursor..];
    EncodedParts(c, rest);
    Le32RoundTrip(|c.body|);
    ReadLe32Slice(r.bytes, cursor + 4, cursor + 8, 0);
    Shifted(r.bytes, cursor, 0, 4);
    Shifted(r.bytes, cursor, 4, 8);
    Shifted(r.bytes, cursor, 8, 8 + |c.body|);
    Shifted(r.bytes, cursor, 8 + Padded(|c.body|), |tail|);
  }

  lemma EncodedParts(c: RiffChunk, rest: Bytes)
    requires c.WellFormed()
    ensures var tail := Encode(c) + rest;
            && |tail| == CHUNK_HEADER + Padded(|c.body|) + |rest|
            && tail[0..4] == c.id && tail[4..8] == Le32(|c.body|)
            && tail[8..8 + |c.body|] == c.body && tail[8 + Padded(|c.body|)..|tail|] == rest
  {
    hide Le32;
  }

  lemma Shifted(bytes: Bytes, cursor: nat, lo: nat, hi: nat)
    requires cursor + lo <= cursor + hi <= |bytes|
    ensures bytes[cursor..][lo..hi] == bytes[cursor + lo..cursor + hi]
  {
  }

  lemma FieldsOfBody(bytes: Bytes, at: nat, body: Bytes)
    requires 16 <= |body| && at + |body| <= |bytes| && bytes[at..at + |body|] == body
    ensures FieldsAt(bytes, at) == FieldsAt(body, 0)
  {
    assert forall i :: 0 <= i < |body| ==> body[i] == bytes[at + i];
  }

  /** The judgement of one chunk that stands at `at`. */
  function JudgeOne(c: RiffChunk, at: nat, headerBytes: nat, found: Found): (r: (nat, Parse))
    requires c.WellFormed()
  {
    var budget := headerBytes + CHUNK_HEADER + if c.id == DATA then 0 else Padded(|c.body|);
    if budget > HEADER_BYTE_LIMIT then (budget, Bad(InvalidRiff))
    else if c.id == FMT then
      if found.format.Some? then (budget, Bad(InvalidRiff))
      else if |c.body| < 16 then (budget, Bad(UnsupportedFormat))
      else (budget, Good(found.(format := Some(FieldsAt(c.body, 0)))))
    else if c.id == DATA then
      if found.payload.Some? then (budget, Bad(InvalidRiff))
      else (budget, Good(found.(payload := Some(Payload(at + CHUNK_HEADER, |c.body|)))))
    else (budget, Good(found))
  }

  /** The rules on a list of chunks, the first of which stands at `at`: no bytes are read. */
  function JudgeChunks(cs: seq<RiffChunk>, at: nat, headerBytes: nat, found: Found): Parse
    requires WellFormed(cs)
    decreases |cs|
  {
    if |cs| == 0 then Good(found)
    else
      var (budget, judged) := JudgeOne(cs[0], at, headerBytes, found);
      if judged.Bad? then judged
      else JudgeChunks(cs[1..], at + CHUNK_HEADER + Padded(|cs[0].body|), budget, judged.found)
  }

  /** On one encoded chunk a step of the walk is its judgement. */
  lemma {:induction false} StepJudgesChunk(r: Reader, c: RiffChunk, cursor: nat, headerBytes: nat, found: Found, rest: Bytes)
    requires r.Readable() && cursor <= |r.bytes| && headerBytes <= HEADER_BYTE_LIMIT && c.WellFormed()
    requires forall offset: nat, count: nat :: r.works(offset, count)
    requires r.bytes[cursor..] == Encode(c) + rest
    ensures var next := cursor + CHUNK_HEADER + Padded(|c.body|);
            var (budget, judged) := JudgeOne(c, cursor, headerBytes, found);
            && cursor < next <= |r.bytes| && r.bytes[next..] == rest
            && Walk(r, cursor, headerBytes, found) ==
               if judged.Bad? then judged else Walk(r, next, budget, judged.found)
  {
    hide FieldsAt, ChunkAt, Encode;
    ChunkReadsBack(r, c, cursor, headerBytes, rest);
    if |c.body| >= 16 {
      FieldsOfBody(r.bytes, cursor + CHUNK_HEADER, c.body);
    }
  }

  /** On encoded chunks the walk over the bytes is the judgement of the list. */
  lemma {:induction false} WalkJudgesChunks(r: Reader, cs: seq<RiffChunk>, cursor: nat, headerBytes: nat, found: Found)
    requires r.Readable() && WellFormed(cs) && cursor <= |r.bytes| && headerBytes <= HEADER_BYTE_LIMIT
    requires forall offset: nat, count: nat :: r.works(offset, count)
    requires r.bytes[cursor..] == EncodeAll(cs)
    ensures Walk(r, cursor, headerBytes, found) == JudgeChunks(cs, cursor, headerBytes, found)
    decreases |cs|
  {
    if |cs| > 0 {
      hide Encode, FieldsAt, ChunkAt, Take, ReadLe32;
      var c := cs[0];
      StepJudgesChunk(r, c, cursor, headerBytes, found, EncodeAll(cs[1..]));
      var (budget, judged) := JudgeOne(c, cursor, headerBytes, found);
      if judged.Good? {
        WalkJudgesChunks(r, cs[1..], cursor + CHUNK_HEADER + Padded(|c.body|), budget, judged.found);
      }
    } else {
      assert cursor == |r.bytes|;
    }
  }

  /** And bytes the walk accepts are encoded chunks: it takes nothing but the layout. */
  lemma {:induction false} WalkTakesOnlyChunks(r: Reader, cursor: nat, headerBytes: nat, found: Found) returns (cs: seq<RiffChunk>)
    requires r.Readable() && cursor <= |r.bytes| && headerBytes <= HEADER_BYTE_LIMIT
    requires Walk(r, cursor, headerBytes, found).Good?
    ensures WellFormed(cs) && r.bytes[cursor..] == EncodeAll(cs)
    decreases |r.bytes| - cursor
  {
    hide Walk, Encode, ChunkAt, Take, FieldsAt;
    if cursor == |r.bytes| {
      cs := [];
    } else {
      GoodWalkSteps(r, cursor, headerBytes, found);
      var (chunk, budget) := ChunkAt(r, cursor, headerBytes).value;
      var rest := WalkTakesOnlyChunks(r, chunk.next, budget, Take(r, chunk, found).found);
      var body := r.bytes[chunk.offset..chunk.offset + chunk.bytes];
      var c := RiffChunk(chunk.id, body, if chunk.bytes % 2 == 1 then r.bytes[chunk.next - 1] else 0);
      ChunkIsEncoded(r, cursor, headerBytes, c);
      EncodeCons(c, rest);
      cs := [c] + rest;
    }
  }

  lemma {:induction false} GoodWalkSteps(r: Reader, cursor: nat, headerBytes: nat, found: Found)
    requires r.Readable() && cursor < |r.bytes| && headerBytes <= HEADER_BYTE_LIMIT
    requires Walk(r, cursor, headerBytes, found).Good?
    ensures ChunkAt(r, cursor, headerBytes).Some?
    ensures var (chunk, budget) := ChunkAt(r, cursor, headerBytes).value;
            && Take(r, chunk, found).Good?
            && Walk(r, chunk.next, budget, Take(r, chunk, found).found).Good?
  {
    hide ChunkAt, Take;
  }

  lemma {:induction false} EncodeCons(c: RiffChunk, rest: seq<RiffChunk>)
    ensures EncodeAll([c] + rest) == Encode(c) + EncodeAll(rest)
    ensures c.WellFormed() && WellFormed(rest) ==> WellFormed([c] + rest)
  {
    hide Encode;
    assert ([c] + rest)[1..] == rest;
  }

  lemma {:induction false} ChunkIsEncoded(r: Reader, cursor: nat, headerBytes: nat, c: RiffChunk)
    requires r.Readable() && cursor <= |r.bytes| && headerBytes <= HEADER_BYTE_LIMIT
    requires ChunkAt(r, cursor, headerBytes).Some?
    requires var chunk := ChunkAt(r, cursor, headerBytes).value.0;
             && c.id == chunk.id && c.body == r.bytes[chunk.offset..chunk.offset + chunk.bytes]
             && (chunk.bytes % 2 == 1 ==> c.pad == r.bytes[chunk.next - 1])
    ensures c.WellFormed() && r.bytes[cursor..] == Encode(c) + r.bytes[ChunkAt(r, cursor, headerBytes).value.0.next..]
  {
    var chunk := ChunkAt(r, cursor, headerBytes).value.0;
    WordEncodes(r.bytes, cursor + 4);
    var b := r.bytes;
    assert b[cursor..] == b[cursor..cursor + 4] + b[cursor + 4..cursor + 8] + b[cursor + 8..cursor + 8 + chunk.bytes]
                          + b[cursor + 8 + chunk.bytes..chunk.next] + b[chunk.next..];
    assert b[cursor + 8 + chunk.bytes..chunk.next] == if chunk.bytes % 2 == 1 then [c.pad] else [];
  }

  /** `bytes` are the RIFF/WAVE encoding of `cs`, in which the rules find `found`. */
  ghost predicate Encodes(cs: seq<RiffChunk>, bytes: Bytes, found: Found) {
    WellFormed(cs) && bytes == EncodeFile(cs) && JudgeChunks(cs, FILE_HEADER, FILE_HEADER, Found(None, None)) == Good(found)
  }

  /**
   The reader accepts exactly the RIFF/WAVE layout: with working reads, a file parses as
   `found` exactly when it is the encoding of chunks that are judged `found`.
   */
  lemma ReaderAcceptsTheLayout(r: Reader, found: Found)
    requires r.Readable() && forall offset: nat, count: nat :: r.works(offset, count)
    ensures HeaderVerdict(r).NoError? && Walk(r, FILE_HEADER, FILE_HEADER, Found(None, None)) == Good(found) <==>
            exists cs :: Encodes(cs, r.bytes, found)
  {
    var none := Found(None, None);
    if HeaderVerdict(r).NoError? && Walk(r, FILE_HEADER, FILE_HEADER, none) == Good(found) {
      var cs := WalkTakesOnlyChunks(r, FILE_HEADER, FILE_HEADER, none);
      WalkJudgesChunks(r, cs, FILE_HEADER, FILE_HEADER, none);
      FileOfChunks(r, cs);
      assert Encodes(cs, r.bytes, found);
    }
    if (exists cs :: Encodes(cs, r.bytes, found)) {
      var cs :| Encodes(cs, r.bytes, found);
      EncodedHeader(r, cs);
      WalkJudgesChunks(r, cs, FILE_HEADER, FILE_HEADER, none);
    }
  }

  lemma {:induction false} FileOfChunks(r: Reader, cs: seq<RiffChunk>)
    requires r.Readable() && HeaderVerdict(r).NoError? && r.bytes[FILE_HEADER..] == EncodeAll(cs)
    ensures r.bytes == EncodeFile(cs)
  {
    var b := r.bytes;
    WordEncodes(b, 4);
    assert b == b[..4] + b[4..8] + b[8..12] + b[12..];
  }

  lemma {:induction false} EncodedHeader(r: Reader, cs: seq<RiffChunk>)
    requires r.Readable() && r.works(0, FILE_HEADER) && r.bytes == EncodeFile(cs)
    ensures HeaderVerdict(r).NoError? && r.bytes[FILE_HEADER..] == EncodeAll(cs)
  {
    var b := r.bytes;
    var size := 4 + |EncodeAll(cs)|;
    assert |b| == 8 + size;
    assert b[4..8] == Le32(size);
    Le32RoundTrip(size);
    assert ReadLe32(b, 4) == ReadLe32(b[4..8], 0);
  }

  // ---------------------------------------------------------------------
  // The writer's files

  /** The chunks of a finished artifact. */
  function ArtifactChunks(format: Format, pcm: Bytes): seq<RiffChunk> {
    [RiffChunk(FMT, FormatBody(format), 0), RiffChunk(DATA, pcm, 0)]
  }

  /** A finished artifact's bytes (ArtifactWriter.Finish). */
  function ArtifactFile(format: Format, pcm: Bytes): Bytes {
    Header(format, |pcm|) + pcm + if |pcm| % 2 == 1 then [0] else []
  }

  lemma ArtifactIsChunks(format: Format, pcm: Bytes)
    requires |pcm| <= UINT32_MAX
    ensures ArtifactFile(format, pcm) == EncodeFile(ArtifactChunks(format, pcm))
    ensures WellFormed(ArtifactChunks(format, pcm))
  {
    var cs := ArtifactChunks(format, pcm);
    var body := EncodeAll(cs);
    assert cs[1..] == [cs[1]] && cs[1..][1..] == [];
    assert EncodeAll(cs[1..]) == Encode(cs[1]) + [];
    assert body == Encode(cs[0]) + Encode(cs[1]);
    assert Encode(cs[0]) == FMT + Le32(16) + FormatBody(format);
    assert |body| == 32 + Padded(|pcm|);
  }

  lemma FormatReadsBack(format: Format)
    requires format.Usable()
    ensures FieldsAt(FormatBody(format), 0) ==
            FormatFields(1, format.channels, format.sampleRate, format.sampleRate * format.channels * 3, format.channels * 3, 24)
  {
    hide Le16, Le32, ReadLe16, ReadLe32;
    var body := FormatBody(format);
    assert body[0..2] == Le16(1) && body[2..4] == Le16(format.channels) && body[4..8] == Le32(format.sampleRate);
    assert body[8..12] == Le32(format.sampleRate * format.channels * 3);
    assert body[12..14] == Le16(format.channels * 3) && body[14..16] == Le16(24);
    ReadsOfParts(body);
    Le16RoundTrip(1);
    Le16RoundTrip(format.channels);
    Le32RoundTrip(format.sampleRate);
    Le32RoundTrip(format.sampleRate * format.channels * 3);
    Le16RoundTrip(format.channels * 3);
    Le16RoundTrip(24);
  }

  lemma ReadsOfParts(body: Bytes)
    requires |body| == 16
    ensures ReadLe16(body, 0) == ReadLe16(body[0..2], 0) && ReadLe16(body, 2) == ReadLe16(body[2..4], 0)
    ensures ReadLe32(body, 4) == ReadLe32(body[4..8], 0) && ReadLe32(body, 8) == ReadLe32(body[8..12], 0)
    ensures ReadLe16(body, 12) == ReadLe16(body[12..14], 0) && ReadLe16(body, 14) == ReadLe16(body[14..16], 0)
  {
  }

  /** open_source_step()'s use of the reader: a file past 32 bits is refused before it. */
  ghost predicate OpensAsMono24(bytes: Bytes) {
    |bytes| <= UINT32_MAX && Verdict(Reader(bytes, (_, _) => true), 1, 24).NoError?
  }

  /**
   Which of the writer's files its own reader opens: exactly the mono ones at 48 kHz, not
   empty, of whole frames, whose whole length is a 32-bit number.
   */
  lemma ArtifactOpens(format: Format, pcm: Bytes)
    requires format.Usable() && RIFF_OVERHEAD + Padded(|pcm|) <= UINT32_MAX && |pcm| % format.FrameBytes() == 0
    ensures OpensAsMono24(ArtifactFile(format, pcm)) <==>
            && format.channels == 1 && format.sampleRate == 48000 && |pcm| > 0
            && HEADER_BYTES + Padded(|pcm|) <= UINT32_MAX
    ensures |ArtifactFile(format, pcm)| <= UINT32_MAX ==>
              exists cs, found :: Encodes(cs, ArtifactFile(format, pcm), found) && found.payload == Some(Payload(HEADER_BYTES, |pcm|))
  {
    hide Encode, Header, JudgeChunks, Walk, FieldsAt, FormatBody, HeaderVerdict, ArtifactFile, EncodeFile;
    var cs := ArtifactChunks(format, pcm);
    var file := ArtifactFile(format, pcm);
    ArtifactIsChunks(format, pcm);
    FormatReadsBack(format);
    ArtifactLength(format, pcm);
    if |file| <= UINT32_MAX {
      var r := Reader(file, (_, _) => true);
      EncodedHeader(r, cs);
      WalkJudgesChunks(r, cs, FILE_HEADER, FILE_HEADER, Found(None, None));
      JudgeArtifact(format, pcm);
      assert Encodes(cs, file, Found(Some(FieldsAt(FormatBody(format), 0)), Some(Payload(HEADER_BYTES, |pcm|))));
    }
  }

  lemma ArtifactLength(format: Format, pcm: Bytes)
    ensures |ArtifactFile(format, pcm)| == HEADER_BYTES + Padded(|pcm|)
  {
  }

  lemma JudgeArtifact(format: Format, pcm: Bytes)
    requires |pcm| <= UINT32_MAX
    ensures JudgeChunks(ArtifactChunks(format, pcm), FILE_HEADER, FILE_HEADER, Found(None, None)) ==
            Good(Found(Some(FieldsAt(FormatBody(format), 0)), Some(Payload(HEADER_BYTES, |pcm|))))
  {
    hide FieldsAt, FormatBody;
    var cs := ArtifactChunks(format, pcm);
    var none := Found(None, None);
    var withFormat := Found(Some(FieldsAt(FormatBody(format), 0)), None);
    assert cs[1..] == [cs[1]] && cs[1..][1..] == [];
    assert FMT[0] != DATA[0];
    assert JudgeOne(cs[0], FILE_HEADER, FILE_HEADER, none) == (36, Good(withFormat));
    var end := withFormat.(payload := Some(Payload(HEADER_BYTES, |pcm|)));
    assert JudgeOne(cs[1..][0], 36, 36, withFormat) == (44, Good(end));
    assert JudgeChunks(cs[1..][1..], HEADER_BYTES + Padded(|pcm|), 44, end) == Good(end);
    assert JudgeChunks(cs[1..], 36, 36, withFormat) == Good(end);
  }

  /** The longest artifact the writer accepts is one its own reader cannot open. */
  lemma LongestArtifactDoesNotOpen(pcm: Bytes)
    requires |pcm| == 3 * 1431655752
    ensures RIFF_OVERHEAD + Padded(|pcm|) <= UINT32_MAX
    ensures !OpensAsMono24(ArtifactFile(Format(48000, 1), pcm))
  {
  }
}
