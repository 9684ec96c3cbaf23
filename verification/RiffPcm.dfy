/**
 What the WAV reader's verdict means (common/wav.hpp): which files it takes for PCM of the
 required format, said of the chunks that a file encodes, and what it names in any other.
 */
module RiffPcm {
  import opened Words
  import opened Artifact
  import opened Riff

  /** The chunk at `k` is the only one with this identifier. */
  ghost predicate OneOf(cs: seq<RiffChunk>, id: Bytes, k: nat) {
    k < |cs| && cs[k].id == id && forall i :: 0 <= i < |cs| && cs[i].id == id ==> i == k
  }

  ghost predicate NoneOf(cs: seq<RiffChunk>, id: Bytes) {
    forall i :: 0 <= i < |cs| ==> cs[i].id != id
  }

  /** The bytes of a file that are not its data: eight for each chunk, and what stands in the others. */
  function HeaderBytes(cs: seq<RiffChunk>): nat {
    if cs == [] then 0 else 8 + (if cs[0].id == DATA then 0 else |cs[0].body| + |cs[0].body| % 2) + HeaderBytes(cs[1..])
  }

  /** A list of chunks that the walk takes: short enough beside its data, at most one format, of sixteen bytes, and one data chunk. */
  ghost predicate Sound(cs: seq<RiffChunk>) {
    && WellFormed(cs) && 12 + HeaderBytes(cs) <= 65536
    && (forall i, j :: 0 <= i < j < |cs| && cs[i].id == cs[j].id ==> cs[i].id != FMT && cs[i].id != DATA)
    && (forall i :: 0 <= i < |cs| && cs[i].id == FMT ==> 16 <= |cs[i].body|)
  }

  /** Where the data of chunk `k` begins in the file. */
  function StartOf(cs: seq<RiffChunk>, k: nat): nat
    requires k < |cs|
  {
    12 + |EncodeAll(cs[..k])| + 8
  }

  /** The format that is asked for, byte for byte. */
  function Pcm48k(channels: nat, bits: nat): Bytes {
    var frame := bits / 8 * channels;
    Le16(1) + Le16(channels) + Le32(48000) + Le32(48000 * frame) + Le16(frame) + Le16(bits)
  }

  /** PCM of 16 or 24 bits, stereo of 24 only. */
  predicate Asked(channels: nat, bits: nat) {
    (channels == 1 && (bits == 16 || bits == 24)) || (channels == 2 && bits == 24)
  }

  /** The chunks hold whole frames, at least one, of PCM of the format asked for, in chunk `data`. */
  ghost predicate HoldsPcm(cs: seq<RiffChunk>, format: nat, data: nat, channels: nat, bits: nat) {
    && Sound(cs) && Asked(channels, bits) && OneOf(cs, FMT, format) && OneOf(cs, DATA, data)
    && cs[format].body[..16] == Pcm48k(channels, bits)
    && 0 < |cs[data].body| && |cs[data].body| % (bits / 8 * channels) == 0
  }

  /** The file encodes these, with its data there. */
  ghost predicate Tells(bytes: Bytes, cs: seq<RiffChunk>, format: nat, data: nat, channels: nat, bits: nat, payload: Payload) {
    bytes == EncodeFile(cs) && HoldsPcm(cs, format, data, channels, bits) && payload == Payload(StartOf(cs, data), |cs[data].body|)
  }

  /** The file encodes some such chunks. */
  ghost predicate IsPcm(bytes: Bytes, channels: nat, bits: nat, payload: Payload) {
    exists cs: seq<RiffChunk>, format: nat, data: nat :: Tells(bytes, cs, format, data, channels, bits, payload)
  }

  // ---------------------------------------------------------------------
  // The walk's findings

  /** What chunks from `at` on add to what was found. */
  ghost predicate Finds(cs: seq<RiffChunk>, at: nat, found: Found, g: Found, format: nat, data: nat) {
    && (found.format.Some? ==> g.format == found.format && NoneOf(cs, FMT))
    && (found.format.None? && g.format.None? ==> NoneOf(cs, FMT))
    && (found.format.None? && g.format.Some? ==>
          OneOf(cs, FMT, format) && 16 <= |cs[format].body| && g.format.value == FieldsAt(cs[format].body, 0))
    && (found.payload.Some? ==> g.payload == found.payload && NoneOf(cs, DATA))
    && (found.payload.None? && g.payload.None? ==> NoneOf(cs, DATA))
    && (found.payload.None? && g.payload.Some? ==>
          OneOf(cs, DATA, data) && g.payload.value == Payload(at + |EncodeAll(cs[..data])| + 8, |cs[data].body|))
  }

  lemma EncodedBefore(cs: seq<RiffChunk>, k: nat)
    requires 0 < k <= |cs| && cs[0].WellFormed()
    ensures |EncodeAll(cs[..k])| == 8 + Padded(|cs[0].body|) + |EncodeAll(cs[1..][..k - 1])|
  {
    assert cs[..k][1..] == cs[1..][..k - 1] && cs[..k][0] == cs[0];
  }

  /** What a good judgement found, and that the list was sound. */
  lemma {:induction false} JudgedFinds(cs: seq<RiffChunk>, at: nat, headerBytes: nat, found: Found) returns (format: nat, data: nat)
    requires WellFormed(cs) && JudgeChunks(cs, at, headerBytes, found).Good?
    requires headerBytes <= HEADER_BYTE_LIMIT
    ensures headerBytes + HeaderBytes(cs) <= HEADER_BYTE_LIMIT
    ensures Finds(cs, at, found, JudgeChunks(cs, at, headerBytes, found).found, format, data)
    decreases |cs|
  {
    hide FieldsAt, EncodeAll;
    format, data := 0, 0;
    if cs != [] {
      var rest, next := cs[1..], at + CHUNK_HEADER + Padded(|cs[0].body|);
      var (budget, judged) := JudgeOne(cs[0], at, headerBytes, found);
      var g := JudgeChunks(cs, at, headerBytes, found).found;
      format, data := JudgedFinds(rest, next, budget, judged.found);
      assert FMT != DATA by {
        assert FMT[0] != DATA[0];
      }
      hide JudgeChunks;
      if found.format.None? && judged.found.format.Some? {
        OneAtFront(cs, FMT);
        format := 0;
      } else {
        OneFurther(cs, FMT, format);
        format := format + 1;
      }
      if found.payload.None? && judged.found.payload.Some? {
        OneAtFront(cs, DATA);
        data := 0;
        NothingBefore(cs);
      } else {
        OneFurther(cs, DATA, data);
        if data + 1 <= |cs| {
          EncodedBefore(cs, data + 1);
        }
        data := data + 1;
      }
    }
  }

  lemma NothingBefore(cs: seq<RiffChunk>)
    requires cs != []
    ensures EncodeAll(cs[..0]) == []
  {
  }

  lemma OneAtFront(cs: seq<RiffChunk>, id: Bytes)
    requires cs != [] && cs[0].id == id && NoneOf(cs[1..], id)
    ensures OneOf(cs, id, 0)
  {
    assert forall i :: 0 < i < |cs| ==> cs[i] == cs[1..][i - 1];
  }

  lemma OneFurther(cs: seq<RiffChunk>, id: Bytes, k: nat)
    requires cs != []
    ensures cs[0].id != id && OneOf(cs[1..], id, k) ==> OneOf(cs, id, k + 1)
    ensures cs[0].id != id && NoneOf(cs[1..], id) ==> NoneOf(cs, id)
  {
    assert forall i :: 0 < i < |cs| ==> cs[i] == cs[1..][i - 1];
  }

  /** A sound list is judged good. */
  lemma {:induction false} SoundIsJudged(cs: seq<RiffChunk>, at: nat, headerBytes: nat, found: Found)
    requires WellFormed(cs) && headerBytes + HeaderBytes(cs) <= HEADER_BYTE_LIMIT
    requires forall i, j :: 0 <= i < j < |cs| && cs[i].id == cs[j].id ==> cs[i].id != FMT && cs[i].id != DATA
    requires forall i :: 0 <= i < |cs| && cs[i].id == FMT ==> 16 <= |cs[i].body|
    requires (found.format.Some? ==> NoneOf(cs, FMT)) && (found.payload.Some? ==> NoneOf(cs, DATA))
    ensures JudgeChunks(cs, at, headerBytes, found).Good?
    decreases |cs|
  {
    hide FieldsAt;
    if cs != [] {
      var rest := cs[1..];
      assert forall i :: 0 <= i < |rest| ==> rest[i] == cs[i + 1];
      var (budget, judged) := JudgeOne(cs[0], at, headerBytes, found);
      assert FMT != DATA by {
        assert FMT[0] != DATA[0];
      }
      assert cs[0].id == FMT || cs[0].id == DATA ==> NoneOf(rest, cs[0].id);
      SoundIsJudged(rest, at + CHUNK_HEADER + Padded(|cs[0].body|), budget, judged.found);
    }
  }

  lemma JudgedIsSound(cs: seq<RiffChunk>, g: Found, format: nat, data: nat)
    requires WellFormed(cs) && 12 + HeaderBytes(cs) <= 65536 && Finds(cs, 12, Found(None, None), g, format, data)
    ensures Sound(cs)
  {
    hide FieldsAt, EncodeAll;
  }

  /** A walk that comes to its end read everything it asked for: a reader without faults finds the same. */
  lemma {:induction false} FaultsAside(r: Reader, cursor: nat, headerBytes: nat, found: Found)
    requires r.Readable() && cursor <= |r.bytes| && headerBytes <= HEADER_BYTE_LIMIT && Walk(r, cursor, headerBytes, found).Good?
    ensures Walk(Reader(r.bytes, (_, _) => true), cursor, headerBytes, found) == Walk(r, cursor, headerBytes, found)
    decreases |r.bytes| - cursor
  {
    hide ChunkAt, Take;
    if cursor < |r.bytes| {
      GoodWalkSteps(r, cursor, headerBytes, found);
      SameChunk(r, cursor, headerBytes);
      var (chunk, budget) := ChunkAt(r, cursor, headerBytes).value;
      SameTake(r, chunk, found);
      FaultsAside(r, chunk.next, budget, Take(r, chunk, found).found);
    }
  }

  lemma SameChunk(r: Reader, cursor: nat, headerBytes: nat)
    requires r.Readable() && cursor <= |r.bytes| && headerBytes <= HEADER_BYTE_LIMIT && ChunkAt(r, cursor, headerBytes).Some?
    ensures ChunkAt(Reader(r.bytes, (_, _) => true), cursor, headerBytes) == ChunkAt(r, cursor, headerBytes)
  {
    hide ReadLe32;
  }

  lemma SameTake(r: Reader, chunk: Chunk, found: Found)
    requires r.Readable() && chunk.offset + chunk.bytes <= |r.bytes| && Take(r, chunk, found).Good?
    ensures Take(Reader(r.bytes, (_, _) => true), chunk, found) == Take(r, chunk, found)
  {
    hide FieldsAt;
  }

  // ---------------------------------------------------------------------
  // The format's fields

  lemma BodyParts(body: Bytes)
    requires |body| >= 16
    ensures body[..16] == body[0..2] + body[2..4] + body[4..8] + body[8..12] + body[12..14] + body[14..16]
  {
  }

  lemma FieldsAreBytes(body: Bytes, channels: nat, bits: nat)
    requires |body| >= 16 && Asked(channels, bits)
    ensures var frame := bits / 8 * channels;
            FieldsAt(body, 0) == FormatFields(1, channels, 48000, 48000 * frame, frame, bits) <==> body[..16] == Pcm48k(channels, bits)
  {
    hide Le16, Le32, ReadLe16, ReadLe32;
    var frame := bits / 8 * channels;
    BodyParts(body);
    HalfWordEncodes(body, 0);
    HalfWordEncodes(body, 2);
    WordEncodes(body, 4);
    WordEncodes(body, 8);
    HalfWordEncodes(body, 12);
    HalfWordEncodes(body, 14);
    if body[..16] == Pcm48k(channels, bits) {
      Parts(Le16(1), Le16(channels), Le32(48000), Le32(48000 * frame), Le16(frame), Le16(bits));
      var head := body[..16];
      assert head[0..2] == body[0..2] && head[2..4] == body[2..4] && head[4..8] == body[4..8];
      assert head[8..12] == body[8..12] && head[12..14] == body[12..14] && head[14..16] == body[14..16];
      ReadsOfParts(head);
      FieldsOfBody(body, 0, body);
      SameReads(body);
      Le16RoundTrip(1);
      Le16RoundTrip(channels);
      Le32RoundTrip(48000);
      Le32RoundTrip(48000 * frame);
      Le16RoundTrip(frame);
      Le16RoundTrip(bits);
    }
  }

  lemma SameReads(body: Bytes)
    requires |body| >= 16
    ensures FieldsAt(body, 0) == FieldsAt(body[..16], 0)
  {
  }

  lemma Parts(a: Bytes, b: Bytes, c: Bytes, d: Bytes, e: Bytes, f: Bytes)
    requires |a| == |b| == |e| == |f| == 2 && |c| == |d| == 4
    ensures var s := a + b + c + d + e + f;
            s[0..2] == a && s[2..4] == b && s[4..8] == c && s[8..12] == d && s[12..14] == e && s[14..16] == f
  {
  }

  // ---------------------------------------------------------------------
  // The verdict

  /** No data chunk, or an empty one. */
  ghost predicate Dataless(cs: seq<RiffChunk>) {
    forall i :: 0 <= i < |cs| && cs[i].id == DATA ==> cs[i].body == []
  }

  /** What the reader says of a file that encodes a sound list. */
  ghost predicate Says(cs: seq<RiffChunk>, channels: nat, bits: nat, error: WavError) {
    && (error.MissingFormat? <==> NoneOf(cs, FMT))
    && (error.MissingData? <==> !NoneOf(cs, FMT) && Dataless(cs))
    && (error.NoError? <==> exists format: nat, data: nat :: HoldsPcm(cs, format, data, channels, bits))
    && (error.NoError? || error.MissingFormat? || error.MissingData? || error.UnsupportedFormat?)
  }

  lemma FoundIsSaid(cs: seq<RiffChunk>, g: Found, format: nat, data: nat, channels: nat, bits: nat)
    requires Sound(cs) && Finds(cs, 12, Found(None, None), g, format, data)
    ensures Says(cs, channels, bits, FormatVerdict(g, channels, bits))
    ensures FormatVerdict(g, channels, bits).NoError? ==>
              HoldsPcm(cs, format, data, channels, bits) && g.payload == Some(Payload(StartOf(cs, data), |cs[data].body|))
  {
    hide FieldsAt, EncodeAll, Pcm48k;
    if g.format.Some? && Asked(channels, bits) {
      FieldsAreBytes(cs[format].body, channels, bits);
    }
    if FormatVerdict(g, channels, bits).NoError? {
      assert HoldsPcm(cs, format, data, channels, bits);
    }
    if f: nat, d: nat :| HoldsPcm(cs, f, d, channels, bits) {
      assert f == format && d == data;
    }
  }

  /** The verdict on the encoding of a sound list names the first part that is missing, or PCM as asked for. */
  lemma VerdictOfSound(r: Reader, cs: seq<RiffChunk>, channels: nat, bits: nat)
    requires r.Readable() && (forall offset: nat, count: nat :: r.works(offset, count))
    requires Sound(cs) && r.bytes == EncodeFile(cs)
    ensures Says(cs, channels, bits, Verdict(r, channels, bits))
  {
    hide FieldsAt, Walk, JudgeChunks, EncodeAll, FormatVerdict, Says;
    EncodedHeader(r, cs);
    assert |r.bytes| >= FILE_HEADER;
    hide EncodeFile, HeaderVerdict;
    WalkJudgesChunks(r, cs, FILE_HEADER, FILE_HEADER, Found(None, None));
    SoundIsJudged(cs, FILE_HEADER, FILE_HEADER, Found(None, None));
    var format, data := JudgedFinds(cs, FILE_HEADER, FILE_HEADER, Found(None, None));
    FoundIsSaid(cs, JudgeChunks(cs, FILE_HEADER, FILE_HEADER, Found(None, None)).found, format, data, channels, bits);
  }

  /** A walk to the end, with whatever faults elsewhere, was over the encoding of a sound list. */
  lemma WalkedIsSound(r: Reader) returns (cs: seq<RiffChunk>, format: nat, data: nat)
    requires r.Readable() && HeaderVerdict(r).NoError? && Walk(r, FILE_HEADER, FILE_HEADER, Found(None, None)).Good?
    ensures Sound(cs) && r.bytes == EncodeFile(cs)
    ensures Finds(cs, 12, Found(None, None), Walk(r, FILE_HEADER, FILE_HEADER, Found(None, None)).found, format, data)
  {
    hide FieldsAt, Walk, JudgeChunks, EncodeFile, EncodeAll;
    assert |r.bytes| >= FILE_HEADER;
    hide HeaderVerdict;
    var none := Found(None, None);
    var works := Reader(r.bytes, (_, _) => true);
    cs := WalkTakesOnlyChunks(r, FILE_HEADER, FILE_HEADER, none);
    FileOfChunks(r, cs);
    FaultsAside(r, FILE_HEADER, FILE_HEADER, none);
    WalkJudgesChunks(works, cs, FILE_HEADER, FILE_HEADER, none);
    format, data := JudgedFinds(cs, FILE_HEADER, FILE_HEADER, none);
    JudgedIsSound(cs, Walk(r, FILE_HEADER, FILE_HEADER, none).found, format, data);
  }

  /** A walk that stops names a read fault, a broken layout or a format too short. */
  lemma {:induction false} WalkErrors(r: Reader, cursor: nat, headerBytes: nat, found: Found)
    requires r.Readable() && cursor <= |r.bytes| && headerBytes <= HEADER_BYTE_LIMIT
    ensures var p := Walk(r, cursor, headerBytes, found); p.Bad? ==> p.error.Io? || p.error.InvalidRiff? || p.error.UnsupportedFormat?
    decreases |r.bytes| - cursor
  {
    hide ReadLe32, FieldsAt;
    if cursor < |r.bytes| && ChunkAt(r, cursor, headerBytes).Some? {
      var (chunk, budget) := ChunkAt(r, cursor, headerBytes).value;
      if Take(r, chunk, found).Good? {
        WalkErrors(r, chunk.next, budget, Take(r, chunk, found).found);
      }
    }
  }

  ghost predicate EncodesSound(bytes: Bytes, cs: seq<RiffChunk>) {
    Sound(cs) && bytes == EncodeFile(cs)
  }

  /** The file encodes a sound list without a format. */
  ghost predicate NoFormat(bytes: Bytes) {
    exists cs: seq<RiffChunk> :: EncodesSound(bytes, cs) && NoneOf(cs, FMT)
  }

  /** The file encodes a sound list with a format and no data. */
  ghost predicate NoData(bytes: Bytes) {
    exists cs: seq<RiffChunk> :: EncodesSound(bytes, cs) && !NoneOf(cs, FMT) && Dataless(cs)
  }

  /** What a verdict stands for. */
  lemma VerdictStandsFor(r: Reader, channels: nat, bits: nat)
    requires r.Readable() && (forall offset: nat, count: nat :: r.works(offset, count))
    ensures var error := Verdict(r, channels, bits);
            && (error.NoError? ==> exists payload: Payload :: IsPcm(r.bytes, channels, bits, payload))
            && (error.MissingFormat? ==> NoFormat(r.bytes)) && (error.MissingData? ==> NoData(r.bytes))
  {
    if HeaderVerdict(r).NoError? && Walk(r, FILE_HEADER, FILE_HEADER, Found(None, None)).Good? {
      var cs, format, data := WalkedIsSound(r);
      assert EncodesSound(r.bytes, cs);
      VerdictOfSound(r, cs, channels, bits);
      hide Verdict, EncodeFile, Sound, Walk, HeaderVerdict, StartOf;
      if f: nat, d: nat :| HoldsPcm(cs, f, d, channels, bits) {
        assert Tells(r.bytes, cs, f, d, channels, bits, Payload(StartOf(cs, d), |cs[d].body|));
        assert IsPcm(r.bytes, channels, bits, Payload(StartOf(cs, d), |cs[d].body|));
      }
    } else {
      HeaderErrors(r);
      if HeaderVerdict(r).NoError? {
        WalkErrors(r, FILE_HEADER, FILE_HEADER, Found(None, None));
      }
      hide Walk, HeaderVerdict;
    }
  }

  lemma HeaderErrors(r: Reader)
    requires r.Readable()
    ensures HeaderVerdict(r).NoError? || HeaderVerdict(r).Io? || HeaderVerdict(r).InvalidRiff?
    ensures HeaderVerdict(r).NoError? ==> |r.bytes| >= FILE_HEADER
  {
  }

  /**
   For any bytes: with working reads the verdict is none if and only if the file encodes chunks that
   hold PCM as asked for, and it names a missing format, or missing data, if and only if the file
   encodes a sound list without it.
   */
  lemma VerdictMeans(r: Reader, channels: nat, bits: nat)
    requires r.Readable() && (forall offset: nat, count: nat :: r.works(offset, count))
    ensures Verdict(r, channels, bits).NoError? <==> exists payload: Payload :: IsPcm(r.bytes, channels, bits, payload)
    ensures Verdict(r, channels, bits).MissingFormat? <==> NoFormat(r.bytes)
    ensures Verdict(r, channels, bits).MissingData? <==> NoData(r.bytes)
  {
    VerdictStandsFor(r, channels, bits);
    hide Verdict, EncodeFile, Sound, HoldsPcm;
    if payload: Payload :| IsPcm(r.bytes, channels, bits, payload) {
      var cs: seq<RiffChunk>, f: nat, d: nat :| Tells(r.bytes, cs, f, d, channels, bits, payload);
      HoldsIsSound(cs, f, d, channels, bits);
      VerdictOfSound(r, cs, channels, bits);
    }
    if NoFormat(r.bytes) {
      var cs: seq<RiffChunk> :| EncodesSound(r.bytes, cs) && NoneOf(cs, FMT);
      VerdictOfSound(r, cs, channels, bits);
    }
    if NoData(r.bytes) {
      var cs: seq<RiffChunk> :| EncodesSound(r.bytes, cs) && !NoneOf(cs, FMT) && Dataless(cs);
      VerdictOfSound(r, cs, channels, bits);
    }
  }

  lemma HoldsIsSound(cs: seq<RiffChunk>, format: nat, data: nat, channels: nat, bits: nat)
    requires HoldsPcm(cs, format, data, channels, bits)
    ensures Sound(cs)
  {
  }

  /** With whatever faults: a file that is taken is PCM as asked for, and the payload found is the data of its data chunk. */
  lemma AcceptedIsPcm(r: Reader, channels: nat, bits: nat)
    requires r.Readable() && Verdict(r, channels, bits).NoError?
    ensures HeaderVerdict(r).NoError? && Walk(r, FILE_HEADER, FILE_HEADER, Found(None, None)).Good?
    ensures var found := Walk(r, FILE_HEADER, FILE_HEADER, Found(None, None)).found;
            found.payload.Some? && IsPcm(r.bytes, channels, bits, found.payload.value)
  {
    HeaderErrors(r);
    if HeaderVerdict(r).NoError? {
      WalkErrors(r, FILE_HEADER, FILE_HEADER, Found(None, None));
    }
    var found := Walk(r, FILE_HEADER, FILE_HEADER, Found(None, None)).found;
    var cs, format, data := WalkedIsSound(r);
    FoundIsSaid(cs, found, format, data, channels, bits);
    hide Walk, HeaderVerdict, HoldsPcm, EncodeFile, StartOf;
    assert Tells(r.bytes, cs, format, data, channels, bits, found.payload.value);
  }
}
