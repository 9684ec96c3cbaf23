/** The incremental PCM24 WAV writer (common/pcm24_artifact.cpp) over the growing file. */
module Artifact {
  import opened Words
  import opened PreparedFile

  const MAX_APPEND_FRAMES: nat := 16384

  datatype Format = Format(sampleRate: Uint32, channels: Uint32) {
    function FrameBytes(): nat {
      channels * 3
    }

    predicate Usable() {
      (channels == 1 || channels == 2) && sampleRate != 0 && sampleRate <= UINT32_MAX / FrameBytesOf(channels)
    }

    static function FrameBytesOf(channels: nat): (n: nat)
      ensures n > 0
    {
      if channels == 0 then 1 else channels * 3
    }
  }

  // ---------------------------------------------------------------------
  // The header

  const RIFF: Bytes := [0x52, 0x49, 0x46, 0x46]
  const WAVE: Bytes := [0x57, 0x41, 0x56, 0x45]
  const FMT: Bytes := [0x66, 0x6D, 0x74, 0x20]
  const DATA: Bytes := [0x64, 0x61, 0x74, 0x61]

  /** A RIFF chunk's data and the byte that pads it to an even length. */
  function Padded(dataBytes: nat): nat {
    dataBytes + dataBytes % 2
  }

  function FormatBody(format: Format): (bytes: Bytes)
    ensures |bytes| == 16
  {
    Le16(1) + Le16(format.channels) + Le32(format.sampleRate) + Le32(format.sampleRate * format.channels * 3)
    + Le16(format.channels * 3) + Le16(24)
  }

  /** The canonical 44-byte header of `dataBytes` bytes of PCM24. */
  function Header(format: Format, dataBytes: nat): (bytes: Bytes)
    ensures |bytes| == HEADER_BYTES
  {
    RIFF + Le32(RIFF_OVERHEAD + Padded(dataBytes)) + WAVE
    + FMT + Le32(16) + FormatBody(format)
    + DATA + Le32(dataBytes)
  }

  /** Byte `index` of a 32-bit word, the least significant first. */
  function LittleEndian(value: nat, index: nat): Uint8
    requires index < 4
  {
    (if index == 0 then value else if index == 1 then value / 256 else if index == 2 then value / 65536
     else value / 16777216) % 256
  }

  /** The bytes `before` with `part` in place from `offset` on, and no other byte changed. */
  ghost predicate Filled(before: Bytes, after: Bytes, offset: nat, part: Bytes) {
    && |after| == |before| && offset + |part| <= |before|
    && after == before[..offset] + part + before[offset + |part|..]
  }

  method Put16(header: array<Uint8>, offset: nat, value: nat)
    requires offset + 2 <= header.Length
    modifies header
    ensures Filled(old(header[..]), header[..], offset, Le16(value))
  {
    header[offset] := value % 256;
    header[offset + 1] := value / 256 % 256;
  }

  method Put32(header: array<Uint8>, offset: nat, value: nat)
    requires offset + 4 <= header.Length
    modifies header
    ensures Filled(old(header[..]), header[..], offset, Le32(value))
  {
    for index := 0 to 4
      invariant forall i :: 0 <= i < index ==> header[offset + i] == LittleEndian(value, i)
      invariant forall i :: 0 <= i < header.Length && !(offset <= i < offset + index) ==> header[i] == old(header[i])
    {
      header[offset + index] := LittleEndian(value, index);
    }
    assert forall i :: 0 <= i < 4 ==> Le32(value)[i] == LittleEndian(value, i);
  }

  method PutTag(header: array<Uint8>, offset: nat, tag: Bytes)
    requires offset + 4 <= header.Length && |tag| == 4
    modifies header
    ensures Filled(old(header[..]), header[..], offset, tag)
  {
    for index := 0 to 4
      invariant forall i :: 0 <= i < index ==> header[offset + i] == tag[i]
      invariant forall i :: 0 <= i < header.Length && !(offset <= i < offset + index) ==> header[i] == old(header[i])
    {
      header[offset + index] := tag[index];
    }
  }

  lemma FilledNext(before: Bytes, after: Bytes, done: Bytes, part: Bytes)
    requires Filled(before, after, |done|, part) && before[..|done|] == done
    ensures after[..|done| + |part|] == done + part
  {
  }

  /** make_header(): the header's fields put in place one by one. */
  method MakeHeader(format: Format, dataBytes: nat) returns (header: array<Uint8>)
    requires format.Usable() && RIFF_OVERHEAD + Padded(dataBytes) <= UINT32_MAX
    ensures fresh(header) && header[..] == Header(format, dataBytes)
  {
    hide Filled, Le16, Le32;
    header := new Uint8[HEADER_BYTES](_ => 0);
    ghost var was, done := header[..], [];
    PutTag(header, 0, RIFF);
    FilledNext(was, header[..], done, RIFF);
    was, done := header[..], done + RIFF;
    Put32(header, 4, RIFF_OVERHEAD + Padded(dataBytes));
    FilledNext(was, header[..], done, Le32(RIFF_OVERHEAD + Padded(dataBytes)));
    was, done := header[..], done + Le32(RIFF_OVERHEAD + Padded(dataBytes));
    PutTag(header, 8, WAVE);
    FilledNext(was, header[..], done, WAVE);
    was, done := header[..], done + WAVE;
    PutTag(header, 12, FMT);
    FilledNext(was, header[..], done, FMT);
    was, done := header[..], done + FMT;
    Put32(header, 16, 16);
    FilledNext(was, header[..], done, Le32(16));
    was, done := header[..], done + Le32(16);
    PutFormat(header, format, done);
    was, done := header[..], done + FormatBody(format);
    PutTag(header, 36, DATA);
    FilledNext(was, header[..], done, DATA);
    was, done := header[..], done + DATA;
    Put32(header, 40, dataBytes);
    FilledNext(was, header[..], done, Le32(dataBytes));
    assert header[..] == header[..HEADER_BYTES];
    HeaderInOrder(format, dataBytes);
  }

  lemma HeaderInOrder(format: Format, dataBytes: nat)
    ensures Header(format, dataBytes) ==
            (((((([] + RIFF) + Le32(RIFF_OVERHEAD + Padded(dataBytes))) + WAVE) + FMT) + Le32(16)) + FormatBody(format))
            + DATA + Le32(dataBytes)
  {
  }

  method PutFormat(header: array<Uint8>, format: Format, ghost done: Bytes)
    requires header.Length == HEADER_BYTES && |done| == 20 && header[..20] == done && format.Usable()
    modifies header
    ensures header[..36] == done + FormatBody(format)
  {
    hide Filled, Le16, Le32;
    ghost var was, part := header[..], done;
    Put16(header, 20, 1);
    FilledNext(was, header[..], part, Le16(1));
    was, part := header[..], part + Le16(1);
    Put16(header, 22, format.channels);
    FilledNext(was, header[..], part, Le16(format.channels));
    was, part := header[..], part + Le16(format.channels);
    Put32(header, 24, format.sampleRate);
    FilledNext(was, header[..], part, Le32(format.sampleRate));
    was, part := header[..], part + Le32(format.sampleRate);
    Put32(header, 28, format.sampleRate * format.channels * 3);
    FilledNext(was, header[..], part, Le32(format.sampleRate * format.channels * 3));
    was, part := header[..], part + Le32(format.sampleRate * format.channels * 3);
    Put16(header, 32, format.channels * 3);
    FilledNext(was, header[..], part, Le16(format.channels * 3));
    was, part := header[..], part + Le16(format.channels * 3);
    Put16(header, 34, 24);
    FilledNext(was, header[..], part, Le16(24));
    part := part + Le16(24);
    assert part == done + FormatBody(format);
  }

  // ---------------------------------------------------------------------
  // The writer

  datatype WriterState = Idle | Active | Complete | Failed | Cancelled

  datatype WriterStatus = Done | BadState | BadFormat | BadFrames | TooLarge | Sink(status: StreamStatus)

  datatype Summary = Summary(frames: nat, dataBytes: nat, fileBytes: nat, digested: Bytes)

  /** The sink operations of finish(), in order. */
  datatype FinishIo = FinishIo(pad: Io, toStart: Move, header: Io, toEnd: Move) {
    /** Every operation that finishing so many bytes needs does all its work. */
    predicate Works(dataBytes: nat) {
      (dataBytes % 2 == 0 || Clean(pad, 1)) && toStart.There? && Clean(header, HEADER_BYTES) && toEnd.There?
    }
  }

  class ArtifactWriter {
    const sink: PreparedStream
    var state: WriterState
    var format: Format
    var frames: nat
    var dataBytes: nat
    var digested: Bytes        // the bytes the digest has taken in
    var failure: WriterStatus

    /** While active: the provisional header, then exactly the bytes appended, and the sink stands after them. */
    ghost predicate Valid()
      reads this, sink, sink.file
    {
      && sink.Valid()
      && (state.Active? ==>
            && sink.bound && format.Usable()
            && |digested| == dataBytes == frames * format.FrameBytes()
            && RIFF_OVERHEAD + Padded(dataBytes) <= UINT32_MAX
            && HEADER_BYTES + dataBytes <= |sink.file.content|
            && (sink.failure.Success? ==> |sink.file.content| == HEADER_BYTES + dataBytes)
            && sink.file.content[..HEADER_BYTES] == Header(format, 0)
            && sink.file.content[HEADER_BYTES..HEADER_BYTES + dataBytes] == digested
            && sink.writerCursor == HEADER_BYTES + dataBytes
            && sink.writtenExtent == HEADER_BYTES + dataBytes)
      && (state.Failed? ==> failure != Done)
    }

    constructor (sink: PreparedStream)
      requires sink.Valid()
      ensures Valid() && this.sink == sink && state.Idle?
    {
      this.sink := sink;
      state, format, frames, dataBytes, digested, failure := Idle, Format(0, 0), 0, 0, [], Done;
    }

    method Fail(reason: WriterStatus) returns (status: WriterStatus)
      requires sink.Valid() && reason != Done
      modifies this`state, this`failure
      ensures Valid() && state.Failed? && failure == status == reason
    {
      failure, state := reason, Failed;
      return failure;
    }

    /** Starts an artifact on a sink newly bound to an empty file. */
    method Begin(format: Format, toStart: Move, io: Io) returns (status: WriterStatus)
      requires Valid() && sink.Open()
      requires sink.writerCursor == sink.writtenExtent == sink.committedFrames == 0 && sink.file.content == []
      modifies this, sink, sink.file
      ensures Valid()
      ensures sink.scratch == old(sink.scratch)
      ensures old(state).Active? ==> status == BadState && unchanged(this)
      ensures !old(state).Active? ==>
                if !format.Usable() then status == BadFormat && state.Failed?
                else if toStart.There? && Clean(io, HEADER_BYTES) then
                  && status == Done && state.Active? && this.format == format && frames == 0 && digested == []
                  && sink.Open() && sink.committedFrames == 0 && sink.file.content == Header(format, 0)
                else status.Sink? && state.Failed?
    {
      hide Header, Overwrite;
      if state.Active? {
        return BadState;
      }
      digested, frames, dataBytes, failure, state := [], 0, 0, Done, Idle;
      if !format.Usable() {
        status := Fail(BadFormat);
        return;
      }
      this.format := format;
      status := Open(toStart, io);
    }

    /** Puts the provisional header at the start of the empty file. */
    method Open(toStart: Move, io: Io) returns (status: WriterStatus)
      requires sink.Valid() && sink.Open() && format.Usable()
      requires sink.writerCursor == sink.writtenExtent == sink.committedFrames == 0 && sink.file.content == []
      requires !state.Active? && frames == dataBytes == 0 && digested == []
      modifies this`state, this`failure, sink, sink.file
      ensures Valid()
      ensures sink.scratch == old(sink.scratch)
      ensures if toStart.There? && Clean(io, HEADER_BYTES) then
                && status == Done && state.Active?
                && sink.Open() && sink.committedFrames == 0 && sink.file.content == Header(format, 0)
              else status.Sink? && state.Failed?
    {
      hide Header, Overwrite;
      var positioned := sink.Seek(0, toStart);
      if !positioned.Success? {
        status := Fail(Sink(positioned));
        return;
      }
      var header := MakeHeader(format, 0);
      OverwriteAtEnd([], header[..]);
      var written := sink.WriteExact(header[..], io);
      assert header[..][..HEADER_BYTES] == header[..];
      if !written.Success? {
        status := Fail(Sink(written));
        return;
      }
      state := Active;
      return Done;
    }

    /** Appends whole frames after those there are. */
    method AppendFrames(bytes: Bytes, io: Io) returns (status: WriterStatus)
      requires Valid() && |bytes| <= UINT32_MAX
      modifies this`state, this`frames, this`dataBytes, this`digested, this`failure
      modifies sink`writerCursor, sink`writtenExtent, sink`failure, sink.file
      ensures Valid()
      ensures old(sink.bound) ==>
                sink.committedFrames == old(sink.committedFrames) && sink.Committed() == old(sink.Committed())
      ensures !old(state).Active? ==>
                unchanged(this) && unchanged(sink) && unchanged(sink.file) &&
                status == if old(state).Failed? then old(failure) else BadState
      ensures old(state).Active? ==>
                var fb := format.FrameBytes();
                if |bytes| % fb != 0 || |bytes| / fb > MAX_APPEND_FRAMES then
                  status == failure == BadFrames && state.Failed? && unchanged(sink) && unchanged(sink.file)
                else if |bytes| == 0 then
                  status == Done && unchanged(this) && unchanged(sink) && unchanged(sink.file)
                else if RIFF_OVERHEAD + Padded(old(dataBytes) + |bytes|) > UINT32_MAX then
                  status == failure == TooLarge && state.Failed? && unchanged(sink) && unchanged(sink.file)
                else
                  var reported := if old(sink.Open()) then Reported(io, |bytes|) else old(sink.failure);
                  && sink.failure == reported
                  && if reported.Success? then
                       && status == Done && state.Active? && sink.Open()
                       && digested == old(digested) + bytes && dataBytes == old(dataBytes) + |bytes|
                       && frames == old(frames) + |bytes| / fb
                     else status == failure == Sink(reported) && state.Failed?
      ensures old(state).Active? ==> PayloadKept(old(dataBytes), old(digested), sink.file.content)
    {
      hide Header, Overwrite;
      if !state.Active? {
        return if state.Failed? then failure else BadState;
      }
      var fb := format.FrameBytes();
      if |bytes| % fb != 0 || |bytes| / fb > MAX_APPEND_FRAMES {
        status := Fail(BadFrames);
        return;
      }
      if |bytes| == 0 {
        return Done;
      }
      var newBytes := dataBytes + |bytes|;
      var newFrames := frames + |bytes| / fb;
      if newBytes > UINT32_MAX - RIFF_OVERHEAD || RIFF_OVERHEAD + Padded(newBytes) > UINT32_MAX {
        status := Fail(TooLarge);
        return;
      }
      WholeFrames(|bytes|, fb);
      status := Store(bytes, newFrames, io);
    }

    /** Writes whole frames, not empty and within the RIFF capacity, at the end. */
    method Store(bytes: Bytes, newFrames: nat, io: Io) returns (status: WriterStatus)
      requires Valid() && state.Active? && 0 < |bytes| <= UINT32_MAX
      requires RIFF_OVERHEAD + Padded(dataBytes + |bytes|) <= UINT32_MAX
      requires newFrames * format.FrameBytes() == dataBytes + |bytes|
      modifies this`state, this`frames, this`dataBytes, this`digested, this`failure
      modifies sink`writerCursor, sink`writtenExtent, sink`failure, sink.file
      ensures Valid()
      ensures sink.committedFrames == old(sink.committedFrames) && sink.Committed() == old(sink.Committed())
      ensures var reported := if old(sink.Open()) then Reported(io, |bytes|) else old(sink.failure);
              && sink.failure == reported
              && if reported.Success? then
                   && status == Done && state.Active? && sink.Open()
                   && digested == old(digested) + bytes && dataBytes == old(dataBytes) + |bytes| && frames == newFrames
                 else status == failure == Sink(reported) && state.Failed?
      ensures PayloadKept(old(dataBytes), old(digested), sink.file.content)
    {
      hide Header, Overwrite;
      ghost var before := sink.file.content;
      ghost var moved := bytes[..Moved(io, |bytes|)];
      AppendKeeps(before, HEADER_BYTES + dataBytes, moved);
      var written := sink.WriteExact(bytes, io);
      if !written.Success? {
        status := Fail(Sink(written));
        return;
      }
      assert moved == bytes;
      digested := digested + bytes;
      dataBytes := dataBytes + |bytes|;
      frames := newFrames;
      return Done;
    }

    /** The pad byte, the final header over the provisional one, and the cursor back to the end. */
    method Finish(io: FinishIo) returns (status: WriterStatus, summary: Summary)
      requires Valid()
      modifies this`state, this`failure, sink`writerCursor, sink`writtenExtent, sink`failure, sink.file
      ensures Valid()
      ensures !old(state).Active? ==> status == if old(state).Failed? then old(failure) else BadState
      ensures old(state).Active? && old(sink.Open()) ==>
                (status == Done <==> io.Works(dataBytes))
      ensures old(state).Active? && !old(sink.Open()) ==> status != Done
      ensures old(state).Active? && status == Done ==>
                && state.Complete?
                && sink.file.content == Header(format, dataBytes) + digested + (if dataBytes % 2 == 1 then [0] else [])
                && summary == Summary(frames, dataBytes, HEADER_BYTES + Padded(dataBytes), digested)
      ensures old(state).Active? ==> PayloadKept(dataBytes, digested, sink.file.content)
      ensures old(state).Active? && status != Done ==> state.Failed?
    {
      hide Header, Overwrite;
      summary := Summary(0, 0, 0, []);
      if !state.Active? {
        return if state.Failed? then failure else BadState, summary;
      }
      var finalBytes := HEADER_BYTES + Padded(dataBytes);
      ghost var before := sink.file.content;
      if dataBytes % 2 != 0 {
        AppendKeeps(before, HEADER_BYTES + dataBytes, [0][..Moved(io.pad, 1)]);
        var padded := sink.WriteExact([0], io.pad);
        if !padded.Success? {
          status := Fail(Sink(padded));
          return;
        }
        assert [0][..1] == [0];
      }
      status := Finalize(finalBytes, io);
      if status == Done {
        summary := Summary(frames, dataBytes, finalBytes, digested);
      }
    }

    /** The end of finish(): the payload and its pad are in place. */
    method Finalize(finalBytes: nat, io: FinishIo) returns (status: WriterStatus)
      requires state.Active? && sink.Valid() && sink.bound && format.Usable()
      requires RIFF_OVERHEAD + Padded(dataBytes) <= UINT32_MAX && |digested| == dataBytes
      requires finalBytes == HEADER_BYTES + Padded(dataBytes)
      requires sink.failure.Success? ==> |sink.file.content| == finalBytes == sink.writtenExtent
      requires HEADER_BYTES + dataBytes <= |sink.file.content|
      requires sink.file.content[HEADER_BYTES..HEADER_BYTES + dataBytes] == digested
      requires sink.failure.Success? && dataBytes % 2 == 1 ==> sink.file.content[finalBytes - 1] == 0
      modifies this`state, this`failure, sink`writerCursor, sink`writtenExtent, sink`failure, sink.file
      ensures Valid()
      ensures status == Done <==> old(sink.Open()) && io.toStart.There? && Clean(io.header, HEADER_BYTES) && io.toEnd.There?
      ensures status == Done ==>
                && state.Complete?
                && sink.file.content == Header(format, dataBytes) + digested + (if dataBytes % 2 == 1 then [0] else [])
      ensures status != Done ==> state.Failed?
      ensures PayloadKept(dataBytes, digested, sink.file.content)
    {
      hide Header, Overwrite;
      ghost var before := sink.file.content;
      var positioned := sink.Seek(0, io.toStart);
      if !positioned.Success? {
        status := Fail(Sink(positioned));
        return;
      }
      var header := MakeHeader(format, dataBytes);
      HeaderOverwrites(before, header[..Moved(io.header, HEADER_BYTES)], HEADER_BYTES, HEADER_BYTES + dataBytes);
      var written := sink.WriteExact(header[..], io.header);
      assert header[..][..HEADER_BYTES] == header[..];
      if !written.Success? {
        status := Fail(Sink(written));
        return;
      }
      var returned := sink.Seek(finalBytes, io.toEnd);
      if !returned.Success? {
        status := Fail(Sink(returned));
        return;
      }
      FileInParts(before, header[..], digested, finalBytes);
      state := Complete;
      return Done;
    }

    /** Invalidates this writer only; its owner discards the file. */
    method Cancel()
      requires Valid()
      modifies this
      ensures Valid() && state.Cancelled? && frames == 0 && digested == []
    {
      frames, dataBytes, digested, failure, state := 0, 0, [], Done, Cancelled;
    }
  }

  /** The bytes appended so far stand after the header. */
  ghost predicate PayloadKept(dataBytes: nat, digested: Bytes, content: Bytes) {
    && HEADER_BYTES + dataBytes <= |content|
    && content[HEADER_BYTES..HEADER_BYTES + dataBytes] == digested
  }

  lemma OverwriteAtEnd(content: Bytes, bytes: Bytes)
    ensures Overwrite(content, |content|, bytes) == content + bytes
  {
  }

  lemma WholeFrames(bytes: nat, fb: nat)
    requires fb == 3 || fb == 6
    requires bytes % fb == 0
    ensures bytes == bytes / fb * fb
  {
  }

  /** What is written from the payload's end on leaves header and payload as they were. */
  lemma AppendKeeps(content: Bytes, end: nat, bytes: Bytes)
    requires HEADER_BYTES <= end <= |content|
    ensures var after := Overwrite(content, end, bytes);
            && end + |bytes| <= |after|
            && after[..HEADER_BYTES] == content[..HEADER_BYTES]
            && after[HEADER_BYTES..end] == content[HEADER_BYTES..end]
            && after[HEADER_BYTES..end + |bytes|] == content[HEADER_BYTES..end] + bytes
            && (end == |content| ==> |after| == end + |bytes|)
            && (forall i :: 0 <= i < |bytes| ==> after[end + i] == bytes[i])
  {
  }

  lemma HeaderOverwrites(content: Bytes, part: Bytes, lo: nat, hi: nat)
    requires |part| <= lo <= hi <= |content|
    ensures |Overwrite(content, 0, part)| == |content|
    ensures Overwrite(content, 0, part)[lo..hi] == content[lo..hi]
  {
    OverwriteKeeps(content, 0, part, lo, hi);
  }

  /** The finished file in its three parts. */
  lemma FileInParts(before: Bytes, header: Bytes, digested: Bytes, finalBytes: nat)
    requires |header| == HEADER_BYTES && |before| == finalBytes == HEADER_BYTES + Padded(|digested|)
    requires before[HEADER_BYTES..HEADER_BYTES + |digested|] == digested
    requires |digested| % 2 == 1 ==> before[finalBytes - 1] == 0
    ensures Overwrite(before, 0, header) == header + digested + if |digested| % 2 == 1 then [0] else []
  {
    assert before[HEADER_BYTES..] == digested + if |digested| % 2 == 1 then [0] else [];
  }
}
