/** A whole recording: appends, commits and playback reads interleaved in any order, with any faults, then the end. */
module Recording {
  import opened Words
  import opened PreparedFile
  import opened Artifact

  const MONO: nat := 1

  datatype Op =
    | Append(bytes: Bytes, io: Io)
    | Commit(frames: nat, synced: bool)
    | Fetch(firstFrame: nat, count: nat, readIo: ReadIo)

  datatype Outcome =
    | Appended(written: WriterStatus)
    | Committed(marked: StreamStatus)
    | Fetched(read: StreamStatus, bytes: Bytes)

  /** The sizes that fit the interface's words. */
  predicate Sized(op: Op) {
    (op.Append? ==> |op.bytes| <= UINT32_MAX) && (op.Fetch? ==> op.count <= UINT32_MAX)
  }

  // What a recording does, as a function of its operations and of what the file answers to them.

  /** The bytes recorded, the frames committed, and the first failure of the writer and of the stream under it. */
  datatype Tape = Tape(pcm: Bytes, committed: nat, writer: WriterStatus, stream: StreamStatus) {
    predicate Sound() {
      writer == Done && stream.Success?
    }
  }

  const BLANK: Tape := Tape([], 0, Done, Success)

  predicate Recordable(bytes: Bytes) {
    |bytes| % 3 == 0 && |bytes| / 3 <= MAX_APPEND_FRAMES
  }

  predicate Fits(t: Tape, bytes: Bytes) {
    RIFF_OVERHEAD + Padded(|t.pcm| + |bytes|) <= UINT32_MAX
  }

  function AfterAppend(t: Tape, bytes: Bytes, io: Io): (Tape, WriterStatus) {
    if t.writer != Done then (t, t.writer)
    else if !Recordable(bytes) then (t.(writer := BadFrames), BadFrames)
    else if bytes == [] then (t, Done)
    else if !Fits(t, bytes) then (t.(writer := TooLarge), TooLarge)
    else
      var written := if t.stream.Success? then Reported(io, |bytes|) else t.stream;
      if written.Success? then (t.(pcm := t.pcm + bytes), Done)
      else (t.(writer := Sink(written), stream := written), Sink(written))
  }

  predicate Markable(t: Tape, frames: nat) {
    t.committed <= frames && frames * 3 <= |t.pcm| && PreparedStream.ValidFileEnd(frames * 3)
  }

  function AfterCommit(t: Tape, frames: nat, synced: bool): (Tape, StreamStatus) {
    if !t.stream.Success? then (t, t.stream)
    else if !Markable(t, frames) then (t, BadRange)
    else if !synced then (t.(stream := IoError), IoError)
    else (t.(committed := frames), Success)
  }

  /** Why a read is refused before it begins. */
  function Refusal(t: Tape, firstFrame: nat, count: nat, scratch: nat): StreamStatus {
    if count == 0 || count % 3 != 0 || firstFrame + count / 3 > t.committed then BadRange
    else if count + (HEADER_BYTES + firstFrame * 3) % 4 > scratch then TooSmall
    else Success
  }

  function AfterFetch(t: Tape, firstFrame: nat, count: nat, io: ReadIo, scratch: nat): (r: (Tape, StreamStatus, Bytes))
    requires t.committed * 3 <= |t.pcm|
  {
    if !t.stream.Success? then (t, t.stream, [])
    else if !Refusal(t, firstFrame, count, scratch).Success? then (t, Refusal(t, firstFrame, count, scratch), [])
    else
      var read := ReadStatus(io, count);
      (t.(stream := read), read, if read.Success? then t.pcm[firstFrame * 3..firstFrame * 3 + count] else [])
  }

  function After(t: Tape, op: Op, scratch: nat): (r: (Tape, Outcome))
    requires t.committed * 3 <= |t.pcm|
    ensures r.0.committed * 3 <= |r.0.pcm| && t.pcm <= r.0.pcm
  {
    match op
    case Append(bytes, io) => (AfterAppend(t, bytes, io).0, Appended(AfterAppend(t, bytes, io).1))
    case Commit(frames, synced) => (AfterCommit(t, frames, synced).0, Committed(AfterCommit(t, frames, synced).1))
    case Fetch(firstFrame, count, io) =>
      var (tape, read, bytes) := AfterFetch(t, firstFrame, count, io, scratch);
      (tape, Fetched(read, bytes))
  }

  /** The tape after every operation, and what the last of them reported. */
  function TapeOf(ops: seq<Op>, scratch: nat): (t: Tape)
    ensures t.committed * 3 <= |t.pcm|
  {
    if ops == [] then BLANK else After(TapeOf(ops[..|ops| - 1], scratch), ops[|ops| - 1], scratch).0
  }

  function OutcomeOf(ops: seq<Op>, scratch: nat, i: nat): Outcome
    requires i < |ops|
  {
    After(TapeOf(ops[..i], scratch), ops[i], scratch).1
  }

  lemma TapeStep(ops: seq<Op>, scratch: nat, k: nat)
    requires k < |ops|
    ensures TapeOf(ops[..k + 1], scratch) == After(TapeOf(ops[..k], scratch), ops[k], scratch).0
  {
    assert ops[..k + 1][..k] == ops[..k];
  }

  // What the operations promise.

  /** Bytes once recorded stay. */
  lemma {:induction false} TapeGrows(ops: seq<Op>, scratch: nat, k: nat)
    requires k <= |ops|
    ensures TapeOf(ops[..k], scratch).pcm <= TapeOf(ops, scratch).pcm
    decreases |ops| - k
  {
    if k == |ops| {
      assert ops[..k] == ops;
    } else {
      TapeStep(ops, scratch, k);
      TapeGrows(ops, scratch, k + 1);
    }
  }

  lemma StartsBlank(ops: seq<Op>, scratch: nat)
    ensures TapeOf(ops[..0], scratch) == BLANK && BLANK.Sound()
  {
  }

  /** Only an append reported done records anything, and it records its bytes. */
  lemma AppendsOnly(t: Tape, op: Op, scratch: nat)
    requires t.committed * 3 <= |t.pcm|
    ensures After(t, op, scratch).0.pcm == t.pcm + if op.Append? && After(t, op, scratch).1 == Appended(Done) then op.bytes else []
  {
    hide ReadStatus;
    assert t.pcm + [] == t.pcm;
  }

  /** The concatenation of the appends reported done. */
  function Appends(ops: seq<Op>, scratch: nat, k: nat): Bytes
    requires k <= |ops|
  {
    if k == 0 then []
    else
      Appends(ops, scratch, k - 1)
      + if ops[k - 1].Append? && OutcomeOf(ops, scratch, k - 1) == Appended(Done) then ops[k - 1].bytes else []
  }

  /** What is recorded is exactly the appends reported done, in their order. */
  lemma {:induction false} RecordedIsAppended(ops: seq<Op>, scratch: nat, k: nat)
    requires k <= |ops|
    ensures TapeOf(ops[..k], scratch).pcm == Appends(ops, scratch, k)
  {
    hide TapeOf, After;
    if k == 0 {
      StartsBlank(ops, scratch);
    } else {
      RecordedIsAppended(ops, scratch, k - 1);
      TapeStep(ops, scratch, k - 1);
      AppendsOnly(TapeOf(ops[..k - 1], scratch), ops[k - 1], scratch);
    }
  }

  /** A read that succeeds gives those frames of all that is ever recorded, and leaves the tape as it was. */
  lemma ReadsBack(ops: seq<Op>, scratch: nat, i: nat)
    requires i < |ops| && ops[i].Fetch? && OutcomeOf(ops, scratch, i).Fetched? && OutcomeOf(ops, scratch, i).read.Success?
    ensures var pcm := TapeOf(ops, scratch).pcm;
            && ops[i].firstFrame * 3 + ops[i].count <= |pcm|
            && OutcomeOf(ops, scratch, i).bytes == pcm[ops[i].firstFrame * 3..ops[i].firstFrame * 3 + ops[i].count]
    ensures TapeOf(ops[..i + 1], scratch) == TapeOf(ops[..i], scratch)
  {
    TapeStep(ops, scratch, i);
    TapeGrows(ops, scratch, i);
  }

  /** An operation that breaks a sound recording: a fault of the file, or an append the writer cannot take. */
  predicate Breaks(t: Tape, op: Op, scratch: nat) {
    match op
    case Append(bytes, io) => !Recordable(bytes) || (bytes != [] && (!Fits(t, bytes) || !Clean(io, |bytes|)))
    case Commit(frames, synced) => Markable(t, frames) && !synced
    case Fetch(firstFrame, count, io) =>
      Refusal(t, firstFrame, count, scratch).Success? && !(io.there.There? && Clean(io.io, count) && io.back.There?)
  }

  lemma BreaksOrNot(t: Tape, op: Op, scratch: nat)
    requires t.committed * 3 <= |t.pcm|
    ensures After(t, op, scratch).0.Sound() <==> t.Sound() && !Breaks(t, op, scratch)
  {
  }

  /** A recording is sound until the first operation that breaks it, and never again. */
  lemma {:induction false} SoundExactly(ops: seq<Op>, scratch: nat, k: nat)
    requires k <= |ops|
    ensures TapeOf(ops[..k], scratch).Sound() <==> forall i :: 0 <= i < k ==> !Breaks(TapeOf(ops[..i], scratch), ops[i], scratch)
  {
    hide TapeOf, After, Breaks;
    if k == 0 {
      StartsBlank(ops, scratch);
    } else {
      SoundExactly(ops, scratch, k - 1);
      TapeStep(ops, scratch, k - 1);
      BreaksOrNot(TapeOf(ops[..k - 1], scratch), ops[k - 1], scratch);
    }
  }

  // The recording itself.

  /** The writer, its sink and the file are where the tape says; the payload on the file is the bytes recorded. */
  ghost predicate Holds(writer: ArtifactWriter, t: Tape, scratch: nat)
    reads writer, writer.sink, writer.sink.file
  {
    && writer.Valid() && writer.sink.bound && writer.sink.scratch == scratch
    && (if t.writer == Done then writer.state.Active? else writer.state.Failed? && writer.failure == t.writer)
    && writer.format.channels == MONO
    && writer.sink.failure == t.stream && writer.sink.committedFrames == t.committed
    && PayloadKept(|t.pcm|, t.pcm, writer.sink.file.content)
    && (writer.state.Active? ==> writer.digested == t.pcm)
    && (t.stream.Success? ==> writer.sink.writtenExtent == HEADER_BYTES + |t.pcm|)
    && t.committed * 3 <= |t.pcm|
  }

  /** One call on the recording does what the tape's function says of it. */
  method Perform(writer: ArtifactWriter, op: Op, ghost t: Tape) returns (outcome: Outcome)
    requires Holds(writer, t, writer.sink.scratch) && Sized(op)
    modifies writer, writer.sink, writer.sink.file
    ensures Holds(writer, After(t, op, old(writer.sink.scratch)).0, old(writer.sink.scratch))
    ensures outcome == After(t, op, old(writer.sink.scratch)).1
    ensures writer.format == old(writer.format)
    // A read that succeeds leaves the file, its cursor and the stream as they were.
    ensures op.Fetch? && outcome.Fetched? && outcome.read.Success? ==>
              unchanged(writer) && unchanged(writer.sink) && unchanged(writer.sink.file)
  {
    match op {
      case Append(bytes, io) =>
        var status := Store(writer, bytes, io, t);
        outcome := Appended(status);
      case Commit(frames, synced) =>
        var status := Mark(writer, frames, synced, t);
        outcome := Committed(status);
      case Fetch(firstFrame, count, readIo) =>
        var status, bytes := Play(writer, firstFrame, count, readIo, t);
        outcome := Fetched(status, bytes);
    }
  }

  method Store(writer: ArtifactWriter, bytes: Bytes, io: Io, ghost t: Tape) returns (status: WriterStatus)
    requires Holds(writer, t, writer.sink.scratch) && |bytes| <= UINT32_MAX
    modifies writer, writer.sink, writer.sink.file
    ensures Holds(writer, AfterAppend(t, bytes, io).0, old(writer.sink.scratch)) && status == AfterAppend(t, bytes, io).1
    ensures writer.format == old(writer.format)
  {
    hide Header, Overwrite;
    status := writer.AppendFrames(bytes, io);
    assert t.pcm + [] == t.pcm;
  }

  method Mark(writer: ArtifactWriter, frames: nat, synced: bool, ghost t: Tape) returns (status: StreamStatus)
    requires Holds(writer, t, writer.sink.scratch)
    modifies writer.sink
    ensures Holds(writer, AfterCommit(t, frames, synced).0, old(writer.sink.scratch))
    ensures status == AfterCommit(t, frames, synced).1
  {
    hide Header;
    status := writer.sink.CommitFrames(frames, synced);
  }

  method Play(writer: ArtifactWriter, firstFrame: nat, count: nat, readIo: ReadIo, ghost t: Tape)
    returns (status: StreamStatus, bytes: Bytes)
    requires Holds(writer, t, writer.sink.scratch) && count <= UINT32_MAX
    modifies writer.sink, writer.sink.file
    ensures Holds(writer, AfterFetch(t, firstFrame, count, readIo, old(writer.sink.scratch)).0, old(writer.sink.scratch))
    ensures status == AfterFetch(t, firstFrame, count, readIo, old(writer.sink.scratch)).1
    ensures bytes == AfterFetch(t, firstFrame, count, readIo, old(writer.sink.scratch)).2
    ensures status.Success? ==> unchanged(writer.sink) && unchanged(writer.sink.file)
  {
    hide Header, ReadStatus;
    CommittedIsRecorded(writer, t, writer.sink.scratch);
    ghost var committed := t.committed * 3;
    status, bytes := writer.sink.ReadFrames(firstFrame, count, readIo);
    if status.Success? {
      SliceOfSlice(t.pcm, 0, committed, firstFrame * 3, count);
    }
  }

  /** The committed bytes are the first frames recorded. */
  lemma CommittedIsRecorded(writer: ArtifactWriter, t: Tape, scratch: nat)
    requires Holds(writer, t, scratch)
    ensures writer.sink.Committed() == t.pcm[..t.committed * 3]
  {
    hide Header;
    var content := writer.sink.file.content;
    SliceOfSlice(content, HEADER_BYTES, HEADER_BYTES + |t.pcm|, 0, t.committed * 3);
  }

  /**
   A recording from its start to its end. Every outcome is the one its operation has on the
   tape; the end is refused exactly for a recording that is not sound or a fault of its own
   operations, never for the committed range; a finished file is the header, the bytes
   recorded and the zero pad, and any other still holds every byte recorded.
   */
  method Record(rate: Uint32, ops: seq<Op>, scratch: nat, toStart: Move, headerIo: Io, finishIo: FinishIo)
    returns (outcomes: seq<Outcome>, started: bool, finished: bool, content: Bytes)
    requires 0 < rate <= UINT32_MAX / 3 && scratch >= 4 && forall i :: 0 <= i < |ops| ==> Sized(ops[i])
    ensures started <==> toStart.There? && Clean(headerIo, HEADER_BYTES)
    ensures started ==> |outcomes| == |ops| && forall i :: 0 <= i < |ops| ==> outcomes[i] == OutcomeOf(ops, scratch, i)
    ensures finished <==> started && TapeOf(ops, scratch).Sound() && finishIo.Works(|TapeOf(ops, scratch).pcm|)
    ensures var pcm := TapeOf(ops, scratch).pcm;
            && (started ==> PayloadKept(|pcm|, pcm, content))
            && (finished ==> content == Header(Format(rate, MONO), |pcm|) + pcm + if |pcm| % 2 == 1 then [0] else [])
  {
    hide Header, Overwrite, Holds, TapeOf, After;
    var file := new File();
    var sink := new PreparedStream(file);
    var writer := new ArtifactWriter(sink);
    outcomes, finished := [], false;
    var bound := sink.Bind(scratch, true);
    var begun := writer.Begin(Format(rate, MONO), toStart, headerIo);
    started := begun == Done;
    if !started {
      content := file.content;
      return;
    }
    StartHolds(writer);
    assert ops[..0] == [];
    for i := 0 to |ops|
      invariant fresh(file) && fresh(sink) && fresh(writer) && writer.sink == sink && sink.file == file
      invariant sink.scratch == scratch && |outcomes| == i && Holds(writer, TapeOf(ops[..i], scratch), scratch)
      invariant writer.format == Format(rate, MONO)
      invariant forall j :: 0 <= j < i ==> outcomes[j] == OutcomeOf(ops, scratch, j)
    {
      var outcome := Perform(writer, ops[i], TapeOf(ops[..i], scratch));
      TapeStep(ops, scratch, i);
      ScratchKept(writer, TapeOf(ops[..i + 1], scratch), scratch);
      outcomes := outcomes + [outcome];
    }
    assert ops[..|ops|] == ops;
    finished := End(writer, finishIo, TapeOf(ops, scratch), scratch);
    content := file.content;
  }

  lemma ScratchKept(writer: ArtifactWriter, t: Tape, scratch: nat)
    requires Holds(writer, t, scratch)
    ensures writer.sink.scratch == scratch
  {
  }

  lemma StartHolds(writer: ArtifactWriter)
    requires writer.Valid() && writer.state.Active? && writer.digested == [] && writer.sink.Open()
    requires writer.sink.committedFrames == 0 && writer.format.channels == MONO
    ensures Holds(writer, TapeOf([], writer.sink.scratch), writer.sink.scratch)
  {
    hide Header;
  }

  method End(writer: ArtifactWriter, finishIo: FinishIo, ghost t: Tape, ghost scratch: nat) returns (finished: bool)
    requires Holds(writer, t, scratch)
    modifies writer, writer.sink, writer.sink.file
    ensures finished <==> t.Sound() && finishIo.Works(|t.pcm|)
    ensures PayloadKept(|t.pcm|, t.pcm, writer.sink.file.content)
    ensures finished ==>
              writer.sink.file.content ==
              Header(old(writer.format), |t.pcm|) + t.pcm + if |t.pcm| % 2 == 1 then [0] else []
  {
    hide Header, Overwrite;
    if writer.state.Active? {
      var status, summary := writer.Finish(finishIo);
      finished := status == Done;
    } else {
      finished := false;
    }
  }
}
