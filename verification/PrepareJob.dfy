/**
 The prepare job (rt1170/prepare_job.cpp): check, render, read back and publish a WAV
 and its manifest, one bounded step at a time, over files whose every operation may fail.
 */
module PrepareJobs {
  import opened Words
  import A = Artifact

  const CHUNK: nat := 4096
  const BLOCK_FRAMES: nat := 2048
  const CAPACITY_FRAMES: nat := 2304
  const HEADER: nat := 44
  const CHECKED_NAMES: nat := 5
  const CARD: A.Format := A.Format(48000, 1)

  /** The job's own refusals, and those of the parts it calls. */
  datatype Status =
    | Ok | IoError | ShortRead | BadWav | BadRequest | MissingReference | BadScenarioSource | ExistingOutput | Alias | BadManifest
    | BadVerify | NoJob | CancelledByUser | ManagedPending | ManagedMismatch | ManagedSlip | AlreadyBusy | Refused

  datatype Phase =
    | IdlePhase | Starting | HashingSource | HashingSecondary | Calibrating | Rendering | Verifying | Publishing
    | Complete | Cancelled | Failed | CleanupFailed

  /** The states of the work, numbered as the board numbers them. */
  type Work = w: nat | w < 36
  const IDLE: Work := 0
  const MOUNT: Work := 1
  const SOURCE_OPEN: Work := 2
  const SOURCE_HASH: Work := 3
  const SCENARIO_OPEN: Work := 4
  const SCENARIO_READ: Work := 5
  const SCENARIO_CLOSE: Work := 6
  const SCENARIO_PARSE: Work := 7
  const PATH_CHECKS: Work := 8
  const SECONDARY_HASH_OPEN: Work := 9
  const SECONDARY_HASH: Work := 10
  const SECONDARY_HASH_CLOSE: Work := 11
  const SECONDARY_OPEN: Work := 12
  const SECONDARY_MEASURE: Work := 13
  const SECONDARY_CLOSE: Work := 14
  const CONFIGURE: Work := 15
  const OUTPUT_CREATE: Work := 16
  const RENDER_READ_DECODE: Work := 17
  const RENDER_PROCESS_PACK: Work := 18
  const RENDER_APPEND: Work := 19
  const OUTPUT_FINISH: Work := 20
  const OUTPUT_SYNC: Work := 21
  const OUTPUT_CLOSE: Work := 22
  const SOURCE_CLOSE: Work := 23
  const VERIFY_OPEN: Work := 24
  const VERIFY_HEADER: Work := 25
  const VERIFY_FILE: Work := 26
  const VERIFY_CLOSE: Work := 27
  const MANIFEST_CREATE: Work := 28
  const MANIFEST_WRITE: Work := 29
  const MANIFEST_SYNC: Work := 30
  const MANIFEST_CLOSE: Work := 31
  const PUBLISH_WAV: Work := 32
  const PUBLISH_MANIFEST: Work := 33
  const CLEANUP: Work := 34
  const TERMINAL: Work := 35

  predicate InRender(work: Work) {
    work == RENDER_READ_DECODE || work == RENDER_PROCESS_PACK || work == RENDER_APPEND
  }

  /** At work: not idle, not cleaning up, not at its end. */
  predicate Running(work: Work) {
    work != IDLE && work != CLEANUP && work != TERMINAL
  }

  /** The files a job makes or must not find, under the stem of its output's name. */
  datatype Kind = WavFile | WavTemp | ManifestFile | ManifestTemp | Companion

  datatype Name = Name(stem: string, kind: Kind)

  /** What a manifest says of its WAV. */
  datatype Record = Record(wavSha: nat, pcmSha: nat, inputFrames: nat, outputFrames: nat, keep: bool)

  datatype Content = Audio | Text(record: Record, written: nat, whole: nat)

  type Files = map<Name, Content>

  datatype WriterState = WriterIdle | Active | Finished | WriterFailed | WriterCancelled

  datatype Summary = Summary(frames: nat, dataBytes: nat, fileBytes: nat, pcmSha: nat)

  /** What a parsed scenario is found to be. */
  datatype Scenario = Scenario(parses: bool, reference: bool, slips: bool, secondary: bool, named: bool, distinct: bool, companion: bool)

  /**
   What the outside world answers to one step: its calls in their order, a size, the
   bytes a read brought, whether a refused rename moved the file all the same.
   */
  datatype Answers = Answers(ok: bool, second: bool, third: bool, size: nat, offset: nat, frames: nat, bytes: Bytes, moved: bool,
                             scenario: Scenario)

  /** read_exact: the move to the place, then a whole read. */
  function ReadFault(a: Answers, count: nat): Status {
    if !a.ok then IoError else if !a.second || |a.bytes| != count then ShortRead else Ok
  }

  /** The PCM bytes among the first bytes of a WAV with `dataBytes` of them. */
  function PcmPart(file: Bytes, dataBytes: nat): Bytes {
    if |file| <= HEADER then [] else file[HEADER..Min(|file|, HEADER + dataBytes)]
  }

  /** The whole frames among packed bytes. */
  function WholeFrames(bytes: Bytes): (whole: Bytes)
    ensures |whole| == 3 * (|bytes| / 3)
  {
    bytes[..3 * (|bytes| / 3)]
  }

  function FileBytesOf(dataBytes: nat): nat {
    HEADER + A.Padded(dataBytes)
  }

  /** The header check of verify_header_step, field by field. */
  predicate HeaderMatches(header: Bytes, dataBytes: nat, fileBytes: nat) {
    && |header| == HEADER
    && header[0..4] == A.RIFF && ReadLe32(header, 4) == fileBytes - 8 && header[8..12] == A.WAVE
    && header[12..16] == A.FMT && ReadLe32(header, 16) == 16 && ReadLe16(header, 20) == 1 && ReadLe16(header, 22) == 1
    && ReadLe32(header, 24) == 48000 && ReadLe32(header, 28) == 144000 && ReadLe16(header, 32) == 3
    && ReadLe16(header, 34) == 24 && header[36..40] == A.DATA && ReadLe32(header, 40) == dataBytes
    && dataBytes % 3 == 0 && FileBytesOf(dataBytes) == fileBytes
  }

  /** A header that passes is byte for byte the one the writer makes for that many bytes. */
  lemma VerifiedHeaderIsCanonical(header: Bytes, dataBytes: nat, fileBytes: nat)
    requires HeaderMatches(header, dataBytes, fileBytes)
    ensures header == A.Header(CARD, dataBytes)
  {
    hide Le16, Le32, ReadLe16, ReadLe32;
    WordEncodes(header, 4);
    WordEncodes(header, 16);
    HalfWordEncodes(header, 20);
    HalfWordEncodes(header, 22);
    WordEncodes(header, 24);
    WordEncodes(header, 28);
    HalfWordEncodes(header, 32);
    HalfWordEncodes(header, 34);
    WordEncodes(header, 40);
    HeaderFields(header);
  }

  lemma HeaderFields(header: Bytes)
    requires |header| == HEADER
    ensures header == header[0..4] + header[4..8] + header[8..12] + header[12..16]
                      + (header[16..20] + header[20..22]) + header[22..24] + header[24..28] + header[28..32]
                      + header[32..34] + header[34..36] + header[36..40] + header[40..44]
  {
  }

  /** The same the other way: the writer's header of whole frames passes, as long as its sizes fit 32 bits. */
  lemma CanonicalHeaderPasses(dataBytes: nat)
    requires dataBytes % 3 == 0 && FileBytesOf(dataBytes) <= UINT32_MAX
    ensures HeaderMatches(A.Header(CARD, dataBytes), dataBytes, FileBytesOf(dataBytes))
  {
    hide Le16, Le32, ReadLe16, ReadLe32;
    var size, header := 36 + A.Padded(dataBytes), A.Header(CARD, dataBytes);
    OuterParts(A.RIFF, Le32(size), A.WAVE, A.FMT, Le32(16), A.FormatBody(CARD), A.DATA, Le32(dataBytes));
    InnerParts(Le16(1), Le16(1), Le32(48000), Le32(144000), Le16(3), Le16(24));
    hide A.Header, A.FormatBody;
    WordAt(header, 4, size);
    WordAt(header, 16, 16);
    WordAt(header, 40, dataBytes);
    var body := header[20..36];
    assert body == A.FormatBody(CARD);
    assert header[20..22] == body[0..2] && header[22..24] == body[2..4] && header[24..28] == body[4..8];
    assert header[28..32] == body[8..12] && header[32..34] == body[12..14] && header[34..36] == body[14..16];
    HalfWordAt(header, 20, 1);
    HalfWordAt(header, 22, 1);
    WordAt(header, 24, 48000);
    WordAt(header, 28, 144000);
    HalfWordAt(header, 32, 3);
    HalfWordAt(header, 34, 24);
  }

  lemma WordAt(bytes: Bytes, at: nat, x: nat)
    requires at + 4 <= |bytes| && x <= UINT32_MAX && bytes[at..at + 4] == Le32(x)
    ensures ReadLe32(bytes, at) == x
  {
    Le32RoundTrip(x);
    ReadLe32Slice(bytes, at, at + 4, 0);
  }

  lemma HalfWordAt(bytes: Bytes, at: nat, x: nat)
    requires at + 2 <= |bytes| && x <= 0xFFFF && bytes[at..at + 2] == Le16(x)
    ensures ReadLe16(bytes, at) == x
  {
    Le16RoundTrip(x);
    var half := bytes[at..at + 2];
    assert half[0] == bytes[at] && half[1] == bytes[at + 1];
  }

  lemma OuterParts(a: Bytes, b: Bytes, c: Bytes, d: Bytes, e: Bytes, f: Bytes, g: Bytes, h: Bytes)
    requires |a| == |b| == |c| == |d| == |e| == |g| == |h| == 4 && |f| == 16
    ensures var s := a + b + c + d + e + f + g + h;
            && s[0..4] == a && s[4..8] == b && s[8..12] == c && s[12..16] == d && s[16..20] == e && s[20..36] == f
            && s[36..40] == g && s[40..44] == h
  {
  }

  lemma InnerParts(a: Bytes, b: Bytes, c: Bytes, d: Bytes, e: Bytes, f: Bytes)
    requires |a| == |b| == |e| == |f| == 2 && |c| == |d| == 4
    ensures var s := a + b + c + d + e + f;
            s[0..2] == a && s[2..4] == b && s[4..8] == c && s[8..12] == d && s[12..14] == e && s[14..16] == f
  {
  }

  /** What the end of a render and its read-back leave: the summary, and what was read and digested. */
  datatype Evidence = Evidence(finalBytes: nat, summary: Summary, header: Bytes, readBack: Bytes, readBackPcm: Bytes,
                               wavSha: nat, pcmSha: nat)

  const NOTHING: Evidence := Evidence(0, Summary(0, 0, 0, 0), [], [], [], 0, 0)

  /** What the job holds open. */
  datatype Handles = Handles(mounted: bool, source: bool, work: bool, output: bool, manifest: bool, secondary: bool, engine: bool) {
    predicate Closed() {
      !mounted && !source && !work && !output && !manifest && !secondary && !engine
    }

    /** How many closes the end of the job still needs; the engine goes with the first. */
    function Count(): nat {
      (if mounted then 1 else 0) + (if source then 1 else 0) + (if work then 1 else 0) + (if output then 1 else 0)
      + (if manifest then 1 else 0) + (if secondary then 1 else 0)
    }
  }

  const ALL_CLOSED: Handles := Handles(false, false, false, false, false, false, false)

  /** The cursors and block counters of a job. */
  datatype Counts = Counts(dataOffset: nat, sourceBytes: nat, sourceFrames: nat, sourceCursor: nat, blockIn: nat, blockOut: nat,
                           scenarioBytes: nat, scenarioCursor: nat, secondaryBytes: nat, hashCursor: nat, rendered: nat,
                           managedProduced: nat, managedRequest: nat, pathCheckIndex: nat, outputFrames: nat)

  const NO_COUNTS: Counts := Counts(0, 0, 0, 0, 0, 0, 0, 0, 0, 0, 0, 0, 0, 0, 0)

  /** The manifest's text: its length and how much of it is written. */
  datatype Draft = Draft(length: nat, cursor: nat)

  /** How the job will end. */
  datatype Fate = Fate(terminalPhase: Phase, pendingFailure: Status, cancelRequested: bool, published: bool)

  const FRESH_FATE: Fate := Fate(IdlePhase, Ok, false, false)

  /** What stood behind a manifest when it got its name. */
  datatype Publication = Publication(evidence: Evidence, appended: Bytes, sourceFrames: nat, keep: bool)

  /** The digest, and the room of the buffer that a scenario or a manifest must fit. */
  datatype Setup = Setup(sha: Bytes -> nat, room: nat)

  datatype Mode = Mode(secondary: bool, managed: bool, keep: bool)

  datatype Sink = Sink(writer: WriterState, bound: bool)

  datatype History = History(first: Files, before: Files, shown: map<string, Publication>)

  /**
   A job as a value: what the board keeps of it, the files on the card, and a history that
   only the statements read: the files when the board started and when the job was admitted,
   and what stood behind each manifest.
   */
  datatype Job = Job(
    setup: Setup, phase: Phase, status: Status, work: Work, stem: string, fate: Fate, handles: Handles, mode: Mode, counts: Counts,
    packed: Bytes, appended: Bytes, sink: Sink, evidence: Evidence, draft: Draft, files: Files, history: History)
  {
    predicate Busy() {
      (work != IDLE && work != TERMINAL) || !handles.Closed()
    }

    /** A managed render goes on by its owner's calls only. */
    predicate AwaitsOwner() {
      mode.managed && phase.Rendering? && InRender(work)
    }

    predicate Managing() {
      mode.managed && phase.Rendering? && !fate.cancelRequested && work != CLEANUP
    }

    predicate Playable() {
      phase.Rendering? && handles.output && !fate.cancelRequested && work != CLEANUP
    }

    function Named(kind: Kind): Name {
      Name(stem, kind)
    }
  }

  /** A call's effect and its answer. */
  datatype Effect = Did(job: Job, result: Status)

  // ---------------------------------------------------------------------
  // What each step does

  /** fail: the first failure is the job's; the rest of its life is cleaning up. */
  function Failing(j: Job, failure: Status): Effect {
    var fate := if j.fate.pendingFailure.Ok? then j.fate.(pendingFailure := failure, terminalPhase := Phase.Failed) else j.fate;
    Did(j.(fate := fate, status := fate.pendingFailure, work := CLEANUP), failure)
  }

  function Going(j: Job, work: Work): Effect {
    Did(j.(work := work), Ok)
  }

  /** On to the next state, unless the one call of this one failed. */
  function Either(j: Job, ok: bool, failure: Status, work: Work): Effect {
    if ok then Going(j, work) else Failing(j, failure)
  }

  function AfterMount(j: Job, a: Answers): Effect {
    Either(j.(handles := j.handles.(mounted := true)), a.ok, IoError, SOURCE_OPEN)
  }

  function AfterOpenSource(j: Job, a: Answers): Effect {
    if !a.ok then Failing(j, IoError)
    else AfterCheckSource(j.(handles := j.handles.(source := true), counts := j.counts.(sourceBytes := a.size)), a)
  }

  /** The WAV check; a failed read inside it leaves its own status pending, and no end phase yet. */
  function AfterCheckSource(j: Job, a: Answers): Effect {
    if a.size > UINT32_MAX then Failing(j, BadWav)
    else if !a.second then
      var k := if !a.third && j.fate.pendingFailure.Ok? then j.(fate := j.fate.(pendingFailure := ShortRead)) else j;
      Failing(k, if k.fate.pendingFailure.Ok? then BadWav else k.fate.pendingFailure)
    else
      Going(j.(counts := j.counts.(dataOffset := a.offset, sourceFrames := a.frames, hashCursor := 0), phase := HashingSource),
            SOURCE_HASH)
  }

  function AfterHashSource(j: Job, a: Answers): Effect {
    if j.counts.hashCursor == j.counts.sourceBytes then Going(j, SCENARIO_OPEN)
    else
      var count := Min(CHUNK, j.counts.sourceBytes - j.counts.hashCursor);
      if count < 0 then Failing(j, IoError)
      else if !ReadFault(a, count).Ok? then Failing(j, ReadFault(a, count))
      else Did(j.(counts := j.counts.(hashCursor := j.counts.hashCursor + count)), Ok)
  }

  function AfterOpenScenario(j: Job, a: Answers): Effect {
    if !a.ok then Failing(j, IoError)
    else
      var k := j.(handles := j.handles.(work := true), counts := j.counts.(scenarioBytes := a.size));
      if a.size == 0 || a.size >= j.setup.room || a.size > UINT32_MAX then Failing(k, BadRequest)
      else Going(k.(counts := k.counts.(scenarioCursor := 0)), SCENARIO_READ)
  }

  function AfterReadScenario(j: Job, a: Answers): Effect {
    if j.counts.scenarioCursor == j.counts.scenarioBytes then Going(j, SCENARIO_CLOSE)
    else
      var count := Min(CHUNK, j.counts.scenarioBytes - j.counts.scenarioCursor);
      if count < 0 then Failing(j, IoError)
      else if !ReadFault(a, count).Ok? then Failing(j, ReadFault(a, count))
      else Did(j.(counts := j.counts.(scenarioCursor := j.counts.scenarioCursor + count)), Ok)
  }

  /** On to the next state once a file is closed. */
  function Onward(closed: Effect, work: Work): Effect {
    if closed.result.Ok? then Going(closed.job, work) else Failing(closed.job, closed.result)
  }

  /** The checks of a scenario, in their order. */
  function ScenarioFault(found: Scenario, managed: bool): Status {
    if !found.parses then Refused
    else if !found.reference then MissingReference
    else if managed && found.slips then ManagedSlip
    else if found.secondary && !found.named then BadScenarioSource
    else if found.secondary && !found.distinct then Alias
    else if !found.companion then Alias
    else Ok
  }

  function AfterParseScenario(j: Job, a: Answers): Effect {
    var fault := ScenarioFault(a.scenario, j.mode.managed);
    if !fault.Ok? then Failing(j, fault)
    else Going(j.(mode := j.mode.(secondary := a.scenario.secondary), counts := j.counts.(pathCheckIndex := 0)), PATH_CHECKS)
  }

  /** The kinds of name a job checks for before it makes anything, in their order. */
  function CheckedKind(index: nat): Kind {
    if index == 0 then WavFile else if index == 1 then WavTemp else if index == 2 then ManifestFile
    else if index == 3 then ManifestTemp else Companion
  }

  function AfterPathCheck(j: Job, a: Answers): Effect {
    if j.counts.pathCheckIndex >= CHECKED_NAMES then Going(j, if j.mode.secondary then SECONDARY_HASH_OPEN else CONFIGURE)
    else if !a.ok then Failing(j, IoError)
    else if j.Named(CheckedKind(j.counts.pathCheckIndex)) in j.files then Failing(j, ExistingOutput)
    else Did(j.(counts := j.counts.(pathCheckIndex := j.counts.pathCheckIndex + 1)), Ok)
  }

  function AfterOpenSecondaryHash(j: Job, a: Answers): Effect {
    if !a.ok then Failing(j, IoError)
    else
      Going(j.(handles := j.handles.(work := true), counts := j.counts.(secondaryBytes := a.size, hashCursor := 0),
               phase := HashingSecondary), SECONDARY_HASH)
  }

  function AfterHashSecondary(j: Job, a: Answers): Effect {
    if j.counts.hashCursor == j.counts.secondaryBytes then Going(j, SECONDARY_HASH_CLOSE)
    else
      var count := Min(CHUNK, j.counts.secondaryBytes - j.counts.hashCursor);
      if count < 0 then Failing(j, IoError)
      else if !ReadFault(a, count).Ok? then Failing(j, ReadFault(a, count))
      else Did(j.(counts := j.counts.(hashCursor := j.counts.hashCursor + count)), Ok)
  }

  function AfterOpenSecondary(j: Job, a: Answers): Effect {
    var k := j.(handles := j.handles.(secondary := true));
    if a.ok then Going(k.(phase := Calibrating), SECONDARY_MEASURE) else Failing(k, Refused)
  }

  function AfterMeasure(j: Job, a: Answers): Effect {
    if !a.ok then Failing(j, Refused) else Going(j, if a.second then CONFIGURE else SECONDARY_MEASURE)
  }

  function AfterConfigure(j: Job, a: Answers): Effect {
    Either(j.(phase := if j.phase.Calibrating? then Calibrating else Starting, handles := j.handles.(engine := true)),
           a.ok, Refused, OUTPUT_CREATE)
  }

  /** The file under its temporary name, newly created; then the sink bound to it, then the writer. */
  function AfterCreateOutput(j: Job, a: Answers): Effect {
    if !a.ok || j.Named(WavTemp) in j.files then Failing(j, IoError)
    else AfterStartWriter(j.(files := j.files[j.Named(WavTemp) := Audio], handles := j.handles.(output := true)), a)
  }

  function AfterStartWriter(j: Job, a: Answers): Effect {
    if !a.second || j.sink.bound then Failing(j, Refused)
    else if !a.third || j.sink.writer.Active? then Failing(j.(sink := Sink(WriterFailed, true)), Refused)
    else
      Going(j.(sink := Sink(Active, true), phase := Rendering,
               counts := j.counts.(sourceCursor := 0, outputFrames := 0, blockIn := 0, blockOut := 0)), RENDER_READ_DECODE)
  }

  function AfterReadDecode(j: Job, a: Answers): Effect {
    if j.counts.sourceCursor == j.counts.sourceFrames then Going(j, OUTPUT_FINISH)
    else
      var frames := if j.mode.managed then j.counts.managedRequest else Min(BLOCK_FRAMES, j.counts.sourceFrames - j.counts.sourceCursor);
      if frames < 0 || j.counts.dataOffset + 3 * j.counts.sourceCursor > UINT32_MAX || frames > BLOCK_FRAMES then Failing(j, BadWav)
      else if !a.ok then Failing(j, ShortRead)
      else Going(j.(counts := j.counts.(blockIn := frames, blockOut := 0)), RENDER_PROCESS_PACK)
  }

  function AfterProcessPack(j: Job, a: Answers): Effect {
    var produced := |a.bytes| / 3;
    if j.counts.blockIn == 0 || j.counts.blockIn > BLOCK_FRAMES then Failing(j, BadRequest)
    else if !a.ok then Failing(j, Refused)
    else if j.mode.managed && produced != j.counts.blockIn then Failing(j, ManagedSlip)
    else if produced > CAPACITY_FRAMES then Failing(j, BadRequest)
    else Going(j.(packed := WholeFrames(a.bytes), counts := j.counts.(blockOut := produced)), RENDER_APPEND)
  }

  function AfterAppend(j: Job, a: Answers): Effect {
    if j.counts.sourceCursor > j.counts.sourceFrames || j.counts.blockIn == 0
       || j.counts.blockIn > j.counts.sourceFrames - j.counts.sourceCursor || j.counts.blockOut > CAPACITY_FRAMES
    then Failing(j, BadRequest)
    else if !a.ok || !j.sink.writer.Active? then Failing(j.(sink := j.sink.(writer := WriterFailed)), IoError)
    else
      Going(j.(appended := j.appended + j.packed,
               counts := j.counts.(sourceCursor := j.counts.sourceCursor + j.counts.blockIn,
                                   rendered := j.counts.rendered + j.counts.blockOut,
                                   outputFrames := j.counts.rendered + j.counts.blockOut, blockIn := 0, blockOut := 0)),
            RENDER_READ_DECODE)
  }

  /** The writer's summary of what it was given. */
  function SummaryOf(sha: Bytes -> nat, appended: Bytes): Summary {
    Summary(|appended| / 3, |appended|, FileBytesOf(|appended|), sha(appended))
  }

  function AfterFinishOutput(j: Job, a: Answers): Effect {
    if !a.ok || !j.sink.writer.Active? then Failing(j.(sink := j.sink.(writer := WriterFailed)), IoError)
    else
      var summary := SummaryOf(j.setup.sha, j.appended);
      var k := j.(sink := j.sink.(writer := Finished), evidence := j.evidence.(summary := summary));
      if summary.frames != j.counts.outputFrames || summary.fileBytes < HEADER then Failing(k, BadVerify)
      else
        Going(k.(evidence := k.evidence.(finalBytes := summary.fileBytes), handles := k.handles.(engine := false), phase := Verifying),
              if j.handles.secondary then SECONDARY_CLOSE else OUTPUT_SYNC)
  }

  function AfterCloseSecondary(j: Job, a: Answers): Effect {
    if a.ok then Going(j.(handles := j.handles.(secondary := false)), OUTPUT_SYNC) else Failing(j, IoError)
  }

  function AfterOpenVerify(j: Job, a: Answers): Effect {
    if !a.ok then Failing(j, IoError)
    else
      var k := j.(handles := j.handles.(work := true));
      if a.size != j.evidence.finalBytes || j.evidence.finalBytes > UINT32_MAX then Failing(k, BadVerify)
      else Going(k.(phase := Verifying), VERIFY_HEADER)
  }

  function AfterVerifyHeader(j: Job, a: Answers): Effect {
    if j.evidence.finalBytes > UINT32_MAX then Failing(j, BadVerify)
    else if !ReadFault(a, HEADER).Ok? then Failing(j, ReadFault(a, HEADER))
    else if !HeaderMatches(a.bytes, j.evidence.summary.dataBytes, j.evidence.finalBytes) then Failing(j, BadVerify)
    else Going(j.(evidence := j.evidence.(header := a.bytes, readBack := [], readBackPcm := [])), VERIFY_FILE)
  }

  /** A chunk into both digests: all of it, and what of it is PCM. */
  function Digested(e: Evidence, bytes: Bytes): Evidence {
    var offset, end := |e.readBack|, |e.readBack| + |bytes|;
    var overlapStart := if offset > HEADER then offset else HEADER;
    var overlapEnd := Min(end, HEADER + e.summary.dataBytes);
    var pcm := if overlapEnd > overlapStart then bytes[overlapStart - offset..overlapEnd - offset] else [];
    e.(readBack := e.readBack + bytes, readBackPcm := e.readBackPcm + pcm)
  }

  /** The pad byte is in the chunk, and is not zero. */
  predicate PadIsWrong(e: Evidence, bytes: Bytes) {
    var pad := HEADER + e.summary.dataBytes;
    e.summary.dataBytes % 2 == 1 && |e.readBack| <= pad < |e.readBack| + |bytes| && bytes[pad - |e.readBack|] != 0
  }

  function AfterVerifyFile(j: Job, a: Answers): Effect {
    if |j.evidence.readBack| == j.evidence.finalBytes then AfterReadBack(j)
    else
      var count := Min(CHUNK, j.evidence.finalBytes - |j.evidence.readBack|);
      if count < 0 || !a.ok then Failing(j, IoError)
      else if !ReadFault(a, count).Ok? then Failing(j, ReadFault(a, count))
      else if PadIsWrong(j.evidence, a.bytes) then Failing(j.(evidence := Digested(j.evidence, a.bytes)), BadVerify)
      else Did(j.(evidence := Digested(j.evidence, a.bytes)), Ok)
  }

  /** The whole file is read: its PCM must be as long as the writer's and have its digest. */
  function AfterReadBack(j: Job): Effect {
    var pcmSha := j.setup.sha(j.evidence.readBackPcm);
    if |j.evidence.readBackPcm| != j.evidence.summary.dataBytes || pcmSha != j.evidence.summary.pcmSha then Failing(j, BadVerify)
    else Going(j.(evidence := j.evidence.(wavSha := j.setup.sha(j.evidence.readBack), pcmSha := pcmSha)), VERIFY_CLOSE)
  }

  function AfterCreateManifest(j: Job, a: Answers): Effect {
    if a.size == 0 || a.size >= j.setup.room then Failing(j, BadManifest)
    else if !a.ok || j.Named(ManifestTemp) in j.files then Failing(j, IoError)
    else
      var record := Record(j.evidence.wavSha, j.evidence.pcmSha, j.counts.sourceFrames, j.evidence.summary.frames, j.mode.keep);
      Going(j.(files := j.files[j.Named(ManifestTemp) := Text(record, 0, a.size)], handles := j.handles.(manifest := true),
               draft := Draft(a.size, 0), phase := Publishing), MANIFEST_WRITE)
  }

  /** The manifest under its temporary name, with so much of it written. */
  function Longer(files: Files, name: Name, written: nat): Files {
    if name in files && files[name].Text? then files[name := files[name].(written := written)] else files
  }

  function AfterWriteManifest(j: Job, a: Answers): Effect {
    if j.draft.cursor == j.draft.length then Going(j, MANIFEST_SYNC)
    else
      var count := Min(CHUNK, j.draft.length - j.draft.cursor);
      if count < 0 || !a.ok then Failing(j, IoError)
      else
        Did(j.(draft := j.draft.(cursor := j.draft.cursor + count),
                files := Longer(j.files, j.Named(ManifestTemp), j.draft.cursor + count)), Ok)
  }

  /** f_rename: possible from a file that is there to a name that is free. */
  predicate Renamable(files: Files, source: Name, target: Name) {
    source in files && target !in files
  }

  function Renamed(files: Files, source: Name, target: Name): Files {
    if Renamable(files, source, target) then files[target := files[source]] - {source} else files
  }

  /** The WAV's own name; a refused rename may still have moved it. */
  function AfterPublishWav(j: Job, a: Answers): Effect {
    var renamed := Renamed(j.files, j.Named(WavTemp), j.Named(WavFile));
    if a.ok && Renamable(j.files, j.Named(WavTemp), j.Named(WavFile)) then Going(j.(files := renamed), PUBLISH_MANIFEST)
    else Failing(if a.moved then j.(files := renamed) else j, IoError)
  }

  /** The manifest under its own name, and what stands behind it. */
  function Shown(j: Job): Job {
    if Renamable(j.files, j.Named(ManifestTemp), j.Named(ManifestFile)) then
      j.(files := Renamed(j.files, j.Named(ManifestTemp), j.Named(ManifestFile)),
         history := j.history.(shown := j.history.shown[j.stem := Publication(j.evidence, j.appended, j.counts.sourceFrames, j.mode.keep)]))
    else j
  }

  /** The manifest's own name, last of all; a refused rename may still have moved it. */
  function AfterPublishManifest(j: Job, a: Answers): Effect {
    if a.ok && Renamable(j.files, j.Named(ManifestTemp), j.Named(ManifestFile)) then
      Going(Shown(j).(fate := j.fate.(published := true, terminalPhase := Complete, pendingFailure := Ok)), CLEANUP)
    else Failing(if a.moved then Shown(j) else j, IoError)
  }

  // Closing.

  function ClosedWork(j: Job, ok: bool): Effect {
    if j.handles.work && !ok then Did(j, IoError) else Did(j.(handles := j.handles.(work := false)), Ok)
  }

  /** The file's close also frees the sink, and a writer still at work. */
  function ClosedOutput(j: Job, ok: bool): Effect {
    if j.handles.output && !ok then Did(j, IoError)
    else
      Did(j.(handles := j.handles.(output := false),
             sink := Sink(if j.sink.writer.Active? then WriterCancelled else j.sink.writer, false)), Ok)
  }

  function ClosedSource(j: Job, ok: bool): Effect {
    if j.handles.source && !ok then Did(j, IoError) else Did(j.(handles := j.handles.(source := false)), Ok)
  }

  function ClosedManifest(j: Job, ok: bool): Effect {
    if j.handles.manifest && !ok then Did(j, IoError) else Did(j.(handles := j.handles.(manifest := false)), Ok)
  }

  function Unmounted(j: Job, ok: bool): Effect {
    if j.handles.mounted && !ok then Did(j, IoError) else Did(j.(handles := j.handles.(mounted := false)), Ok)
  }

  /** The next thing open, in the board's order: secondary, manifest, output, work, source, volume. */
  function ClosedNext(j: Job, ok: bool): Effect {
    if j.handles.secondary then if ok then Did(j.(handles := j.handles.(secondary := false)), Ok) else Did(j, IoError)
    else if j.handles.manifest then ClosedManifest(j, ok)
    else if j.handles.output then ClosedOutput(j, ok)
    else if j.handles.work then ClosedWork(j, ok)
    else if j.handles.source then ClosedSource(j, ok)
    else Unmounted(j, ok)
  }

  /** A close that failed is the job's failure, unless it had one already that was not a cancellation. */
  function NotClosed(j: Job, result: Status): Job {
    var fate := if j.fate.pendingFailure.Ok? || j.fate.terminalPhase.Cancelled?
                then j.fate.(pendingFailure := result, terminalPhase := Phase.Failed) else j.fate;
    j.(fate := fate, phase := CleanupFailed, status := result)
  }

  /** One close at a time, and the end once nothing is open. */
  function AfterCleanup(j: Job, a: Answers): Effect {
    var d := j.(handles := j.handles.(engine := false));
    if d.handles.Count() == 0 then
      Did(d.(phase := if j.fate.terminalPhase.IdlePhase? then Phase.Failed else j.fate.terminalPhase,
              status := j.fate.pendingFailure, work := TERMINAL), j.fate.pendingFailure)
    else
      var closed := ClosedNext(d, a.ok);
      if closed.result.Ok? then closed else Did(NotClosed(closed.job, closed.result), closed.result)
  }

  // ---------------------------------------------------------------------
  // What each call does

  function AdvancedInput(j: Job, a: Answers): Effect {
    if j.work == MOUNT then AfterMount(j, a)
    else if j.work == SOURCE_OPEN then AfterOpenSource(j, a)
    else if j.work == SOURCE_HASH then AfterHashSource(j, a)
    else if j.work == SCENARIO_OPEN then AfterOpenScenario(j, a)
    else if j.work == SCENARIO_READ then AfterReadScenario(j, a)
    else if j.work == SCENARIO_CLOSE then Onward(ClosedWork(j, a.ok), SCENARIO_PARSE)
    else AfterParseScenario(j, a)
  }

  function AdvancedSecondary(j: Job, a: Answers): Effect {
    if j.work == PATH_CHECKS then AfterPathCheck(j, a)
    else if j.work == SECONDARY_HASH_OPEN then AfterOpenSecondaryHash(j, a)
    else if j.work == SECONDARY_HASH then AfterHashSecondary(j, a)
    else if j.work == SECONDARY_HASH_CLOSE then Onward(ClosedWork(j, a.ok), SECONDARY_OPEN)
    else if j.work == SECONDARY_OPEN then AfterOpenSecondary(j, a)
    else if j.work == SECONDARY_MEASURE then AfterMeasure(j, a)
    else if j.work == SECONDARY_CLOSE then AfterCloseSecondary(j, a)
    else AfterConfigure(j, a)
  }

  function AdvancedOutput(j: Job, a: Answers): Effect {
    if j.work == OUTPUT_CREATE then AfterCreateOutput(j, a)
    else if j.work == RENDER_READ_DECODE then AfterReadDecode(j, a)
    else if j.work == RENDER_PROCESS_PACK then AfterProcessPack(j, a)
    else if j.work == RENDER_APPEND then AfterAppend(j, a)
    else if j.work == OUTPUT_FINISH then AfterFinishOutput(j, a)
    else if j.work == OUTPUT_SYNC then Either(j, a.ok, IoError, OUTPUT_CLOSE)
    else if j.work == OUTPUT_CLOSE then Onward(ClosedOutput(j, a.ok), SOURCE_CLOSE)
    else Onward(ClosedSource(j, a.ok), VERIFY_OPEN)
  }

  function AdvancedPublication(j: Job, a: Answers): Effect {
    if j.work == VERIFY_OPEN then AfterOpenVerify(j, a)
    else if j.work == VERIFY_HEADER then AfterVerifyHeader(j, a)
    else if j.work == VERIFY_FILE then AfterVerifyFile(j, a)
    else if j.work == VERIFY_CLOSE then Onward(ClosedWork(j, a.ok), MANIFEST_CREATE)
    else if j.work == MANIFEST_CREATE then AfterCreateManifest(j, a)
    else if j.work == MANIFEST_WRITE then AfterWriteManifest(j, a)
    else if j.work == MANIFEST_SYNC then Either(j, a.ok, IoError, MANIFEST_CLOSE)
    else if j.work == MANIFEST_CLOSE then Onward(ClosedManifest(j, a.ok), PUBLISH_WAV)
    else if j.work == PUBLISH_WAV then AfterPublishWav(j, a)
    else AfterPublishManifest(j, a)
  }

  /** One state's work. */
  function Advanced(j: Job, a: Answers): Effect {
    if j.work <= SCENARIO_PARSE then AdvancedInput(j, a)
    else if j.work <= CONFIGURE then AdvancedSecondary(j, a)
    else if j.work <= SOURCE_CLOSE then AdvancedOutput(j, a)
    else AdvancedPublication(j, a)
  }

  /** A cancellation is taken up before the next work, unless the manifest is published. */
  function Withdrawn(j: Job): Job {
    if j.fate.cancelRequested && j.work != CLEANUP && !j.fate.published then
      j.(fate := j.fate.(terminalPhase := Phase.Cancelled, pendingFailure := CancelledByUser), work := CLEANUP)
    else j
  }

  /** step: a cancellation first, then one step, unless a managed render waits for its owner. */
  function AfterStep(j: Job, a: Answers): Effect {
    if j.work == IDLE then Did(j, NoJob)
    else if j.work == TERMINAL then Did(j, j.status)
    else
      var k := Withdrawn(j);
      if k.AwaitsOwner() then Did(k, ManagedPending)
      else if k.work == CLEANUP then AfterCleanup(k, a)
      else Advanced(k, a)
  }

  /** cancel: refused only without a job, or between the publication and the cleaning up. */
  function AfterCancel(j: Job): Effect {
    if !j.Busy() || (j.fate.published && j.work != CLEANUP) then Did(j, NoJob)
    else
      Did(j.(fate := j.fate.(cancelRequested := true),
              phase := if j.work == CLEANUP && j.phase.CleanupFailed? then Starting else j.phase), Ok)
  }

  /** Nothing is left of a former job but the files. */
  function Forgotten(j: Job, stem: string): Job {
    j.(stem := stem, history := j.history.(before := j.files), appended := [], fate := FRESH_FATE,
       mode := Mode(false, false, j.mode.keep))
  }

  /** A job refused, or about to be admitted. */
  function Anew(j: Job, stem: string, why: Status): Job {
    Forgotten(j, stem).(counts := NO_COUNTS, evidence := NOTHING, draft := Draft(0, 0), phase := Phase.Failed, status := why,
                        work := TERMINAL)
  }

  /** begin and begin_managed: names and resources are checked before anything else. */
  function AfterBegin(j: Job, stem: string, named: bool, distinct: bool, keep: bool, managed: bool): Effect {
    if j.Busy() then Did(j, AlreadyBusy)
    else if !named then Did(Anew(j, stem, BadRequest), BadRequest)
    else if !distinct then Did(Anew(j, stem, Alias), Alias)
    else Did(Anew(j, stem, Ok).(mode := Mode(false, managed, keep), phase := Starting, work := MOUNT), Ok)
  }

  /** produce_step of a managed render: a decode call, then a process call for the same frames. */
  function AfterProduce(j: Job, frames: nat, a: Answers): Effect {
    if !j.Managing() then Did(j, NoJob)
    else if frames == 0 || frames > BLOCK_FRAMES || j.counts.sourceCursor > j.counts.sourceFrames
            || frames > j.counts.sourceFrames - j.counts.sourceCursor then Did(j, ManagedMismatch)
    else if j.work == RENDER_READ_DECODE then
      var decoded := AfterReadDecode(j.(counts := j.counts.(managedRequest := frames)), a);
      if decoded.result.Ok? then Did(decoded.job, ManagedPending) else decoded
    else if j.work == RENDER_PROCESS_PACK && j.counts.managedRequest == frames then
      var processed := AfterProcessPack(j, a);
      if !processed.result.Ok? then processed
      else if processed.job.counts.blockOut != frames then Failing(processed.job, ManagedSlip)
      else
        var k := processed.job;
        Did(k.(counts := k.counts.(managedProduced := k.counts.rendered + k.counts.blockOut)), Ok)
    else Did(j, ManagedMismatch)
  }

  /** append_produced: the block just produced, whole. */
  function AfterAppendProduced(j: Job, frames: nat, a: Answers): Effect {
    if !j.Managing() then Did(j, NoJob)
    else if j.work != RENDER_APPEND || j.counts.managedRequest != frames || frames == 0 || j.counts.blockIn != frames
            || j.counts.blockOut != frames then Did(j, ManagedMismatch)
    else
      var appended := AfterAppend(j, a);
      if !appended.result.Ok? then appended
      else Did(appended.job.(counts := appended.job.counts.(managedRequest := 0)), Ok)
  }

  /** finish_managed: only once every frame was produced and appended; from then on the job runs by itself. */
  function AfterFinishManaged(j: Job): Effect {
    if !j.Managing() then Did(j, NoJob)
    else if j.counts.sourceCursor != j.counts.sourceFrames || j.counts.managedProduced != j.counts.sourceFrames
            || j.counts.rendered != j.counts.sourceFrames || j.counts.managedRequest != 0 || j.work != RENDER_READ_DECODE
    then Did(j, ManagedMismatch)
    else Going(j.(mode := j.mode.(managed := false)), OUTPUT_FINISH)
  }

  /** commit_prefix: any refusal of the sink ends the job. */
  function AfterCommitPrefix(j: Job, committed: bool): Effect {
    if !j.Playable() then Did(j, NoJob) else if committed then Did(j, Ok) else Failing(j, Refused)
  }

  /** read_prefix: only a latched storage failure ends the job; any other refusal is the caller's. */
  function AfterReadPrefix(j: Job, read: bool, latched: bool): Effect {
    if !j.Playable() then Did(j, NoJob)
    else if latched then Failing(j, IoError)
    else Did(j, if read then Ok else Refused)
  }

  /** The board as it starts, with these files on the card. */
  function NewJob(sha: Bytes -> nat, room: nat, files: Files): Job {
    Job(Setup(sha, room), IdlePhase, Ok, IDLE, "", FRESH_FATE, ALL_CLOSED, Mode(false, false, false), NO_COUNTS, [], [],
        Sink(WriterIdle, false), NOTHING, Draft(0, 0), files, History(files, files, map[]))
  }

  // ---------------------------------------------------------------------
  // The board's object

  class PrepareJob {
    const setup: Setup
    var phase: Phase
    var status: Status
    var work: Work
    var stem: string
    var fate: Fate
    var handles: Handles
    var mode: Mode
    var counts: Counts
    var packed: Bytes
    /** The PCM bytes the writer has digested. */
    var appended: Bytes
    var sink: Sink
    var evidence: Evidence
    var draft: Draft
    var files: Files
    ghost var history: History

    ghost function Now(): Job
      reads this
    {
      Job(setup, phase, status, work, stem, fate, handles, mode, counts, packed, appended, sink, evidence, draft, files, history)
    }

    constructor (sha: Bytes -> nat, room: nat, files: Files)
      ensures Now() == NewJob(sha, room, files)
    {
      setup, this.files := Setup(sha, room), files;
      phase, status, work, stem, fate, handles := IdlePhase, Ok, IDLE, "", FRESH_FATE, ALL_CLOSED;
      mode, counts, packed, appended, sink := Mode(false, false, false), NO_COUNTS, [], [], Sink(WriterIdle, false);
      evidence, draft, history := NOTHING, Draft(0, 0), History(files, files, map[]);
    }

    /** The first failure is the job's; the rest of its life is cleaning up. */
    method Fail(failure: Status) returns (result: Status)
      modifies `fate, `status, `work
      ensures Did(Now(), result) == Failing(old(Now()), failure)
    {
      if fate.pendingFailure.Ok? {
        fate := fate.(pendingFailure := failure, terminalPhase := Phase.Failed);
      }
      status := fate.pendingFailure;
      work := CLEANUP;
      result := failure;
    }

    method Mount(a: Answers) returns (result: Status)
      modifies this
      ensures Did(Now(), result) == AfterMount(old(Now()), a)
    {
      handles := handles.(mounted := true);
      if !a.ok {
        result := Fail(IoError);
        return;
      }
      work := SOURCE_OPEN;
      result := Ok;
    }

    method OpenSource(a: Answers) returns (result: Status)
      modifies this
      ensures Did(Now(), result) == AfterOpenSource(old(Now()), a)
    {
      if !a.ok {
        result := Fail(IoError);
        return;
      }
      handles := handles.(source := true);
      counts := counts.(sourceBytes := a.size);
      result := CheckSource(a);
    }

    method CheckSource(a: Answers) returns (result: Status)
      modifies this
      ensures Did(Now(), result) == AfterCheckSource(old(Now()), a)
    {
      if a.size > UINT32_MAX {
        result := Fail(BadWav);
        return;
      }
      if !a.second {
        if !a.third && fate.pendingFailure.Ok? {
          fate := fate.(pendingFailure := ShortRead);
        }
        result := Fail(if fate.pendingFailure.Ok? then BadWav else fate.pendingFailure);
        return;
      }
      counts := counts.(dataOffset := a.offset, sourceFrames := a.frames, hashCursor := 0);
      phase, work := HashingSource, SOURCE_HASH;
      result := Ok;
    }

    method HashSource(a: Answers) returns (result: Status)
      modifies this
      ensures Did(Now(), result) == AfterHashSource(old(Now()), a)
    {
      if counts.hashCursor == counts.sourceBytes {
        work := SCENARIO_OPEN;
        return Ok;
      }
      var count := Min(CHUNK, counts.sourceBytes - counts.hashCursor);
      if count < 0 {
        result := Fail(IoError);
        return;
      }
      var read := ReadFault(a, count);
      if !read.Ok? {
        result := Fail(read);
        return;
      }
      counts := counts.(hashCursor := counts.hashCursor + count);
      result := Ok;
    }

    method OpenScenario(a: Answers) returns (result: Status)
      modifies this
      ensures Did(Now(), result) == AfterOpenScenario(old(Now()), a)
    {
      if !a.ok {
        result := Fail(IoError);
        return;
      }
      handles := handles.(work := true);
      counts := counts.(scenarioBytes := a.size);
      if a.size == 0 || a.size >= setup.room || a.size > UINT32_MAX {
        result := Fail(BadRequest);
        return;
      }
      counts := counts.(scenarioCursor := 0);
      work := SCENARIO_READ;
      result := Ok;
    }

    method ReadScenario(a: Answers) returns (result: Status)
      modifies this
      ensures Did(Now(), result) == AfterReadScenario(old(Now()), a)
    {
      if counts.scenarioCursor == counts.scenarioBytes {
        work := SCENARIO_CLOSE;
        return Ok;
      }
      var count := Min(CHUNK, counts.scenarioBytes - counts.scenarioCursor);
      if count < 0 {
        result := Fail(IoError);
        return;
      }
      var read := ReadFault(a, count);
      if !read.Ok? {
        result := Fail(read);
        return;
      }
      counts := counts.(scenarioCursor := counts.scenarioCursor + count);
      result := Ok;
    }

    method CloseScenario(a: Answers) returns (result: Status)
      modifies this
      ensures Did(Now(), result) == Onward(ClosedWork(old(Now()), a.ok), SCENARIO_PARSE)
    {
      result := CloseWork(a.ok);
      if !result.Ok? {
        result := Fail(result);
        return;
      }
      work := SCENARIO_PARSE;
    }

    method ParseScenario(a: Answers) returns (result: Status)
      modifies this
      ensures Did(Now(), result) == AfterParseScenario(old(Now()), a)
    {
      var found := a.scenario;
      result := Ok;
      if !found.parses {
        result := Refused;
      } else if !found.reference {
        result := MissingReference;
      } else if mode.managed && found.slips {
        result := ManagedSlip;
      } else if found.secondary {
        result := if !found.named then BadScenarioSource else if !found.distinct then Alias else Ok;
      }
      if result.Ok? && !found.companion {
        result := Alias;
      }
      if !result.Ok? {
        result := Fail(result);
        return;
      }
      mode := mode.(secondary := found.secondary);
      counts := counts.(pathCheckIndex := 0);
      work := PATH_CHECKS;
    }

    method CheckPath(a: Answers) returns (result: Status)
      modifies this
      ensures Did(Now(), result) == AfterPathCheck(old(Now()), a)
    {
      if counts.pathCheckIndex >= CHECKED_NAMES {
        work := if mode.secondary then SECONDARY_HASH_OPEN else CONFIGURE;
        return Ok;
      }
      if !a.ok {
        result := Fail(IoError);
        return;
      }
      if Name(stem, CheckedKind(counts.pathCheckIndex)) in files {
        result := Fail(ExistingOutput);
        return;
      }
      counts := counts.(pathCheckIndex := counts.pathCheckIndex + 1);
      result := Ok;
    }

    method OpenSecondaryHash(a: Answers) returns (result: Status)
      modifies this
      ensures Did(Now(), result) == AfterOpenSecondaryHash(old(Now()), a)
    {
      if !a.ok {
        result := Fail(IoError);
        return;
      }
      handles := handles.(work := true);
      counts := counts.(secondaryBytes := a.size, hashCursor := 0);
      phase, work := HashingSecondary, SECONDARY_HASH;
      result := Ok;
    }

    method HashSecondary(a: Answers) returns (result: Status)
      modifies this
      ensures Did(Now(), result) == AfterHashSecondary(old(Now()), a)
    {
      if counts.hashCursor == counts.secondaryBytes {
        work := SECONDARY_HASH_CLOSE;
        return Ok;
      }
      var count := Min(CHUNK, counts.secondaryBytes - counts.hashCursor);
      if count < 0 {
        result := Fail(IoError);
        return;
      }
      var read := ReadFault(a, count);
      if !read.Ok? {
        result := Fail(read);
        return;
      }
      counts := counts.(hashCursor := counts.hashCursor + count);
      result := Ok;
    }

    method CloseSecondaryHash(a: Answers) returns (result: Status)
      modifies this
      ensures Did(Now(), result) == Onward(ClosedWork(old(Now()), a.ok), SECONDARY_OPEN)
    {
      result := CloseWork(a.ok);
      if !result.Ok? {
        result := Fail(result);
        return;
      }
      work := SECONDARY_OPEN;
    }

    method OpenSecondary(a: Answers) returns (result: Status)
      modifies this
      ensures Did(Now(), result) == AfterOpenSecondary(old(Now()), a)
    {
      handles := handles.(secondary := true);
      if !a.ok {
        result := Fail(Refused);
        return;
      }
      phase, work := Calibrating, SECONDARY_MEASURE;
      result := Ok;
    }

    method Measure(a: Answers) returns (result: Status)
      requires work == SECONDARY_MEASURE
      modifies this
      ensures Did(Now(), result) == AfterMeasure(old(Now()), a)
    {
      if !a.ok {
        result := Fail(Refused);
        return;
      }
      if a.second {
        work := CONFIGURE;
      }
      result := Ok;
    }

    method Configure(a: Answers) returns (result: Status)
      modifies this
      ensures Did(Now(), result) == AfterConfigure(old(Now()), a)
    {
      if !phase.Calibrating? {
        phase := Starting;
      }
      handles := handles.(engine := true);
      if !a.ok {
        result := Fail(Refused);
        return;
      }
      work := OUTPUT_CREATE;
      result := Ok;
    }

    method CreateOutput(a: Answers) returns (result: Status)
      modifies this
      ensures Did(Now(), result) == AfterCreateOutput(old(Now()), a)
    {
      if !a.ok || Name(stem, WavTemp) in files {
        result := Fail(IoError);
        return;
      }
      files := files[Name(stem, WavTemp) := Audio];
      handles := handles.(output := true);
      result := StartWriter(a);
    }

    method StartWriter(a: Answers) returns (result: Status)
      modifies this
      ensures Did(Now(), result) == AfterStartWriter(old(Now()), a)
    {
      if !a.second || sink.bound {
        result := Fail(Refused);
        return;
      }
      sink := sink.(bound := true);
      if !a.third || sink.writer.Active? {
        sink := sink.(writer := WriterFailed);
        result := Fail(Refused);
        return;
      }
      sink := sink.(writer := Active);
      phase := Rendering;
      counts := counts.(sourceCursor := 0, outputFrames := 0, blockIn := 0, blockOut := 0);
      work := RENDER_READ_DECODE;
      result := Ok;
    }

    method ReadDecode(a: Answers) returns (result: Status)
      modifies this
      ensures Did(Now(), result) == AfterReadDecode(old(Now()), a)
    {
      if counts.sourceCursor == counts.sourceFrames {
        work := OUTPUT_FINISH;
        return Ok;
      }
      var frames := if mode.managed then counts.managedRequest else Min(BLOCK_FRAMES, counts.sourceFrames - counts.sourceCursor);
      if frames < 0 || counts.dataOffset + 3 * counts.sourceCursor > UINT32_MAX || frames > BLOCK_FRAMES {
        result := Fail(BadWav);
        return;
      }
      if !a.ok {
        result := Fail(ShortRead);
        return;
      }
      counts := counts.(blockIn := frames, blockOut := 0);
      work := RENDER_PROCESS_PACK;
      result := Ok;
    }

    method ProcessPack(a: Answers) returns (result: Status)
      modifies this
      ensures Did(Now(), result) == AfterProcessPack(old(Now()), a)
    {
      if counts.blockIn == 0 || counts.blockIn > BLOCK_FRAMES {
        result := Fail(BadRequest);
        return;
      }
      if !a.ok {
        result := Fail(Refused);
        return;
      }
      var produced := |a.bytes| / 3;
      if mode.managed && produced != counts.blockIn {
        result := Fail(ManagedSlip);
        return;
      }
      if produced > CAPACITY_FRAMES {
        result := Fail(BadRequest);
        return;
      }
      packed := WholeFrames(a.bytes);
      counts := counts.(blockOut := produced);
      work := RENDER_APPEND;
      result := Ok;
    }

    method Append(a: Answers) returns (result: Status)
      modifies this
      ensures Did(Now(), result) == AfterAppend(old(Now()), a)
    {
      if counts.sourceCursor > counts.sourceFrames || counts.blockIn == 0
         || counts.blockIn > counts.sourceFrames - counts.sourceCursor || counts.blockOut > CAPACITY_FRAMES {
        result := Fail(BadRequest);
        return;
      }
      if !a.ok || !sink.writer.Active? {
        sink := sink.(writer := WriterFailed);
        result := Fail(IoError);
        return;
      }
      appended := appended + packed;
      counts := counts.(sourceCursor := counts.sourceCursor + counts.blockIn, rendered := counts.rendered + counts.blockOut);
      counts := counts.(outputFrames := counts.rendered, blockIn := 0, blockOut := 0);
      work := RENDER_READ_DECODE;
      result := Ok;
    }

    method FinishOutput(a: Answers) returns (result: Status)
      modifies this
      ensures Did(Now(), result) == AfterFinishOutput(old(Now()), a)
    {
      if !a.ok || !sink.writer.Active? {
        sink := sink.(writer := WriterFailed);
        result := Fail(IoError);
        return;
      }
      sink := sink.(writer := Finished);
      var summary := SummaryOf(setup.sha, appended);
      evidence := evidence.(summary := summary);
      if summary.frames != counts.outputFrames || summary.fileBytes < HEADER {
        result := Fail(BadVerify);
        return;
      }
      evidence := evidence.(finalBytes := summary.fileBytes);
      handles := handles.(engine := false);
      phase := Verifying;
      work := if handles.secondary then SECONDARY_CLOSE else OUTPUT_SYNC;
      result := Ok;
    }

    method FinishSecondary(a: Answers) returns (result: Status)
      modifies this
      ensures Did(Now(), result) == AfterCloseSecondary(old(Now()), a)
    {
      if !a.ok {
        result := Fail(IoError);
        return;
      }
      handles := handles.(secondary := false);
      work := OUTPUT_SYNC;
      result := Ok;
    }

    method SyncOutput(a: Answers) returns (result: Status)
      modifies this
      ensures Did(Now(), result) == Either(old(Now()), a.ok, IoError, OUTPUT_CLOSE)
    {
      if !a.ok {
        result := Fail(IoError);
        return;
      }
      work := OUTPUT_CLOSE;
      result := Ok;
    }

    method FinishFile(a: Answers) returns (result: Status)
      modifies this
      ensures Did(Now(), result) == Onward(ClosedOutput(old(Now()), a.ok), SOURCE_CLOSE)
    {
      result := CloseOutput(a.ok);
      if !result.Ok? {
        result := Fail(result);
        return;
      }
      work := SOURCE_CLOSE;
    }

    method FinishSource(a: Answers) returns (result: Status)
      modifies this
      ensures Did(Now(), result) == Onward(ClosedSource(old(Now()), a.ok), VERIFY_OPEN)
    {
      result := CloseSource(a.ok);
      if !result.Ok? {
        result := Fail(result);
        return;
      }
      work := VERIFY_OPEN;
    }

    method OpenVerify(a: Answers) returns (result: Status)
      modifies this
      ensures Did(Now(), result) == AfterOpenVerify(old(Now()), a)
    {
      if !a.ok {
        result := Fail(IoError);
        return;
      }
      handles := handles.(work := true);
      if a.size != evidence.finalBytes || evidence.finalBytes > UINT32_MAX {
        result := Fail(BadVerify);
        return;
      }
      phase, work := Verifying, VERIFY_HEADER;
      result := Ok;
    }

    method VerifyHeader(a: Answers) returns (result: Status)
      modifies this
      ensures Did(Now(), result) == AfterVerifyHeader(old(Now()), a)
    {
      hide HeaderMatches;
      if evidence.finalBytes > UINT32_MAX {
        result := Fail(BadVerify);
        return;
      }
      var read := ReadFault(a, HEADER);
      if !read.Ok? {
        result := Fail(read);
        return;
      }
      if !HeaderMatches(a.bytes, evidence.summary.dataBytes, evidence.finalBytes) {
        result := Fail(BadVerify);
        return;
      }
      evidence := evidence.(header := a.bytes, readBack := [], readBackPcm := []);
      work := VERIFY_FILE;
      result := Ok;
    }

    method VerifyFile(a: Answers) returns (result: Status)
      modifies this
      ensures Did(Now(), result) == AfterVerifyFile(old(Now()), a)
    {
      if |evidence.readBack| == evidence.finalBytes {
        result := JudgeReadBack();
        return;
      }
      var count := Min(CHUNK, evidence.finalBytes - |evidence.readBack|);
      if count < 0 || !a.ok {
        result := Fail(IoError);
        return;
      }
      var read := ReadFault(a, count);
      if !read.Ok? {
        result := Fail(read);
        return;
      }
      var wrong := PadIsWrong(evidence, a.bytes);
      evidence := Digested(evidence, a.bytes);
      if wrong {
        result := Fail(BadVerify);
        return;
      }
      result := Ok;
    }

    method JudgeReadBack() returns (result: Status)
      modifies this
      ensures Did(Now(), result) == AfterReadBack(old(Now()))
    {
      var pcmSha := setup.sha(evidence.readBackPcm);
      if |evidence.readBackPcm| != evidence.summary.dataBytes || pcmSha != evidence.summary.pcmSha {
        result := Fail(BadVerify);
        return;
      }
      evidence := evidence.(wavSha := setup.sha(evidence.readBack), pcmSha := pcmSha);
      work := VERIFY_CLOSE;
      result := Ok;
    }

    method CloseVerify(a: Answers) returns (result: Status)
      modifies this
      ensures Did(Now(), result) == Onward(ClosedWork(old(Now()), a.ok), MANIFEST_CREATE)
    {
      result := CloseWork(a.ok);
      if !result.Ok? {
        result := Fail(result);
        return;
      }
      work := MANIFEST_CREATE;
    }

    method CreateManifest(a: Answers) returns (result: Status)
      modifies this
      ensures Did(Now(), result) == AfterCreateManifest(old(Now()), a)
    {
      if a.size == 0 || a.size >= setup.room {
        result := Fail(BadManifest);
        return;
      }
      if !a.ok || Name(stem, ManifestTemp) in files {
        result := Fail(IoError);
        return;
      }
      var record := Record(evidence.wavSha, evidence.pcmSha, counts.sourceFrames, evidence.summary.frames, mode.keep);
      files := files[Name(stem, ManifestTemp) := Text(record, 0, a.size)];
      handles := handles.(manifest := true);
      draft := Draft(a.size, 0);
      phase, work := Publishing, MANIFEST_WRITE;
      result := Ok;
    }

    method WriteManifest(a: Answers) returns (result: Status)
      modifies this
      ensures Did(Now(), result) == AfterWriteManifest(old(Now()), a)
    {
      if draft.cursor == draft.length {
        work := MANIFEST_SYNC;
        return Ok;
      }
      var count := Min(CHUNK, draft.length - draft.cursor);
      if count < 0 || !a.ok {
        result := Fail(IoError);
        return;
      }
      draft := draft.(cursor := draft.cursor + count);
      files := Longer(files, Name(stem, ManifestTemp), draft.cursor);
      result := Ok;
    }

    method SyncManifest(a: Answers) returns (result: Status)
      modifies this
      ensures Did(Now(), result) == Either(old(Now()), a.ok, IoError, MANIFEST_CLOSE)
    {
      if !a.ok {
        result := Fail(IoError);
        return;
      }
      work := MANIFEST_CLOSE;
      result := Ok;
    }

    method FinishManifest(a: Answers) returns (result: Status)
      modifies this
      ensures Did(Now(), result) == Onward(ClosedManifest(old(Now()), a.ok), PUBLISH_WAV)
    {
      result := CloseManifest(a.ok);
      if !result.Ok? {
        result := Fail(result);
        return;
      }
      work := PUBLISH_WAV;
    }

    method PublishWav(a: Answers) returns (result: Status)
      modifies this
      ensures Did(Now(), result) == AfterPublishWav(old(Now()), a)
    {
      var done := a.ok && Renamable(files, Name(stem, WavTemp), Name(stem, WavFile));
      if done || a.moved {
        files := Renamed(files, Name(stem, WavTemp), Name(stem, WavFile));
      }
      if !done {
        result := Fail(IoError);
        return;
      }
      work := PUBLISH_MANIFEST;
      result := Ok;
    }

    method PublishManifest(a: Answers) returns (result: Status)
      modifies this
      ensures Did(Now(), result) == AfterPublishManifest(old(Now()), a)
    {
      var possible := Renamable(files, Name(stem, ManifestTemp), Name(stem, ManifestFile));
      if possible && (a.ok || a.moved) {
        files := Renamed(files, Name(stem, ManifestTemp), Name(stem, ManifestFile));
        history := history.(shown := history.shown[stem := Publication(evidence, appended, counts.sourceFrames, mode.keep)]);
      }
      if !a.ok || !possible {
        result := Fail(IoError);
        return;
      }
      fate := fate.(published := true, terminalPhase := Complete, pendingFailure := Ok);
      work := CLEANUP;
      result := Ok;
    }

    method CloseWork(ok: bool) returns (result: Status)
      modifies `handles
      ensures Did(Now(), result) == ClosedWork(old(Now()), ok)
    {
      if handles.work && !ok {
        return IoError;
      }
      handles := handles.(work := false);
      result := Ok;
    }

    method CloseOutput(ok: bool) returns (result: Status)
      modifies `handles, `sink
      ensures Did(Now(), result) == ClosedOutput(old(Now()), ok)
    {
      if handles.output && !ok {
        return IoError;
      }
      handles := handles.(output := false);
      sink := Sink(if sink.writer.Active? then WriterCancelled else sink.writer, false);
      result := Ok;
    }

    method CloseSource(ok: bool) returns (result: Status)
      modifies `handles
      ensures Did(Now(), result) == ClosedSource(old(Now()), ok)
    {
      if handles.source && !ok {
        return IoError;
      }
      handles := handles.(source := false);
      result := Ok;
    }

    method CloseManifest(ok: bool) returns (result: Status)
      modifies `handles
      ensures Did(Now(), result) == ClosedManifest(old(Now()), ok)
    {
      if handles.manifest && !ok {
        return IoError;
      }
      handles := handles.(manifest := false);
      result := Ok;
    }

    method Unmount(ok: bool) returns (result: Status)
      modifies `handles
      ensures Did(Now(), result) == Unmounted(old(Now()), ok)
    {
      if handles.mounted && !ok {
        return IoError;
      }
      handles := handles.(mounted := false);
      result := Ok;
    }

    method CloseNext(ok: bool) returns (result: Status)
      modifies `handles, `sink
      ensures Did(Now(), result) == ClosedNext(old(Now()), ok)
    {
      if handles.secondary {
        if ok {
          handles := handles.(secondary := false);
        }
        result := if ok then Ok else IoError;
      } else if handles.manifest {
        result := CloseManifest(ok);
      } else if handles.output {
        result := CloseOutput(ok);
      } else if handles.work {
        result := CloseWork(ok);
      } else if handles.source {
        result := CloseSource(ok);
      } else {
        result := Unmount(ok);
      }
    }

    method CleanUp(a: Answers) returns (result: Status)
      modifies this
      ensures Did(Now(), result) == AfterCleanup(old(Now()), a)
    {
      hide ClosedNext;
      handles := handles.(engine := false);
      if handles.Count() == 0 {
        phase := if fate.terminalPhase.IdlePhase? then Phase.Failed else fate.terminalPhase;
        status := fate.pendingFailure;
        work := TERMINAL;
        return status;
      }
      result := CloseNext(a.ok);
      if !result.Ok? {
        if fate.pendingFailure.Ok? || fate.terminalPhase.Cancelled? {
          fate := fate.(pendingFailure := result, terminalPhase := Phase.Failed);
        }
        phase, status := CleanupFailed, result;
      }
    }

    method AdvanceInput(a: Answers) returns (result: Status)
      modifies this
      ensures Did(Now(), result) == AdvancedInput(old(Now()), a)
    {
      if work == MOUNT {
        result := Mount(a);
      } else if work == SOURCE_OPEN {
        result := OpenSource(a);
      } else if work == SOURCE_HASH {
        result := HashSource(a);
      } else if work == SCENARIO_OPEN {
        result := OpenScenario(a);
      } else if work == SCENARIO_READ {
        result := ReadScenario(a);
      } else if work == SCENARIO_CLOSE {
        result := CloseScenario(a);
      } else {
        result := ParseScenario(a);
      }
    }

    method AdvanceSecondary(a: Answers) returns (result: Status)
      modifies this
      ensures Did(Now(), result) == AdvancedSecondary(old(Now()), a)
    {
      if work == PATH_CHECKS {
        result := CheckPath(a);
      } else if work == SECONDARY_HASH_OPEN {
        result := OpenSecondaryHash(a);
      } else if work == SECONDARY_HASH {
        result := HashSecondary(a);
      } else if work == SECONDARY_HASH_CLOSE {
        result := CloseSecondaryHash(a);
      } else if work == SECONDARY_OPEN {
        result := OpenSecondary(a);
      } else if work == SECONDARY_MEASURE {
        result := Measure(a);
      } else if work == SECONDARY_CLOSE {
        result := FinishSecondary(a);
      } else {
        result := Configure(a);
      }
    }

    method AdvanceOutput(a: Answers) returns (result: Status)
      modifies this
      ensures Did(Now(), result) == AdvancedOutput(old(Now()), a)
    {
      if work == OUTPUT_CREATE {
        result := CreateOutput(a);
      } else if work == RENDER_READ_DECODE {
        result := ReadDecode(a);
      } else if work == RENDER_PROCESS_PACK {
        result := ProcessPack(a);
      } else if work == RENDER_APPEND {
        result := Append(a);
      } else if work == OUTPUT_FINISH {
        result := FinishOutput(a);
      } else if work == OUTPUT_SYNC {
        result := SyncOutput(a);
      } else if work == OUTPUT_CLOSE {
        result := FinishFile(a);
      } else {
        result := FinishSource(a);
      }
    }

    method AdvancePublication(a: Answers) returns (result: Status)
      modifies this
      ensures Did(Now(), result) == AdvancedPublication(old(Now()), a)
    {
      if work == VERIFY_OPEN {
        result := OpenVerify(a);
      } else if work == VERIFY_HEADER {
        result := VerifyHeader(a);
      } else if work == VERIFY_FILE {
        result := VerifyFile(a);
      } else if work == VERIFY_CLOSE {
        result := CloseVerify(a);
      } else if work == MANIFEST_CREATE {
        result := CreateManifest(a);
      } else if work == MANIFEST_WRITE {
        result := WriteManifest(a);
      } else if work == MANIFEST_SYNC {
        result := SyncManifest(a);
      } else if work == MANIFEST_CLOSE {
        result := FinishManifest(a);
      } else if work == PUBLISH_WAV {
        result := PublishWav(a);
      } else {
        result := PublishManifest(a);
      }
    }

    method Step(a: Answers) returns (result: Status)
      modifies this
      ensures Did(Now(), result) == AfterStep(old(Now()), a)
    {
      if work == IDLE {
        return NoJob;
      }
      if work == TERMINAL {
        return status;
      }
      if fate.cancelRequested && work != CLEANUP && !fate.published {
        fate := fate.(terminalPhase := Phase.Cancelled, pendingFailure := CancelledByUser);
        work := CLEANUP;
      }
      if mode.managed && phase.Rendering? && InRender(work) {
        return ManagedPending;
      }
      if work == CLEANUP {
        result := CleanUp(a);
      } else if work <= SCENARIO_PARSE {
        result := AdvanceInput(a);
      } else if work <= CONFIGURE {
        result := AdvanceSecondary(a);
      } else if work <= SOURCE_CLOSE {
        result := AdvanceOutput(a);
      } else {
        result := AdvancePublication(a);
      }
    }

    method Cancel() returns (result: Status)
      modifies `fate, `phase
      ensures Did(Now(), result) == AfterCancel(old(Now()))
    {
      if !((work != IDLE && work != TERMINAL) || !handles.Closed()) || (fate.published && work != CLEANUP) {
        return NoJob;
      }
      fate := fate.(cancelRequested := true);
      if work == CLEANUP && phase.CleanupFailed? {
        phase := Starting;
      }
      result := Ok;
    }

    method Forget(stem: string)
      modifies this
      ensures Now() == Forgotten(old(Now()), stem)
    {
      this.stem, history, appended, fate, mode := stem, history.(before := files), [], FRESH_FATE, Mode(false, false, mode.keep);
    }

    method Clear(stem: string, why: Status)
      modifies this
      ensures Now() == Anew(old(Now()), stem, why)
    {
      hide Forgotten;
      Forget(stem);
      counts, evidence, draft := NO_COUNTS, NOTHING, Draft(0, 0);
      phase, status, work := Phase.Failed, why, TERMINAL;
    }

    method Begin(stem: string, named: bool, distinct: bool, keep: bool, managed: bool) returns (result: Status)
      modifies this
      ensures Did(Now(), result) == AfterBegin(old(Now()), stem, named, distinct, keep, managed)
    {
      if (work != IDLE && work != TERMINAL) || !handles.Closed() {
        return AlreadyBusy;
      }
      result := if !named then BadRequest else if !distinct then Alias else Ok;
      Clear(stem, result);
      if !result.Ok? {
        return;
      }
      mode := Mode(false, managed, keep);
      phase, work := Starting, MOUNT;
    }

    method Produce(frames: nat, a: Answers) returns (result: Status)
      modifies this
      ensures Did(Now(), result) == AfterProduce(old(Now()), frames, a)
    {
      hide AfterReadDecode, AfterProcessPack;
      if !mode.managed || !phase.Rendering? || fate.cancelRequested || work == CLEANUP {
        return NoJob;
      }
      if frames == 0 || frames > BLOCK_FRAMES || counts.sourceCursor > counts.sourceFrames
         || frames > counts.sourceFrames - counts.sourceCursor {
        return ManagedMismatch;
      }
      if work == RENDER_READ_DECODE {
        counts := counts.(managedRequest := frames);
        result := ReadDecode(a);
        return if result.Ok? then ManagedPending else result;
      }
      if work == RENDER_PROCESS_PACK && counts.managedRequest == frames {
        result := ProcessPack(a);
        if !result.Ok? {
          return;
        }
        if counts.blockOut != frames {
          result := Fail(ManagedSlip);
          return;
        }
        counts := counts.(managedProduced := counts.rendered + counts.blockOut);
        return Ok;
      }
      result := ManagedMismatch;
    }

    method AppendProduced(frames: nat, a: Answers) returns (result: Status)
      modifies this
      ensures Did(Now(), result) == AfterAppendProduced(old(Now()), frames, a)
    {
      hide AfterAppend;
      if !mode.managed || !phase.Rendering? || fate.cancelRequested || work == CLEANUP {
        return NoJob;
      }
      if work != RENDER_APPEND || counts.managedRequest != frames || frames == 0 || counts.blockIn != frames || counts.blockOut != frames {
        return ManagedMismatch;
      }
      result := Append(a);
      if result.Ok? {
        counts := counts.(managedRequest := 0);
      }
    }

    method FinishManaged() returns (result: Status)
      modifies `mode, `work
      ensures Did(Now(), result) == AfterFinishManaged(old(Now()))
    {
      if !mode.managed || !phase.Rendering? || fate.cancelRequested || work == CLEANUP {
        return NoJob;
      }
      if counts.sourceCursor != counts.sourceFrames || counts.managedProduced != counts.sourceFrames
         || counts.rendered != counts.sourceFrames || counts.managedRequest != 0 || work != RENDER_READ_DECODE {
        return ManagedMismatch;
      }
      mode := mode.(managed := false);
      work := OUTPUT_FINISH;
      result := Ok;
    }

    method CommitPrefix(committed: bool) returns (result: Status)
      modifies `fate, `status, `work
      ensures Did(Now(), result) == AfterCommitPrefix(old(Now()), committed)
    {
      if !phase.Rendering? || !handles.output || fate.cancelRequested || work == CLEANUP {
        return NoJob;
      }
      if committed {
        return Ok;
      }
      result := Fail(Refused);
    }

    method ReadPrefix(read: bool, latched: bool) returns (result: Status)
      modifies `fate, `status, `work
      ensures Did(Now(), result) == AfterReadPrefix(old(Now()), read, latched)
    {
      if !phase.Rendering? || !handles.output || fate.cancelRequested || work == CLEANUP {
        return NoJob;
      }
      if latched {
        result := Fail(IoError);
        return;
      }
      result := if read then Ok else Refused;
    }
  }
}
