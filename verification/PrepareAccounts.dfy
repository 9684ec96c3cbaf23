/**
 What a run of the prepare job has seen (rt1170/prepare_job.cpp), told by its owner's calls and
 the world's answers alone: what each step reports, what is open in each state, which bytes were
 read and rendered, and that a published manifest is about just those.
 */
module PrepareAccounts {
  import opened Words
  import opened PrepareJobs
  import opened PrepareSteps
  import opened PrepareRuns
  import A = Artifact

  // ---------------------------------------------------------------------
  // What stands in each state

  /** What a job at work holds open in each of its states. */
  function OpenIn(work: Work, secondary: bool): Handles {
    Handles(
      work > MOUNT,
      SOURCE_OPEN < work <= SOURCE_CLOSE,
      SCENARIO_OPEN < work <= SCENARIO_CLOSE || SECONDARY_HASH_OPEN < work <= SECONDARY_HASH_CLOSE
      || VERIFY_OPEN < work <= VERIFY_CLOSE,
      work == SECONDARY_CLOSE || OUTPUT_CREATE < work <= OUTPUT_CLOSE,
      MANIFEST_CREATE < work <= MANIFEST_CLOSE,
      secondary && SECONDARY_OPEN < work <= OUTPUT_FINISH,
      CONFIGURE < work <= OUTPUT_FINISH)
  }

  /** The phase shown in each state. */
  function PhaseIn(work: Work, secondary: bool): Phase {
    if work <= SOURCE_OPEN then Starting
    else if work <= SECONDARY_HASH_OPEN then HashingSource
    else if work <= SECONDARY_OPEN then HashingSecondary
    else if work == SECONDARY_MEASURE then Calibrating
    else if work == SECONDARY_CLOSE then Verifying
    else if work == CONFIGURE then if secondary then Calibrating else HashingSource
    else if work == OUTPUT_CREATE then if secondary then Calibrating else Starting
    else if work <= OUTPUT_FINISH then Rendering
    else if work <= MANIFEST_CREATE then Verifying
    else Publishing
  }

  /** The states of a secondary source come only to a job that has one. */
  predicate OfSecondary(work: Work) {
    SECONDARY_HASH_OPEN <= work <= SECONDARY_CLOSE
  }

  /** A job at work holds and shows what its state says; its writer works while it renders, on a block that fits the source. */
  ghost predicate Fits(j: Job) {
    Running(j.work) ==>
      && (OfSecondary(j.work) ==> j.mode.secondary)
      && j.handles == OpenIn(j.work, j.mode.secondary) && j.phase == PhaseIn(j.work, j.mode.secondary)
      && (InRender(j.work) || j.work == OUTPUT_FINISH ==> j.sink.writer.Active?)
      && (j.work == RENDER_PROCESS_PACK || j.work == RENDER_APPEND ==>
            0 < j.counts.blockIn <= BLOCK_FRAMES && j.counts.sourceCursor + j.counts.blockIn <= j.counts.sourceFrames)
      && (j.work == RENDER_APPEND ==> j.counts.blockOut <= CAPACITY_FRAMES)
      && (j.work > VERIFY_OPEN ==> j.evidence.finalBytes <= UINT32_MAX)
  }

  lemma InputFits(j: Job, a: Answers)
    requires Fits(j) && MOUNT <= j.work <= SCENARIO_PARSE
    ensures Fits(AdvancedInput(j, a).job)
  {
  }

  lemma SecondaryFits(j: Job, a: Answers)
    requires Fits(j) && PATH_CHECKS <= j.work <= CONFIGURE
    ensures Fits(AdvancedSecondary(j, a).job)
  {
  }

  lemma OutputFits(j: Job, a: Answers)
    requires Fits(j) && OUTPUT_CREATE <= j.work <= SOURCE_CLOSE && j.counts.sourceCursor <= j.counts.sourceFrames
    requires j.mode.managed ==> !InRender(j.work)
    ensures Fits(AdvancedOutput(j, a).job)
  {
    if j.work == RENDER_READ_DECODE {
      ReadDecodeFits(j, a);
    } else if j.work == RENDER_PROCESS_PACK {
      ProcessFits(j, a);
    }
    hide AfterReadDecode, AfterProcessPack;
  }

  lemma ReadDecodeFits(j: Job, a: Answers)
    requires Fits(j) && j.work == RENDER_READ_DECODE && j.counts.sourceCursor <= j.counts.sourceFrames
    requires j.mode.managed ==> 0 < j.counts.managedRequest <= j.counts.sourceFrames - j.counts.sourceCursor
    ensures Fits(AfterReadDecode(j, a).job)
  {
  }

  lemma ProcessFits(j: Job, a: Answers)
    requires Fits(j) && j.work == RENDER_PROCESS_PACK
    ensures Fits(AfterProcessPack(j, a).job)
  {
  }

  lemma AppendFits(j: Job, a: Answers)
    requires Fits(j) && j.work == RENDER_APPEND
    ensures Fits(AfterAppend(j, a).job)
  {
  }

  lemma VerificationFits(j: Job, a: Answers)
    requires Fits(j) && VERIFY_OPEN <= j.work <= VERIFY_CLOSE
    ensures Fits(AdvancedPublication(j, a).job)
  {
    hide HeaderMatches, PadIsWrong;
  }

  lemma PublicationFits(j: Job, a: Answers)
    requires Fits(j) && VERIFY_OPEN <= j.work <= PUBLISH_MANIFEST
    ensures Fits(AdvancedPublication(j, a).job)
  {
    if j.work <= VERIFY_CLOSE {
      VerificationFits(j, a);
      hide AdvancedPublication;
    } else {
      hide AfterOpenVerify, AfterVerifyHeader, AfterVerifyFile;
    }
  }

  lemma StepFits(j: Job, a: Answers)
    requires Inv(j) && Fits(j) && InHand(j)
    ensures Fits(AfterStep(j, a).job)
  {
    StepKeeps(j, a);
    if j.work != IDLE && j.work != TERMINAL {
      WithdrawnKeeps(j);
      WithdrawnWorks(j);
      var k := Withdrawn(j);
      if k.work == CLEANUP {
        CleansOn(k, a);
        hide Inv, AfterCleanup;
      } else {
        NotWithdrawn(j);
        AtWork(j);
        hide Inv, AdvancedInput, AdvancedSecondary, AdvancedOutput, AdvancedPublication;
        if k.AwaitsOwner() {
        } else if j.work <= SCENARIO_PARSE {
          InputFits(j, a);
        } else if j.work <= CONFIGURE {
          SecondaryFits(j, a);
        } else if j.work <= SOURCE_CLOSE {
          OutputFits(j, a);
        } else {
          PublicationFits(j, a);
        }
      }
    }
  }

  lemma ProduceFits(j: Job, frames: nat, a: Answers)
    requires Inv(j) && Fits(j)
    ensures Fits(AfterProduce(j, frames, a).job)
  {
    if j.Managing() {
      ManagedIsAtWork(j);
      hide Inv;
      if j.work == RENDER_READ_DECODE && 0 < frames <= j.counts.sourceFrames - j.counts.sourceCursor {
        ReadDecodeFits(j.(counts := j.counts.(managedRequest := frames)), a);
      } else if j.work == RENDER_PROCESS_PACK {
        ProcessFits(j, a);
      }
      hide AfterReadDecode, AfterProcessPack;
    }
  }

  lemma AppendProducedFits(j: Job, frames: nat, a: Answers)
    requires Inv(j) && Fits(j)
    ensures Fits(AfterAppendProduced(j, frames, a).job)
  {
    if j.Managing() {
      ManagedIsAtWork(j);
      hide Inv;
      if j.work == RENDER_APPEND {
        AppendFits(j, a);
      }
      hide AfterAppend;
    }
  }

  lemma ObeyedFits(j: Job, command: Command)
    requires Inv(j) && Fits(j) && InHand(j)
    ensures Fits(Obeyed(j, command).job)
  {
    hide AfterStep, AfterProduce, AfterAppendProduced;
    match command {
      case Begins(stem, named, distinct, keep, managed) =>
        if !j.Busy() {
          AtRest(j);
        }
        hide Inv, InHand;
      case Steps(a) => StepFits(j, a);
      case Cancels => hide Inv, InHand;
      case Produces(frames, a) => ProduceFits(j, frames, a);
      case Appends(frames, a) => AppendProducedFits(j, frames, a);
      case FinishesRender => hide Inv, InHand;
      case Commits(committed) => hide Inv, InHand;
      case Reads(read, latched) => hide Inv, InHand;
    }
  }

  // ---------------------------------------------------------------------
  // What each step reports

  /** A chunk read from where the cursor stands. */
  function OfRead(a: Answers, whole: nat, cursor: nat): Status {
    if cursor == whole then Ok
    else if !a.ok then IoError
    else if !a.second || |a.bytes| != Min(4096, whole - cursor) then ShortRead
    else Ok
  }

  /** The first thing found wrong with a scenario, in the board's order. */
  function OfScenario(found: Scenario, managed: bool): Status {
    if !found.parses then Refused
    else if !found.reference then MissingReference
    else if found.slips && managed then ManagedSlip
    else if found.secondary && !(found.named && found.distinct) then if found.named then Alias else BadScenarioSource
    else if found.companion then Ok
    else Alias
  }

  function OfInput(j: Job, a: Answers): Status {
    if j.work == SOURCE_OPEN then
      if !a.ok then IoError
      else if a.size > 0xFFFF_FFFF then BadWav
      else if a.second then Ok
      else if a.third then BadWav
      else ShortRead
    else if j.work == SOURCE_HASH then OfRead(a, j.counts.sourceBytes, j.counts.hashCursor)
    else if j.work == SCENARIO_OPEN then
      if !a.ok then IoError else if 0 < a.size < j.setup.room && a.size <= 0xFFFF_FFFF then Ok else BadRequest
    else if j.work == SCENARIO_READ then OfRead(a, j.counts.scenarioBytes, j.counts.scenarioCursor)
    else if j.work == SCENARIO_PARSE then OfScenario(a.scenario, j.mode.managed)
    else if a.ok then Ok
    else IoError
  }

  function OfSecondarySource(j: Job, a: Answers): Status {
    if j.work == PATH_CHECKS then
      if j.counts.pathCheckIndex == 5 then Ok
      else if !a.ok then IoError
      else if j.Named([WavFile, WavTemp, ManifestFile, ManifestTemp, Companion][j.counts.pathCheckIndex % 5]) in j.files then ExistingOutput
      else Ok
    else if j.work == SECONDARY_HASH then OfRead(a, j.counts.secondaryBytes, j.counts.hashCursor)
    else if a.ok then Ok
    else if j.work in {SECONDARY_OPEN, SECONDARY_MEASURE, CONFIGURE} then Refused
    else IoError
  }

  function OfOutput(j: Job, a: Answers): Status {
    if j.work == OUTPUT_CREATE then
      if !a.ok || j.Named(WavTemp) in j.files then IoError else if a.second && a.third then Ok else Refused
    else if j.work == RENDER_READ_DECODE then
      if j.counts.sourceCursor == j.counts.sourceFrames then Ok
      else if j.counts.dataOffset + 3 * j.counts.sourceCursor > 0xFFFF_FFFF then BadWav
      else if a.ok then Ok
      else ShortRead
    else if j.work == RENDER_PROCESS_PACK then if !a.ok then Refused else if |a.bytes| / 3 > 2304 then BadRequest else Ok
    else if a.ok then Ok
    else IoError
  }

  /** Where a WAV of this much PCM has its pad, if the byte read there is not zero. */
  predicate PadIn(done: nat, bytes: Bytes, dataBytes: nat) {
    dataBytes % 2 == 1 && done <= 44 + dataBytes < done + |bytes| && bytes[44 + dataBytes - done] != 0
  }

  function OfVerification(j: Job, a: Answers): Status {
    var fileBytes := 44 + |j.appended| + |j.appended| % 2;
    if j.work == VERIFY_OPEN then if !a.ok then IoError else if a.size == fileBytes <= 0xFFFF_FFFF then Ok else BadVerify
    else if j.work == VERIFY_HEADER then
      if !OfRead(a, 44, 0).Ok? then OfRead(a, 44, 0) else if a.bytes == A.Header(CARD, |j.appended|) then Ok else BadVerify
    else if |j.evidence.readBack| == fileBytes then
      if j.setup.sha(j.evidence.readBack[44..44 + |j.appended|]) == j.setup.sha(j.appended) then Ok else BadVerify
    else if !OfRead(a, fileBytes, |j.evidence.readBack|).Ok? then OfRead(a, fileBytes, |j.evidence.readBack|)
    else if PadIn(|j.evidence.readBack|, a.bytes, |j.appended|) then BadVerify
    else Ok
  }

  function OfPublication(j: Job, a: Answers): Status {
    if j.work == MANIFEST_CREATE then
      if !(0 < a.size < j.setup.room) then BadManifest else if !a.ok || j.Named(ManifestTemp) in j.files then IoError else Ok
    else if j.work == MANIFEST_WRITE then if a.ok || j.draft.cursor == j.draft.length then Ok else IoError
    else if j.work == PUBLISH_WAV then
      if a.ok && j.Named(WavTemp) in j.files && j.Named(WavFile) !in j.files then Ok else IoError
    else if a.ok then Ok
    else IoError
  }

  /** What a step of a job at work reports, by its state and what it is answered. */
  function Reported(j: Job, a: Answers): Status {
    if j.work <= SCENARIO_PARSE then OfInput(j, a)
    else if j.work <= CONFIGURE then OfSecondarySource(j, a)
    else if j.work <= SOURCE_CLOSE then OfOutput(j, a)
    else if j.work in {VERIFY_OPEN, VERIFY_HEADER, VERIFY_FILE} then OfVerification(j, a)
    else OfPublication(j, a)
  }

  /** Where a step that reports no failure leads. */
  function Next(j: Job, a: Answers): Work {
    var l := j.counts;
    if j.work == SOURCE_HASH then if l.hashCursor == l.sourceBytes then SCENARIO_OPEN else SOURCE_HASH
    else if j.work == SCENARIO_READ then if l.scenarioCursor == l.scenarioBytes then SCENARIO_CLOSE else SCENARIO_READ
    else if j.work == PATH_CHECKS then
      if l.pathCheckIndex < 5 then PATH_CHECKS else if j.mode.secondary then SECONDARY_HASH_OPEN else CONFIGURE
    else if j.work == SECONDARY_HASH then if l.hashCursor == l.secondaryBytes then SECONDARY_HASH_CLOSE else SECONDARY_HASH
    else if j.work == SECONDARY_MEASURE then if a.second then CONFIGURE else SECONDARY_MEASURE
    else if j.work == SECONDARY_CLOSE then OUTPUT_SYNC
    else if j.work == RENDER_READ_DECODE then if l.sourceCursor == l.sourceFrames then OUTPUT_FINISH else RENDER_PROCESS_PACK
    else if j.work == RENDER_APPEND then RENDER_READ_DECODE
    else if j.work == OUTPUT_FINISH then if j.mode.secondary then SECONDARY_CLOSE else OUTPUT_SYNC
    else if j.work == VERIFY_FILE then if |j.evidence.readBack| == j.evidence.finalBytes then VERIFY_CLOSE else VERIFY_FILE
    else if j.work == MANIFEST_WRITE then if j.draft.cursor == j.draft.length then MANIFEST_SYNC else MANIFEST_WRITE
    else if Running(j.work) then j.work + 1
    else j.work
  }

  lemma InputReports(j: Job, a: Answers)
    requires Inv(j) && Fits(j) && MOUNT <= j.work <= SCENARIO_PARSE
    ensures AdvancedInput(j, a).result == OfInput(j, a)
  {
    AtWork(j);
    hide Inv, Safe, Staged, NamesChecked;
  }

  lemma SecondaryReports(j: Job, a: Answers)
    requires Inv(j) && Fits(j) && PATH_CHECKS <= j.work <= CONFIGURE
    ensures AdvancedSecondary(j, a).result == OfSecondarySource(j, a)
  {
    AtWork(j);
    hide Inv, Safe, Staged, Unclaimed;
  }

  lemma OutputReports(j: Job, a: Answers)
    requires Inv(j) && Fits(j) && OUTPUT_CREATE <= j.work <= SOURCE_CLOSE && (j.mode.managed ==> !InRender(j.work))
    ensures AdvancedOutput(j, a).result == OfOutput(j, a)
  {
    AtWork(j);
    if j.work == OUTPUT_FINISH {
      SummaryAddsUp(j, a);
    }
    hide Inv, Safe, Staged, NamesChecked, SummaryOf;
  }

  lemma OpenVerifyReports(j: Job, a: Answers)
    requires Inv(j) && j.work == VERIFY_OPEN
    ensures AfterOpenVerify(j, a).result == OfVerification(j, a)
  {
    AtWork(j);
    hide Inv, Safe, NamesChecked, Counted;
  }

  lemma VerifyHeaderReports(j: Job, a: Answers)
    requires Inv(j) && Fits(j) && j.work == VERIFY_HEADER
    ensures AfterVerifyHeader(j, a).result == OfVerification(j, a)
  {
    AtWork(j);
    var data, file := |j.appended|, j.evidence.finalBytes;
    assert data == j.evidence.summary.dataBytes && file == FileBytesOf(data) && data % 3 == 0;
    CanonicalHeaderPasses(data);
    if HeaderMatches(a.bytes, data, file) {
      VerifiedHeaderIsCanonical(a.bytes, data, file);
    }
    hide Inv, Safe, NamesChecked, Counted, Staged, HeaderMatches, A.Header;
  }

  lemma VerifyFileReports(j: Job, a: Answers)
    requires Inv(j) && j.work == VERIFY_FILE
    ensures AfterVerifyFile(j, a).result == OfVerification(j, a)
  {
    AtWork(j);
    var e := j.evidence;
    assert Rendered(j.setup.sha, e, j.appended) && HeaderChecked(e) && ReadSoFar(e);
    hide Inv, Safe, NamesChecked, Counted, Staged, HeaderChecked;
    if |e.readBack| == e.finalBytes {
      AllPcmRead(j.setup.sha, e, j.appended);
    }
  }

  lemma VerificationReports(j: Job, a: Answers)
    requires Inv(j) && Fits(j) && (j.work == VERIFY_OPEN || j.work == VERIFY_HEADER || j.work == VERIFY_FILE)
    ensures AdvancedPublication(j, a).result == OfVerification(j, a)
  {
    hide Inv, Fits, AfterOpenVerify, AfterVerifyHeader, AfterVerifyFile, OfVerification;
    if j.work == VERIFY_OPEN {
      OpenVerifyReports(j, a);
    } else if j.work == VERIFY_HEADER {
      VerifyHeaderReports(j, a);
    } else {
      VerifyFileReports(j, a);
    }
  }

  lemma PublicationReports(j: Job, a: Answers)
    requires Inv(j) && Fits(j) && VERIFY_CLOSE <= j.work <= PUBLISH_MANIFEST
    ensures AdvancedPublication(j, a).result == OfPublication(j, a)
  {
    AtWork(j);
    if j.work == PUBLISH_MANIFEST {
      PublishManifestStepsOn(j, a);
    }
    hide Inv, Safe, NamesChecked, Verified, StepsOn;
  }

  lemma EarlyLeads(j: Job, a: Answers)
    ensures MOUNT <= j.work <= SCENARIO_PARSE && AdvancedInput(j, a).result.Ok? ==> AdvancedInput(j, a).job.work == Next(j, a)
    ensures PATH_CHECKS <= j.work <= CONFIGURE && (j.work == PATH_CHECKS ==> j.counts.pathCheckIndex <= 5) ==>
              (AdvancedSecondary(j, a).result.Ok? ==> AdvancedSecondary(j, a).job.work == Next(j, a))
  {
  }

  lemma LateLeads(j: Job, a: Answers)
    ensures OUTPUT_CREATE <= j.work <= SOURCE_CLOSE && j.handles == OpenIn(j.work, j.mode.secondary) && AdvancedOutput(j, a).result.Ok? ==>
              AdvancedOutput(j, a).job.work == Next(j, a)
    ensures VERIFY_OPEN <= j.work <= PUBLISH_MANIFEST && AdvancedPublication(j, a).result.Ok? ==>
              AdvancedPublication(j, a).job.work == Next(j, a)
  {
    hide HeaderMatches, Digested, PadIsWrong, SummaryOf;
  }

  lemma StepLeads(j: Job, a: Answers)
    requires Inv(j) && Fits(j) && Running(j.work)
    ensures Advanced(j, a).result.Ok? ==> Advanced(j, a).job.work == Next(j, a)
  {
    AtWork(j);
    hide Inv, Counted, Safe, Staged, Unclaimed, AdvancedInput, AdvancedSecondary, AdvancedOutput, AdvancedPublication;
    EarlyLeads(j, a);
    LateLeads(j, a);
    hide Next;
  }

  lemma FailsIntoCleanup(j: Job, a: Answers)
    requires StepsOn(j, Advanced(j, a))
    ensures !Advanced(j, a).result.Ok? ==> Advanced(j, a).job.work == CLEANUP
  {
    hide Inv, Advanced, Follows, SameStage, Left;
  }

  /**
   Every step of a job at work reports exactly that, in any run: no other check that the board makes
   on its own counts can fail.
   */
  lemma StepReports(j: Job, a: Answers)
    requires Inv(j) && Fits(j) && Running(j.work) && (j.mode.managed ==> !InRender(j.work))
    ensures Advanced(j, a).result == Reported(j, a)
    ensures Advanced(j, a).job.work == if Reported(j, a).Ok? then Next(j, a) else CLEANUP
  {
    AdvancesOn(j, a);
    FailsIntoCleanup(j, a);
    StepLeads(j, a);
    hide Inv, Fits, StepsOn, AdvancedInput, AdvancedSecondary, AdvancedOutput, AdvancedPublication, Next;
    hide OfInput, OfSecondarySource, OfOutput, OfVerification, OfPublication;
    if j.work <= SCENARIO_PARSE {
      InputReports(j, a);
    } else if j.work <= CONFIGURE {
      SecondaryReports(j, a);
    } else if j.work <= SOURCE_CLOSE {
      OutputReports(j, a);
    } else if j.work in {VERIFY_OPEN, VERIFY_HEADER, VERIFY_FILE} {
      VerificationReports(j, a);
    } else {
      PublicationReports(j, a);
    }
  }

  // ---------------------------------------------------------------------
  // Failures and closes

  /** What is open after a step that failed: what its state held, and what the step itself got open. */
  function HeldAfterFailure(j: Job, a: Answers): Handles {
    var h := OpenIn(j.work, j.mode.secondary);
    if j.work == MOUNT then h.(mounted := true)
    else if j.work == SOURCE_OPEN then h.(source := a.ok)
    else if j.work == SCENARIO_OPEN || j.work == VERIFY_OPEN then h.(work := a.ok)
    else if j.work == SECONDARY_OPEN then h.(secondary := true)
    else if j.work == CONFIGURE then h.(engine := true)
    else if j.work == OUTPUT_CREATE then h.(output := a.ok && j.Named(WavTemp) !in j.files)
    else h
  }

  lemma EarlyFailureHolds(j: Job, a: Answers)
    requires Fits(j)
    ensures MOUNT <= j.work <= SCENARIO_PARSE && !AdvancedInput(j, a).result.Ok? ==> AdvancedInput(j, a).job.handles == HeldAfterFailure(j, a)
    ensures PATH_CHECKS <= j.work <= CONFIGURE && !AdvancedSecondary(j, a).result.Ok? ==>
              AdvancedSecondary(j, a).job.handles == HeldAfterFailure(j, a)
  {
  }

  lemma LateFailureHolds(j: Job, a: Answers)
    requires Fits(j)
    ensures OUTPUT_CREATE <= j.work <= SOURCE_CLOSE && !AdvancedOutput(j, a).result.Ok? ==>
              AdvancedOutput(j, a).job.handles == HeldAfterFailure(j, a)
    ensures VERIFY_OPEN <= j.work <= PUBLISH_MANIFEST && !AdvancedPublication(j, a).result.Ok? ==>
              AdvancedPublication(j, a).job.handles == HeldAfterFailure(j, a)
  {
    hide HeaderMatches, Digested, PadIsWrong, SummaryOf;
  }

  /** Nothing that was opened is forgotten by a failure. */
  lemma FailureHolds(j: Job, a: Answers)
    requires Inv(j) && Fits(j) && Running(j.work)
    ensures !Advanced(j, a).result.Ok? ==> Advanced(j, a).job.handles == HeldAfterFailure(j, a)
  {
    hide Inv, Fits, HeldAfterFailure, AdvancedInput, AdvancedSecondary, AdvancedOutput, AdvancedPublication;
    EarlyFailureHolds(j, a);
    LateFailureHolds(j, a);
  }

  /**
   What is closed is the first thing open, in this order: the secondary source, the manifest, the
   output, the work file, the source; the volume is last.
   */
  lemma ClosesInOrder(j: Job)
    requires j.handles.Count() > 0
    ensures var h, t := j.handles, ClosedNext(j, true).job.handles;
            t == if h.secondary then h.(secondary := false)
                 else if h.manifest then h.(manifest := false)
                 else if h.output then h.(output := false)
                 else if h.work then h.(work := false)
                 else if h.source then h.(source := false)
                 else h.(mounted := false)
    ensures ClosedNext(j, false).job.handles == j.handles
  {
  }

  /** A job that failed with this failure and was not cancelled: it is the one it will end with. */
  ghost predicate Blamed(j: Job, failure: Status) {
    && !failure.Ok? && j.fate.pendingFailure == failure && !j.fate.cancelRequested
    && (j.fate.terminalPhase.Failed? || j.fate.terminalPhase.IdlePhase?)
    && (j.work == CLEANUP || (j.work == TERMINAL && j.phase.Failed? && j.status == failure))
  }

  lemma BlameStays(j: Job, a: Answers, failure: Status)
    requires Inv(j) && Blamed(j, failure)
    ensures Blamed(AfterStep(j, a).job, failure)
  {
    hide Inv, ClosedNext;
    if j.work == CLEANUP && j.handles.Count() > 0 {
      AtCleanup(j);
      ClosesOne(j.(handles := j.handles.(engine := false)), a.ok);
    }
  }

  /** Where a failure comes from. */
  lemma FailureIsBlamed(j: Job, a: Answers)
    requires Inv(j) && Running(j.work) && !j.fate.cancelRequested
    ensures !Advanced(j, a).result.Ok? ==> Blamed(Advanced(j, a).job, Advanced(j, a).result)
  {
    AtWork(j);
    hide Inv, Safe, Counted, Staged, NamesChecked, HeaderMatches, Digested, PadIsWrong, SummaryOf;
    if j.work <= SCENARIO_PARSE {
      InputIsBlamed(j, a);
    } else if j.work <= CONFIGURE {
      SecondaryIsBlamed(j, a);
    } else if j.work <= SOURCE_CLOSE {
      OutputIsBlamed(j, a);
    } else {
      PublicationIsBlamed(j, a);
    }
    hide AdvancedInput, AdvancedSecondary, AdvancedOutput, AdvancedPublication;
  }

  /** Nothing has failed yet. */
  predicate Blameless(j: Job) {
    j.fate.pendingFailure.Ok? && j.fate.terminalPhase.IdlePhase? && !j.fate.cancelRequested && Running(j.work)
  }

  lemma InputIsBlamed(j: Job, a: Answers)
    requires Blameless(j) && MOUNT <= j.work <= SCENARIO_PARSE
    ensures !AdvancedInput(j, a).result.Ok? ==> Blamed(AdvancedInput(j, a).job, AdvancedInput(j, a).result)
  {
  }

  lemma SecondaryIsBlamed(j: Job, a: Answers)
    requires Blameless(j) && PATH_CHECKS <= j.work <= CONFIGURE
    ensures !AdvancedSecondary(j, a).result.Ok? ==> Blamed(AdvancedSecondary(j, a).job, AdvancedSecondary(j, a).result)
  {
  }

  lemma OutputIsBlamed(j: Job, a: Answers)
    requires Blameless(j) && OUTPUT_CREATE <= j.work <= SOURCE_CLOSE
    ensures !AdvancedOutput(j, a).result.Ok? ==> Blamed(AdvancedOutput(j, a).job, AdvancedOutput(j, a).result)
  {
  }

  lemma PublicationIsBlamed(j: Job, a: Answers)
    requires Blameless(j) && VERIFY_OPEN <= j.work <= PUBLISH_MANIFEST
    ensures !AdvancedPublication(j, a).result.Ok? ==> Blamed(AdvancedPublication(j, a).job, AdvancedPublication(j, a).result)
  {
    hide HeaderMatches, Digested, PadIsWrong;
  }

  /** A close that fails after the publication is the job's failure, too. */
  lemma CloseIsBlamed(j: Job, a: Answers)
    requires Inv(j) && j.work == CLEANUP && j.fate.terminalPhase.Complete? && !j.fate.cancelRequested
    ensures !AfterCleanup(j, a).result.Ok? ==> Blamed(AfterCleanup(j, a).job, AfterCleanup(j, a).result)
  {
    AtCleanup(j);
    hide Inv, ClosedNext;
    if j.handles.Count() > 0 {
      ClosesOne(j.(handles := j.handles.(engine := false)), a.ok);
    }
  }

  lemma FirstFailureIsBlamed(j: Job, a: Answers)
    requires Bound(j, true) && !AfterStep(j, a).result.Ok?
    ensures Blamed(AfterStep(j, a).job, AfterStep(j, a).result)
  {
    if j.work == CLEANUP {
      CloseIsBlamed(j, a);
    } else if j.work == TERMINAL {
      CompleteIsOk(j);
    } else {
      FailureIsBlamed(j, a);
    }
    hide Inv, Advanced, AfterCleanup;
  }

  lemma {:induction false} BlameGoesOn(j: Job, answers: nat -> Answers, first: nat, steps: nat, failure: Status)
    requires first <= steps && Inv(Later(j, answers, first)) && Blamed(Later(j, answers, first), failure)
    ensures Inv(Later(j, answers, steps)) && Blamed(Later(j, answers, steps), failure)
    decreases steps
  {
    hide Inv, Blamed, AfterStep;
    if first < steps {
      BlameGoesOn(j, answers, first, steps - 1, failure);
      StepKeeps(Later(j, answers, steps - 1), answers(steps - 1));
      BlameStays(Later(j, answers, steps - 1), answers(steps - 1), failure);
    }
  }

  /** A job left to itself that fails ends with the failure that its first failing step reported, whatever fails after it. */
  lemma EndsWithTheFirstFailure(j: Job, answers: nat -> Answers, first: nat, steps: nat)
    requires Inv(j) && Running(j.work) && !j.mode.managed && !j.fate.cancelRequested && first < steps
    requires !StepOk(j, answers, first) && forall i :: 0 <= i < first ==> StepOk(j, answers, i)
    ensures var t := Later(j, answers, steps);
            t.work == TERMINAL ==> t.phase.Failed? && t.status == AfterStep(Later(j, answers, first), answers(first)).result
  {
    hide Inv, AfterStep, Bound, Blamed;
    var was := Later(j, answers, first);
    var e := AfterStep(was, answers(first));
    assert Later(j, answers, first + 1) == e.job && !e.result.Ok?;
    AtWorkIsBound(j);
    LaterIsBound(j, answers, first);
    hide Later, StepOk;
    FirstFailureIsBlamed(was, answers(first));
    BoundIsKept(was, true);
    StepKeeps(was, answers(first));
    BlameGoesOn(j, answers, first + 1, steps, e.result);
    BlamedAtItsEnd(Later(j, answers, steps), e.result);
  }

  lemma BlamedAtItsEnd(j: Job, failure: Status)
    requires Blamed(j, failure)
    ensures j.work == TERMINAL ==> j.phase.Failed? && j.status == failure
  {
  }

  lemma AtWorkIsBound(j: Job)
    requires Inv(j) && Running(j.work) && !j.mode.managed && !j.fate.cancelRequested
    ensures Bound(j, true)
  {
    hide Inv;
  }

  lemma BoundIsKept(j: Job, sound: bool)
    requires Bound(j, sound)
    ensures Inv(j)
  {
  }

  // ---------------------------------------------------------------------
  // What a run has seen

  /**
   What a job was asked and answered so far: whether to keep its output; the source's size, offset
   and frames and the bytes read of it; the bytes of the scenario and whether it names a secondary
   source, and the bytes of that; the frames decoded and those rendered before them, the engine's
   last block and the blocks appended; and the header and bytes read back.
   */
  datatype Look = Look(keep: bool, size: nat, offset: nat, frames: nat, source: Bytes, scenarioSize: nat, scenario: Bytes,
                       second: bool, secondarySize: nat, secondary: Bytes, taken: nat, done: nat, block: Bytes, pcm: Bytes,
                       header: Bytes, back: Bytes)

  const UNSEEN: Look := Look(false, 0, 0, 0, [], 0, [], false, 0, [], 0, 0, [], [], [], [])

  /** And what it was when each manifest appeared under its name. */
  datatype Seen = Seen(now: Look, told: map<string, Look>)

  /** The engine's answer, as far as it is whole frames. */
  function InFrames(bytes: Bytes): Bytes {
    bytes[..|bytes| - |bytes| % 3]
  }

  /** What is seen of a call that leads from one state to another. */
  function SeenBetween(l: Look, was: Work, a: Answers, here: Work): Look {
    if was == SOURCE_OPEN && here == SOURCE_HASH then l.(size := a.size, offset := a.offset, frames := a.frames, source := [])
    else if was == SOURCE_HASH && here == SOURCE_HASH then l.(source := l.source + a.bytes)
    else if was == SCENARIO_OPEN && here == SCENARIO_READ then l.(scenarioSize := a.size, scenario := [])
    else if was == SCENARIO_READ && here == SCENARIO_READ then l.(scenario := l.scenario + a.bytes)
    else if was == SCENARIO_PARSE && here == PATH_CHECKS then l.(second := a.scenario.secondary)
    else if was == SECONDARY_HASH_OPEN && here == SECONDARY_HASH then l.(secondarySize := a.size, secondary := [])
    else if was == SECONDARY_HASH && here == SECONDARY_HASH then l.(secondary := l.secondary + a.bytes)
    else if was == OUTPUT_CREATE && here == RENDER_READ_DECODE then l.(done := 0)
    else if was == VERIFY_HEADER && here == VERIFY_FILE then l.(header := a.bytes, back := [])
    else if was == VERIFY_FILE && here == VERIFY_FILE then l.(back := l.back + a.bytes)
    else RenderedBetween(l, was, Min(2048, Max(0, l.frames - l.done)), a, here)
  }

  /** Frames decoded, a block the engine made of them, and a block appended. */
  function RenderedBetween(l: Look, was: Work, frames: nat, a: Answers, here: Work): Look {
    if was == RENDER_READ_DECODE && here == RENDER_PROCESS_PACK then l.(taken := frames)
    else if was == RENDER_PROCESS_PACK && here == RENDER_APPEND then l.(block := InFrames(a.bytes))
    else if was == RENDER_APPEND && here == RENDER_READ_DECODE then l.(pcm := l.pcm + l.block, done := l.done + l.taken)
    else l
  }

  /** A call's effect on what was seen, told by where the job stood before and after it. */
  function SeenBy(s: Seen, j: Job, command: Command, t: Job): Seen {
    match command
    case Begins(_, _, _, keep, _) => if j.Busy() then s else s.(now := UNSEEN.(keep := keep))
    case Steps(a) =>
      if j.work == PUBLISH_MANIFEST && j.Named(ManifestFile) !in j.files && j.Named(ManifestFile) in t.files
      then s.(told := s.told[j.stem := s.now])
      else s.(now := SeenBetween(s.now, j.work, a, t.work))
    case Produces(frames, a) => s.(now := RenderedBetween(s.now, j.work, frames, a, t.work))
    case Appends(frames, a) => s.(now := RenderedBetween(s.now, j.work, frames, a, t.work))
    case _ => s
  }

  /** What is seen over a run. */
  function SeenIn(s: Seen, j: Job, commands: seq<Command>): Seen
    decreases commands
  {
    if |commands| == 0 then s
    else
      var t := Obeyed(j, commands[0]).job;
      SeenIn(SeenBy(s, j, commands[0], t), t, commands[1..])
  }

  /** The job knows what it has seen, and nothing else. */
  ghost predicate Knows(j: Job, l: Look) {
    && j.appended == l.pcm
    && (Running(j.work) ==>
          && j.mode.keep == l.keep
          && (j.work == RENDER_APPEND ==> j.packed == l.block)
          && (j.work >= SOURCE_HASH ==> j.counts.sourceFrames == l.frames && j.counts.dataOffset == l.offset)
          && (j.work >= PATH_CHECKS ==> j.mode.secondary == l.second)
          && (InRender(j.work) ==> j.counts.sourceCursor == l.done)
          && (j.work == RENDER_PROCESS_PACK || j.work == RENDER_APPEND ==> j.counts.blockIn == l.taken)
          && (j.work >= OUTPUT_FINISH || j.work == SECONDARY_CLOSE ==> l.done == l.frames)
          && (j.work == SOURCE_HASH ==> j.counts.sourceBytes == l.size && j.counts.hashCursor == |l.source|)
          && (j.work > SOURCE_HASH ==> |l.source| == l.size)
          && (j.work == SCENARIO_READ ==> j.counts.scenarioBytes == l.scenarioSize && j.counts.scenarioCursor == |l.scenario|)
          && (j.work > SCENARIO_READ ==> |l.scenario| == l.scenarioSize)
          && (j.work == SECONDARY_HASH ==> j.counts.secondaryBytes == l.secondarySize && j.counts.hashCursor == |l.secondary|)
          && (j.work != SECONDARY_HASH ==> |l.secondary| == l.secondarySize)
          && (j.work > VERIFY_HEADER ==> j.evidence.header == l.header && j.evidence.readBack == l.back))
  }

  /** What stood behind each manifest is what had been seen when it appeared. */
  ghost predicate Recalls(j: Job, told: map<string, Look>) {
    forall stem :: stem in j.history.shown ==>
      stem in told
      && var p, l := j.history.shown[stem], told[stem];
         && p.appended == l.pcm && p.sourceFrames == l.frames && p.keep == l.keep
         && p.evidence.header == l.header && p.evidence.readBack == l.back
         && |l.source| == l.size && |l.scenario| == l.scenarioSize && |l.secondary| == l.secondarySize && l.done == l.frames
  }

  lemma InputKnown(j: Job, l: Look, a: Answers)
    requires Knows(j, l) && MOUNT <= j.work <= SCENARIO_PARSE
    ensures var t := AdvancedInput(j, a).job; Knows(t, SeenBetween(l, j.work, a, t.work)) && t.history == j.history
  {
  }

  lemma HashSecondaryKnown(j: Job, l: Look, a: Answers)
    requires Knows(j, l) && j.work == SECONDARY_HASH
    ensures var t := AfterHashSecondary(j, a).job; Knows(t, SeenBetween(l, j.work, a, t.work)) && t.history == j.history
  {
  }

  lemma SecondaryKnown(j: Job, l: Look, a: Answers)
    requires Knows(j, l) && PATH_CHECKS <= j.work <= CONFIGURE
    ensures var t := AdvancedSecondary(j, a).job; Knows(t, SeenBetween(l, j.work, a, t.work)) && t.history == j.history
  {
    hide AfterHashSecondary, CheckedKind;
    if j.work == SECONDARY_HASH {
      HashSecondaryKnown(j, l, a);
    }
  }

  lemma OutputKnown(j: Job, l: Look, a: Answers)
    requires Knows(j, l) && OUTPUT_CREATE <= j.work <= SOURCE_CLOSE
    requires (j.mode.managed ==> !InRender(j.work)) && j.counts.sourceCursor <= j.counts.sourceFrames
    ensures var t := AdvancedOutput(j, a).job; Knows(t, SeenBetween(l, j.work, a, t.work)) && t.history == j.history
  {
  }

  lemma VerifyFileKnown(j: Job, l: Look, a: Answers)
    requires Knows(j, l) && j.work == VERIFY_FILE
    ensures var t := AfterVerifyFile(j, a).job; Knows(t, SeenBetween(l, j.work, a, t.work)) && t.history == j.history
  {
    hide PadIsWrong;
  }

  lemma PublicationKnown(j: Job, l: Look, a: Answers)
    requires Knows(j, l) && VERIFY_OPEN <= j.work <= PUBLISH_WAV
    ensures var t := AdvancedPublication(j, a).job; Knows(t, SeenBetween(l, j.work, a, t.work)) && t.history == j.history
  {
    hide HeaderMatches, AfterVerifyFile;
    if j.work == VERIFY_FILE {
      VerifyFileKnown(j, l, a);
    }
  }

  /** The last rename shows what was seen, if it shows anything. */
  lemma ManifestKnown(j: Job, s: Seen, a: Answers)
    requires Knows(j, s.now) && Recalls(j, s.told) && j.work == PUBLISH_MANIFEST
    ensures var t := AfterPublishManifest(j, a).job;
            var u := SeenBy(s, j, Steps(a), t);
            Knows(t, u.now) && Recalls(t, u.told)
  {
  }

  lemma CleanupKnown(j: Job, l: Look, a: Answers)
    requires Knows(j, l) && j.work == CLEANUP
    ensures var t := AfterCleanup(j, a).job;
            (t.work == CLEANUP || t.work == TERMINAL) && t.files == j.files && t.history == j.history && Knows(t, l)
  {
  }

  lemma WithdrawnKnown(j: Job, l: Look)
    requires Knows(j, l)
    ensures var k := Withdrawn(j); k.files == j.files && k.history == j.history && Knows(k, l) && (k.work == j.work ==> k == j)
  {
  }

  lemma AdvancedKnown(j: Job, l: Look, a: Answers)
    requires Knows(j, l) && Running(j.work) && j.work != PUBLISH_MANIFEST
    requires (j.mode.managed ==> !InRender(j.work)) && j.counts.sourceCursor <= j.counts.sourceFrames
    ensures var t := Advanced(j, a).job; Knows(t, SeenBetween(l, j.work, a, t.work)) && t.history == j.history
  {
    hide Knows, SeenBetween, AdvancedInput, AdvancedSecondary, AdvancedOutput, AdvancedPublication;
    if j.work <= SCENARIO_PARSE {
      InputKnown(j, l, a);
    } else if j.work <= CONFIGURE {
      SecondaryKnown(j, l, a);
    } else if j.work <= SOURCE_CLOSE {
      OutputKnown(j, l, a);
    } else {
      PublicationKnown(j, l, a);
    }
  }

  lemma NothingSeen(l: Look, was: Work, a: Answers, here: Work)
    requires was == here ==> was != SOURCE_HASH && was != SCENARIO_READ && was != SECONDARY_HASH && was != VERIFY_FILE
    requires was != here ==> here == CLEANUP || here == TERMINAL
    ensures SeenBetween(l, was, a, here) == l
  {
  }

  lemma RecallsOn(j: Job, t: Job, told: map<string, Look>)
    requires Recalls(j, told) && t.history.shown == j.history.shown
    ensures Recalls(t, told)
  {
  }

  lemma AwaitsRendering(j: Job)
    requires Fits(j) && Running(j.work)
    ensures j.AwaitsOwner() <==> j.mode.managed && InRender(j.work)
  {
  }

  lemma CursorInside(j: Job)
    requires Inv(j) && Running(j.work)
    ensures j.counts.sourceCursor <= j.counts.sourceFrames
  {
    AtWork(j);
    hide Inv, Safe, Staged, NamesChecked;
  }

  lemma StepKnown(j: Job, s: Seen, a: Answers)
    requires Knows(j, s.now) && Recalls(j, s.told) && Inv(j) && Fits(j)
    ensures var t := AfterStep(j, a).job;
            var u := SeenBy(s, j, Steps(a), t);
            Knows(t, u.now) && Recalls(t, u.told)
  {
    var t := AfterStep(j, a).job;
    hide Inv, Fits, Knows, Recalls, SeenBetween, Advanced, AfterCleanup, AfterPublishManifest;
    if j.work == IDLE || j.work == TERMINAL {
      NothingSeen(s.now, j.work, a, t.work);
    } else {
      WithdrawnKnown(j, s.now);
      WithdrawnWorks(j);
      var k := Withdrawn(j);
      if k.AwaitsOwner() {
        NothingSeen(s.now, j.work, a, t.work);
        RecallsOn(j, t, s.told);
      } else if k.work == CLEANUP {
        CleanupKnown(k, s.now, a);
        NothingSeen(s.now, j.work, a, t.work);
        RecallsOn(j, t, s.told);
      } else {
        NotWithdrawn(j);
        if j.work == PUBLISH_MANIFEST {
          PublishesNow(j, a);
          ManifestKnown(j, s, a);
        } else {
          AwaitsRendering(j);
          CursorInside(j);
          AdvancedKnown(j, s.now, a);
          RecallsOn(j, t, s.told);
        }
      }
    }
  }

  lemma ReadDecodeKnown(j: Job, l: Look, frames: nat, a: Answers)
    requires Knows(j, l) && j.work == RENDER_READ_DECODE && j.mode.managed && j.counts.managedRequest == frames
    requires j.counts.sourceCursor != j.counts.sourceFrames
    ensures var t := AfterReadDecode(j, a).job; Knows(t, RenderedBetween(l, j.work, frames, a, t.work)) && t.history == j.history
  {
  }

  lemma ProcessKnown(j: Job, l: Look, frames: nat, a: Answers)
    requires Knows(j, l) && j.work == RENDER_PROCESS_PACK
    ensures var t := AfterProcessPack(j, a).job;
            && Knows(t, RenderedBetween(l, j.work, frames, a, t.work)) && t.history == j.history
            && (t.work == RENDER_APPEND || t.work == CLEANUP)
            && Knows(t.(counts := t.counts.(managedProduced := t.counts.rendered + t.counts.blockOut)),
                     RenderedBetween(l, j.work, frames, a, t.work))
  {
  }

  /** A job that gives up knows what it knew, and what its block is no longer matters. */
  lemma GivenUpKnows(j: Job, l: Look, m: Look)
    requires Knows(j, l) && l == m.(block := l.block)
    ensures Knows(Failing(j, ManagedSlip).job, m) && Failing(j, ManagedSlip).job.history == j.history
    ensures Failing(j, ManagedSlip).job.work == CLEANUP
  {
  }

  lemma RequestKnown(j: Job, l: Look, frames: nat)
    requires Knows(j, l)
    ensures Knows(j.(counts := j.counts.(managedRequest := frames)), l)
  {
  }

  lemma ProduceKnown(j: Job, s: Seen, frames: nat, a: Answers)
    requires Knows(j, s.now) && Recalls(j, s.told) && Inv(j)
    ensures var t := AfterProduce(j, frames, a).job;
            var u := SeenBy(s, j, Produces(frames, a), t);
            Knows(t, u.now) && Recalls(t, u.told)
  {
    hide Inv, Recalls, Knows, AfterReadDecode, AfterProcessPack, RenderedBetween, Failing;
    var t := AfterProduce(j, frames, a).job;
    if j.Managing() {
      ManagedIsAtWork(j);
      if j.work == RENDER_READ_DECODE && 0 < frames <= j.counts.sourceFrames - j.counts.sourceCursor {
        RequestKnown(j, s.now, frames);
        ReadDecodeKnown(j.(counts := j.counts.(managedRequest := frames)), s.now, frames, a);
      } else if j.work == RENDER_PROCESS_PACK {
        ProcessKnown(j, s.now, frames, a);
        var e := AfterProcessPack(j, a);
        NoRender(s.now, j.work, frames, a, e.job.work);
        GivenUpKnows(e.job, RenderedBetween(s.now, j.work, frames, a, e.job.work), s.now);
      }
    }
    NoRender(s.now, j.work, frames, a, t.work);
    RecallsOn(j, t, s.told);
  }

  lemma NoRender(l: Look, was: Work, frames: nat, a: Answers, here: Work)
    ensures was == here || here == CLEANUP ==> RenderedBetween(l, was, frames, a, here) == l
    ensures was == RENDER_PROCESS_PACK ==> RenderedBetween(l, was, frames, a, here) == l.(block := RenderedBetween(l, was, frames, a, here).block)
  {
  }

  lemma AppendKnown(j: Job, s: Seen, frames: nat, a: Answers)
    requires Knows(j, s.now) && Recalls(j, s.told) && Inv(j)
    ensures var t := AfterAppendProduced(j, frames, a).job;
            var u := SeenBy(s, j, Appends(frames, a), t);
            Knows(t, u.now) && Recalls(t, u.told)
  {
    if j.Managing() {
      ManagedIsAtWork(j);
    }
    RecallsOn(j, AfterAppendProduced(j, frames, a).job, s.told);
    hide Inv, Recalls;
  }

  lemma ObeyedKnown(j: Job, s: Seen, command: Command)
    requires Knows(j, s.now) && Recalls(j, s.told) && Inv(j) && Fits(j)
    ensures var t := Obeyed(j, command).job;
            var u := SeenBy(s, j, command, t);
            Knows(t, u.now) && Recalls(t, u.told)
  {
    hide Inv, Fits, Recalls, AfterStep, AfterProduce, AfterAppendProduced;
    match command {
      case Begins(stem, named, distinct, keep, managed) => RecallsOn(j, Obeyed(j, command).job, s.told);
      case Steps(a) => StepKnown(j, s, a);
      case Cancels => RecallsOn(j, Obeyed(j, command).job, s.told);
      case Produces(frames, a) => ProduceKnown(j, s, frames, a);
      case Appends(frames, a) => AppendKnown(j, s, frames, a);
      case FinishesRender => RecallsOn(j, Obeyed(j, command).job, s.told);
      case Commits(committed) => RecallsOn(j, Obeyed(j, command).job, s.told);
      case Reads(read, latched) => RecallsOn(j, Obeyed(j, command).job, s.told);
    }
  }

  // ---------------------------------------------------------------------
  // Whole runs

  /** Everything that a run keeps. */
  ghost predicate Kept(j: Job) {
    Inv(j) && InHand(j) && Fits(j)
  }

  lemma {:induction false} RunFits(j: Job, commands: seq<Command>)
    requires Kept(j)
    ensures Kept(RunOf(j, commands))
    decreases commands
  {
    hide Inv, InHand, Fits, Obeyed;
    if |commands| > 0 {
      ObeyedKeeps(j, commands[0]);
      ObeyedInHand(j, commands[0]);
      ObeyedFits(j, commands[0]);
      RunFits(Obeyed(j, commands[0]).job, commands[1..]);
    }
  }

  /** A new job is admitted exactly at rest, and only with its names given and distinct; then it is at its first state as asked. */
  lemma BeginReports(j: Job, stem: string, named: bool, distinct: bool, keep: bool, managed: bool)
    requires Kept(j)
    ensures var e := AfterBegin(j, stem, named, distinct, keep, managed);
            && e.result == (if j.work != IDLE && j.work != TERMINAL then AlreadyBusy
                            else if !named then BadRequest else if !distinct then Alias else Ok)
            && (e.result == AlreadyBusy ==> e.job == j)
            && (e.result.Ok? ==> e.job.work == MOUNT && e.job.phase.Starting? && e.job.stem == stem && e.job.handles.Closed()
                                 && e.job.mode.keep == keep && e.job.mode.managed == managed && e.job.fate == FRESH_FATE)
  {
    hide Safe, Counted, Staged, NamesChecked, InHand, Fits;
  }

  /** A cancellation is taken exactly of a job that is not at rest, and a failed clean-up is shown as starting again. */
  lemma CancelReports(j: Job)
    requires Kept(j)
    ensures var e := AfterCancel(j);
            && (e.result == if j.work != IDLE && j.work != TERMINAL then Ok else NoJob)
            && (e.result.Ok? ==> e.job.fate.cancelRequested && e.job.work == j.work) && (!e.result.Ok? ==> e.job == j)
            && e.job.phase == if j.work == CLEANUP && j.phase.CleanupFailed? then Starting else j.phase
  {
    hide Safe, Counted, Staged, NamesChecked, InHand, Fits;
  }

  /** The job renders under its owner's care. */
  predicate Mine(j: Job) {
    j.mode.managed && InRender(j.work) && !j.fate.cancelRequested
  }

  lemma MineIsManaging(j: Job)
    requires Kept(j)
    ensures Mine(j) <==> j.Managing()
    ensures j.Playable() <==> (InRender(j.work) || j.work == OUTPUT_FINISH) && !j.fate.cancelRequested
    ensures Mine(j) ==> j.counts.sourceCursor <= j.counts.sourceFrames
  {
    if j.Managing() || j.Playable() {
      ManagedIsAtWork(j);
    }
    if InRender(j.work) {
      AtWork(j);
    }
    hide Inv, Safe, Staged, NamesChecked;
  }

  lemma ProduceReports(j: Job, frames: nat, a: Answers)
    requires Kept(j)
    ensures AfterProduce(j, frames, a).result ==
            if !Mine(j) then NoJob
            else if !(0 < frames <= 2048 && j.counts.sourceCursor + frames <= j.counts.sourceFrames) then ManagedMismatch
            else if j.work == RENDER_READ_DECODE then
              if j.counts.dataOffset + 3 * j.counts.sourceCursor > 0xFFFF_FFFF then BadWav else if a.ok then ManagedPending else ShortRead
            else if j.work == RENDER_PROCESS_PACK && frames == j.counts.blockIn then
              if !a.ok then Refused else if |a.bytes| / 3 == frames then Ok else ManagedSlip
            else ManagedMismatch
  {
    MineIsManaging(j);
    hide Inv;
  }

  lemma AppendReports(j: Job, frames: nat, a: Answers)
    requires Kept(j)
    ensures AfterAppendProduced(j, frames, a).result ==
            if !Mine(j) then NoJob
            else if j.work != RENDER_APPEND || frames != j.counts.blockOut then ManagedMismatch
            else if a.ok then Ok else IoError
  {
    MineIsManaging(j);
    hide Inv;
  }

  lemma FinishReports(j: Job)
    requires Kept(j)
    ensures AfterFinishManaged(j).result ==
            if !Mine(j) then NoJob
            else if j.work == RENDER_READ_DECODE && j.counts.sourceCursor == j.counts.sourceFrames then Ok
            else ManagedMismatch
  {
    MineIsManaging(j);
    hide Inv;
  }

  /** A prefix is committed and read only while rendering; a refused commit and a latched read end the job, a refused read does not. */
  lemma PrefixReports(j: Job, committed: bool, read: bool, latched: bool)
    requires Kept(j)
    ensures var playing, c := (InRender(j.work) || j.work == OUTPUT_FINISH) && !j.fate.cancelRequested, AfterCommitPrefix(j, committed);
            && (c.result == if !playing then NoJob else if committed then Ok else Refused)
            && (if playing && !committed then c.job.work == CLEANUP && c.job.status == Refused else c.job == j)
    ensures var playing, r := (InRender(j.work) || j.work == OUTPUT_FINISH) && !j.fate.cancelRequested, AfterReadPrefix(j, read, latched);
            && (r.result == if !playing then NoJob else if latched then IoError else if read then Ok else Refused)
            && (if playing && latched then r.job.work == CLEANUP && r.job.status == IoError else r.job == j)
  {
    MineIsManaging(j);
    if j.Playable() {
      ManagedIsAtWork(j);
      AtWork(j);
    }
    hide Inv;
  }

  lemma {:induction false} RunKnown(j: Job, s: Seen, commands: seq<Command>)
    requires Knows(j, s.now) && Recalls(j, s.told) && Kept(j)
    ensures var t, u := RunOf(j, commands), SeenIn(s, j, commands); Knows(t, u.now) && Recalls(t, u.told)
    decreases commands
  {
    hide Inv, InHand, Fits, Knows, Recalls, Obeyed, SeenBy;
    if |commands| > 0 {
      ObeyedKeeps(j, commands[0]);
      ObeyedInHand(j, commands[0]);
      ObeyedFits(j, commands[0]);
      ObeyedKnown(j, s, commands[0]);
      RunKnown(Obeyed(j, commands[0]).job, SeenBy(s, j, commands[0], Obeyed(j, commands[0]).job), commands[1..]);
    }
  }

  /** What a manifest that appeared in a run says is the truth of what was seen then. */
  ghost predicate TellsTheTruth(sha: Bytes -> nat, record: Record, l: Look) {
    && record.keep == l.keep && record.inputFrames == l.frames
    && |l.pcm| == 3 * record.outputFrames && record.pcmSha == sha(l.pcm)
    && record.wavSha == sha(l.back)
    && l.header == A.Header(CARD, |l.pcm|) && |l.back| == HEADER + |l.pcm| + |l.pcm| % 2
    && sha(l.back[HEADER..HEADER + |l.pcm|]) == sha(l.pcm) && (|l.pcm| % 2 == 1 ==> l.back[HEADER + |l.pcm|] == 0)
    && |l.source| == l.size && |l.scenario| == l.scenarioSize && |l.secondary| == l.secondarySize && l.done == l.frames
  }

  lemma FramesWhole(sha: Bytes -> nat, files: Files, stem: string, p: Publication)
    requires Stands(sha, files, stem, p)
    ensures |p.appended| == 3 * (|p.appended| / 3)
  {
    assert HeaderMatches(p.evidence.header, |p.appended|, p.evidence.finalBytes);
  }

  /**
   Whatever is called and answered: a manifest that was not there before tells of just the blocks
   that the engine made and the job appended, in their order, of the source's frames and the keep
   that were asked for, and of the bytes read back, once source, scenario and secondary source had
   been read whole. And what the job has appended at any time is just those blocks.
   */
  lemma ManifestsTellTheTruth(sha: Bytes -> nat, room: nat, files: Files, commands: seq<Command>)
    ensures var j, s := RunOf(NewJob(sha, room, files), commands), SeenIn(Seen(UNSEEN, map[]), NewJob(sha, room, files), commands);
            && j.appended == s.now.pcm
            && (forall stem :: Name(stem, ManifestFile) in j.files && Name(stem, ManifestFile) !in files ==>
                  && stem in s.told && j.files[Name(stem, ManifestFile)].Text?
                  && TellsTheTruth(sha, j.files[Name(stem, ManifestFile)].record, s.told[stem]))
  {
    var first := NewJob(sha, room, files);
    var j, s := RunOf(first, commands), SeenIn(Seen(UNSEEN, map[]), first, commands);
    NewKeeps(sha, room, files);
    RunIsSafe(sha, room, files, commands);
    RunKnown(first, Seen(UNSEEN, map[]), commands);
    hide RunOf, SeenIn, Knows;
    forall stem | Name(stem, ManifestFile) in j.files && Name(stem, ManifestFile) !in files
      ensures stem in s.told && j.files[Name(stem, ManifestFile)].Text?
      ensures TellsTheTruth(sha, j.files[Name(stem, ManifestFile)].record, s.told[stem])
    {
      WhatAManifestSays(sha, j.files, stem, j.history.shown[stem]);
      FramesWhole(sha, j.files, stem, j.history.shown[stem]);
    }
  }

  /**
   In any run, with any answer: a job at work holds open and shows just what its state says, and
   its next step, unless it was cancelled or waits for its owner, reports just what it is answered
   and leads where that says.
   */
  lemma RunsReport(sha: Bytes -> nat, room: nat, files: Files, commands: seq<Command>, a: Answers)
    ensures var j := RunOf(NewJob(sha, room, files), commands);
            && Kept(j)
            && (Running(j.work) ==> j.handles == OpenIn(j.work, j.mode.secondary) && j.phase == PhaseIn(j.work, j.mode.secondary))
            && (Running(j.work) && !j.fate.cancelRequested ==>
                  if j.mode.managed && InRender(j.work) then AfterStep(j, a) == Did(j, ManagedPending)
                  else AfterStep(j, a).result == Reported(j, a)
                       && AfterStep(j, a).job.work == if Reported(j, a).Ok? then Next(j, a) else CLEANUP)
            && (j.work == IDLE ==> AfterStep(j, a) == Did(j, NoJob)) && (j.work == TERMINAL ==> AfterStep(j, a) == Did(j, j.status))
  {
    var j := RunOf(NewJob(sha, room, files), commands);
    NewKeeps(sha, room, files);
    RunFits(NewJob(sha, room, files), commands);
    hide RunOf, Inv, InHand, Advanced, Reported, Next;
    if Running(j.work) && !j.fate.cancelRequested && !(j.mode.managed && InRender(j.work)) {
      StepReports(j, a);
      AwaitsRendering(j);
    }
  }
}
