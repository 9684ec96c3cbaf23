/**
 What every step and every call of the prepare job keeps (rt1170/prepare_job.cpp): the order
 of its states, what a manifest stands for, and what is left of other files.
 */
module PrepareSteps {
  import opened Words
  import opened PrepareJobs
  import A = Artifact

  const LAST_STAGE: nat := 70

  // ---------------------------------------------------------------------
  // The order of the states

  /** How far a job has come: the order in which its states follow one another, none once it cleans up. */
  function Progress(work: Work): nat {
    if !Running(work) then 0
    else if work == SECONDARY_CLOSE then 19
    else if work >= OUTPUT_SYNC then work - 1
    else 1
  }

  /** The states a step may leave for more of the same. */
  predicate Repeats(work: Work) {
    work == SOURCE_HASH || work == SCENARIO_READ || work == PATH_CHECKS || work == SECONDARY_HASH || work == SECONDARY_MEASURE
    || work == VERIFY_FILE || work == MANIFEST_WRITE
  }

  /** The state that a successful step leads to: the next one, but for the branches of the secondary source and the render's loop. */
  predicate Follows(was: Work, now: Work) {
    if was == SECONDARY_CLOSE then now == OUTPUT_SYNC
    else if was == OUTPUT_FINISH then now == OUTPUT_SYNC || now == SECONDARY_CLOSE
    else if was == RENDER_READ_DECODE then now == RENDER_PROCESS_PACK || now == OUTPUT_FINISH
    else if was == RENDER_APPEND then now == RENDER_READ_DECODE
    else if was == SECONDARY_MEASURE then now == SECONDARY_MEASURE || now == CONFIGURE
    else now == was + 1 || (Repeats(was) && now == was) || (was == PATH_CHECKS && now == CONFIGURE)
  }

  /** The states before the output file is there. */
  predicate Early(work: Work) {
    Progress(work) == 1 && !InRender(work) && work != OUTPUT_FINISH
  }

  /** How far along a state is; the three states of the render's loop are one stage. */
  function Stage(work: Work): (stage: nat)
    ensures stage <= LAST_STAGE
  {
    if InRender(work) then 34 else if work == SECONDARY_CLOSE then 41 else 2 * work
  }

  predicate SameStage(was: Work, now: Work) {
    was == now || (InRender(was) && InRender(now))
  }

  /** What follows is a later stage or the same one, and the end comes last. */
  lemma StagesInOrder(was: Work, now: Work)
    ensures Follows(was, now) && !SameStage(was, now) ==> Stage(now) > Stage(was)
    ensures SameStage(was, now) ==> Stage(now) == Stage(was) && (now == SECONDARY_MEASURE ==> was == now)
    ensures Follows(was, now) && Running(was) ==> Running(now) || now == CLEANUP
    ensures (Running(was) && now == CLEANUP) || (was == CLEANUP && now == TERMINAL) ==> Stage(now) > Stage(was)
  {
  }

  function Gap(whole: nat, done: nat): nat {
    if whole >= done then whole - done else 0
  }

  /** What a state that repeats has still to do before it leads on; the clean-up, how many closes. */
  function Left(j: Job): nat {
    if j.work == SOURCE_HASH then Gap(j.counts.sourceBytes, j.counts.hashCursor)
    else if j.work == SCENARIO_READ then Gap(j.counts.scenarioBytes, j.counts.scenarioCursor)
    else if j.work == PATH_CHECKS then Gap(CHECKED_NAMES, j.counts.pathCheckIndex)
    else if j.work == SECONDARY_HASH then Gap(j.counts.secondaryBytes, j.counts.hashCursor)
    else if InRender(j.work) then 3 * Gap(j.counts.sourceFrames, j.counts.sourceCursor) + (RENDER_APPEND - j.work)
    else if j.work == VERIFY_FILE then Gap(j.evidence.finalBytes, |j.evidence.readBack|)
    else if j.work == MANIFEST_WRITE then Gap(j.draft.length, j.draft.cursor)
    else if j.work == CLEANUP then j.handles.Count()
    else 0
  }

  // ---------------------------------------------------------------------
  // What a manifest stands for

  /** The summary is the writer's for what was appended. */
  ghost predicate Rendered(sha: Bytes -> nat, e: Evidence, appended: Bytes) {
    e.summary == SummaryOf(sha, appended) && e.finalBytes == e.summary.fileBytes
  }

  ghost predicate HeaderChecked(e: Evidence) {
    HeaderMatches(e.header, e.summary.dataBytes, e.finalBytes)
  }

  /** The pad byte, as far as it is among the bytes, is zero. */
  predicate PadIsZero(file: Bytes, dataBytes: nat) {
    dataBytes % 2 == 1 && |file| > HEADER + dataBytes ==> file[HEADER + dataBytes] == 0
  }

  /** The bytes read back so far, and those of them that are PCM. */
  ghost predicate ReadSoFar(e: Evidence) {
    && |e.readBack| <= e.finalBytes && e.readBackPcm == PcmPart(e.readBack, e.summary.dataBytes)
    && PadIsZero(e.readBack, e.summary.dataBytes)
  }

  /** The whole read-back: its size, its header, its PCM by digest, its pad. */
  ghost predicate Verified(sha: Bytes -> nat, e: Evidence, appended: Bytes) {
    && Rendered(sha, e, appended) && HeaderChecked(e) && ReadSoFar(e) && |e.readBack| == e.finalBytes
    && sha(e.readBackPcm) == e.summary.pcmSha == e.pcmSha && e.wavSha == sha(e.readBack)
  }

  ghost predicate IsRecord(record: Record, e: Evidence, sourceFrames: nat, keep: bool) {
    && record.wavSha == e.wavSha && record.pcmSha == e.pcmSha && record.outputFrames == e.summary.frames
    && record.inputFrames == sourceFrames && record.keep == keep
  }

  /** The manifest of a stem, whole and beside its WAV, speaks of a WAV that was read back and verified. */
  ghost predicate Stands(sha: Bytes -> nat, files: Files, stem: string, p: Publication) {
    var name := Name(stem, ManifestFile);
    && name in files && Name(stem, WavFile) in files && Verified(sha, p.evidence, p.appended)
    && files[name].Text? && IsRecord(files[name].record, p.evidence, p.sourceFrames, p.keep)
    && files[name].written == files[name].whole
  }

  /** The manifest being written under its temporary name. */
  ghost predicate Drafted(files: Files, name: Name, e: Evidence, sourceFrames: nat, keep: bool, draft: Draft) {
    && name in files && files[name].Text? && IsRecord(files[name].record, e, sourceFrames, keep)
    && files[name].written == draft.cursor <= draft.length == files[name].whole
  }

  /** A published manifest tells of a file whose header is the writer's own and whose PCM is the PCM appended, by digest. */
  lemma WhatAManifestSays(sha: Bytes -> nat, files: Files, stem: string, p: Publication)
    requires Stands(sha, files, stem, p)
    ensures var e, record := p.evidence, files[Name(stem, ManifestFile)].record;
            && e.header == A.Header(CARD, |p.appended|) && |e.readBack| == FileBytesOf(|p.appended|)
            && sha(e.readBack[HEADER..HEADER + |p.appended|]) == sha(p.appended) == record.pcmSha
            && sha(e.readBack) == record.wavSha && record.outputFrames == |p.appended| / 3
            && (|p.appended| % 2 == 1 ==> e.readBack[HEADER + |p.appended|] == 0)
  {
    hide HeaderMatches;
    VerifiedHeaderIsCanonical(p.evidence.header, p.evidence.summary.dataBytes, p.evidence.finalBytes);
  }

  // ---------------------------------------------------------------------
  // The files

  /** Every file that was there is there still, as it was. */
  ghost predicate Spared(files: Files, before: Files) {
    forall name :: name in before ==> name in files && files[name] == before[name]
  }

  /** None of the first names checked was there. */
  ghost predicate Unclaimed(before: Files, stem: string, count: nat) {
    forall i :: 0 <= i < count ==> Name(stem, CheckedKind(i)) !in before
  }

  /** Every manifest that was not there when the board started stands for what was kept of it. */
  ghost predicate Honest(sha: Bytes -> nat, files: Files, first: Files, shown: map<string, Publication>) {
    forall stem :: Name(stem, ManifestFile) in files && Name(stem, ManifestFile) !in first ==>
      stem in shown && Stands(sha, files, stem, shown[stem]) && Unclaimed(first, stem, CHECKED_NAMES)
  }

  lemma AtFirst(sha: Bytes -> nat, files: Files, stem: string, shown: map<string, Publication>)
    ensures Spared(files, files) && Unclaimed(files, stem, 0) && Honest(sha, files, files, shown)
  {
  }

  lemma StillSpared(files: Files, middle: Files, before: Files)
    requires Spared(files, middle) && Spared(middle, before)
    ensures Spared(files, before)
  {
  }

  lemma NameChecked(files: Files, before: Files, stem: string, count: nat)
    requires Spared(files, before) && Unclaimed(before, stem, count) && Name(stem, CheckedKind(count)) !in files
    ensures Unclaimed(before, stem, count + 1)
  {
  }

  /** Every kind of name is checked. */
  lemma AnyName(before: Files, stem: string, kind: Kind)
    requires Unclaimed(before, stem, CHECKED_NAMES)
    ensures Name(stem, kind) !in before
  {
    assert CheckedKind(0) == WavFile && CheckedKind(1) == WavTemp && CheckedKind(2) == ManifestFile;
    assert CheckedKind(3) == ManifestTemp && CheckedKind(4) == Companion;
    assert Name(stem, CheckedKind(0)) !in before && Name(stem, CheckedKind(1)) !in before;
    assert Name(stem, CheckedKind(2)) !in before && Name(stem, CheckedKind(3)) !in before && Name(stem, CheckedKind(4)) !in before;
  }

  /** A name nobody had at admission nobody had at the start either. */
  lemma UnclaimedEarlier(before: Files, first: Files, stem: string)
    requires Spared(before, first) && Unclaimed(before, stem, CHECKED_NAMES)
    ensures Unclaimed(first, stem, CHECKED_NAMES)
  {
  }

  /** A file made anew, or one of the job's own written on, that is no WAV or manifest under its final name. */
  lemma OwnFile(j: Job, kind: Kind, content: Content)
    requires Spared(j.files, j.history.before) && Honest(j.setup.sha, j.files, j.history.first, j.history.shown)
    requires j.Named(kind) !in j.files || Unclaimed(j.history.before, j.stem, CHECKED_NAMES)
    requires kind.WavTemp? || kind.ManifestTemp?
    ensures var files := j.files[j.Named(kind) := content];
            Spared(files, j.history.before) && Honest(j.setup.sha, files, j.history.first, j.history.shown)
  {
    hide Verified, IsRecord, Unclaimed;
    if j.Named(kind) in j.files {
      AnyName(j.history.before, j.stem, kind);
    }
  }

  /** The WAV under its own name. */
  lemma OwnWav(j: Job)
    requires Spared(j.files, j.history.before) && Honest(j.setup.sha, j.files, j.history.first, j.history.shown)
    requires Unclaimed(j.history.before, j.stem, CHECKED_NAMES)
    ensures var files := Renamed(j.files, j.Named(WavTemp), j.Named(WavFile));
            Spared(files, j.history.before) && Honest(j.setup.sha, files, j.history.first, j.history.shown)
  {
    hide Verified, IsRecord, Unclaimed;
    AnyName(j.history.before, j.stem, WavTemp);
    AnyName(j.history.before, j.stem, WavFile);
  }

  /** The manifest under its own name, over a WAV verified and under its own. */
  lemma OwnManifest(j: Job)
    requires Spared(j.files, j.history.before) && Honest(j.setup.sha, j.files, j.history.first, j.history.shown)
    requires Spared(j.history.before, j.history.first) && Unclaimed(j.history.before, j.stem, CHECKED_NAMES)
    requires Verified(j.setup.sha, j.evidence, j.appended) && j.Named(WavFile) in j.files
    requires Drafted(j.files, j.Named(ManifestTemp), j.evidence, j.counts.sourceFrames, j.mode.keep, j.draft) && j.draft.cursor == j.draft.length
    ensures var t := Shown(j);
            Spared(t.files, j.history.before) && Honest(j.setup.sha, t.files, j.history.first, t.history.shown)
  {
    hide Verified, IsRecord, Unclaimed;
    AnyName(j.history.before, j.stem, ManifestTemp);
    AnyName(j.history.before, j.stem, ManifestFile);
    UnclaimedEarlier(j.history.before, j.history.first, j.stem);
    var t := Shown(j);
    if Renamable(j.files, j.Named(ManifestTemp), j.Named(ManifestFile)) {
      assert Stands(j.setup.sha, t.files, j.stem, t.history.shown[j.stem]);
      forall stem | Name(stem, ManifestFile) in t.files && Name(stem, ManifestFile) !in j.history.first
        ensures stem in t.history.shown && Stands(j.setup.sha, t.files, stem, t.history.shown[stem])
        ensures Unclaimed(j.history.first, stem, CHECKED_NAMES)
      {
        if stem != j.stem {
          assert Name(stem, ManifestFile) in j.files;
        }
      }
    }
  }

  // ---------------------------------------------------------------------
  // The invariant

  /** What a job's state says of its fate, what it holds and its manifest's name. */
  ghost predicate Orderly(j: Job) {
    && (j.work == IDLE || j.work == TERMINAL ==> j.handles.Closed())
    && (!j.handles.output ==> !j.sink.writer.Active? && !j.sink.bound)
    && (j.fate.terminalPhase.IdlePhase? || j.fate.terminalPhase.Complete? || j.fate.terminalPhase.Cancelled?
        || j.fate.terminalPhase.Failed?)
    && (Running(j.work) ==> j.fate.terminalPhase.IdlePhase? && j.fate.pendingFailure.Ok?)
    && (j.fate.terminalPhase.Complete? ==> j.fate.published && j.fate.pendingFailure.Ok?)
    && (j.phase.Complete? ==> j.work == TERMINAL && j.fate.published)
    && (j.work == TERMINAL ==> j.phase.Complete? || j.phase.Cancelled? || j.phase.Failed?)
    && (j.work == TERMINAL ==> (j.phase.Complete? <==> j.status.Ok?))
    && (j.work == CLEANUP && j.fate.pendingFailure.Ok? ==> j.fate.terminalPhase.Complete?)
    && (j.phase.Rendering? ==> j.work != IDLE && j.work != TERMINAL)
    && (j.fate.published ==> !Running(j.work) && j.Named(ManifestFile) in j.files && j.Named(ManifestFile) !in j.history.before)
    && (Running(j.work) && j.Named(ManifestFile) in j.files ==> j.Named(ManifestFile) in j.history.before)
  }

  /** What is left of other files, and what every manifest stands for. */
  ghost predicate Safe(j: Job) {
    && Spared(j.files, j.history.before) && Spared(j.history.before, j.history.first)
    && Honest(j.setup.sha, j.files, j.history.first, j.history.shown)
  }

  /** The cursors stay inside what they count, and the bytes appended are the frames rendered. */
  ghost predicate Counted(j: Job) {
    && j.counts.sourceCursor <= j.counts.sourceFrames && |j.appended| == 3 * j.counts.rendered
    && (Early(j.work) ==> j.counts.rendered == 0 && j.counts.sourceCursor == 0)
    && (InRender(j.work) || j.work == OUTPUT_FINISH ==> j.counts.outputFrames == j.counts.rendered)
    && (j.work == RENDER_APPEND ==> |j.packed| == 3 * j.counts.blockOut)
    && (j.work == SOURCE_HASH ==> j.counts.hashCursor <= j.counts.sourceBytes)
    && (j.work == SECONDARY_HASH ==> j.counts.hashCursor <= j.counts.secondaryBytes)
    && (j.work == SCENARIO_READ ==> j.counts.scenarioCursor <= j.counts.scenarioBytes)
  }

  /** What each stage of the publication has behind it. */
  ghost predicate Staged(j: Job) {
    var rank, sha := Progress(j.work), j.setup.sha;
    && (rank >= 19 ==> Rendered(sha, j.evidence, j.appended) && j.counts.outputFrames == j.evidence.summary.frames)
    && (rank >= 25 ==> HeaderChecked(j.evidence))
    && (rank == 25 ==> ReadSoFar(j.evidence))
    && (rank >= 26 ==> Verified(sha, j.evidence, j.appended))
    && (rank >= 28 ==> Drafted(j.files, j.Named(ManifestTemp), j.evidence, j.counts.sourceFrames, j.mode.keep, j.draft))
    && (rank >= 29 ==> j.draft.cursor == j.draft.length)
    && (rank >= 32 ==> j.Named(WavFile) in j.files)
  }

  /** The names checked so far were not there when the job was admitted. */
  ghost predicate NamesChecked(j: Job) {
    && (j.work == PATH_CHECKS ==>
          j.counts.pathCheckIndex <= CHECKED_NAMES && Unclaimed(j.history.before, j.stem, j.counts.pathCheckIndex))
    && (j.work > PATH_CHECKS ==> Unclaimed(j.history.before, j.stem, CHECKED_NAMES))
  }

  /** The invariant of every run. */
  ghost predicate Inv(j: Job) {
    Orderly(j) && Safe(j) && (Running(j.work) ==> Counted(j) && Staged(j) && NamesChecked(j))
  }

  /** What no step changes: whose job it is, what was there before it, and whether its owner gave it up. */
  ghost predicate SameJob(j: Job, t: Job) {
    && t.setup == j.setup && t.stem == j.stem && t.history.first == j.history.first && t.history.before == j.history.before
    && t.mode.managed == j.mode.managed && t.fate.cancelRequested == j.fate.cancelRequested
  }

  /** What a step of a job at work does: on to what follows, nearer its end, or to the clean-up for a failure. */
  ghost predicate StepsOn(j: Job, e: Effect) {
    && Inv(e.job) && SameJob(j, e.job)
    && (e.result.Ok? ==> Follows(j.work, e.job.work) && (SameStage(j.work, e.job.work) ==>
                           Left(e.job) < Left(j) || e.job.work == SECONDARY_MEASURE))
    && (e.result.Ok? && e.job.work == CLEANUP ==> e.job.fate.terminalPhase.Complete?)
    && (!e.result.Ok? ==> e.job.work == CLEANUP && !e.job.fate.terminalPhase.Complete? && !e.job.fate.published)
  }

  /** A failure leads to the clean-up, whatever was counted or opened before it. */
  lemma FailedStepsOn(j: Job, e: Effect)
    requires Inv(j) && Running(j.work) && SameJob(j, e.job) && Safe(e.job)
    requires !e.result.Ok? && e.job.work == CLEANUP && !e.job.fate.pendingFailure.Ok? && !e.job.fate.published
    requires (e.job.fate.terminalPhase == j.fate.terminalPhase || e.job.fate.terminalPhase.Failed?) && !e.job.phase.Complete?
    requires e.job.handles.output || (!e.job.sink.writer.Active? && !e.job.sink.bound)
    ensures StepsOn(j, e)
  {
    hide Safe, Counted, Staged, NamesChecked, Follows, SameStage, Left;
  }

  /** On: what the new state needs is what there is to show. */
  lemma GoingStepsOn(j: Job, t: Job)
    requires Inv(j) && Running(j.work) && Running(t.work) && SameJob(j, t) && Safe(t)
    requires j.Named(ManifestFile) in t.files <==> j.Named(ManifestFile) in j.files
    requires t.fate == j.fate && !t.phase.Complete? && (t.handles.output || (!t.sink.writer.Active? && !t.sink.bound))
    requires Counted(t) && Staged(t) && NamesChecked(t)
    requires Follows(j.work, t.work) && (SameStage(j.work, t.work) ==> Left(t) < Left(j) || t.work == SECONDARY_MEASURE)
    ensures StepsOn(j, Did(t, Ok))
  {
    hide Safe, Counted, Staged, NamesChecked, Follows, SameStage, Left;
  }

  /** A job at work is not complete, and its output's handle guards its sink. */
  lemma AtWork(j: Job)
    requires Inv(j) && Running(j.work)
    ensures !j.phase.Complete? && !j.fate.published && j.fate.terminalPhase.IdlePhase? && j.fate.pendingFailure.Ok?
    ensures j.handles.output || (!j.sink.writer.Active? && !j.sink.bound)
    ensures Safe(j) && Counted(j) && Staged(j) && NamesChecked(j)
  {
    hide Safe, Counted, Staged, NamesChecked;
  }

  /** Either way, for a step that leaves the files alone. */
  lemma Concludes(j: Job, e: Effect)
    requires Inv(j) && Running(j.work) && SameJob(j, e.job) && e.job.files == j.files && e.job.history == j.history
    requires !e.job.phase.Complete? && (e.job.handles.output || (!e.job.sink.writer.Active? && !e.job.sink.bound))
    requires e.result.Ok? ==>
               && e.job.fate == j.fate && Running(e.job.work) && Counted(e.job) && Staged(e.job) && NamesChecked(e.job)
               && Follows(j.work, e.job.work)
               && (SameStage(j.work, e.job.work) ==> Left(e.job) < Left(j) || e.job.work == SECONDARY_MEASURE)
    requires !e.result.Ok? ==>
               && e.job.work == CLEANUP && !e.job.fate.pendingFailure.Ok? && !e.job.fate.published
               && (e.job.fate.terminalPhase == j.fate.terminalPhase || e.job.fate.terminalPhase.Failed?)
    ensures StepsOn(j, e)
  {
    AtWork(j);
    hide Inv, StepsOn, Honest, Spared, Counted, Staged, NamesChecked, Follows, SameStage, Left;
    if e.result.Ok? {
      GoingStepsOn(j, e.job);
    } else {
      FailedStepsOn(j, e);
    }
  }

  /** Nothing is behind a job before its render is done. */
  lemma NoStage(j: Job)
    requires j.work <= OUTPUT_FINISH && j.work != SECONDARY_CLOSE
    ensures Staged(j)
  {
  }

  /** The same before anything is read back, when there is nothing yet to stand behind. */
  lemma ConcludesEarly(j: Job, e: Effect)
    requires Inv(j) && Running(j.work) && SameJob(j, e.job) && e.job.files == j.files && e.job.history == j.history
    requires !e.job.phase.Complete? && (e.job.handles.output || (!e.job.sink.writer.Active? && !e.job.sink.bound))
    requires e.result.Ok? ==>
               && e.job.fate == j.fate && Running(e.job.work) && Counted(e.job) && NamesChecked(e.job)
               && e.job.work <= OUTPUT_FINISH && e.job.work != SECONDARY_CLOSE && Follows(j.work, e.job.work)
               && (SameStage(j.work, e.job.work) ==> Left(e.job) < Left(j) || e.job.work == SECONDARY_MEASURE)
    requires !e.result.Ok? ==>
               && e.job.work == CLEANUP && !e.job.fate.pendingFailure.Ok? && !e.job.fate.published
               && (e.job.fate.terminalPhase == j.fate.terminalPhase || e.job.fate.terminalPhase.Failed?)
    ensures StepsOn(j, e)
  {
    hide Inv, StepsOn, SameJob, Counted, Staged, NamesChecked, Follows, SameStage, Left;
    if e.result.Ok? {
      NoStage(e.job);
    }
    Concludes(j, e);
  }

  // The steps, one by one.

  lemma MountStepsOn(j: Job, a: Answers)
    requires Inv(j) && j.work == MOUNT
    ensures StepsOn(j, AfterMount(j, a))
  {
    AtWork(j);
    hide Inv, StepsOn, Staged, Safe, Unclaimed;
    ConcludesEarly(j, AfterMount(j, a));
  }

  lemma OpenSourceStepsOn(j: Job, a: Answers)
    requires Inv(j) && j.work == SOURCE_OPEN
    ensures StepsOn(j, AfterOpenSource(j, a))
  {
    AtWork(j);
    hide Inv, StepsOn, Staged, Safe, Unclaimed;
    ConcludesEarly(j, AfterOpenSource(j, a));
  }

  lemma HashSourceStepsOn(j: Job, a: Answers)
    requires Inv(j) && j.work == SOURCE_HASH
    ensures StepsOn(j, AfterHashSource(j, a))
  {
    AtWork(j);
    hide Inv, StepsOn, Staged, Safe, Unclaimed;
    ConcludesEarly(j, AfterHashSource(j, a));
  }

  lemma OpenScenarioStepsOn(j: Job, a: Answers)
    requires Inv(j) && j.work == SCENARIO_OPEN
    ensures StepsOn(j, AfterOpenScenario(j, a))
  {
    AtWork(j);
    hide Inv, StepsOn, Staged, Safe, Unclaimed;
    ConcludesEarly(j, AfterOpenScenario(j, a));
  }

  lemma ReadScenarioStepsOn(j: Job, a: Answers)
    requires Inv(j) && j.work == SCENARIO_READ
    ensures StepsOn(j, AfterReadScenario(j, a))
  {
    AtWork(j);
    hide Inv, StepsOn, Staged, Safe, Unclaimed;
    ConcludesEarly(j, AfterReadScenario(j, a));
  }

  lemma CloseScenarioStepsOn(j: Job, a: Answers)
    requires Inv(j) && j.work == SCENARIO_CLOSE
    ensures StepsOn(j, Onward(ClosedWork(j, a.ok), SCENARIO_PARSE))
  {
    AtWork(j);
    hide Inv, StepsOn, Staged, Safe, Unclaimed;
    ConcludesEarly(j, Onward(ClosedWork(j, a.ok), SCENARIO_PARSE));
  }

  lemma ParseScenarioStepsOn(j: Job, a: Answers)
    requires Inv(j) && j.work == SCENARIO_PARSE
    ensures StepsOn(j, AfterParseScenario(j, a))
  {
    AtWork(j);
    hide Inv, StepsOn, Staged, Safe, Unclaimed;
    ConcludesEarly(j, AfterParseScenario(j, a));
  }

  lemma CheckPathStepsOn(j: Job, a: Answers)
    requires Inv(j) && j.work == PATH_CHECKS
    ensures StepsOn(j, AfterPathCheck(j, a))
  {
    AtWork(j);
    var e := AfterPathCheck(j, a);
    if e.result.Ok? && e.job.work == PATH_CHECKS {
      NameChecked(j.files, j.history.before, j.stem, j.counts.pathCheckIndex);
    }
    hide Inv, StepsOn, Staged, Safe, Unclaimed, CheckedKind;
    ConcludesEarly(j, e);
  }

  lemma OpenSecondaryHashStepsOn(j: Job, a: Answers)
    requires Inv(j) && j.work == SECONDARY_HASH_OPEN
    ensures StepsOn(j, AfterOpenSecondaryHash(j, a))
  {
    AtWork(j);
    hide Inv, StepsOn, Staged, Safe, Unclaimed;
    ConcludesEarly(j, AfterOpenSecondaryHash(j, a));
  }

  lemma HashSecondaryStepsOn(j: Job, a: Answers)
    requires Inv(j) && j.work == SECONDARY_HASH
    ensures StepsOn(j, AfterHashSecondary(j, a))
  {
    AtWork(j);
    hide Inv, StepsOn, Staged, Safe, Unclaimed;
    ConcludesEarly(j, AfterHashSecondary(j, a));
  }

  lemma CloseSecondaryHashStepsOn(j: Job, a: Answers)
    requires Inv(j) && j.work == SECONDARY_HASH_CLOSE
    ensures StepsOn(j, Onward(ClosedWork(j, a.ok), SECONDARY_OPEN))
  {
    AtWork(j);
    hide Inv, StepsOn, Staged, Safe, Unclaimed;
    ConcludesEarly(j, Onward(ClosedWork(j, a.ok), SECONDARY_OPEN));
  }

  lemma OpenSecondaryStepsOn(j: Job, a: Answers)
    requires Inv(j) && j.work == SECONDARY_OPEN
    ensures StepsOn(j, AfterOpenSecondary(j, a))
  {
    AtWork(j);
    hide Inv, StepsOn, Staged, Safe, Unclaimed;
    ConcludesEarly(j, AfterOpenSecondary(j, a));
  }

  lemma MeasureStepsOn(j: Job, a: Answers)
    requires Inv(j) && j.work == SECONDARY_MEASURE
    ensures StepsOn(j, AfterMeasure(j, a))
  {
    AtWork(j);
    hide Inv, StepsOn, Staged, Safe, Unclaimed;
    ConcludesEarly(j, AfterMeasure(j, a));
  }

  lemma ConfigureStepsOn(j: Job, a: Answers)
    requires Inv(j) && j.work == CONFIGURE
    ensures StepsOn(j, AfterConfigure(j, a))
  {
    AtWork(j);
    hide Inv, StepsOn, Staged, Safe, Unclaimed;
    ConcludesEarly(j, AfterConfigure(j, a));
  }

  lemma ReadDecodeStepsOn(j: Job, a: Answers)
    requires Inv(j) && j.work == RENDER_READ_DECODE
    ensures StepsOn(j, AfterReadDecode(j, a))
  {
    AtWork(j);
    hide Inv, StepsOn, Staged, Safe, Unclaimed;
    if j.counts.sourceCursor == j.counts.sourceFrames {
      ConcludesEarly(j, AfterReadDecode(j, a));
    } else {
      ConcludesEarly(j, AfterReadDecode(j, a));
    }
  }

  lemma ProcessPackStepsOn(j: Job, a: Answers)
    requires Inv(j) && j.work == RENDER_PROCESS_PACK
    ensures StepsOn(j, AfterProcessPack(j, a))
  {
    AtWork(j);
    hide Inv, StepsOn, Staged, Safe, Unclaimed;
    ConcludesEarly(j, AfterProcessPack(j, a));
  }

  lemma AppendStepsOn(j: Job, a: Answers)
    requires Inv(j) && j.work == RENDER_APPEND
    ensures StepsOn(j, AfterAppend(j, a))
  {
    AtWork(j);
    hide Inv, StepsOn, Staged, Safe, Unclaimed;
    ConcludesEarly(j, AfterAppend(j, a));
  }

  lemma CloseSecondaryStepsOn(j: Job, a: Answers)
    requires Inv(j) && j.work == SECONDARY_CLOSE
    ensures StepsOn(j, AfterCloseSecondary(j, a))
  {
    AtWork(j);
    hide Inv, StepsOn, Safe, Rendered, HeaderChecked, ReadSoFar, Verified, Drafted, Unclaimed;
    Concludes(j, AfterCloseSecondary(j, a));
  }

  lemma SyncOutputStepsOn(j: Job, a: Answers)
    requires Inv(j) && j.work == OUTPUT_SYNC
    ensures StepsOn(j, Either(j, a.ok, IoError, OUTPUT_CLOSE))
  {
    AtWork(j);
    hide Inv, StepsOn, Safe, Rendered, HeaderChecked, ReadSoFar, Verified, Drafted, Unclaimed;
    Concludes(j, Either(j, a.ok, IoError, OUTPUT_CLOSE));
  }

  lemma CloseOutputStepsOn(j: Job, a: Answers)
    requires Inv(j) && j.work == OUTPUT_CLOSE
    ensures StepsOn(j, Onward(ClosedOutput(j, a.ok), SOURCE_CLOSE))
  {
    AtWork(j);
    hide Inv, StepsOn, Safe, Rendered, HeaderChecked, ReadSoFar, Verified, Drafted, Unclaimed;
    Concludes(j, Onward(ClosedOutput(j, a.ok), SOURCE_CLOSE));
  }

  lemma CloseSourceStepsOn(j: Job, a: Answers)
    requires Inv(j) && j.work == SOURCE_CLOSE
    ensures StepsOn(j, Onward(ClosedSource(j, a.ok), VERIFY_OPEN))
  {
    AtWork(j);
    hide Inv, StepsOn, Safe, Rendered, HeaderChecked, ReadSoFar, Verified, Drafted, Unclaimed;
    Concludes(j, Onward(ClosedSource(j, a.ok), VERIFY_OPEN));
  }

  lemma OpenVerifyStepsOn(j: Job, a: Answers)
    requires Inv(j) && j.work == VERIFY_OPEN
    ensures StepsOn(j, AfterOpenVerify(j, a))
  {
    AtWork(j);
    hide Inv, StepsOn, Safe, Rendered, HeaderChecked, ReadSoFar, Verified, Drafted, Unclaimed;
    Concludes(j, AfterOpenVerify(j, a));
  }

  lemma CloseVerifyStepsOn(j: Job, a: Answers)
    requires Inv(j) && j.work == VERIFY_CLOSE
    ensures StepsOn(j, Onward(ClosedWork(j, a.ok), MANIFEST_CREATE))
  {
    AtWork(j);
    hide Inv, StepsOn, Safe, Rendered, HeaderChecked, ReadSoFar, Verified, Drafted, Unclaimed;
    Concludes(j, Onward(ClosedWork(j, a.ok), MANIFEST_CREATE));
  }

  lemma SyncManifestStepsOn(j: Job, a: Answers)
    requires Inv(j) && j.work == MANIFEST_SYNC
    ensures StepsOn(j, Either(j, a.ok, IoError, MANIFEST_CLOSE))
  {
    AtWork(j);
    hide Inv, StepsOn, Safe, Rendered, HeaderChecked, ReadSoFar, Verified, Drafted, Unclaimed;
    Concludes(j, Either(j, a.ok, IoError, MANIFEST_CLOSE));
  }

  lemma CloseManifestStepsOn(j: Job, a: Answers)
    requires Inv(j) && j.work == MANIFEST_CLOSE
    ensures StepsOn(j, Onward(ClosedManifest(j, a.ok), PUBLISH_WAV))
  {
    AtWork(j);
    hide Inv, StepsOn, Safe, Rendered, HeaderChecked, ReadSoFar, Verified, Drafted, Unclaimed;
    Concludes(j, Onward(ClosedManifest(j, a.ok), PUBLISH_WAV));
  }

  lemma CreateOutputStepsOn(j: Job, a: Answers)
    requires Inv(j) && j.work == OUTPUT_CREATE
    ensures StepsOn(j, AfterCreateOutput(j, a))
  {
    AtWork(j);
    var e := AfterCreateOutput(j, a);
    if a.ok && j.Named(WavTemp) !in j.files {
      OwnFile(j, WavTemp, Audio);
    }
    hide Inv, StepsOn, Staged, Honest, Spared, Unclaimed;
    if e.result.Ok? {
      NoStage(e.job);
      GoingStepsOn(j, e.job);
    } else {
      FailedStepsOn(j, e);
    }
  }

  /** The writer's summary always has the frames counted and at least a header: neither of its refusals can occur. */
  lemma SummaryAddsUp(j: Job, a: Answers)
    requires Inv(j) && j.work == OUTPUT_FINISH
    ensures var summary := SummaryOf(j.setup.sha, j.appended);
            summary.frames == j.counts.outputFrames && summary.fileBytes >= HEADER
    ensures AfterFinishOutput(j, a).result.Ok? <==> a.ok && j.sink.writer.Active?
  {
    AtWork(j);
    hide Inv, Safe, Staged, NamesChecked;
  }

  lemma FinishOutputStepsOn(j: Job, a: Answers)
    requires Inv(j) && j.work == OUTPUT_FINISH
    ensures StepsOn(j, AfterFinishOutput(j, a))
  {
    AtWork(j);
    SummaryAddsUp(j, a);
    hide Inv, StepsOn, Safe, HeaderChecked, ReadSoFar, Verified, Drafted, Unclaimed, SummaryOf;
    Concludes(j, AfterFinishOutput(j, a));
  }

  /** With its header checked the file is read from its beginning. */
  lemma NothingReadYet(sha: Bytes -> nat, e: Evidence, appended: Bytes, header: Bytes)
    requires Rendered(sha, e, appended) && HeaderMatches(header, e.summary.dataBytes, e.finalBytes)
    ensures var f := e.(header := header, readBack := [], readBackPcm := []);
            Rendered(sha, f, appended) && HeaderChecked(f) && ReadSoFar(f)
  {
    hide HeaderMatches;
  }

  lemma VerifyHeaderStepsOn(j: Job, a: Answers)
    requires Inv(j) && j.work == VERIFY_HEADER
    ensures StepsOn(j, AfterVerifyHeader(j, a))
  {
    AtWork(j);
    if AfterVerifyHeader(j, a).result.Ok? {
      NothingReadYet(j.setup.sha, j.evidence, j.appended, a.bytes);
    }
    hide Inv, StepsOn, Safe, HeaderMatches, Rendered, HeaderChecked, ReadSoFar, Verified, Drafted, Unclaimed;
    Concludes(j, AfterVerifyHeader(j, a));
  }

  /** The PCM of a longer read-back is the PCM there was and the overlap of the new bytes. */
  lemma PcmPartGrows(file: Bytes, bytes: Bytes, dataBytes: nat)
    ensures var offset, end := |file|, |file| + |bytes|;
            var first := if offset > HEADER then offset else HEADER;
            var last := Min(end, HEADER + dataBytes);
            PcmPart(file + bytes, dataBytes) == PcmPart(file, dataBytes) + if last > first then bytes[first - offset..last - offset] else []
  {
    var offset, end := |file|, |file| + |bytes|;
    var last := Min(end, HEADER + dataBytes);
    if end > HEADER {
      if last <= offset {
        SliceInFirst(file, bytes, HEADER, last);
      } else if offset <= HEADER {
        SliceInSecond(file, bytes, HEADER, last);
      } else {
        SliceAcross(file, bytes, HEADER, last);
      }
    }
  }

  lemma SliceInFirst(a: Bytes, b: Bytes, lo: nat, hi: nat)
    requires lo <= hi <= |a|
    ensures (a + b)[lo..hi] == a[lo..hi]
  {
  }

  lemma SliceInSecond(a: Bytes, b: Bytes, lo: nat, hi: nat)
    requires |a| <= lo <= hi <= |a| + |b|
    ensures (a + b)[lo..hi] == b[lo - |a|..hi - |a|]
  {
  }

  lemma SliceAcross(a: Bytes, b: Bytes, lo: nat, hi: nat)
    requires lo <= |a| <= hi <= |a| + |b|
    ensures (a + b)[lo..hi] == a[lo..|a|] + b[0..hi - |a|]
  {
  }

  lemma PadStaysZero(file: Bytes, bytes: Bytes, dataBytes: nat)
    requires PadIsZero(file, dataBytes)
    requires var pad := HEADER + dataBytes; !(dataBytes % 2 == 1 && |file| <= pad < |file| + |bytes| && bytes[pad - |file|] != 0)
    ensures PadIsZero(file + bytes, dataBytes)
  {
  }

  /** A chunk whose pad is right keeps what was read so far. */
  lemma ReadOn(sha: Bytes -> nat, e: Evidence, appended: Bytes, bytes: Bytes)
    requires Rendered(sha, e, appended) && HeaderChecked(e) && ReadSoFar(e)
    requires |e.readBack| + |bytes| <= e.finalBytes && !PadIsWrong(e, bytes)
    ensures var f := Digested(e, bytes); Rendered(sha, f, appended) && HeaderChecked(f) && ReadSoFar(f)
  {
    hide HeaderMatches;
    PcmPartGrows(e.readBack, bytes, e.summary.dataBytes);
    PadStaysZero(e.readBack, bytes, e.summary.dataBytes);
    hide PcmPart, PadIsZero, PadIsWrong;
  }

  /** Once the whole file is read back, its PCM is as long as the writer's: only the digest is left to judge. */
  lemma AllPcmRead(sha: Bytes -> nat, e: Evidence, appended: Bytes)
    requires Rendered(sha, e, appended) && HeaderChecked(e) && ReadSoFar(e) && |e.readBack| == e.finalBytes
    ensures |e.readBackPcm| == e.summary.dataBytes
    ensures sha(e.readBackPcm) == e.summary.pcmSha ==>
              Verified(sha, e.(wavSha := sha(e.readBack), pcmSha := sha(e.readBackPcm)), appended)
  {
    hide HeaderMatches;
  }

  lemma VerifyFileStepsOn(j: Job, a: Answers)
    requires Inv(j) && j.work == VERIFY_FILE
    ensures StepsOn(j, AfterVerifyFile(j, a))
  {
    AtWork(j);
    var e := AfterVerifyFile(j, a);
    if |j.evidence.readBack| == j.evidence.finalBytes {
      AllPcmRead(j.setup.sha, j.evidence, j.appended);
      hide Inv, StepsOn, Safe, Rendered, HeaderChecked, ReadSoFar, Verified, Drafted, Unclaimed;
    } else {
      assert |j.evidence.readBack| < j.evidence.finalBytes;
      if e.result.Ok? {
        ReadOn(j.setup.sha, j.evidence, j.appended, a.bytes);
      }
    }
    hide Inv, StepsOn, Safe, Rendered, HeaderChecked, ReadSoFar, Verified, Drafted, Unclaimed, PadIsWrong;
    Concludes(j, e);
  }

  lemma CreateManifestStepsOn(j: Job, a: Answers)
    requires Inv(j) && j.work == MANIFEST_CREATE
    ensures StepsOn(j, AfterCreateManifest(j, a))
  {
    AtWork(j);
    var e := AfterCreateManifest(j, a);
    if e.result.Ok? {
      OwnFile(j, ManifestTemp, e.job.files[j.Named(ManifestTemp)]);
    }
    hide Inv, StepsOn, Honest, Spared, Rendered, HeaderChecked, ReadSoFar, Verified, Unclaimed;
    if e.result.Ok? {
      GoingStepsOn(j, e.job);
    } else {
      FailedStepsOn(j, e);
    }
  }

  lemma WriteManifestStepsOn(j: Job, a: Answers)
    requires Inv(j) && j.work == MANIFEST_WRITE
    ensures StepsOn(j, AfterWriteManifest(j, a))
  {
    AtWork(j);
    var e := AfterWriteManifest(j, a);
    if e.result.Ok? && j.draft.cursor != j.draft.length {
      OwnFile(j, ManifestTemp, e.job.files[j.Named(ManifestTemp)]);
    }
    hide Inv, StepsOn, Honest, Spared, Rendered, HeaderChecked, ReadSoFar, Verified, Unclaimed;
    if e.result.Ok? {
      GoingStepsOn(j, e.job);
    } else {
      FailedStepsOn(j, e);
    }
  }

  lemma PublishWavStepsOn(j: Job, a: Answers)
    requires Inv(j) && j.work == PUBLISH_WAV
    ensures StepsOn(j, AfterPublishWav(j, a))
  {
    AtWork(j);
    var e := AfterPublishWav(j, a);
    OwnWav(j);
    hide Inv, StepsOn, Honest, Spared, Rendered, HeaderChecked, ReadSoFar, Verified, Unclaimed;
    if e.result.Ok? {
      GoingStepsOn(j, e.job);
    } else {
      FailedStepsOn(j, e);
    }
  }

  /** The manifest gets its name exactly when its rename is done, whether that is reported or not. */
  lemma PublishManifestStepsOn(j: Job, a: Answers)
    requires Inv(j) && j.work == PUBLISH_MANIFEST
    ensures StepsOn(j, AfterPublishManifest(j, a))
    ensures Renamable(j.files, j.Named(ManifestTemp), j.Named(ManifestFile))
  {
    AtWork(j);
    var e := AfterPublishManifest(j, a);
    OwnManifest(j);
    AnyName(j.history.before, j.stem, ManifestFile);
    assert j.Named(ManifestFile) !in j.files;
    hide Honest, Spared, Rendered, HeaderChecked, ReadSoFar, Verified, Unclaimed, Counted, Staged, NamesChecked;
  }

  // ---------------------------------------------------------------------
  // A step, whatever the state

  lemma InputStepsOn(j: Job, a: Answers)
    requires Inv(j) && MOUNT <= j.work <= SCENARIO_PARSE
    ensures StepsOn(j, AdvancedInput(j, a))
  {
    hide Inv, StepsOn, AfterMount, AfterOpenSource, AfterHashSource, AfterOpenScenario, AfterReadScenario, AfterParseScenario, Onward;
    if j.work == MOUNT {
      MountStepsOn(j, a);
    } else if j.work == SOURCE_OPEN {
      OpenSourceStepsOn(j, a);
    } else if j.work == SOURCE_HASH {
      HashSourceStepsOn(j, a);
    } else if j.work == SCENARIO_OPEN {
      OpenScenarioStepsOn(j, a);
    } else if j.work == SCENARIO_READ {
      ReadScenarioStepsOn(j, a);
    } else if j.work == SCENARIO_CLOSE {
      CloseScenarioStepsOn(j, a);
    } else {
      ParseScenarioStepsOn(j, a);
    }
  }

  lemma SecondaryStepsOn(j: Job, a: Answers)
    requires Inv(j) && PATH_CHECKS <= j.work <= CONFIGURE
    ensures StepsOn(j, AdvancedSecondary(j, a))
  {
    hide Inv, StepsOn, AfterPathCheck, AfterOpenSecondaryHash, AfterHashSecondary, AfterOpenSecondary, AfterMeasure,
         AfterCloseSecondary, AfterConfigure, Onward;
    if j.work == PATH_CHECKS {
      CheckPathStepsOn(j, a);
    } else if j.work == SECONDARY_HASH_OPEN {
      OpenSecondaryHashStepsOn(j, a);
    } else if j.work == SECONDARY_HASH {
      HashSecondaryStepsOn(j, a);
    } else if j.work == SECONDARY_HASH_CLOSE {
      CloseSecondaryHashStepsOn(j, a);
    } else if j.work == SECONDARY_OPEN {
      OpenSecondaryStepsOn(j, a);
    } else if j.work == SECONDARY_MEASURE {
      MeasureStepsOn(j, a);
    } else if j.work == SECONDARY_CLOSE {
      CloseSecondaryStepsOn(j, a);
    } else {
      ConfigureStepsOn(j, a);
    }
  }

  lemma OutputStepsOn(j: Job, a: Answers)
    requires Inv(j) && OUTPUT_CREATE <= j.work <= SOURCE_CLOSE
    ensures StepsOn(j, AdvancedOutput(j, a))
  {
    hide Inv, StepsOn, AfterCreateOutput, AfterReadDecode, AfterProcessPack, AfterAppend, AfterFinishOutput, Either, Onward;
    if j.work == OUTPUT_CREATE {
      CreateOutputStepsOn(j, a);
    } else if j.work == RENDER_READ_DECODE {
      ReadDecodeStepsOn(j, a);
    } else if j.work == RENDER_PROCESS_PACK {
      ProcessPackStepsOn(j, a);
    } else if j.work == RENDER_APPEND {
      AppendStepsOn(j, a);
    } else if j.work == OUTPUT_FINISH {
      FinishOutputStepsOn(j, a);
    } else if j.work == OUTPUT_SYNC {
      SyncOutputStepsOn(j, a);
    } else if j.work == OUTPUT_CLOSE {
      CloseOutputStepsOn(j, a);
    } else {
      CloseSourceStepsOn(j, a);
    }
  }

  lemma PublicationStepsOn(j: Job, a: Answers)
    requires Inv(j) && VERIFY_OPEN <= j.work <= PUBLISH_MANIFEST
    ensures StepsOn(j, AdvancedPublication(j, a))
  {
    hide Inv, StepsOn, AfterOpenVerify, AfterVerifyHeader, AfterVerifyFile, AfterCreateManifest, AfterWriteManifest, AfterPublishWav,
         AfterPublishManifest, Either, Onward;
    if j.work == VERIFY_OPEN {
      OpenVerifyStepsOn(j, a);
    } else if j.work == VERIFY_HEADER {
      VerifyHeaderStepsOn(j, a);
    } else if j.work == VERIFY_FILE {
      VerifyFileStepsOn(j, a);
    } else if j.work == VERIFY_CLOSE {
      CloseVerifyStepsOn(j, a);
    } else if j.work == MANIFEST_CREATE {
      CreateManifestStepsOn(j, a);
    } else if j.work == MANIFEST_WRITE {
      WriteManifestStepsOn(j, a);
    } else if j.work == MANIFEST_SYNC {
      SyncManifestStepsOn(j, a);
    } else if j.work == MANIFEST_CLOSE {
      CloseManifestStepsOn(j, a);
    } else if j.work == PUBLISH_WAV {
      PublishWavStepsOn(j, a);
    } else {
      PublishManifestStepsOn(j, a);
    }
  }

  /** Every state's step, whatever it is answered, goes on to what follows, nearer the end, or fails into the clean-up. */
  lemma AdvancesOn(j: Job, a: Answers)
    requires Inv(j) && Running(j.work)
    ensures StepsOn(j, Advanced(j, a))
  {
    hide Inv, StepsOn, AdvancedInput, AdvancedSecondary, AdvancedOutput, AdvancedPublication;
    if j.work <= SCENARIO_PARSE {
      InputStepsOn(j, a);
    } else if j.work <= CONFIGURE {
      SecondaryStepsOn(j, a);
    } else if j.work <= SOURCE_CLOSE {
      OutputStepsOn(j, a);
    } else {
      PublicationStepsOn(j, a);
    }
  }

  /** Exactly one thing that is open is closed, or nothing is, and a closed output frees its sink. */
  lemma ClosesOne(j: Job, ok: bool)
    requires j.handles.Count() > 0 && (j.handles.output || (!j.sink.writer.Active? && !j.sink.bound))
    ensures var e := ClosedNext(j, ok);
            && e.job == j.(handles := e.job.handles, sink := e.job.sink) && (e.result.Ok? <==> ok)
            && e.job.handles.Count() == j.handles.Count() - (if ok then 1 else 0)
            && (e.job.handles.output || (!e.job.sink.writer.Active? && !e.job.sink.bound))
  {
  }

  /** Clean-up goes on: the files as they are, and no fate that was not there but a failure. */
  lemma StillCleaning(j: Job, t: Job)
    requires Inv(j) && j.work == CLEANUP && t.work == CLEANUP && SameJob(j, t) && t.files == j.files && t.history == j.history
    requires t.handles.output || (!t.sink.writer.Active? && !t.sink.bound)
    requires t.fate == j.fate || (t.fate.terminalPhase.Failed? && !t.fate.pendingFailure.Ok? && t.fate.published == j.fate.published)
    requires t.phase == j.phase || t.phase.CleanupFailed?
    ensures Inv(t)
  {
    hide Safe, Counted, Staged, NamesChecked;
    SameFilesSafe(j, t);
  }

  lemma AtCleanup(j: Job)
    requires Inv(j)
    ensures j.handles.output || (!j.sink.writer.Active? && !j.sink.bound)
    ensures j.fate.terminalPhase.Complete? ==> j.fate.pendingFailure.Ok?
  {
    hide Safe, Counted, Staged, NamesChecked;
  }

  lemma ClosesOn(j: Job, a: Answers)
    requires Inv(j) && j.work == CLEANUP && j.handles.Count() > 0
    ensures var e, open := AfterCleanup(j, a), j.handles.Count();
            && Inv(e.job) && SameJob(j, e.job) && e.job.files == j.files && e.job.fate.published == j.fate.published
            && e.job.work == CLEANUP && (e.result.Ok? <==> a.ok)
            && (a.ok ==> e.job.handles.Count() == open - 1 && e.job.fate == j.fate)
            && (!a.ok ==> e.job.handles.Count() == open && !e.job.fate.terminalPhase.Complete?)
  {
    hide Inv, ClosedNext;
    AtCleanup(j);
    ClosesOne(j.(handles := j.handles.(engine := false)), a.ok);
    StillCleaning(j, AfterCleanup(j, a).job);
  }

  /** One clean-up step: the end exactly when nothing is open; otherwise one close, or the job's failure and nothing closed. */
  lemma CleansOn(j: Job, a: Answers)
    requires Inv(j) && j.work == CLEANUP
    ensures var e, open := AfterCleanup(j, a), j.handles.Count();
            && Inv(e.job) && SameJob(j, e.job) && e.job.files == j.files && e.job.fate.published == j.fate.published
            && (open == 0 ==> e.job.work == TERMINAL && e.result == e.job.status && (e.result.Ok? <==> j.fate.terminalPhase.Complete?))
            && (open > 0 ==> e.job.work == CLEANUP && (e.result.Ok? <==> a.ok))
            && (open > 0 && a.ok ==> e.job.handles.Count() == open - 1 && e.job.fate == j.fate)
            && (open > 0 && !a.ok ==> e.job.handles.Count() == open && !e.job.fate.terminalPhase.Complete?)
  {
    if j.handles.Count() > 0 {
      hide Inv, AfterCleanup;
      ClosesOn(j, a);
    } else {
      hide Safe, Counted, Staged, NamesChecked, ClosedNext;
      SameFilesSafe(j, AfterCleanup(j, a).job);
    }
  }

  lemma SameFilesSafe(j: Job, t: Job)
    requires Safe(j) && t.files == j.files && t.history == j.history && t.setup == j.setup
    ensures Safe(t)
  {
    hide Honest, Spared;
  }

  /** A cancellation leads a job at work into the clean-up and touches no file. */
  lemma WithdrawnKeeps(j: Job)
    requires Inv(j) && j.work != IDLE && j.work != TERMINAL
    ensures var k := Withdrawn(j);
            && Inv(k) && SameJob(j, k) && k.files == j.files && k.handles == j.handles && k.fate.published == j.fate.published
            && (j.fate.cancelRequested && !j.fate.published ==> k.work == CLEANUP && !k.fate.terminalPhase.Complete?)
            && (!j.fate.cancelRequested ==> k == j)
            && (j.work == CLEANUP ==> k == j)
  {
    hide Counted, Staged, NamesChecked, Honest, Spared;
  }

  /** Any step keeps the invariant; once a job is given up it changes no file and never publishes. */
  lemma StepKeeps(j: Job, a: Answers)
    requires Inv(j)
    ensures var t := AfterStep(j, a).job; Inv(t) && SameJob(j, t)
    ensures j.fate.cancelRequested && !j.fate.published ==>
              AfterStep(j, a).job.files == j.files && !AfterStep(j, a).job.fate.published
  {
    hide Inv, StepsOn, Advanced, AfterCleanup, Withdrawn;
    if j.work != IDLE && j.work != TERMINAL {
      WithdrawnKeeps(j);
      var k := Withdrawn(j);
      if k.work == CLEANUP {
        CleansOn(k, a);
      } else {
        assert Running(k.work) by {
          WithdrawnWorks(j);
        }
        AdvancesOn(k, a);
        StepsOnKeeps(k, Advanced(k, a));
      }
    }
  }

  lemma WithdrawnWorks(j: Job)
    requires j.work != IDLE && j.work != TERMINAL
    ensures Withdrawn(j).work != IDLE && Withdrawn(j).work != TERMINAL
  {
  }

  lemma StepsOnKeeps(j: Job, e: Effect)
    requires StepsOn(j, e)
    ensures Inv(e.job) && SameJob(j, e.job)
  {
  }

  // ---------------------------------------------------------------------
  // The owner's other calls

  lemma AtRest(j: Job)
    requires Inv(j) && !j.Busy()
    ensures j.handles.Closed() && !j.sink.writer.Active? && !j.sink.bound
  {
    hide Safe, Counted, Staged, NamesChecked;
  }

  lemma BeginKeeps(j: Job, stem: string, named: bool, distinct: bool, keep: bool, managed: bool)
    requires Inv(j)
    ensures var e := AfterBegin(j, stem, named, distinct, keep, managed);
            && Inv(e.job) && e.job.setup == j.setup && e.job.history.first == j.history.first && e.job.files == j.files
            && (!e.result.Ok? ==> e.job == j || (e.job.work == TERMINAL && !e.job.phase.Complete?))
  {
    if !j.Busy() {
      AtRest(j);
      StillSpared(j.files, j.history.before, j.history.first);
      hide Honest, Spared;
      assert Spared(j.files, j.files) by {
        AtFirst(j.setup.sha, j.files, j.stem, j.history.shown);
      }
    }
  }

  lemma CancelKeeps(j: Job)
    requires Inv(j)
    ensures var e := AfterCancel(j);
            && Inv(e.job) && e.job.files == j.files && e.job.setup == j.setup && e.job.stem == j.stem && e.job.history == j.history
            && e.job.fate.published == j.fate.published && (j.fate.cancelRequested ==> e.job.fate.cancelRequested)
            && (j.work == TERMINAL ==> e.job == j)
  {
    hide Honest, Spared, Rendered, HeaderChecked, ReadSoFar, Verified, Drafted, Unclaimed;
  }

  /** A render under its owner's care is at work. */
  lemma ManagedIsAtWork(j: Job)
    requires Inv(j) && (j.Managing() || j.Playable())
    ensures Running(j.work) && !j.fate.cancelRequested
  {
    hide Safe, Counted, Staged, NamesChecked;
  }

  /** A count that nothing else depends on. */
  lemma RecountKeeps(j: Job, t: Job)
    requires Inv(j) && t == j.(counts := j.counts.(managedRequest := t.counts.managedRequest, managedProduced := t.counts.managedProduced))
    ensures Inv(t) && SameJob(j, t) && Running(t.work) == Running(j.work)
  {
    hide Honest, Spared, Rendered, HeaderChecked, ReadSoFar, Verified, Drafted, Unclaimed;
  }

  lemma ProduceKeeps(j: Job, frames: nat, a: Answers)
    requires Inv(j)
    ensures var t := AfterProduce(j, frames, a).job; Inv(t) && SameJob(j, t) && (j.fate.cancelRequested ==> t == j)
  {
    hide Inv, StepsOn, AfterReadDecode, AfterProcessPack;
    if j.Managing() {
      ManagedIsAtWork(j);
      if j.work == RENDER_READ_DECODE {
        var k := j.(counts := j.counts.(managedRequest := frames));
        RecountKeeps(j, k);
        ReadDecodeStepsOn(k, a);
        StepsOnKeeps(k, AfterReadDecode(k, a));
      } else if j.work == RENDER_PROCESS_PACK {
        var e := AfterProcessPack(j, a);
        ProcessPackStepsOn(j, a);
        StepsOnKeeps(j, e);
        if e.result.Ok? {
          StillRunning(j, e);
          if e.job.counts.blockOut != frames {
            GivesUp(e.job, ManagedSlip);
          } else {
            RecountKeeps(e.job, e.job.(counts := e.job.counts.(managedProduced := e.job.counts.rendered + e.job.counts.blockOut)));
          }
        }
      }
    }
  }

  lemma StillRunning(j: Job, e: Effect)
    requires StepsOn(j, e) && e.result.Ok? && j.work == RENDER_PROCESS_PACK
    ensures Running(e.job.work)
  {
    hide Inv;
  }

  lemma GivesUp(j: Job, failure: Status)
    requires Inv(j) && Running(j.work) && !failure.Ok?
    ensures Inv(Failing(j, failure).job) && SameJob(j, Failing(j, failure).job)
  {
    AtWork(j);
    hide Inv, Safe, Counted, Staged, NamesChecked, StepsOn;
    SameFilesSafe(j, Failing(j, failure).job);
    FailedStepsOn(j, Failing(j, failure));
    StepsOnKeeps(j, Failing(j, failure));
  }

  lemma AppendProducedKeeps(j: Job, frames: nat, a: Answers)
    requires Inv(j)
    ensures var t := AfterAppendProduced(j, frames, a).job; Inv(t) && SameJob(j, t) && (j.fate.cancelRequested ==> t == j)
  {
    hide Inv, StepsOn, AfterAppend;
    if j.Managing() && j.work == RENDER_APPEND {
      var e := AfterAppend(j, a);
      AppendStepsOn(j, a);
      StepsOnKeeps(j, e);
      RecountKeeps(e.job, e.job.(counts := e.job.counts.(managedRequest := 0)));
    }
  }

  lemma FinishManagedKeeps(j: Job)
    requires Inv(j)
    ensures var t := AfterFinishManaged(j).job;
            && Inv(t) && t.files == j.files && t.setup == j.setup && t.stem == j.stem && t.history == j.history && t.fate == j.fate
            && (j.fate.cancelRequested ==> t == j)
  {
    hide Honest, Spared, Rendered, HeaderChecked, ReadSoFar, Verified, Drafted, Unclaimed;
  }

  lemma PrefixKeeps(j: Job, committed: bool, read: bool, latched: bool)
    requires Inv(j)
    ensures var t := AfterCommitPrefix(j, committed).job; Inv(t) && SameJob(j, t) && (j.fate.cancelRequested ==> t == j)
    ensures var t := AfterReadPrefix(j, read, latched).job; Inv(t) && SameJob(j, t) && (j.fate.cancelRequested ==> t == j)
  {
    hide Inv;
    if j.Playable() {
      ManagedIsAtWork(j);
      GivesUp(j, Refused);
      GivesUp(j, IoError);
    }
  }
}
