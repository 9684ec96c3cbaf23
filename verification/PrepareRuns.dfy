/**
 Whole runs of the prepare job, whatever its owner calls and whatever the files answer: what
 a manifest under its name stands for, what a cancellation leaves, and how a job ends.
 */
module PrepareRuns {
  import opened Words
  import opened PrepareJobs
  import opened PrepareSteps
  import A = Artifact

  // ---------------------------------------------------------------------
  // Whole runs

  /** What an owner may call, with what the world answers. */
  datatype Command =
    | Begins(stem: string, named: bool, distinct: bool, keep: bool, managed: bool)
    | Steps(a: Answers)
    | Cancels
    | Produces(frames: nat, a: Answers)
    | Appends(frames: nat, a: Answers)
    | FinishesRender
    | Commits(committed: bool)
    | Reads(read: bool, latched: bool)

  function Obeyed(j: Job, command: Command): Effect {
    match command
    case Begins(stem, named, distinct, keep, managed) => AfterBegin(j, stem, named, distinct, keep, managed)
    case Steps(a) => AfterStep(j, a)
    case Cancels => AfterCancel(j)
    case Produces(frames, a) => AfterProduce(j, frames, a)
    case Appends(frames, a) => AfterAppendProduced(j, frames, a)
    case FinishesRender => AfterFinishManaged(j)
    case Commits(committed) => AfterCommitPrefix(j, committed)
    case Reads(read, latched) => AfterReadPrefix(j, read, latched)
  }

  /** The job after these calls, in their order. */
  function RunOf(j: Job, commands: seq<Command>): Job
    decreases commands
  {
    if |commands| == 0 then j else RunOf(Obeyed(j, commands[0]).job, commands[1..])
  }

  /** The call admits a job. */
  predicate Admits(j: Job, command: Command) {
    command.Begins? && Obeyed(j, command).result.Ok?
  }

  /** Some of these calls admits a job. */
  predicate Readmits(j: Job, commands: seq<Command>)
    decreases commands
  {
    |commands| > 0 && (Admits(j, commands[0]) || Readmits(Obeyed(j, commands[0]).job, commands[1..]))
  }

  /** The job was given up before it published, or it has ended without completing. */
  predicate GivenUp(j: Job) {
    (j.fate.cancelRequested && !j.fate.published) || (j.work == TERMINAL && !j.phase.Complete?)
  }

  lemma EndedStaysEnded(j: Job, command: Command)
    requires Inv(j) && j.work == TERMINAL && !command.Begins?
    ensures Obeyed(j, command).job == j
  {
    hide Safe, Counted, Staged, NamesChecked;
  }

  /** Every call keeps the invariant, and one that admits no job keeps a job given up as it was. */
  lemma ObeyedKeeps(j: Job, command: Command)
    requires Inv(j)
    ensures var t := Obeyed(j, command).job;
            && Inv(t) && t.setup == j.setup && t.history.first == j.history.first
            && (GivenUp(j) && !Admits(j, command) ==> GivenUp(t) && t.files == j.files)
  {
    hide Inv, AfterBegin, AfterStep, AfterCancel, AfterProduce, AfterAppendProduced, AfterFinishManaged, AfterCommitPrefix, AfterReadPrefix;
    match command {
      case Begins(stem, named, distinct, keep, managed) => BeginKeeps(j, stem, named, distinct, keep, managed);
      case Steps(a) => StepKeeps(j, a);
      case Cancels => CancelKeeps(j);
      case Produces(frames, a) => ProduceKeeps(j, frames, a);
      case Appends(frames, a) => AppendProducedKeeps(j, frames, a);
      case FinishesRender => FinishManagedKeeps(j);
      case Commits(committed) => PrefixKeeps(j, committed, true, true);
      case Reads(read, latched) => PrefixKeeps(j, true, read, latched);
    }
    if j.work == TERMINAL && !command.Begins? {
      EndedStaysEnded(j, command);
    }
  }

  lemma {:induction false} RunKeeps(j: Job, commands: seq<Command>)
    requires Inv(j)
    ensures var t := RunOf(j, commands); Inv(t) && t.setup == j.setup && t.history.first == j.history.first
    decreases commands
  {
    hide Inv, Obeyed;
    if |commands| > 0 {
      ObeyedKeeps(j, commands[0]);
      RunKeeps(Obeyed(j, commands[0]).job, commands[1..]);
    }
  }

  lemma NewKeeps(sha: Bytes -> nat, room: nat, files: Files)
    ensures Inv(NewJob(sha, room, files))
  {
    AtFirst(sha, files, "", map[]);
    hide Honest, Spared;
  }

  /**
   Any run on any files, whatever the owner calls and the world answers. No file that was there
   is changed, renamed or removed. Every manifest that was not there stands beside its WAV for a
   file read back whole with both digests, under a stem of which no name was taken. A job at rest
   holds nothing; one at its end is complete, cancelled or failed, and complete exactly when it
   reports no failure, and then its manifest is there and is new since it was admitted.
   */
  lemma RunIsSafe(sha: Bytes -> nat, room: nat, files: Files, commands: seq<Command>)
    ensures var j := RunOf(NewJob(sha, room, files), commands);
            && Spared(j.files, files)
            && (forall stem :: Name(stem, ManifestFile) in j.files && Name(stem, ManifestFile) !in files ==>
                  stem in j.history.shown && Stands(sha, j.files, stem, j.history.shown[stem]) && Unclaimed(files, stem, CHECKED_NAMES))
            && (j.work == IDLE || j.work == TERMINAL ==> j.handles.Closed())
            && (j.work == TERMINAL ==> j.phase.Complete? || j.phase.Cancelled? || j.phase.Failed?)
            && (j.work == TERMINAL ==> (j.phase.Complete? <==> j.status.Ok?))
            && (j.phase.Complete? ==> j.Named(ManifestFile) in j.files && j.Named(ManifestFile) !in files)
  {
    NewKeeps(sha, room, files);
    RunKeeps(NewJob(sha, room, files), commands);
    var j := RunOf(NewJob(sha, room, files), commands);
    hide RunOf, Stands, Counted, Staged, NamesChecked;
    StillSpared(j.files, j.history.before, j.history.first);
  }

  lemma {:induction false} GivenUpStays(j: Job, commands: seq<Command>)
    requires Inv(j) && GivenUp(j) && !Readmits(j, commands)
    ensures var t := RunOf(j, commands); Inv(t) && GivenUp(t) && t.files == j.files
    decreases commands
  {
    hide Inv, Obeyed, GivenUp;
    if |commands| > 0 {
      ObeyedKeeps(j, commands[0]);
      GivenUpStays(Obeyed(j, commands[0]).job, commands[1..]);
    }
  }

  /**
   A cancellation taken before the job published: unless another job is admitted, not one file
   changes from then on, whatever else is called, and the job never completes.
   */
  lemma CancelledForGood(sha: Bytes -> nat, room: nat, files: Files, earlier: seq<Command>, later: seq<Command>)
    ensures var j := RunOf(NewJob(sha, room, files), earlier);
            var c := AfterCancel(j);
            c.result.Ok? && !j.fate.published && !Readmits(c.job, later) ==>
              RunOf(c.job, later).files == j.files && !RunOf(c.job, later).phase.Complete?
  {
    var j := RunOf(NewJob(sha, room, files), earlier);
    var c := AfterCancel(j);
    NewKeeps(sha, room, files);
    RunKeeps(NewJob(sha, room, files), earlier);
    CancelKeeps(j);
    if c.result.Ok? && !j.fate.published && !Readmits(c.job, later) {
      GivenUpStays(c.job, later);
      var t := RunOf(c.job, later);
      hide RunOf, Readmits, Safe, Counted, Staged, NamesChecked;
      assert Orderly(t) && GivenUp(t);
    }
  }

  // ---------------------------------------------------------------------
  // A render under its owner's care

  /** A managed job has rendered as many frames as it read, its one open block is the one asked for, and only its owner ends it. */
  ghost predicate InHand(j: Job) {
    j.mode.managed && Running(j.work) ==>
      && j.counts.rendered == j.counts.sourceCursor && (Early(j.work) || InRender(j.work))
      && (Early(j.work) ==> j.counts.rendered == 0)
      && (InRender(j.work) ==> j.phase.Rendering?)
      && (Early(j.work) || j.work == RENDER_READ_DECODE ==>
            j.counts.managedRequest == 0 && j.counts.managedProduced == j.counts.rendered)
      && (j.work == RENDER_PROCESS_PACK ==>
            j.counts.managedRequest == j.counts.blockIn && j.counts.managedProduced == j.counts.rendered)
      && (j.work == RENDER_APPEND ==>
            && j.counts.managedRequest == j.counts.blockIn == j.counts.blockOut
            && j.counts.managedProduced == j.counts.rendered + j.counts.blockOut)
      && (j.work == RENDER_PROCESS_PACK || j.work == RENDER_APPEND ==>
            0 < j.counts.blockIn <= BLOCK_FRAMES && j.counts.sourceCursor + j.counts.blockIn <= j.counts.sourceFrames)
  }

  lemma InputInHand(j: Job, a: Answers)
    requires InHand(j) && MOUNT <= j.work <= SCENARIO_PARSE
    ensures InHand(AdvancedInput(j, a).job)
  {
  }

  lemma SecondaryInHand(j: Job, a: Answers)
    requires InHand(j) && PATH_CHECKS <= j.work <= CONFIGURE
    ensures InHand(AdvancedSecondary(j, a).job)
  {
  }

  lemma CreateInHand(j: Job, a: Answers)
    requires InHand(j) && j.work == OUTPUT_CREATE
    ensures InHand(AfterCreateOutput(j, a).job)
  {
  }

  lemma StepInHand(j: Job, a: Answers)
    requires Inv(j) && InHand(j)
    ensures InHand(AfterStep(j, a).job)
  {
    StepKeeps(j, a);
    if j.mode.managed && j.work != IDLE && j.work != TERMINAL {
      WithdrawnKeeps(j);
      WithdrawnWorks(j);
      var k := Withdrawn(j);
      hide Inv, AfterCleanup, AdvancedInput, AdvancedSecondary, AfterCreateOutput;
      if k.work == CLEANUP {
        CleansOn(k, a);
      } else if j.work <= SCENARIO_PARSE {
        InputInHand(k, a);
      } else if j.work <= CONFIGURE {
        SecondaryInHand(k, a);
      } else if j.work == OUTPUT_CREATE {
        CreateInHand(k, a);
      }
    }
  }

  lemma ProduceInHand(j: Job, frames: nat, a: Answers)
    requires Inv(j) && InHand(j)
    ensures InHand(AfterProduce(j, frames, a).job)
  {
    if j.Managing() {
      ManagedIsAtWork(j);
    }
    hide Inv;
  }

  lemma AppendInHand(j: Job, frames: nat, a: Answers)
    requires Inv(j) && InHand(j)
    ensures InHand(AfterAppendProduced(j, frames, a).job)
  {
    if j.Managing() {
      ManagedIsAtWork(j);
    }
    hide Inv;
  }

  /** Every call keeps a managed render in its owner's hand. */
  lemma ObeyedInHand(j: Job, command: Command)
    requires Inv(j) && InHand(j)
    ensures InHand(Obeyed(j, command).job)
  {
    hide Inv, AfterStep, AfterProduce, AfterAppendProduced;
    match command {
      case Begins(stem, named, distinct, keep, managed) =>
      case Steps(a) => StepInHand(j, a);
      case Cancels =>
      case Produces(frames, a) => ProduceInHand(j, frames, a);
      case Appends(frames, a) => AppendInHand(j, frames, a);
      case FinishesRender =>
      case Commits(committed) =>
      case Reads(read, latched) =>
    }
  }

  lemma {:induction false} RunInHand(j: Job, commands: seq<Command>)
    requires Inv(j) && InHand(j)
    ensures InHand(RunOf(j, commands))
    decreases commands
  {
    hide Inv, InHand, Obeyed;
    if |commands| > 0 {
      ObeyedKeeps(j, commands[0]);
      ObeyedInHand(j, commands[0]);
      RunInHand(Obeyed(j, commands[0]).job, commands[1..]);
    }
  }

  /**
   In any run a managed render may be finished exactly when no block is open and the source is
   read to its end: the other counts that are compared always agree then. What it hands over is
   as many frames as the source has.
   */
  lemma FinishingIsComplete(sha: Bytes -> nat, room: nat, files: Files, commands: seq<Command>)
    ensures var j := RunOf(NewJob(sha, room, files), commands);
            && (AfterFinishManaged(j).result.Ok? <==>
                  j.Managing() && j.work == RENDER_READ_DECODE && j.counts.sourceCursor == j.counts.sourceFrames)
            && (AfterFinishManaged(j).result.Ok? ==> |j.appended| == 3 * j.counts.sourceFrames)
  {
    var j := RunOf(NewJob(sha, room, files), commands);
    NewKeeps(sha, room, files);
    RunKeeps(NewJob(sha, room, files), commands);
    RunInHand(NewJob(sha, room, files), commands);
    if j.Managing() && j.work == RENDER_READ_DECODE {
      AtWork(j);
    }
    hide RunOf, Inv, Safe, Staged, NamesChecked;
  }

  /** And a block produced is always appended as asked, unless the writer or its file fails. */
  lemma AppendingIsWhole(sha: Bytes -> nat, room: nat, files: Files, commands: seq<Command>, a: Answers)
    ensures var j := RunOf(NewJob(sha, room, files), commands);
            j.Managing() && j.work == RENDER_APPEND ==>
              var e := AfterAppendProduced(j, j.counts.blockOut, a);
              && (e.result.Ok? <==> a.ok && j.sink.writer.Active?)
              && (e.result.Ok? ==> e.job.appended == j.appended + j.packed && |j.packed| == 3 * j.counts.blockOut)
  {
    var j := RunOf(NewJob(sha, room, files), commands);
    NewKeeps(sha, room, files);
    RunKeeps(NewJob(sha, room, files), commands);
    RunInHand(NewJob(sha, room, files), commands);
    if j.Managing() && j.work == RENDER_APPEND {
      AtWork(j);
    }
    hide RunOf, Inv, Safe, Staged, NamesChecked;
  }

  // ---------------------------------------------------------------------
  // A job left to itself

  /** The job after so many steps of its own. */
  function Later(j: Job, answers: nat -> Answers, steps: nat): Job {
    if steps == 0 then j else AfterStep(Later(j, answers, steps - 1), answers(steps - 1)).job
  }

  /** The step of that number reported no failure. */
  predicate StepOk(j: Job, answers: nat -> Answers, step: nat) {
    AfterStep(Later(j, answers, step), answers(step)).result.Ok?
  }

  /** A step that gets no nearer the end: the measurement is not complete yet, or what is open is not closed. */
  predicate Waited(j: Job, a: Answers) {
    var k := Withdrawn(j);
    (k.work == SECONDARY_MEASURE && a.ok && !a.second) || (k.work == CLEANUP && k.handles.Count() > 0 && !a.ok)
  }

  /** How many of the first steps waited. */
  function Waits(j: Job, answers: nat -> Answers, steps: nat): nat {
    if steps == 0 then 0
    else Waits(j, answers, steps - 1) + if Waited(Later(j, answers, steps - 1), answers(steps - 1)) then 1 else 0
  }

  lemma MeasuresOrWaits(j: Job, a: Answers)
    requires j.work == SECONDARY_MEASURE && !j.fate.cancelRequested
    requires AfterMeasure(j, a).result.Ok? && AfterMeasure(j, a).job.work == SECONDARY_MEASURE
    ensures Waited(j, a)
  {
  }

  /** Advancing a job that waits for the measurement is measuring. */
  lemma AdvancesByMeasuring(j: Job, a: Answers)
    requires j.work == SECONDARY_MEASURE
    ensures Advanced(j, a) == AfterMeasure(j, a)
  {
  }

  /** A step of a job at work gets nearer its end, unless it waits. */
  lemma WorkNears(j: Job, a: Answers)
    requires Inv(j) && Running(j.work) && !j.fate.cancelRequested
    ensures var t := Advanced(j, a).job;
            t.work != IDLE && (Waited(j, a) || Stage(t.work) > Stage(j.work) || (Stage(t.work) == Stage(j.work) && Left(t) < Left(j)))
  {
    var e := Advanced(j, a);
    AdvancesOn(j, a);
    StagesInOrder(j.work, e.job.work);
    if e.result.Ok? && j.work == e.job.work == SECONDARY_MEASURE {
      AdvancesByMeasuring(j, a);
      MeasuresOrWaits(j, a);
    }
    hide Inv, Advanced, Follows, SameStage, Left, Waited;
  }

  /** A clean-up step closes something or ends, unless the close failed. */
  lemma CleanupNears(j: Job, a: Answers)
    requires Inv(j) && j.work == CLEANUP
    ensures var t := AfterCleanup(j, a).job;
            t.work == TERMINAL || (t.work == CLEANUP && (Left(t) < Left(j) || (j.handles.Count() > 0 && !a.ok)))
  {
    CleansOn(j, a);
    hide Inv, AfterCleanup;
  }

  lemma StepNears(j: Job, a: Answers)
    requires Inv(j) && !j.mode.managed && j.work != IDLE && j.work != TERMINAL
    ensures var t := AfterStep(j, a).job;
            && Inv(t) && !t.mode.managed && t.work != IDLE
            && (Waited(j, a) || Stage(t.work) > Stage(j.work) || (Stage(t.work) == Stage(j.work) && Left(t) < Left(j)))
  {
    StepKeeps(j, a);
    WithdrawnKeeps(j);
    WithdrawnWorks(j);
    var k := Withdrawn(j);
    StagesInOrder(j.work, CLEANUP);
    StagesInOrder(CLEANUP, TERMINAL);
    if k.work == CLEANUP {
      CleanupNears(k, a);
      hide Inv, AfterCleanup, Advanced, Left;
    } else {
      assert k == j && Running(j.work) && !j.fate.cancelRequested by {
        NotWithdrawn(j);
      }
      WorkNears(j, a);
      hide Inv, AfterCleanup, Advanced, Left, Withdrawn;
    }
  }

  lemma NotWithdrawn(j: Job)
    requires Inv(j) && j.work != IDLE && j.work != TERMINAL && Withdrawn(j).work != CLEANUP
    ensures Withdrawn(j) == j && Running(j.work) && !j.fate.cancelRequested
  {
    hide Safe, Counted, Staged, NamesChecked;
  }

  /** Whatever it is answered, a job left to itself ends, unless more of its steps wait than any number given. */
  lemma Ends(j: Job, answers: nat -> Answers, patience: nat) returns (steps: nat)
    requires Inv(j) && !j.mode.managed && j.work != IDLE
    ensures Later(j, answers, steps).work == TERMINAL || Waits(j, answers, steps) > patience
  {
    hide Inv, AfterStep, Waited, Stage, Left;
    steps := 0;
    while Later(j, answers, steps).work != TERMINAL && Waits(j, answers, steps) <= patience
      invariant var t := Later(j, answers, steps); Inv(t) && !t.mode.managed && t.work != IDLE
      decreases patience + 1 - Waits(j, answers, steps), LAST_STAGE - Stage(Later(j, answers, steps).work), Left(Later(j, answers, steps))
    {
      StepNears(Later(j, answers, steps), answers(steps));
      steps := steps + 1;
    }
  }

  /** Where a job is bound: complete or at work if its step reported no failure, and otherwise nowhere but to a failed end. */
  ghost predicate Bound(j: Job, sound: bool) {
    && Inv(j) && !j.mode.managed && !j.fate.cancelRequested && j.work != IDLE
    && (j.work == CLEANUP ==> (j.fate.terminalPhase.Complete? <==> sound))
    && (j.work == TERMINAL ==> (j.phase.Complete? <==> sound))
    && (!sound ==> !Running(j.work))
  }

  lemma StepIsBound(j: Job, a: Answers, sound: bool)
    requires Bound(j, sound)
    ensures Bound(AfterStep(j, a).job, sound && AfterStep(j, a).result.Ok?)
  {
    StepKeeps(j, a);
    if j.work == TERMINAL {
      hide Safe, Counted, Staged, NamesChecked;
    } else if j.work == CLEANUP {
      CleansOn(j, a);
      CompleteIsOk(AfterCleanup(j, a).job);
      hide Inv, AfterCleanup;
    } else {
      AdvancesOn(j, a);
      NextWork(j, a);
      hide Inv, Advanced, Follows, SameStage, Left;
    }
  }

  lemma CompleteIsOk(j: Job)
    requires Inv(j)
    ensures j.work == TERMINAL ==> (j.phase.Complete? <==> j.status.Ok?)
  {
    hide Safe, Counted, Staged, NamesChecked;
  }

  /** A successful step of a job at work leaves it at work or in the clean-up. */
  lemma NextWork(j: Job, a: Answers)
    requires Running(j.work) && StepsOn(j, Advanced(j, a))
    ensures Running(Advanced(j, a).job.work) || Advanced(j, a).job.work == CLEANUP
  {
    hide Inv, Advanced, SameStage, Left;
    StagesInOrder(j.work, Advanced(j, a).job.work);
  }

  lemma {:induction false} LaterIsBound(j: Job, answers: nat -> Answers, steps: nat)
    requires Bound(j, true)
    ensures Bound(Later(j, answers, steps), forall i :: 0 <= i < steps ==> StepOk(j, answers, i))
  {
    hide Bound, AfterStep;
    if steps > 0 {
      LaterIsBound(j, answers, steps - 1);
      StepIsBound(Later(j, answers, steps - 1), answers(steps - 1), forall i :: 0 <= i < steps - 1 ==> StepOk(j, answers, i));
      assert StepOk(j, answers, steps - 1) <==> AfterStep(Later(j, answers, steps - 1), answers(steps - 1)).result.Ok?;
    }
  }

  /** A job left to itself completes if and only if not one of its steps reported a failure. */
  lemma LeftAlone(j: Job, answers: nat -> Answers, steps: nat)
    requires Inv(j) && Running(j.work) && !j.mode.managed && !j.fate.cancelRequested
    ensures var t := Later(j, answers, steps);
            t.work == TERMINAL ==> (t.phase.Complete? <==> forall i :: 0 <= i < steps ==> StepOk(j, answers, i))
  {
    LaterIsBound(j, answers, steps);
    hide Later, StepOk, Inv;
  }

  /** With every close successful, each clean-up step closes one thing. */
  lemma {:induction false} ClosesInTurn(j: Job, answers: nat -> Answers, steps: nat)
    requires Inv(j) && j.work == CLEANUP && steps <= j.handles.Count() && (forall i :: 0 <= i < steps ==> answers(i).ok)
    ensures var t := Later(j, answers, steps);
            Inv(t) && t.work == CLEANUP && t.handles.Count() == j.handles.Count() - steps && t.fate == j.fate
  {
    hide Inv, AfterCleanup;
    if steps > 0 {
      ClosesInTurn(j, answers, steps - 1);
      CleansOn(Later(j, answers, steps - 1), answers(steps - 1));
    }
  }

  /** Once closes succeed, cleaning up takes one step more than there are things open, and not one less. */
  lemma CleansUp(j: Job, answers: nat -> Answers)
    requires Inv(j) && j.work == CLEANUP && (forall i :: 0 <= i < j.handles.Count() ==> answers(i).ok)
    ensures var t := Later(j, answers, j.handles.Count() + 1);
            t.work == TERMINAL && t.handles.Closed() && (t.phase.Complete? <==> j.fate.terminalPhase.Complete?)
    ensures Later(j, answers, j.handles.Count()).work == CLEANUP
  {
    var last := Later(j, answers, j.handles.Count());
    ClosesInTurn(j, answers, j.handles.Count());
    CleansOn(last, answers(j.handles.Count()));
    CompleteIsOk(AfterCleanup(last, answers(j.handles.Count())).job);
    EndHoldsNothing(AfterCleanup(last, answers(j.handles.Count())).job);
    hide Inv, AfterCleanup;
  }

  lemma EndHoldsNothing(j: Job)
    requires Inv(j) && j.work == TERMINAL
    ensures j.handles.Closed()
  {
    hide Safe, Counted, Staged, NamesChecked;
  }

  // ---------------------------------------------------------------------
  // The end of a publication

  /** The manifest's rename and every close after it are reported done. */
  ghost predicate AllReported(j: Job, answers: nat -> Answers, steps: nat) {
    && answers(0).ok
    && (forall i :: 0 < i < steps && Later(j, answers, i).handles.Count() > 0 ==> answers(i).ok)
  }

  /** A job that renamed its manifest, done or not, cleans up or has ended, and is bound to complete or to fail. */
  ghost predicate Closing(j: Job, name: Name, there: bool, sound: bool) {
    && Inv(j) && j.Named(ManifestFile) == name && (name in j.files <==> there)
    && (j.work == CLEANUP || j.work == TERMINAL)
    && (j.work == CLEANUP ==> (j.fate.terminalPhase.Complete? <==> sound) && (j.fate.terminalPhase.Failed? <==> !sound))
    && (j.work == TERMINAL ==> (j.phase.Complete? <==> sound) && (j.phase.Failed? <==> !sound))
  }

  lemma PublishesNow(j: Job, a: Answers)
    requires j.work == PUBLISH_MANIFEST && !j.fate.cancelRequested
    ensures AfterStep(j, a) == AfterPublishManifest(j, a)
  {
  }

  lemma PublishIsClosing(j: Job, a: Answers)
    requires Inv(j) && j.work == PUBLISH_MANIFEST && !j.fate.cancelRequested
    ensures Closing(AfterStep(j, a).job, j.Named(ManifestFile), a.ok || a.moved, a.ok)
  {
    AtWork(j);
    PublishManifestStepsOn(j, a);
    StepsOnKeeps(j, AfterPublishManifest(j, a));
    hide Inv, Safe, Counted, Staged, NamesChecked, StepsOn;
    PublishesNow(j, a);
    hide AfterStep;
  }

  lemma ClosingGoesOn(j: Job, a: Answers, name: Name, there: bool, sound: bool)
    requires Closing(j, name, there, sound)
    ensures Closing(AfterStep(j, a).job, name, there, sound && (j.handles.Count() > 0 ==> a.ok))
  {
    if j.work == CLEANUP {
      CleansOn(j, a);
      EndsAsBound(j, a);
      hide Inv, AfterCleanup;
    } else {
      EndHoldsNothing(j);
      hide Inv;
    }
  }

  /** A clean-up changes where a job is bound only to a failure, and the end is where it was bound. */
  lemma EndsAsBound(j: Job, a: Answers)
    requires Inv(j) && j.work == CLEANUP
    ensures var t, bound := AfterCleanup(j, a).job, j.fate.terminalPhase;
            && (t.work == CLEANUP ==> t.fate.terminalPhase == bound || t.fate.terminalPhase.Failed?)
            && (t.work == CLEANUP && !a.ok && (bound.Complete? || bound.Cancelled?) ==> t.fate.terminalPhase.Failed?)
            && (t.work == TERMINAL ==> t.phase == if bound.IdlePhase? then Phase.Failed else bound)
  {
    AtCleanup(j);
    hide Inv;
  }

  lemma OneMoreReport(j: Job, answers: nat -> Answers, steps: nat)
    requires steps > 0
    ensures AllReported(j, answers, 1) <==> answers(0).ok
    ensures AllReported(j, answers, steps + 1) <==>
              AllReported(j, answers, steps) && (Later(j, answers, steps).handles.Count() > 0 ==> answers(steps).ok)
  {
    hide Later;
  }

  lemma {:induction false} AfterPublication(j: Job, answers: nat -> Answers, steps: nat)
    requires Inv(j) && j.work == PUBLISH_MANIFEST && !j.fate.cancelRequested && steps > 0
    ensures Closing(Later(j, answers, steps), j.Named(ManifestFile), answers(0).ok || answers(0).moved, AllReported(j, answers, steps))
  {
    hide Inv, Closing, AfterStep, AllReported;
    if steps == 1 {
      PublishIsClosing(j, answers(0));
      assert Later(j, answers, 0) == j;
      OneMoreReport(j, answers, 1);
    } else {
      AfterPublication(j, answers, steps - 1);
      OneMoreReport(j, answers, steps - 1);
      ClosingGoesOn(Later(j, answers, steps - 1), answers(steps - 1), j.Named(ManifestFile), answers(0).ok || answers(0).moved,
                    AllReported(j, answers, steps - 1));
    }
  }

  /**
   How a publication ends. The manifest is under its name if and only if its rename was done,
   reported or not; and the job ends complete if and only if the rename was reported done and
   so was every close while anything was open. So a job may end failed with its files published.
   */
  lemma PublicationEnds(j: Job, answers: nat -> Answers, steps: nat)
    requires Inv(j) && j.work == PUBLISH_MANIFEST && !j.fate.cancelRequested
    ensures var t := Later(j, answers, steps);
            t.work == TERMINAL ==>
              && (j.Named(ManifestFile) in t.files <==> answers(0).ok || answers(0).moved)
              && (t.phase.Complete? <==> AllReported(j, answers, steps)) && (t.phase.Failed? <==> !AllReported(j, answers, steps))
  {
    if steps > 0 {
      AfterPublication(j, answers, steps);
    } else {
      assert Later(j, answers, steps) == j;
    }
    hide Inv, Later, AllReported;
  }

  // A run that publishes and fails all the same.

  /** The header of a WAV of no frames, which is also every chunk of the run below. */
  const EMPTY_WAV: Bytes := A.Header(CARD, 0)

  /** Every call succeeds, and every size is that of the header. */
  const ALL_WELL: Answers := Answers(true, true, true, HEADER, HEADER, 0, EMPTY_WAV, false, Scenario(true, true, false, false, true, true, true))

  function Well(j: Job): Job {
    AfterStep(j, ALL_WELL).job
  }

  /** A job as it was admitted, on an empty card, but for what it has counted and opened since. */
  predicate Untroubled(j: Job, work: Work, phase: Phase) {
    && j.work == work && j.phase == phase && j.fate == FRESH_FATE && j.setup.room == 100 && j.stem == "A"
    && !j.mode.managed && !j.mode.secondary && j.appended == []
    && j.handles.mounted && !j.handles.work && !j.handles.manifest && !j.handles.secondary
  }

  lemma ReadsItsInput(j: Job)
    requires Untroubled(j.(handles := j.handles.(mounted := true)), MOUNT, Starting)
    ensures var t := Well(Well(Well(Well(j))));
            && Untroubled(t, SCENARIO_OPEN, HashingSource) && t.files == j.files && t.sink == j.sink && t.setup == j.setup
            && t.handles == j.handles.(mounted := true, source := true)
            && t.counts == j.counts.(sourceBytes := HEADER, dataOffset := HEADER, sourceFrames := 0, hashCursor := HEADER)
  {
    var j1 := Well(j);
    assert j1 == j.(work := SOURCE_OPEN, handles := j.handles.(mounted := true));
    var j2 := Well(j1);
    assert j2 == j1.(work := SOURCE_HASH, phase := HashingSource, handles := j1.handles.(source := true),
                     counts := j1.counts.(sourceBytes := HEADER, dataOffset := HEADER, sourceFrames := 0, hashCursor := 0));
    var j3 := Well(j2);
    assert j3 == j2.(counts := j2.counts.(hashCursor := HEADER));
  }

  lemma ReadsItsScenario(j: Job)
    requires Untroubled(j, SCENARIO_OPEN, HashingSource)
    ensures var t := Well(Well(Well(Well(Well(j)))));
            && Untroubled(t, PATH_CHECKS, HashingSource) && t.files == j.files && t.sink == j.sink && t.setup == j.setup
            && t.handles == j.handles
            && t.counts == j.counts.(scenarioBytes := HEADER, scenarioCursor := HEADER, pathCheckIndex := 0)
  {
    var j1 := Well(j);
    assert j1 == j.(work := SCENARIO_READ, handles := j.handles.(work := true),
                    counts := j.counts.(scenarioBytes := HEADER, scenarioCursor := 0));
    var j2 := Well(j1);
    assert j2 == j1.(counts := j1.counts.(scenarioCursor := HEADER));
    var j3 := Well(j2);
    assert j3 == j2.(work := SCENARIO_CLOSE);
    var j4 := Well(j3);
    assert j4 == j3.(work := SCENARIO_PARSE, handles := j.handles);
  }

  lemma ChecksItsNames(j: Job)
    requires Untroubled(j, PATH_CHECKS, HashingSource) && j.counts.pathCheckIndex == 0 && j.files == map[]
    ensures var t := Well(Well(Well(Well(Well(Well(j))))));
            && Untroubled(t, CONFIGURE, HashingSource) && t.files == j.files && t.sink == j.sink && t.setup == j.setup
            && t.handles == j.handles && t.counts == j.counts.(pathCheckIndex := CHECKED_NAMES)
  {
    var j1 := Well(j);
    assert j1 == j.(counts := j.counts.(pathCheckIndex := 1));
    var j2 := Well(j1);
    assert j2 == j.(counts := j.counts.(pathCheckIndex := 2));
    var j3 := Well(j2);
    assert j3 == j.(counts := j.counts.(pathCheckIndex := 3));
    var j4 := Well(j3);
    assert j4 == j.(counts := j.counts.(pathCheckIndex := 4));
    var j5 := Well(j4);
    assert j5 == j.(counts := j.counts.(pathCheckIndex := 5));
  }

  lemma RendersNothing(j: Job)
    requires Untroubled(j, CONFIGURE, HashingSource) && j.files == map[] && !j.sink.bound && !j.sink.writer.Active?
    requires j.counts.sourceFrames == 0 && j.counts.rendered == 0
    ensures var t := Well(Well(Well(Well(j))));
            && Untroubled(t, OUTPUT_SYNC, Verifying) && t.files == map[Name("A", WavTemp) := Audio]
            && t.counts.sourceFrames == 0 && t.evidence.finalBytes == HEADER && t.evidence.summary == SummaryOf(j.setup.sha, [])
            && t.setup == j.setup && t.handles == j.handles.(output := true, engine := false)
  {
    var j1 := Well(j);
    assert j1 == j.(work := OUTPUT_CREATE, phase := Starting, handles := j.handles.(engine := true));
    var j2 := Well(j1);
    assert j2.work == RENDER_READ_DECODE && j2.phase == Rendering && j2.sink.writer.Active? && j2.counts.outputFrames == 0;
    assert j2.files == map[Name("A", WavTemp) := Audio];
    var j3 := Well(j2);
    assert j3 == j2.(work := OUTPUT_FINISH);
  }

  lemma ClosesItsOutput(j: Job)
    requires Untroubled(j, OUTPUT_SYNC, Verifying) && j.evidence.finalBytes == HEADER
    ensures var t := Well(Well(Well(Well(j))));
            && Untroubled(t.(handles := t.handles.(work := false)), VERIFY_HEADER, Verifying) && t.files == j.files
            && t.counts == j.counts && t.evidence == j.evidence && t.setup == j.setup
            && t.handles == j.handles.(output := false, source := false, work := true)
  {
    var j1 := Well(j);
    assert j1 == j.(work := OUTPUT_CLOSE);
    var j2 := Well(j1);
    assert j2 == j1.(work := SOURCE_CLOSE, handles := j1.handles.(output := false), sink := j2.sink);
    var j3 := Well(j2);
    assert j3 == j2.(work := VERIFY_OPEN, handles := j2.handles.(source := false));
  }

  lemma ReadsItBack(j: Job)
    requires Untroubled(j.(handles := j.handles.(work := false)), VERIFY_HEADER, Verifying) && j.handles.work
    requires j.evidence.finalBytes == HEADER && j.evidence.summary == SummaryOf(j.setup.sha, [])
    ensures var t := Well(Well(Well(Well(j))));
            && Untroubled(t, MANIFEST_CREATE, Verifying) && t.files == j.files && t.counts == j.counts
            && t.handles == j.handles.(work := false)
  {
    hide AfterStep;
    HeaderPassesWell(j);
    DigestsWell(Well(j));
    ComparesWell(Well(Well(j)));
  }

  lemma HeaderPassesWell(j: Job)
    requires Untroubled(j.(handles := j.handles.(work := false)), VERIFY_HEADER, Verifying) && j.handles.work
    requires j.evidence.finalBytes == HEADER && j.evidence.summary.dataBytes == 0
    ensures Well(j) == j.(work := VERIFY_FILE, evidence := j.evidence.(header := EMPTY_WAV, readBack := [], readBackPcm := []))
  {
    CanonicalHeaderPasses(0);
    hide HeaderMatches;
  }

  lemma DigestsWell(j: Job)
    requires Untroubled(j.(handles := j.handles.(work := false)), VERIFY_FILE, Verifying) && j.handles.work
    requires j.evidence.finalBytes == HEADER && j.evidence.summary.dataBytes == 0
    requires j.evidence.readBack == [] && j.evidence.readBackPcm == []
    ensures Well(j) == j.(evidence := j.evidence.(readBack := EMPTY_WAV))
  {
    hide A.Header;
  }

  lemma ComparesWell(j: Job)
    requires Untroubled(j.(handles := j.handles.(work := false)), VERIFY_FILE, Verifying) && j.handles.work
    requires j.evidence.finalBytes == |j.evidence.readBack| && j.evidence.summary == SummaryOf(j.setup.sha, [])
    requires j.evidence.readBackPcm == []
    ensures var t := Well(Well(j));
            && Untroubled(t, MANIFEST_CREATE, Verifying) && t.files == j.files && t.counts == j.counts
            && t.handles == j.handles.(work := false)
  {
    var j1 := Well(j);
    assert j1 == j.(work := VERIFY_CLOSE, evidence := j1.evidence);
  }

  lemma WritesItsManifest(j: Job)
    requires Untroubled(j, MANIFEST_CREATE, Verifying) && j.files == map[Name("A", WavTemp) := Audio]
    ensures var t := Well(Well(Well(Well(Well(j)))));
            && Untroubled(t, PUBLISH_WAV, Publishing) && t.handles == j.handles
            && Name("A", WavTemp) in t.files && Name("A", WavFile) !in t.files
            && Name("A", ManifestTemp) in t.files && Name("A", ManifestFile) !in t.files
  {
    var j1 := Well(j);
    assert j1.work == MANIFEST_WRITE && j1.draft == Draft(HEADER, 0) && j1.phase == Publishing;
    var j2 := Well(j1);
    assert j2.work == MANIFEST_WRITE && j2.draft == Draft(HEADER, HEADER);
    var j3 := Well(j2);
    assert j3 == j2.(work := MANIFEST_SYNC);
    var j4 := Well(j3);
    assert j4 == j3.(work := MANIFEST_CLOSE);
  }

  /** Both names given, the volume refuses once to be unmounted. */
  lemma FailsToUnmount(j: Job)
    requires Untroubled(j, PUBLISH_WAV, Publishing) && j.handles == ALL_CLOSED.(mounted := true)
    requires Name("A", WavTemp) in j.files && Name("A", WavFile) !in j.files
    requires Name("A", ManifestTemp) in j.files && Name("A", ManifestFile) !in j.files
    ensures var t := Well(Well(AfterStep(Well(Well(j)), ALL_WELL.(ok := false)).job));
            t.work == TERMINAL && t.phase.Failed? && t.fate.published && Name("A", WavFile) in t.files && Name("A", ManifestFile) in t.files
  {
    var j1 := Well(j);
    assert j1 == j.(work := PUBLISH_MANIFEST, files := j1.files) && Name("A", WavFile) in j1.files;
    var j2 := Well(j1);
    assert j2.work == CLEANUP && j2.fate.published && j2.handles == j.handles && Name("A", ManifestFile) in j2.files;
    var j3 := AfterStep(j2, ALL_WELL.(ok := false)).job;
    assert j3.work == CLEANUP && j3.fate.terminalPhase.Failed? && j3.files == j2.files && j3.handles == j.handles;
    var j4 := Well(j3);
    assert j4 == j3.(handles := ALL_CLOSED);
  }

  /** One close is refused, the first after the manifest's rename. */
  function RefusedOnce(step: nat): Answers {
    if step == 34 then ALL_WELL.(ok := false) else ALL_WELL
  }

  lemma FourMore(j: Job, steps: nat)
    requires steps + 4 <= 34
    ensures Later(j, RefusedOnce, steps + 4) == Well(Well(Well(Well(Later(j, RefusedOnce, steps)))))
  {
    hide AfterStep;
    assert Later(j, RefusedOnce, steps + 1) == Well(Later(j, RefusedOnce, steps));
    assert Later(j, RefusedOnce, steps + 2) == Well(Later(j, RefusedOnce, steps + 1));
    assert Later(j, RefusedOnce, steps + 3) == Well(Later(j, RefusedOnce, steps + 2));
  }

  lemma OneMore(j: Job, steps: nat)
    requires steps != 34
    ensures Later(j, RefusedOnce, steps + 1) == Well(Later(j, RefusedOnce, steps))
  {
    hide AfterStep;
  }

  /** A job on an empty card, just admitted. */
  function Admitted(sha: Bytes -> nat): Job {
    AfterBegin(NewJob(sha, 100, map[]), "A", true, true, false, false).job
  }

  lemma BeginsIt(sha: Bytes -> nat)
    ensures var j := Admitted(sha);
            && Untroubled(j.(handles := j.handles.(mounted := true)), MOUNT, Starting) && j.files == map[] && j.setup.sha == sha
            && j.handles == ALL_CLOSED && j.counts == NO_COUNTS && j.sink == Sink(WriterIdle, false)
            && Later(j, RefusedOnce, 0) == j
  {
  }

  lemma ChecksIt(sha: Bytes -> nat)
    ensures var t := Later(Admitted(sha), RefusedOnce, 15);
            && Untroubled(t, CONFIGURE, HashingSource) && t.files == map[] && t.setup.sha == sha && t.sink == Sink(WriterIdle, false)
            && t.handles == ALL_CLOSED.(mounted := true, source := true) && t.counts.sourceFrames == 0 && t.counts.rendered == 0
  {
    hide AfterStep, Later, RefusedOnce, Well, Admitted, Untroubled;
    var j := Admitted(sha);
    BeginsIt(sha);
    FourMore(j, 0);
    ReadsItsInput(j);
    var j4 := Later(j, RefusedOnce, 4);
    FourMore(j, 4);
    OneMore(j, 8);
    ReadsItsScenario(j4);
    var j9 := Later(j, RefusedOnce, 9);
    FourMore(j, 9);
    OneMore(j, 13);
    OneMore(j, 14);
    ChecksItsNames(j9);
  }

  lemma RendersIt(sha: Bytes -> nat)
    ensures var t := Later(Admitted(sha), RefusedOnce, 19);
            && Untroubled(t, OUTPUT_SYNC, Verifying) && t.files == map[Name("A", WavTemp) := Audio] && t.setup.sha == sha
            && t.handles == ALL_CLOSED.(mounted := true, source := true, output := true)
            && t.evidence.finalBytes == HEADER && t.evidence.summary == SummaryOf(sha, [])
  {
    hide AfterStep, Later, RefusedOnce, SummaryOf, Well, Admitted, Untroubled;
    ChecksIt(sha);
    FourMore(Admitted(sha), 15);
    RendersNothing(Later(Admitted(sha), RefusedOnce, 15));
  }

  lemma DraftsIt(sha: Bytes -> nat)
    ensures var t := Later(Admitted(sha), RefusedOnce, 32);
            && Untroubled(t, PUBLISH_WAV, Publishing) && t.handles == ALL_CLOSED.(mounted := true)
            && Name("A", WavTemp) in t.files && Name("A", WavFile) !in t.files
            && Name("A", ManifestTemp) in t.files && Name("A", ManifestFile) !in t.files
  {
    hide AfterStep, Later, RefusedOnce, SummaryOf, Well, Admitted, Untroubled;
    var j := Admitted(sha);
    RendersIt(sha);
    var j19 := Later(j, RefusedOnce, 19);
    FourMore(j, 19);
    ClosesItsOutput(j19);
    var j23 := Later(j, RefusedOnce, 23);
    FourMore(j, 23);
    ReadsItBack(j23);
    var j27 := Later(j, RefusedOnce, 27);
    FourMore(j, 27);
    OneMore(j, 31);
    WritesItsManifest(j27);
  }

  /** The failing input of "published means complete": on an empty card, with one refused close after both renames. */
  lemma PublishedYetFailed(sha: Bytes -> nat)
    ensures var j := Later(Admitted(sha), RefusedOnce, 37);
            && j.work == TERMINAL && j.phase.Failed? && j.fate.published
            && Name("A", WavFile) in j.files && Name("A", ManifestFile) in j.files
  {
    var j := Admitted(sha);
    DraftsIt(sha);
    var j34 := Later(j, RefusedOnce, 34);
    assert Later(j, RefusedOnce, 35) == AfterStep(j34, ALL_WELL.(ok := false)).job by {
      hide AfterStep;
    }
    hide AfterStep, Later, RefusedOnce, Well, Admitted;
    OneMore(j, 32);
    OneMore(j, 33);
    OneMore(j, 35);
    OneMore(j, 36);
    FailsToUnmount(Later(j, RefusedOnce, 32));
  }

  // ---------------------------------------------------------------------
  // The board's object, over whole runs

  /** One call of the owner on the object. */
  method Obey(job: PrepareJob, command: Command) returns (result: Status)
    modifies job
    ensures Did(job.Now(), result) == Obeyed(old(job.Now()), command)
  {
    hide AfterBegin, AfterStep, AfterCancel, AfterProduce, AfterAppendProduced, AfterFinishManaged, AfterCommitPrefix, AfterReadPrefix;
    match command {
      case Begins(stem, named, distinct, keep, managed) => result := job.Begin(stem, named, distinct, keep, managed);
      case Steps(a) => result := job.Step(a);
      case Cancels => result := job.Cancel();
      case Produces(frames, a) => result := job.Produce(frames, a);
      case Appends(frames, a) => result := job.AppendProduced(frames, a);
      case FinishesRender => result := job.FinishManaged();
      case Commits(committed) => result := job.CommitPrefix(committed);
      case Reads(read, latched) => result := job.ReadPrefix(read, latched);
    }
  }

  /** Any calls on a new object leave it as the run of those calls says. */
  method Run(sha: Bytes -> nat, room: nat, files: Files, commands: seq<Command>) returns (job: PrepareJob)
    ensures fresh(job) && job.Now() == RunOf(NewJob(sha, room, files), commands)
  {
    hide Obeyed;
    job := new PrepareJob(sha, room, files);
    for k := 0 to |commands|
      invariant fresh(job) && RunOf(job.Now(), commands[k..]) == RunOf(NewJob(sha, room, files), commands)
    {
      assert commands[k..][0] == commands[k] && commands[k..][1..] == commands[k + 1..];
      var result := Obey(job, commands[k]);
    }
  }

  lemma {:induction false} OneMoreCall(j: Job, commands: seq<Command>, last: Command)
    ensures RunOf(j, commands + [last]) == Obeyed(RunOf(j, commands), last).job
    decreases commands
  {
    hide Obeyed;
    if |commands| > 0 {
      OneMoreCall(Obeyed(j, commands[0]).job, commands[1..], last);
      assert (commands + [last])[1..] == commands[1..] + [last];
    }
  }

  /** A job left to itself is the run of its steps. */
  lemma {:induction false} LaterIsARun(j: Job, answers: nat -> Answers, steps: nat)
    ensures Later(j, answers, steps) == RunOf(j, seq(steps, (i: nat) => Steps(answers(i))))
  {
    hide AfterStep, RunOf;
    var calls := seq(steps, (i: nat) => Steps(answers(i)));
    if steps > 0 {
      var earlier := seq(steps - 1, (i: nat) => Steps(answers(i)));
      LaterIsARun(j, answers, steps - 1);
      OneMoreCall(j, earlier, Steps(answers(steps - 1)));
      assert calls == earlier + [Steps(answers(steps - 1))];
    } else {
      assert calls == [];
      NoCalls(j);
    }
  }

  lemma NoCalls(j: Job)
    ensures RunOf(j, []) == j
  {
  }
}
