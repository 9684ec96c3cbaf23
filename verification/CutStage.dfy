/**
 The board's cut stage: it takes the engine's output in whatever blocks it comes,
 and turns it and a schedule into steps of bounded size
 (CutStage of common/cut_schedule.hpp).
 */
module CutStages {
  import opened Words
  import opened CutRules
  import opened CutStream
  import opened CutTally

  type StepLimit = x: int | 1 <= x <= 0xFFFF_FFFF witness 1

  datatype StepKind = End | Pull | Send | SendZeros | Discard

  datatype CutStep = CutStep(kind: StepKind, frames: nat)

  datatype OutputEnd = OutputEnd(clipped: Option<AppliedCut>, pastEnd: nat)

  /** What a step taken at output frame `p` adds to the stream. */
  function Emission(step: CutStep, p: nat): seq<Slot> {
    match step.kind
    case Send => Frames(p, step.frames)
    case SendZeros => Inserts(step.frames, p)
    case _ => []
  }

  function Logged(cut: Option<AppliedCut>): seq<AppliedCut> {
    if cut.Some? then [cut.value] else []
  }

  class CutStage {
    var schedule: seq<Entry>
    var next: nat           // the schedule's next entry: not begun, or the DROP under way
    var offered: Uint32     // the engine's output so far
    var block: Uint32       // the last block offered
    var position: Uint32    // output frames sent or discarded
    var zerosLeft: Uint32   // of the ZERO under way
    var finished: bool      // the engine's output has ended

    ghost predicate Valid()
      reads this
    {
      && CutRules.Valid(schedule)
      && next <= |schedule|
      && position <= offered && offered - position <= block <= offered
      && (finished ==> position == offered && zerosLeft == 0 && next == |schedule|)
      && (!finished ==>
            && At(schedule, position, next)
            && BegunWithin(schedule, next, offered)
            && (zerosLeft > 0 ==>
                  && next > 0 && schedule[next - 1].kind.Zero? && schedule[next - 1].offset == position
                  && zerosLeft < schedule[next - 1].length))
    }

    /** The stream that the steps taken so far make. */
    ghost function Stream(): seq<Slot>
      requires Valid()
      reads this
    {
      if finished then StreamTo(schedule, position) else Sent(schedule, position, next, zerosLeft)
    }

    /** The cuts that took effect so far. */
    ghost function Log(): seq<AppliedCut>
      requires Valid()
      reads this
    {
      if finished then
        FinalLog(schedule, offered).cuts
      else CutsTo(schedule, offered, next)
    }

    constructor ()
      ensures Valid() && schedule == [] && Stream() == [] && Log() == [] && offered == 0 && !finished
    {
      schedule, next, offered, block, position, zerosLeft, finished := [], 0, 0, 0, 0, 0, false;
      new;
      assert LevelsBounded([]) by {
        forall b: nat ensures Level([], b) == 0 {
          LevelFalls([], 0, b);
        }
      }
      WindowsBoundedByLevel([]);
    }

    /** The schedule of the next play; the stage starts over, with no output. */
    method Latch(es: seq<Entry>)
      requires CutRules.Valid(es)
      modifies this
      ensures Valid() && schedule == es && Stream() == [] && Log() == []
      ensures offered == 0 && block == 0 && position == 0 && !finished
    {
      schedule, next, offered, block, position, zerosLeft, finished := es, 0, 0, 0, 0, 0, false;
    }

    function PendingEntry(): Option<Entry>
      reads this
    {
      if next >= |schedule| then None else Some(schedule[next])
    }

    /**
     The next step; a send or zeros step is at most `limit` frames, a discard step at most the frames on
     hand, and none is shorter than that unless it ends the zeros, reaches an entry or ends a DROP.
     */
    function Next(limit: StepLimit): (step: CutStep)
      requires Valid()
      reads this
      ensures step.kind in {Send, SendZeros, Discard} <==> step.frames > 0
      ensures step.kind in {Send, SendZeros} ==> step.frames <= limit
      ensures step.kind in {Send, Discard} ==> step.frames <= offered - position
      ensures step.kind in {End, Pull} <==> zerosLeft == 0 && position == offered
      ensures step.kind.End? ==> finished
      ensures step.kind.Pull? ==> !finished
      ensures step.kind.Send? && step.frames < limit && position + step.frames < offered ==>
                next < |schedule| && position + step.frames == schedule[next].offset
      ensures step.kind.SendZeros? && step.frames < limit ==>
                step.frames == zerosLeft || (zerosLeft == 0 && next < |schedule| && step.frames == schedule[next].length)
      ensures step.kind.Discard? && position + step.frames < offered ==>
                next < |schedule| && position + step.frames == schedule[next].offset + schedule[next].length
    {
      if zerosLeft != 0 then
        CutStep(SendZeros, Min(zerosLeft, limit))
      else
        var onHand := offered - position;
        var entry := PendingEntry();
        if onHand == 0 then
          CutStep(if finished then End else Pull, 0)
        else if entry.Some? && entry.value.offset <= position then
          assert LengthInRange(schedule[next]);
          Begin(entry.value, limit, onHand)
        else
          var until := if entry.Some? then Min(entry.value.offset - position, onHand) else onHand;
          CutStep(Send, Min(limit, until))
    }

    /** The step of an entry that starts where the stage stands, or of the DROP that began behind it. */
    function Begin(entry: Entry, most: StepLimit, onHand: Uint32): CutStep
      requires entry.offset <= position && (entry.kind.Drop? ==> position <= entry.CoveredEnd())
      reads this
    {
      if entry.kind.Zero? then
        CutStep(SendZeros, Min(entry.length, most))
      else
        var left := entry.length - (position - entry.offset);
        CutStep(Discard, Min(left, onHand))
    }

    /** Where the next send or discard step begins in the last block offered. */
    function BlockPosition(): (at: nat)
      requires Valid()
      reads this
      ensures at <= block && offered - block + at == position
    {
      block - (offered - position)
    }

    /** The engine's next block; refused, changing nothing, past 2^32 - 1 frames of output. */
    method Offer(frames: Uint32) returns (taken: bool)
      requires Valid() && Next(1).kind.Pull?
      modifies this
      ensures Valid() && !finished
      ensures taken <==> old(offered) + frames <= UINT32_MAX
      ensures schedule == old(schedule) && position == old(position)
      ensures Stream() == old(Stream()) && Log() == old(Log())
      ensures offered == old(offered) + (if taken then frames else 0)
      ensures block == if taken then frames else old(block)
      ensures taken ==> BlockPosition() == 0
    {
      if frames > 0xFFFF_FFFF - offered {
        return false;
      }
      CutsAreStable(schedule, offered, offered + frames, position, next);
      offered := offered + frames;
      block := frames;
      return true;
    }

    /** The engine's output ends with the frames offered, `stream` frames of the play's stream sent or queued. */
    method Finish(stream: Uint32) returns (end: OutputEnd)
      requires Valid() && Next(1).kind.Pull? && stream == |Stream()|
      modifies this
      ensures Valid() && finished
      ensures schedule == old(schedule) && position == old(position) == offered == old(offered) && block == old(block)
      ensures Stream() == old(Stream())
      ensures Log() == old(Log()) + Logged(end.clipped)
      ensures end.clipped.Some? ==> end.clipped.value.position == stream
      ensures end.pastEnd == |schedule| - Begun(schedule, offered)
    {
      hide StreamTo, ZerosAt, CutsTo, Sent, Begun, WindowsBounded;
      ClearIsOrdered(schedule);
      FinishStep(schedule, offered, next);
      end := OutputEnd(None, 0);
      var entry := PendingEntry();
      if entry.Some? && entry.value.kind.Drop? && entry.value.offset < position {
        end := end.(clipped := Some(AppliedCut(stream, position - entry.value.offset, Drop)));
        next := next + 1;
      }
      end := end.(pastEnd := |schedule| - next);
      next := |schedule|;
      finished := true;
    }

    /** `step`, the one Next() gave, was carried out: the cut it logs, if one took effect. */
    method Take(step: CutStep, stream: Uint32, ghost limit: StepLimit) returns (cut: Option<AppliedCut>)
      requires Valid() && step == Next(limit) && stream == |Stream()|
      modifies this
      ensures Valid()
      ensures schedule == old(schedule) && offered == old(offered) && block == old(block) && finished == old(finished)
      ensures Stream() == old(Stream()) + Emission(step, old(position))
      ensures Log() == old(Log()) + Logged(cut)
      ensures cut.Some? ==> cut.value.position == stream
      ensures |Log()| <= MAX_ENTRIES
      ensures position == old(position) + if step.kind in {Send, Discard} then step.frames else 0
      ensures step.kind.SendZeros? ==>
                next == old(next) + 1 || (next == old(next) && zerosLeft == old(zerosLeft) - step.frames)
    {
      hide StreamTo, ZerosAt, CutsTo, Sent, WindowsBounded;
      cut := None;
      match step.kind {
        case Send =>
          SendFrames(schedule, position, next, step.frames);
          CutsAreStable(schedule, offered, offered, position, next);
          position := position + step.frames;
        case Discard =>
          cut := TakeDiscard(step, stream, limit);
        case SendZeros =>
          cut := TakeZeros(step, stream, limit);
        case Pull =>
        case End =>
      }
    }

    /** A discard step: the DROP under way ends once its last frame goes. */
    method TakeDiscard(step: CutStep, stream: Uint32, ghost limit: StepLimit) returns (cut: Option<AppliedCut>)
      requires Valid() && step == Next(limit) && step.kind.Discard? && stream == |Stream()|
      modifies this
      ensures Valid()
      ensures schedule == old(schedule) && offered == old(offered) && block == old(block) && finished == old(finished)
      ensures Stream() == old(Stream()) && Log() == old(Log()) + Logged(cut)
      ensures cut.Some? ==> cut.value.position == stream
      ensures position == old(position) + step.frames
    {
      hide StreamTo, ZerosAt, CutsTo, Sent, WindowsBounded, AllClear, FinalLog;
      DiscardStep(schedule, offered, position, next, step.frames);
      position := position + step.frames;
      var entry := PendingEntry();
      if entry.None? || position - entry.value.offset < entry.value.length {
        return None;
      }
      next := next + 1;
      return Some(AppliedCut(stream, entry.value.length, Drop));
    }

    /** A zeros step: the next part of the ZERO under way, or the first of the pending one, which it begins. */
    method TakeZeros(step: CutStep, stream: Uint32, ghost limit: StepLimit) returns (cut: Option<AppliedCut>)
      requires Valid() && step == Next(limit) && step.kind.SendZeros? && stream == |Stream()|
      modifies this
      ensures Valid()
      ensures schedule == old(schedule) && offered == old(offered) && block == old(block) && finished == old(finished)
      ensures Stream() == old(Stream()) + Inserts(step.frames, position) && Log() == old(Log()) + Logged(cut)
      ensures cut.Some? ==> cut.value.position == stream
      ensures position == old(position)
      ensures next == old(next) + 1 || (next == old(next) && zerosLeft == old(zerosLeft) - step.frames)
    {
      hide StreamTo, ZerosAt, CutsTo, Sent, WindowsBounded;
      if zerosLeft != 0 {
        MoreZeros(schedule, position, next, zerosLeft, step.frames);
        zerosLeft := zerosLeft - Min(step.frames, zerosLeft);
        return None;
      }
      var entry := PendingEntry();
      if entry.None? {
        return None;
      }
      ZeroStep(schedule, offered, position, next, entry.value.length - step.frames);
      next := next + 1;
      zerosLeft := entry.value.length - Min(step.frames, entry.value.length);
      return Some(AppliedCut(stream, entry.value.length, Zero));
    }
  }

  // ---------------------------------------------------------------------
  // A whole play

  /** The log as a reader finds it between two steps, `queued` frames of the stream sent or queued. */
  datatype Reading = Reading(queued: nat, log: LogView)

  /** A reading taken at any step is part of the final log. */
  lemma ReadingIsMidRun(es: seq<Entry>, n: nat, offered: nat, p: nat, k: nat, left: nat, reading: LogView)
    requires CutRules.Valid(es) && At(es, p, k) && p <= offered <= n
    requires BegunWithin(es, k, offered)
    requires reading.end.None? && reading.cuts == CutsTo(es, offered, k)
    ensures MidRun(reading, |Sent(es, p, k, left)|, FinalLog(es, n))
    ensures Sent(es, p, k, left) <= StreamTo(es, n)
  {
    ClearIsOrdered(es);
    FinalLogIsFinal(es, n);
    var final := FinalLog(es, n);
    CutsAreStable(es, offered, n, p, k);
    SentIsAPrefix(es, n, p, k, left);
    BegunIsAPrefix(es, n);
    assert k > 0 ==> es[k - 1].offset < n;
    forall i | k <= i < |final.cuts| ensures |Sent(es, p, k, left)| <= final.cuts[i].position {
      LaterCutsLieAhead(es, n, p, k, left, i);
    }
  }

  /** A stage, its play's log and the samples sent so far agree: a part of the play of `es` on `output`. */
  ghost predicate Playing(stage: CutStage, cutLog: CutLog, es: seq<Entry>, output: seq<int>, samples: seq<int>)
    reads stage, cutLog
  {
    && stage.Valid() && cutLog.Valid() && stage.schedule == es && stage.offered <= |output|
    && cutLog.cuts == stage.Log()
    && InOutput(stage.Stream(), |output|)
    && samples == Samples(stage.Stream(), output)
  }

  ghost predicate InOutput(slots: seq<Slot>, n: nat) {
    forall i :: 0 <= i < |slots| && slots[i].Frame? ==> slots[i].index < n
  }

  /** The samples a step sends: read in the last block from `at` on, or exact zeros. */
  function Carried(step: CutStep, block: seq<int>, at: nat): seq<int>
    requires step.kind.Send? ==> at + step.frames <= |block|
  {
    match step.kind
    case Send => block[at..at + step.frames]
    case SendZeros => seq(step.frames, _ => 0)
    case _ => []
  }

  lemma CarriedIsTheEmission(step: CutStep, p: nat, output: seq<int>, block: seq<int>, at: nat)
    requires step.kind.Send? ==> at + step.frames <= |block|
    requires at <= p && p - at + |block| <= |output| && block == output[p - at..p - at + |block|]
    ensures InOutput(Emission(step, p), |output|)
    ensures Carried(step, block, at) == Samples(Emission(step, p), output)
  {
  }

  /** Carries out one send, zeros or discard step on the last block offered, and reports it. */
  method CarryOut(stage: CutStage, cutLog: CutLog, block: seq<int>, samples: seq<int>, limit: StepLimit,
                  ghost es: seq<Entry>, ghost output: seq<int>)
    returns (samples': seq<int>)
    requires Playing(stage, cutLog, es, output, samples)
    requires stage.Next(limit).kind in {Send, SendZeros, Discard}
    requires |StreamTo(es, |output|)| <= UINT32_MAX
    requires |block| == stage.block && block == output[stage.offered - stage.block..stage.offered]
    modifies stage, cutLog
    ensures Playing(stage, cutLog, es, output, samples')
    ensures stage.offered == old(stage.offered) && stage.block == old(stage.block) && !stage.finished
    ensures cutLog.View() == old(cutLog.View()).(cuts := cutLog.cuts)
    ensures stage.position >= old(stage.position)
    ensures stage.position == old(stage.position) ==>
              stage.next > old(stage.next) || (stage.next == old(stage.next) && stage.zerosLeft < old(stage.zerosLeft))
  {
    hide StreamTo, ZerosAt, CutsTo, Sent, Samples, InOutput, CutRules.Valid;
    StageStreamIsPrefix(stage, |output|);
    var step := stage.Next(limit);
    ghost var before, p := stage.Stream(), stage.position;
    var added := Carried(step, block, stage.BlockPosition());
    CarriedIsTheEmission(step, p, output, block, stage.BlockPosition());
    var cut := stage.Take(step, |samples|, limit);
    SamplesAppend(before, Emission(step, p), output);
    samples' := samples + added;
    if cut.Some? {
      var kept := cutLog.Record(cut.value);
      assert kept;
    }
  }

  /** What a reader of the log finds at any step of a play. */
  lemma ReadStage(stage: CutStage, cutLog: CutLog, es: seq<Entry>, output: seq<int>, samples: seq<int>)
    requires Playing(stage, cutLog, es, output, samples) && cutLog.View().end.None?
    requires stage.finished ==> stage.offered == |output| && cutLog.rejected == |es| - Begun(es, |output|)
    ensures MidRun(cutLog.View(), |samples|, FinalLog(es, |output|))
    ensures stage.Stream() <= StreamTo(es, |output|)
    ensures stage.finished ==>
              && stage.Stream() == StreamTo(es, |output|)
              && cutLog.View().(end := Some(|samples|)) == FinalLog(es, |output|)
  {
    hide StreamTo, ZerosAt, CutsTo, Sent, Begun, WindowsBounded;
    if stage.finished {
      FinalLogIsFinal(es, |output|);
    } else {
      ReadingIsMidRun(es, |output|, stage.offered, stage.position, stage.next, stage.zerosLeft, cutLog.View());
    }
  }

  /** The engine has no block left: the DROP the end clips and the entries past it go into the log. */
  method EndOutput(stage: CutStage, cutLog: CutLog, samples: seq<int>, ghost es: seq<Entry>, ghost output: seq<int>)
    requires Playing(stage, cutLog, es, output, samples)
    requires stage.Next(1).kind.Pull? && stage.offered == |output|
    requires |StreamTo(es, |output|)| <= UINT32_MAX
    modifies stage, cutLog
    ensures Playing(stage, cutLog, es, output, samples)
    ensures stage.finished && stage.offered == old(stage.offered) && stage.block == old(stage.block)
    ensures cutLog.View().end == old(cutLog.View().end)
    ensures cutLog.rejected == old(cutLog.rejected) + |es| - Begun(es, |output|)
  {
    hide StreamTo, ZerosAt, CutsTo, Sent, Begun;
    StageStreamIsPrefix(stage, |output|);
    var end := stage.Finish(|samples|);
    if end.clipped.Some? {
      var kept := cutLog.Record(end.clipped.value);
      assert kept by {
        FinalLogIsFinal(es, |output|);
      }
    }
    cutLog.Reject(end.pastEnd);
  }

  lemma SamplesAppend(slots: seq<Slot>, more: seq<Slot>, output: seq<int>)
    requires InOutput(slots, |output|) && InOutput(more, |output|)
    ensures InOutput(slots + more, |output|)
    ensures Samples(slots + more, output) == Samples(slots, output) + Samples(more, output)
  {
  }

  lemma StageStreamIsPrefix(stage: CutStage, n: nat)
    requires stage.Valid() && !stage.finished && stage.offered <= n
    ensures stage.Stream() <= StreamTo(stage.schedule, n)
  {
    SentIsAPrefix(stage.schedule, n, stage.position, stage.next, stage.zerosLeft);
  }

  /**
   One play, as the stage's contract has its owner run it: a step asked for, carried
   out and reported, a block offered when one is asked for, the output ended when no
   block is left. For every split into blocks and every limit of every step, the play
   ends, sends the reference stream, and logs its cuts; each frame sent is read where
   the stage says the last block has it. The log then tallies any prefix sent.
   */
  method Play(es: seq<Entry>, blocks: seq<seq<int>>, limits: nat -> StepLimit, sent: Uint32)
    returns (samples: seq<int>, log: LogView, readings: seq<Reading>, tally: Counts)
    requires CutRules.Valid(es)
    requires |Joined(blocks)| <= UINT32_MAX && |StreamTo(es, |Joined(blocks)|)| <= UINT32_MAX
    ensures InOutput(StreamTo(es, |Joined(blocks)|), |Joined(blocks)|)
    ensures samples == Samples(StreamTo(es, |Joined(blocks)|), Joined(blocks))
    ensures log == FinalLog(es, |Joined(blocks)|)
    ensures forall i :: 0 <= i < |readings| ==> MidRun(readings[i].log, readings[i].queued, log)
    ensures tally == Wrapped(TallyOf(log, sent))
  {
    hide StreamTo, ZerosAt, CutsTo, Sent, Begun, Samples, MidRun, FinalLog, Joined, Offered, WindowsBounded, AllClear, Playing;
    ghost var output := Joined(blocks);
    StreamFramesInRange(es, |output|);
    var stage, cutLog := Begin(es, blocks);
    samples, readings := [], [];
    var taken, steps := 0, 0;
    while !stage.finished
      invariant fresh(stage) && fresh(cutLog)
      invariant InPlay(stage, cutLog, es, blocks, taken, samples)
      invariant stage.position <= stage.offered && stage.next <= |es|
      invariant forall i :: 0 <= i < |readings| ==> MidRun(readings[i].log, readings[i].queued, FinalLog(es, |output|))
      decreases !stage.finished, |blocks| - taken, stage.offered - stage.position, |es| - stage.next, stage.zerosLeft
    {
      ReadStage(stage, cutLog, es, output, samples);
      readings := readings + [Reading(|samples|, cutLog.View())];
      taken, samples := Round(stage, cutLog, es, blocks, taken, samples, limits(steps));
      steps := steps + 1;
    }
    ReadStage(stage, cutLog, es, output, samples);
    readings := readings + [Reading(|samples|, cutLog.View())];
    StageIsValid(stage, cutLog, es, output, samples);
    assert stage.Next(limits(steps)).kind.End?;
    cutLog.End(|samples|);
    log := cutLog.View();
    tally := cutLog.Tally(sent);
  }

  lemma StageIsValid(stage: CutStage, cutLog: CutLog, es: seq<Entry>, output: seq<int>, samples: seq<int>)
    requires Playing(stage, cutLog, es, output, samples)
    ensures stage.Valid() && cutLog.Valid()
    ensures |samples| == |stage.Stream()| && samples == Samples(stage.Stream(), output)
  {
  }

  /** A play under way: the blocks taken are the output so far, and nothing is rejected before its end. */
  ghost predicate InPlay(stage: CutStage, cutLog: CutLog, es: seq<Entry>, blocks: seq<seq<int>>, taken: nat, samples: seq<int>)
    reads stage, cutLog
  {
    && stage as object != cutLog
    && Playing(stage, cutLog, es, Joined(blocks), samples)
    && taken <= |blocks| && stage.offered == Offered(blocks, taken)
    && stage.block == (if taken == 0 then 0 else |blocks[taken - 1]|)
    && (stage.finished ==> stage.offered == |Joined(blocks)|)
    && cutLog.rejected == (if stage.finished then |es| - Begun(es, |Joined(blocks)|) else 0)
    && !cutLog.ended
  }

  method Begin(es: seq<Entry>, ghost blocks: seq<seq<int>>) returns (stage: CutStage, cutLog: CutLog)
    requires CutRules.Valid(es)
    ensures fresh(stage) && fresh(cutLog) && InPlay(stage, cutLog, es, blocks, 0, []) && !stage.finished
    ensures stage.position <= stage.offered && stage.next <= |es|
  {
    OfferedBounds(blocks, 0);
    stage := new CutStage();
    stage.Latch(es);
    cutLog := new CutLog();
  }

  /** One round of the play: a step asked for, carried out and reported. */
  method Round(stage: CutStage, cutLog: CutLog, ghost es: seq<Entry>, blocks: seq<seq<int>>, taken: nat,
               samples: seq<int>, limit: StepLimit)
    returns (taken': nat, samples': seq<int>)
    requires InPlay(stage, cutLog, es, blocks, taken, samples) && !stage.finished
    requires |Joined(blocks)| <= UINT32_MAX && |StreamTo(es, |Joined(blocks)|)| <= UINT32_MAX
    modifies stage, cutLog
    ensures InPlay(stage, cutLog, es, blocks, taken', samples')
    ensures stage.position <= stage.offered && stage.next <= |es|
    ensures !stage.finished ==>
              || taken < taken' <= |blocks|
              || (taken' == taken && stage.offered == old(stage.offered) && stage.position > old(stage.position))
              || (taken' == taken && stage.offered == old(stage.offered) && stage.position == old(stage.position) &&
                  (stage.next > old(stage.next) || (stage.next == old(stage.next) && stage.zerosLeft < old(stage.zerosLeft))))
  {
    hide StreamTo, ZerosAt, CutsTo, Sent, Begun, Samples, Joined, Offered, CutRules.Valid, InOutput;
    ghost var output := Joined(blocks);
    taken', samples' := taken, samples;
    OfferedBounds(blocks, taken);
    if stage.Next(limit).kind.Pull? {
      if taken < |blocks| {
        OfferedBounds(blocks, taken + 1);
        var accepted := stage.Offer(|blocks[taken]|);
        assert accepted;
        taken' := taken + 1;
      } else {
        EndOutput(stage, cutLog, samples, es, output);
      }
    } else {
      samples' := CarryOut(stage, cutLog, if taken == 0 then [] else blocks[taken - 1], samples, limit, es, output);
    }
  }

  /** The output frames of the first `taken` blocks. */
  function Offered(blocks: seq<seq<int>>, taken: nat): nat
    requires taken <= |blocks|
  {
    |Joined(blocks[..taken])|
  }

  lemma OfferedBounds(blocks: seq<seq<int>>, taken: nat)
    requires taken <= |blocks|
    ensures taken == 0 ==> Offered(blocks, taken) == 0
    ensures taken == |blocks| ==> Offered(blocks, taken) == |Joined(blocks)|
    ensures Offered(blocks, taken) <= |Joined(blocks)|
    ensures taken > 0 ==>
              var end, last := Offered(blocks, taken), blocks[taken - 1];
              && end == Offered(blocks, taken - 1) + |last|
              && last == Joined(blocks)[end - |last|..end]
  {
    JoinedUpTo(blocks, taken);
    if taken == |blocks| {
      assert blocks[..taken] == blocks;
    }
    if taken > 0 {
      assert blocks[..taken][..taken - 1] == blocks[..taken - 1];
    }
  }
}
