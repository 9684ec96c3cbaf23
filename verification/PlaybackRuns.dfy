/** Whole runs of the finite-playback coordinator: safety over any calls, and completion. */
module PlaybackRuns {
  import opened Words
  import opened FinitePlayback

  datatype Call =
    | Configure(next: Config)
    | Produce(frames: Uint32)
    | Write(frames: Uint32)
    | Barrier
    | Read(frames: Uint32)
    | Finalize
    | NextAction
    | Complete(action: Action, operation: Status, frameCount: Uint32)
    | Start
    | Consume(frames: Uint32)
    | Fail(reason: Status)
    | Cancel
    | Release

  predicate MarksGrow(v: View, v': View) {
    && v'.config == v.config && v'.lead == v.lead
    && v.produced <= v'.produced && v.written <= v'.written && v.committed <= v'.committed
    && v.read <= v'.read && v.consumed <= v'.consumed
  }

  /** What one call may do, whatever it is. */
  predicate Sound(v: View, call: Call, v': View) {
    && v'.Valid()
    // A ticket that is not the outstanding one changes nothing.
    && (call.Complete? && v.pending != Some(call.action) ==> v' == v)
    // Tickets are issued one at a time, each with a token never used before.
    && v.nextToken <= v'.nextToken
    && (v'.pending == v.pending || v'.pending.None?
        || (v.pending.None? && v.nextToken <= v'.pending.value.token < v'.nextToken))
    && (v.pending.Some? && v'.pending.None? ==> call.Complete?)
    // The first failure stays until the next configuration.
    && (v.firstStatus.Failure? && v'.firstStatus != v.firstStatus ==> call.Configure?)
    // Watermarks only grow within a run, and not at all once it has ended.
    && (call.Configure? || MarksGrow(v, v'))
    && (v.Terminal() && !call.Configure? ==>
          v' == v.(released := v'.released, pending := v'.pending, nextToken := v'.nextToken))
    // Once ended and released, a run stands still.
    && (v.Terminal() && v.released && !call.Configure? ==> v' == v)
    // A run completes only by settling its finalization, every frame consumed.
    && (v'.state.Completed? && !v.state.Completed? ==>
          call.Complete? && v.pending.Some? && v.pending.value.kind.Finalize? && v'.AllAt(v'.config.total))
  }

  /** A call that asks for a ticket: it gets the next one exactly if the action may begin, none is outstanding and tokens remain. */
  function Asked(v: View, kind: ActionKind, frames: nat, may: bool): View {
    if v.Active() && may && v.pending.None? && v.nextToken < UINT64_MAX then
      v.(pending := Some(Action(v.nextToken, v.FirstOf(kind), frames, kind)), nextToken := v.nextToken + 1)
    else v
  }

  function Settled(v: View, action: Action, operation: Status, frameCount: nat): View {
    if v.pending != Some(action) then v
    else
      var free := v.(pending := None);
      if v.state.Cancelling? then free.(state := State.Cancelled)
      else if v.state.Failed? then free
      else if operation.Failure? then free.(state := Failed, firstStatus := operation)
      else if frameCount != action.Reported() then free.(state := Failed, firstStatus := Failure(IoError))
      else free.Advanced(action.kind, action.frames)
  }

  function Consumed(v: View, frames: nat): View {
    if !(v.state.Running? && 0 < frames <= v.config.maxBlock) then v
    else if v.consumed + frames <= v.read then v.(consumed := v.consumed + frames)
    else v.(state := Failed, firstStatus := Failure(Timeout))
  }

  /** A run stopped by its owner, with the first failure it had or this one. */
  function Stopped(v: View, to: State, reason: Status): View {
    if v.Terminal() || v.state.Unconfigured? then v
    else v.(state := to, firstStatus := if v.firstStatus.Failure? then v.firstStatus else reason)
  }

  /** The coordinator after a call. */
  function Called(v: View, call: Call): View {
    match call
    case Configure(next) =>
      if v.MayConfigure() && next.Usable()
      then View(Ready, next, RequiredLead(next), 0, 0, 0, 0, 0, v.nextToken, None, Success, false, false, false) else v
    case Produce(frames) => Asked(v, ActionKind.Produce, frames, v.CanProduce(frames))
    case Write(frames) => Asked(v, ActionKind.Write, frames, v.CanWrite(frames))
    case Barrier => Asked(v, VisibilityBarrier, Max(0, v.written - v.committed), v.CanBarrier())
    case Read(frames) => Asked(v, ActionKind.Read, frames, v.CanRead(frames))
    case Finalize => Asked(v, ActionKind.Finalize, 0, v.CanFinalize())
    case NextAction =>
      if v.Active() && v.Choice().Some? then Asked(v, v.Choice().value.0, v.Choice().value.1, true) else v
    case Complete(action, operation, frameCount) => Settled(v, action, operation, frameCount)
    case Start => if v.StartReady() then v.(started := true, state := Running) else v
    case Consume(frames) => Consumed(v, frames)
    case Fail(reason) => Stopped(v, Failed, if reason.Failure? then reason else Failure(InternalError))
    case Cancel => Stopped(v, if v.pending.Some? then Cancelling else State.Cancelled, Failure(Unavailable))
    case Release => if v.Terminal() && v.pending.None? then v.(released := true) else v
  }

  /** Makes one call: the coordinator is then what the call makes of it. */
  method Perform(s: Scheduler, call: Call)
    requires s.Valid()
    modifies s
    ensures s.Valid() && s.Now() == Called(old(s.Now()), call)
  {
    hide View.Valid, RequiredLead;
    if call.Produce? || call.Write? || call.Barrier? || call.Read? || call.Finalize? || call.NextAction? {
      Ask(s, call);
    } else {
      Order(s, call);
    }
  }

  /** The calls that do not ask for a ticket. */
  method Order(s: Scheduler, call: Call)
    requires s.Valid()
    requires call.Configure? || call.Complete? || call.Start? || call.Consume? || call.Fail? || call.Cancel? || call.Release?
    modifies s
    ensures s.Valid() && s.Now() == Called(old(s.Now()), call)
  {
    hide View.Valid, RequiredLead;
    SettledMarksGrow(s.Now());
    match call {
      case Configure(next) => var _ := s.Configure(next);
      case Complete(action, operation, frameCount) => var _ := s.Complete(action, operation, frameCount);
      case Start => var _ := s.Start();
      case Consume(frames) => var _ := s.Consume(frames);
      case Fail(reason) => var _ := s.Fail(reason);
      case Cancel => var _ := s.Cancel();
      case Release => var _ := s.Release();
    }
  }

  /** The calls that ask for a ticket. */
  method Ask(s: Scheduler, call: Call)
    requires s.Valid()
    requires call.Produce? || call.Write? || call.Barrier? || call.Read? || call.Finalize? || call.NextAction?
    modifies s
    ensures s.Valid() && s.Now() == Called(old(s.Now()), call)
  {
    hide View.Valid, RequiredLead;
    var r;
    match call {
      case Produce(frames) => r := s.BeginProduce(frames);
      case Write(frames) => r := s.BeginWrite(frames);
      case Barrier => r := s.BeginVisibilityBarrier();
      case Read(frames) => r := s.BeginRead(frames);
      case Finalize => r := s.BeginFinalize();
      case NextAction => r := s.NextAction();
    }
  }

  lemma SettledMarksGrow(v: View)
    requires v.Valid()
    ensures v.pending.Some? && v.Active() ==>
              && MarksGrow(v, v.(pending := None).Advanced(v.pending.value.kind, v.pending.value.frames))
              && (v.pending.value.kind.Finalize? ==> v.AllAt(v.config.total))
    ensures v.pending.Some? ==> v.Active() || v.state.Failed? || v.state.Cancelling?
    ensures v.state.Failed? || v.state.Cancelling? ==> v.firstStatus.Failure?
    ensures v.firstStatus.Failure? ==> !v.Active() && !v.state.Completed?
    ensures v.released && v.Terminal() ==> v.pending.None?
  {
    hide RequiredLead;
  }

  lemma AskedIsSound(v: View, call: Call, kind: ActionKind, frames: nat, may: bool)
    requires v.Valid() && !call.Configure? && !call.Complete?
    requires v.Active() && may && v.pending.None? ==> v.CanBegin(kind, v.FirstOf(kind), frames) && (kind.Finalize? ==> !v.state.Ready?)
    ensures Sound(v, call, Asked(v, kind, frames, may))
  {
    hide RequiredLead;
  }

  lemma SettledIsSound(v: View, action: Action, operation: Status, frameCount: Uint32)
    requires v.Valid()
    ensures Sound(v, Complete(action, operation, frameCount), Settled(v, action, operation, frameCount))
  {
    hide View.Valid, RequiredLead, View.Watermarks, View.CanBegin;
    SettledMarksGrow(v);
    if v.pending == Some(action) {
      SettledIsValid(v);
      if v.Active() {
        AdvancedIsValid(v);
        FailedIsValid(v.(pending := None), if operation.Failure? then operation else Failure(IoError));
      }
    }
  }

  lemma FailedIsValid(v: View, status: Status)
    requires v.Valid() && v.Active() && status.Failure?
    ensures v.(state := Failed, firstStatus := status).Valid()
  {
    hide RequiredLead;
  }

  lemma ConsumedIsSound(v: View, frames: Uint32)
    requires v.Valid()
    ensures Sound(v, Consume(frames), Consumed(v, frames))
  {
    hide RequiredLead;
  }

  lemma StoppedIsSound(v: View, call: Call, to: State, reason: Status)
    requires v.Valid() && reason.Failure? && !call.Configure? && !call.Complete?
    requires to.Failed? || to == if v.pending.Some? then Cancelling else State.Cancelled
    ensures Sound(v, call, Stopped(v, to, reason))
  {
    hide RequiredLead;
  }

  /** Every call does only what a call may. */
  lemma CalledIsSound(v: View, call: Call)
    requires v.Valid()
    ensures Sound(v, call, Called(v, call))
  {
    hide View.Valid, RequiredLead, Asked, Settled, Consumed, Stopped, Sound, View.Choice, View.CanBegin;
    match call
    case Produce(frames) => BeginsAt(v, ActionKind.Produce, frames); AskedIsSound(v, call, ActionKind.Produce, frames, v.CanProduce(frames));
    case Write(frames) => BeginsAt(v, ActionKind.Write, frames); AskedIsSound(v, call, ActionKind.Write, frames, v.CanWrite(frames));
    case Barrier =>
      BeginsAt(v, VisibilityBarrier, Max(0, v.written - v.committed));
      AskedIsSound(v, call, VisibilityBarrier, Max(0, v.written - v.committed), v.CanBarrier());
    case Read(frames) => BeginsAt(v, ActionKind.Read, frames); AskedIsSound(v, call, ActionKind.Read, frames, v.CanRead(frames));
    case Finalize => BeginsAt(v, ActionKind.Finalize, 0); AskedIsSound(v, call, ActionKind.Finalize, 0, v.CanFinalize());
    case NextAction =>
      if v.Active() && v.Choice().Some? {
        if v.pending.None? {
          ChoiceIsLive(v);
          FinalizeRuns(v);
        }
        AskedIsSound(v, call, v.Choice().value.0, v.Choice().value.1, true);
      } else {
        StandsStill(v, call);
      }
    case Complete(action, operation, frameCount) => SettledIsSound(v, action, operation, frameCount);
    case Consume(frames) => ConsumedIsSound(v, frames);
    case Fail(reason) => StoppedIsSound(v, call, Failed, if reason.Failure? then reason else Failure(InternalError));
    case Cancel => StoppedIsSound(v, call, if v.pending.Some? then Cancelling else State.Cancelled, Failure(Unavailable));
    case Configure(next) => ConfiguredIsSound(v, next);
    case Start => OrderIsSound(v, call);
    case Release => OrderIsSound(v, call);
  }

  lemma BeginsAt(v: View, kind: ActionKind, frames: nat)
    ensures kind.Produce? ==> (v.CanBegin(kind, v.FirstOf(kind), frames) <==> v.CanProduce(frames))
    ensures kind.Write? ==> (v.CanBegin(kind, v.FirstOf(kind), frames) <==> v.CanWrite(frames))
    ensures kind.Read? ==> (v.CanBegin(kind, v.FirstOf(kind), frames) <==> v.CanRead(frames))
    ensures kind.VisibilityBarrier? && frames == Max(0, v.written - v.committed) ==>
              (v.CanBegin(kind, v.FirstOf(kind), frames) <==> v.CanBarrier())
    ensures kind.Finalize? && frames == 0 && v.CanFinalize() ==> v.CanBegin(kind, v.FirstOf(kind), frames) && !v.state.Ready?
  {
  }

  lemma FinalizeRuns(v: View)
    ensures v.CanFinalize() ==> !v.state.Ready?
  {
  }

  lemma StandsStill(v: View, call: Call)
    requires v.Valid() && !call.Configure?
    ensures Sound(v, call, v)
  {
    hide RequiredLead;
  }

  lemma ConfiguredIsSound(v: View, next: Config)
    requires v.Valid()
    ensures Sound(v, Configure(next), Called(v, Configure(next)))
  {
    hide RequiredLead;
    SettledMarksGrow(v);
    if next.Usable() {
      NewRunIsValid(v, next);
    }
  }

  lemma OrderIsSound(v: View, call: Call)
    requires v.Valid() && (call.Start? || call.Release?)
    ensures Sound(v, call, Called(v, call))
  {
    hide RequiredLead;
  }

  lemma CalledIsValid(v: View, call: Call)
    requires v.Valid()
    ensures Called(v, call).Valid()
  {
    hide View.Valid, Called;
    CalledIsSound(v, call);
  }

  ghost predicate IsRun(trace: seq<View>, calls: seq<Call>) {
    && |trace| == |calls| + 1 && trace[0].Valid()
    && (forall i :: 0 <= i < |calls| ==> trace[i + 1] == Called(trace[i], calls[i]))
  }

  /** The states that a new coordinator passes through. */
  function Trace(calls: seq<Call>): (trace: seq<View>)
    ensures |trace| == |calls| + 1
  {
    if calls == [] then [NEW]
    else Trace(calls[..|calls| - 1]) + [Called(Trace(calls[..|calls| - 1])[|calls| - 1], calls[|calls| - 1])]
  }

  lemma {:induction false} TraceIsRun(calls: seq<Call>)
    ensures IsRun(Trace(calls), calls) && Trace(calls)[0] == NEW
    decreases |calls|
  {
    if calls == [] {
      assert NEW.Valid();
    } else {
      hide Called, View.Valid;
      TraceIsRun(calls[..|calls| - 1]);
    }
  }

  /** Every state of every run is valid. */
  lemma {:induction false} RunIsValid(trace: seq<View>, calls: seq<Call>, i: nat)
    requires IsRun(trace, calls) && i < |trace|
    ensures trace[i].Valid()
  {
    hide Called, View.Valid;
    if i > 0 {
      RunIsValid(trace, calls, i - 1);
      CalledIsValid(trace[i - 1], calls[i - 1]);
    }
  }

  /** And every step of it sound. */
  lemma RunIsSound(trace: seq<View>, calls: seq<Call>, i: nat)
    requires IsRun(trace, calls) && i < |calls|
    ensures trace[i].Valid() && Sound(trace[i], calls[i], trace[i + 1])
  {
    hide Called, View.Valid, Sound;
    RunIsValid(trace, calls, i);
    CalledIsSound(trace[i], calls[i]);
  }

  /** The coordinator itself, called with anything at all, passes through exactly those states. */
  method Replay(calls: seq<Call>) returns (trace: seq<View>)
    ensures trace == Trace(calls)
  {
    hide View.Valid, Called, Trace;
    var s := new Scheduler();
    trace := [s.Now()];
    TraceStep(calls, 0);
    for i := 0 to |calls|
      invariant fresh(s) && s.Valid() && trace == Trace(calls[..i]) && trace[i] == s.Now()
    {
      TraceStep(calls, i);
      Perform(s, calls[i]);
      trace := trace + [s.Now()];
    }
    assert calls[..|calls|] == calls;
  }

  lemma TraceStep(calls: seq<Call>, i: nat)
    requires i <= |calls|
    ensures Trace(calls[..0]) == [NEW]
    ensures i < |calls| ==> Trace(calls[..i + 1]) == Trace(calls[..i]) + [Called(Trace(calls[..i])[i], calls[i])]
  {
    if i < |calls| {
      assert calls[..i + 1][..i] == calls[..i];
    }
  }

  // ---------------------------------------------------------------------
  // Safety over a run

  /** Every state of every run keeps the watermark bounds; a completed one has every frame through every stage. */
  lemma RunKeepsBounds(trace: seq<View>, calls: seq<Call>, i: nat)
    requires IsRun(trace, calls) && i < |trace|
    ensures trace[i].Watermarks()
    ensures trace[i].state.Completed? ==> trace[i].AllAt(trace[i].config.total) && trace[i].firstStatus.Success?
    ensures trace[i].state.Running? ==> trace[i].lead <= trace[i].committed
    ensures trace[i].state in {State.Cancelled, Failed} ==> trace[i].firstStatus.Failure?
  {
    hide Called, RequiredLead;
    RunIsValid(trace, calls, i);
  }

  lemma {:induction false} TokensGrow(trace: seq<View>, calls: seq<Call>, i: nat, k: nat)
    requires IsRun(trace, calls) && i <= k < |trace|
    ensures trace[i].nextToken <= trace[k].nextToken
    decreases k
  {
    hide View.Valid, Called;
    if i < k {
      TokensGrow(trace, calls, i, k - 1);
      RunIsSound(trace, calls, k - 1);
    }
  }

  lemma TokenBelow(v: View)
    requires v.Valid()
    ensures v.pending.Some? ==> v.pending.value.token < v.nextToken
    ensures v.firstStatus.Failure? ==> !v.Active() && !v.state.Completed?
  {
    hide RequiredLead;
  }

  /** Once a ticket is no longer outstanding it never is again, in this run or any later one. */
  lemma {:induction false} TicketNeverReturns(trace: seq<View>, calls: seq<Call>, ticket: Action, i: nat, j: nat, k: nat)
    requires IsRun(trace, calls) && i <= j <= k < |trace|
    requires trace[i].pending == Some(ticket) && trace[j].pending != Some(ticket)
    ensures trace[k].pending != Some(ticket)
    decreases k
  {
    hide View.Valid, Called;
    if j < k {
      TicketNeverReturns(trace, calls, ticket, i, j, k - 1);
      TokensGrow(trace, calls, i, k - 1);
      RunIsSound(trace, calls, k - 1);
      RunIsValid(trace, calls, i);
      TokenBelow(trace[i]);
    }
  }

  /** So a stale ticket, from any earlier action or run, mutates nothing. */
  lemma StaleTicketIsInert(trace: seq<View>, calls: seq<Call>, ticket: Action, i: nat, j: nat, k: nat)
    requires IsRun(trace, calls) && i <= j <= k < |calls|
    requires trace[i].pending == Some(ticket) && trace[j].pending != Some(ticket)
    requires calls[k].Complete? && calls[k].action == ticket
    ensures trace[k + 1] == trace[k]
  {
    hide View.Valid, Called;
    TicketNeverReturns(trace, calls, ticket, i, j, k);
    RunIsSound(trace, calls, k);
  }

  /** The first failure is the one reported until the coordinator is configured again. */
  lemma {:induction false} FirstFailureSticks(trace: seq<View>, calls: seq<Call>, i: nat, k: nat)
    requires IsRun(trace, calls) && i <= k < |trace| && trace[i].firstStatus.Failure?
    requires forall j :: i <= j < k ==> !calls[j].Configure?
    ensures trace[k].firstStatus == trace[i].firstStatus && !trace[k].Active() && !trace[k].state.Completed?
    decreases k
  {
    hide View.Valid, Called;
    if i < k {
      FirstFailureSticks(trace, calls, i, k - 1);
      RunIsSound(trace, calls, k - 1);
    }
    RunIsValid(trace, calls, k);
    TokenBelow(trace[k]);
  }

  // ---------------------------------------------------------------------
  // Completion

  /** What the owner may do next; a consumption asks for at most one block. */
  datatype Op = DoNext | DoComplete | DoStart | DoConsume(frames: nat)

  predicate Legal(v: View, op: Op)
    requires v.Active()
  {
    match op
    case DoNext => v.pending.None? && v.Choice().Some?
    case DoComplete => v.pending.Some?
    case DoStart => v.StartReady()
    case DoConsume(frames) => v.state.Running? && 0 < frames <= v.config.maxBlock && v.consumed + frames <= v.read
  }

  /** In every active state something legal is left to do. */
  function Fallback(v: View): (op: Op)
    requires v.Valid() && v.Active()
    ensures Legal(v, op)
  {
    ChoiceIfFree(v);
    if v.pending.Some? then DoComplete
    else if v.Choice().Some? then DoNext
    else if v.state.Ready? then DoStart
    else DoConsume(1)
  }

  lemma ChoiceIfFree(v: View)
    requires v.Valid() && v.Active()
    ensures v.pending.None? && v.Choice().None? ==> if v.state.Ready? then v.StartReady() else v.consumed < v.read
    ensures 0 < v.config.maxBlock
  {
    if v.pending.None? {
      ChoiceIsLive(v);
    }
  }

  /** The work a run has left: two steps for each frame at each watermark, and one for each change of state. */
  function WorkLeft(v: View): nat
    requires v.Watermarks()
  {
    2 * ((v.config.total - v.produced) + (v.config.total - v.written) + (v.config.total - v.committed)
         + (v.config.total - v.read) + (v.config.total - v.consumed))
    + (if v.pending.None? then 1 else 0) + (if v.started then 0 else 1) + (if v.finalized then 0 else 2)
  }

  lemma TicketFits(v: View)
    requires v.Valid() && v.Active()
    ensures v.pending.Some? ==> 0 <= v.pending.value.Reported() <= UINT32_MAX
    ensures 0 < v.config.maxBlock <= UINT32_MAX
  {
    hide RequiredLead;
    if v.pending.Some? {
      AdvanceDoesWork(v);
    }
  }

  /** The call that does it; every action settles with all its work done. */
  function CallOf(v: View, op: Op): Call
    requires v.Valid() && v.Active() && Legal(v, op)
  {
    TicketFits(v);
    match op
    case DoNext => NextAction
    case DoComplete => Complete(v.pending.value, Success, v.pending.value.Reported())
    case DoStart => Start
    case DoConsume(frames) => Consume(frames)
  }

  /** What the owner does: what it wishes if that is legal, and something legal if not. */
  function Chosen(v: View, wish: Op): (op: Op)
    requires v.Valid() && v.Active()
    ensures Legal(v, op)
  {
    if Legal(v, wish) then wish else Fallback(v)
  }

  /** The coordinator after so many moves of its owner; a run that ended stands still. */
  function Played(v: View, wish: nat -> Op, moves: nat): (after: View)
    requires v.Valid()
    ensures after.Valid()
  {
    if moves == 0 then v
    else
      var u := Played(v, wish, moves - 1);
      if !u.Active() then u
      else
        var call := CallOf(u, Chosen(u, wish(moves - 1)));
        CalledIsValid(u, call);
        Called(u, call)
  }

  /** One legal move brings the end nearer, unless it asks for a ticket and there is none left; it uses at most one ticket. */
  lemma MoveWorks(v: View, op: Op)
    requires v.Valid() && v.Active() && Legal(v, op)
    ensures var u := Called(v, CallOf(v, op));
            && u.Valid() && u.config == v.config && (u.Active() || u.state.Completed?)
            && v.Watermarks() && u.Watermarks()
            && v.nextToken <= u.nextToken <= v.nextToken + 1
            && (WorkLeft(u) < WorkLeft(v) || (u == v && v.nextToken == UINT64_MAX))
  {
    hide View.Valid, RequiredLead;
    var call := CallOf(v, op);
    CalledIsValid(v, call);
    ValidWatermarks(v);
    ValidWatermarks(Called(v, call));
    if op.DoComplete? {
      SettledIsValid(v);
      AdvanceDoesWork(v);
    }
    if op.DoNext? {
      ChoiceIsLive(v);
    }
  }

  lemma ValidWatermarks(v: View)
    requires v.Valid()
    ensures v.Watermarks() && v.nextToken <= UINT64_MAX
    ensures v.state.Ready? ==> !v.started
    ensures v.state.Running? ==> !v.finalized
  {
    hide RequiredLead;
  }

  lemma AdvanceDoesWork(v: View)
    requires v.Valid() && v.Active() && v.pending.Some?
    ensures v.Watermarks() && v.(pending := None).Advanced(v.pending.value.kind, v.pending.value.frames).Watermarks()
    ensures WorkLeft(v.(pending := None).Advanced(v.pending.value.kind, v.pending.value.frames)) < WorkLeft(v)
    ensures v.pending.value.frames <= UINT32_MAX
    ensures v.pending.value.kind.Finalize? || v.(pending := None).Advanced(v.pending.value.kind, v.pending.value.frames).Active()
  {
    hide View.Valid;
    AdvancedIsValid(v);
    AdvanceKeepsBounds(v, v.pending.value.kind, v.pending.value.frames);
    TicketMoves(v);
    WorkShrinks(v, v.pending.value.kind, v.pending.value.frames);
  }

  lemma TicketMoves(v: View)
    requires v.Valid() && v.Active() && v.pending.Some?
    ensures v.pending.value.frames > 0 || v.pending.value.kind.Finalize?
    ensures v.pending.value.kind.Finalize? ==> !v.finalized
  {
    hide RequiredLead;
  }

  lemma WorkShrinks(v: View, kind: ActionKind, frames: nat)
    requires v.Watermarks() && v.pending.Some? && v.(pending := None).Advanced(kind, frames).Watermarks()
    requires if kind.Finalize? then !v.finalized else frames > 0
    ensures WorkLeft(v.(pending := None).Advanced(kind, frames)) < WorkLeft(v)
  {
  }

  /** Where an active run stands after so many moves: nearer its end by as many, or out of tickets, or completed. */
  lemma {:induction false} Progress(v: View, wish: nat -> Op, moves: nat)
    requires v.Valid() && v.Active()
    ensures v.Watermarks() && Played(v, wish, moves).Watermarks()
    ensures var u := Played(v, wish, moves);
            && u.config == v.config && v.nextToken <= u.nextToken <= v.nextToken + moves
            && (u.Active() || u.state.Completed?)
            && (u.Active() ==> u.nextToken == UINT64_MAX || WorkLeft(u) + moves <= WorkLeft(v))
  {
    hide View.Valid, View.Active, RequiredLead, View.Watermarks, WorkLeft, Called, CallOf;
    ValidWatermarks(v);
    if moves > 0 {
      Progress(v, wish, moves - 1);
      var u := Played(v, wish, moves - 1);
      ValidWatermarks(Played(v, wish, moves));
      if u.Active() {
        MoveWorks(u, Chosen(u, wish(moves - 1)));
      }
    }
  }

  /**
   Under any choice of moves every active run, the first or a later one, is completed with
   every frame through every stage once it has made as many moves as it has work left,
   unless its tickets ran out; and they do not while the tokens left are more than that work.
   */
  lemma RunsToCompletion(v: View, wish: nat -> Op, moves: nat)
    requires v.Valid() && v.Active()
    ensures v.Watermarks() && (moves >= WorkLeft(v) ==>
              var u := Played(v, wish, moves);
              && ((u.state.Completed? && u.AllAt(v.config.total)) || (u.Active() && u.nextToken == UINT64_MAX))
              && (v.nextToken + moves < UINT64_MAX ==> u.state.Completed?))
  {
    hide View.Valid, RequiredLead, Played;
    Progress(v, wish, moves);
    var u := Played(v, wish, moves);
    if u.state.Completed? {
      CompletedIsWhole(u);
    } else {
      ValidWatermarks(u);
    }
  }

  /** A run just configured has at most ten moves for each frame and four more. */
  lemma FreshWork(config: Config, token: nat)
    requires config.Usable()
    ensures var v := View(Ready, config, RequiredLead(config), 0, 0, 0, 0, 0, token, None, Success, false, false, false);
            v.Watermarks() && WorkLeft(v) <= 10 * config.total + 4
  {
  }

  /** So the first run of a coordinator always completes, for any total whose work 64-bit tokens can number. */
  lemma FirstRunCompletes(config: Config, wish: nat -> Op)
    requires config.Usable() && 10 * config.total + 5 < UINT64_MAX
    ensures var v := Called(NEW, Call.Configure(config));
            v.Valid() && v.Active() && Played(v, wish, 10 * config.total + 4).state.Completed?
  {
    var v := Called(NEW, Call.Configure(config));
    CalledIsValid(NEW, Call.Configure(config));
    assert v == View(Ready, config, RequiredLead(config), 0, 0, 0, 0, 0, 1, None, Success, false, false, false);
    hide View.Valid, RequiredLead, Called, WorkLeft;
    FreshWork(config, 1);
    RunsToCompletion(v, wish, 10 * config.total + 4);
    hide Played;
  }

  /** The coordinator itself, moved by its owner until its run ends or it has no ticket for the next action. */
  method PlayOut(s: Scheduler, wish: nat -> Op) returns (moves: nat)
    requires s.Valid() && s.Now().Active()
    modifies s
    ensures s.Valid() && s.Now() == Played(old(s.Now()), wish, moves)
    ensures old(s.Now()).Watermarks() && moves <= WorkLeft(old(s.Now()))
    ensures s.Now().state.Completed? || (s.Now().Active() && s.nextToken == UINT64_MAX)
    ensures old(s.nextToken) + WorkLeft(old(s.Now())) < UINT64_MAX ==> s.Now().state.Completed?
  {
    hide View.Valid, View.Active, RequiredLead, View.Watermarks, WorkLeft, Called, CallOf, Legal;
    ghost var v := s.Now();
    moves := 0;
    ValidWatermarks(v);
    while s.Now().Active() && s.nextToken < UINT64_MAX
      invariant s.Valid() && s.Now() == Played(v, wish, moves) && s.Now().Watermarks()
      invariant s.Now().Active() || s.Now().state.Completed?
      invariant v.nextToken <= s.nextToken <= v.nextToken + moves
      invariant moves + WorkLeft(s.Now()) <= WorkLeft(v)
      decreases WorkLeft(s.Now())
    {
      var op := Chosen(s.Now(), wish(moves));
      MoveWorks(s.Now(), op);
      Perform(s, CallOf(s.Now(), op));
      moves := moves + 1;
    }
  }

  lemma CompletedIsWhole(v: View)
    requires v.Valid() && v.state.Completed?
    ensures v.AllAt(v.config.total)
  {
    hide RequiredLead;
  }
}
