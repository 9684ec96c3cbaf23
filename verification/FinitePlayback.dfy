/**
 The finite-playback coordinator (common/finite_playback.cpp): five watermarks,
 one outstanding ticket, asynchronous consumption, cancellation and a sticky
 first failure.
 */
module FinitePlayback {
  import opened Words

  const SAMPLE_RATE: nat := 48000

  datatype Code = InvalidConfiguration | InvalidArgument | Busy | IoError | Unavailable | Timeout | InternalError | Other

  datatype Status = Success | Failure(code: Code)

  datatype Result<+T> = Value(value: T) | Error(code: Code)

  datatype State = Unconfigured | Ready | Running | Cancelling | Completed | Failed | Cancelled

  datatype ActionKind = Produce | Write | VisibilityBarrier | Read | Finalize

  datatype Config = Config(total: Uint64, rate: Uint32, margin: Uint64, queueCapacity: Uint32, maxBlock: Uint32) {
    predicate Usable() {
      total != 0 && rate != 0 && queueCapacity != 0 && maxBlock != 0 && maxBlock <= queueCapacity
    }

    /** The queue's fill before playback starts. */
    function Prefill(): nat {
      Min(queueCapacity, total)
    }
  }

  datatype Action = Action(token: nat, firstFrame: nat, frames: nat, kind: ActionKind) {
    /** The frames it must report: barriers and finalization report none. */
    function Reported(): nat {
      if kind.VisibilityBarrier? || kind.Finalize? then 0 else frames
    }
  }

  // ---------------------------------------------------------------------
  // The committed lead

  function Deficit(rate: Uint32): Uint64 {
    if rate < SAMPLE_RATE then SAMPLE_RATE - rate else 0
  }

  /** required_lead(): every intermediate is a 64-bit word. */
  function RequiredLead(config: Config): (lead: Uint64)
    ensures lead <= config.total
  {
    var deficit: Uint64 := Deficit(config.rate);
    var wholeSeconds: Uint64 := config.total / SAMPLE_RATE;
    var remainder: Uint64 := config.total % SAMPLE_RATE;
    ProductsFit(config.total, deficit);
    var numerator: Uint64 := remainder * deficit;
    var fractional: Uint64 := (numerator + SAMPLE_RATE - 1) / SAMPLE_RATE;
    var base: Uint64 := wholeSeconds * deficit + fractional;
    var withoutMargin: Uint64 := Min(base, config.total);
    var remaining: Uint64 := config.total - withoutMargin;
    if config.margin >= remaining then config.total else withoutMargin + config.margin
  }

  lemma ProductsFit(total: nat, deficit: nat)
    requires deficit <= SAMPLE_RATE
    ensures 0 <= (total % SAMPLE_RATE) * deficit <= SAMPLE_RATE * SAMPLE_RATE
    ensures 0 <= (total / SAMPLE_RATE) * deficit <= total - total % SAMPLE_RATE
    ensures ((total % SAMPLE_RATE) * deficit + SAMPLE_RATE - 1) / SAMPLE_RATE <= total % SAMPLE_RATE
  {
    var w, r := total / SAMPLE_RATE, total % SAMPLE_RATE;
    assert w * deficit <= w * SAMPLE_RATE;
    assert r * deficit <= r * SAMPLE_RATE;
  }

  function CeilDiv(a: nat, b: nat): nat
    requires b > 0
  {
    (a + b - 1) / b
  }

  /** The lead is the shortfall over the whole play, rounded up, and the margin: at most the play itself. */
  lemma LeadIsTheShortfall(config: Config)
    ensures RequiredLead(config) ==
            Min(config.total, CeilDiv(config.total * Deficit(config.rate), SAMPLE_RATE) + config.margin)
  {
    var deficit := Deficit(config.rate);
    ProductsFit(config.total, deficit);
    CeilSplits(config.total / SAMPLE_RATE, config.total % SAMPLE_RATE, deficit);
    assert config.total == SAMPLE_RATE * (config.total / SAMPLE_RATE) + config.total % SAMPLE_RATE;
  }

  lemma CeilSplits(w: nat, r: nat, d: nat)
    ensures CeilDiv((SAMPLE_RATE * w + r) * d, SAMPLE_RATE) == w * d + CeilDiv(r * d, SAMPLE_RATE)
  {
    assert (SAMPLE_RATE * w + r) * d == SAMPLE_RATE * (w * d) + r * d;
    DivAdds(w * d, r * d + SAMPLE_RATE - 1);
  }

  lemma DivAdds(q: nat, x: nat)
    ensures (SAMPLE_RATE * q + x) / SAMPLE_RATE == q + x / SAMPLE_RATE
  {
  }

  /** The frames a producer at `rate` commits while `consumed` frames play, in whole frames. */
  function ProducedWhile(rate: Uint32, consumed: nat): nat {
    rate * consumed / SAMPLE_RATE
  }

  lemma ShortfallAt(rate: Uint32, consumed: nat)
    ensures rate <= SAMPLE_RATE ==>
              consumed - ProducedWhile(rate, consumed) == CeilDiv(consumed * Deficit(rate), SAMPLE_RATE)
    ensures rate >= SAMPLE_RATE ==> consumed <= ProducedWhile(rate, consumed)
  {
    if rate <= SAMPLE_RATE {
      var d := SAMPLE_RATE - rate;
      assert rate * consumed == SAMPLE_RATE * consumed - consumed * d;
      CeilOfComplement(consumed, consumed * d);
    } else {
      assert SAMPLE_RATE * consumed <= rate * consumed;
    }
  }

  lemma CeilOfComplement(c: nat, x: nat)
    requires x <= SAMPLE_RATE * c
    ensures c - (SAMPLE_RATE * c - x) / SAMPLE_RATE == (x + SAMPLE_RATE - 1) / SAMPLE_RATE
  {
  }

  lemma CeilGrows(a: nat, b: nat, d: nat)
    requires a <= b
    ensures CeilDiv(a * d, SAMPLE_RATE) <= CeilDiv(b * d, SAMPLE_RATE)
  {
    assert a * d <= b * d;
  }

  /** Enough: with the lead and a producer at `rate`, consumption never passes the committed mark. */
  lemma LeadSuffices(config: Config, consumed: nat, committed: nat)
    requires consumed <= config.total
    requires committed >= Min(config.total, RequiredLead(config) + ProducedWhile(config.rate, consumed))
    ensures consumed <= committed
  {
    LeadIsTheShortfall(config);
    ShortfallAt(config.rate, consumed);
    CeilGrows(consumed, config.total, Deficit(config.rate));
  }

  /** And at zero margin no less is enough: a lead keeps every consumption covered exactly when it is at least this one. */
  lemma LeadIsLeast(config: Config, lead: nat)
    requires config.margin == 0
    ensures RequiredLead(config) <= lead <==>
            forall consumed: nat :: consumed <= config.total ==> consumed <= lead + ProducedWhile(config.rate, consumed)
  {
    LeadIsTheShortfall(config);
    ShortfallAt(config.rate, config.total);
    if RequiredLead(config) <= lead {
      forall consumed: nat | consumed <= config.total ensures consumed <= lead + ProducedWhile(config.rate, consumed) {
        ShortfallAt(config.rate, consumed);
        CeilGrows(consumed, config.total, Deficit(config.rate));
      }
    } else {
      assert config.total > lead + ProducedWhile(config.rate, config.total);
    }
  }

  // ---------------------------------------------------------------------
  // The coordinator's state as a value

  datatype View = View(
    state: State, config: Config, lead: nat,
    produced: nat, written: nat, committed: nat, read: nat, consumed: nat,
    nextToken: nat, pending: Option<Action>, firstStatus: Status,
    started: bool, finalized: bool, released: bool)
  {
    predicate Active() {
      state.Ready? || state.Running?
    }

    predicate Terminal() {
      state.Completed? || state.Failed? || state.Cancelled?
    }

    /** No run is active, and the last one's owner has let go of it. */
    predicate MayConfigure() {
      pending.None? && (state.Unconfigured? || (Terminal() && released))
    }

    /** The bounds a reader of the watermarks relies on. */
    predicate Watermarks() {
      && consumed <= read <= committed <= written <= produced <= config.total
      && produced - written <= config.maxBlock
      && written - committed <= config.maxBlock
      && read - consumed <= config.queueCapacity
    }

    predicate AllAt(mark: nat) {
      produced == mark && written == mark && committed == mark && read == mark && consumed == mark
    }

    predicate CanProduce(frames: nat) {
      0 < frames <= config.maxBlock && produced + frames <= config.total && produced + frames - written <= config.maxBlock
    }

    predicate CanWrite(frames: nat) {
      0 < frames <= config.maxBlock && written == committed && written + frames <= produced
    }

    predicate CanRead(frames: nat) {
      0 < frames <= config.maxBlock && read + frames <= committed && read + frames - consumed <= config.queueCapacity
    }

    predicate CanBarrier() {
      committed < written
    }

    predicate CanFinalize() {
      state.Running? && AllAt(config.total) && !finalized
    }

    /** An action of `kind` on `frames` frames from `first` on may begin now. */
    predicate CanBegin(kind: ActionKind, first: nat, frames: nat) {
      match kind
      case Produce => first == produced && CanProduce(frames)
      case Write => first == written && CanWrite(frames)
      case VisibilityBarrier => first == committed && CanBarrier() && frames == written - committed
      case Read => first == read && CanRead(frames)
      case Finalize => first == config.total && frames == 0 && AllAt(config.total) && !finalized
    }

    /** The watermarks once an action has done all its work. */
    function Advanced(kind: ActionKind, frames: nat): View {
      match kind
      case Produce => this.(produced := produced + frames)
      case Write => this.(written := written + frames)
      case VisibilityBarrier => this.(committed := committed + frames)
      case Read => this.(read := read + frames)
      case Finalize => this.(finalized := true, state := Completed)
    }

    /** start() would succeed. */
    predicate StartReady() {
      state.Ready? && lead <= committed && config.Prefill() <= read - consumed
    }

    predicate Valid() {
      && Watermarks()
      && 1 <= nextToken <= UINT64_MAX
      && (!state.Unconfigured? ==> config.Usable() && lead == RequiredLead(config))
      && (state.Unconfigured? ==> pending.None? && released)
      && (pending.Some? ==>
            && pending.value.token < nextToken
            && CanBegin(pending.value.kind, pending.value.firstFrame, pending.value.frames)
            && (pending.value.kind.Finalize? ==> !state.Ready?))
      && (firstStatus.Success? <==> state in {Unconfigured, Ready, Running, Completed})
      && (state.Cancelling? ==> pending.Some?)
      && (state in {Completed, Cancelled} ==> pending.None?)
      && (state.Ready? ==> !started && consumed == 0)
      && (state.Running? ==> started && lead <= committed)
      && (finalized <==> state.Completed?)
      && (state.Completed? ==> AllAt(config.total))
      && (released && !state.Unconfigured? ==> Terminal() && pending.None?)
    }

    /** The one action next_action() chooses; none when it has to wait for the owner or the audio clock. */
    function Choice(): (choice: Option<(ActionKind, nat)>)
      requires Active()
    {
      var block := config.maxBlock;
      if state.Ready? then
        var target := Max(lead, config.Prefill());
        if committed < target then
          if committed < written then Some((VisibilityBarrier, Max(0, written - committed)))
          else if written < produced then Some((Write, Max(0, Min(block, produced - written))))
          else Some((Produce, Max(0, Min(block, config.total - produced))))
        else if read - consumed < config.Prefill() then
          var room := config.queueCapacity - (read - consumed);
          Some((Read, Max(0, Min(block, Min(room, committed - read)))))
        else None
      else
        var room := config.queueCapacity - (read - consumed);
        var refill := Max(0, Min(block, committed - read));
        if refill > 0 && refill <= room then Some((Read, refill))
        else if committed < written then Some((VisibilityBarrier, Max(0, written - committed)))
        else if written < produced then Some((Write, Max(0, Min(block, produced - written))))
        else if produced < config.total then Some((Produce, Max(0, Min(block, config.total - produced))))
        else if consumed == config.total then Some((Finalize, 0))
        else None
    }

    function FirstOf(kind: ActionKind): nat {
      match kind
      case Produce => produced
      case Write => written
      case VisibilityBarrier => committed
      case Read => read
      case Finalize => config.total
    }
  }

  /** A coordinator that was never configured. */
  const NEW: View :=
    View(Unconfigured, Config(0, 0, 0, 0, 0), 0, 0, 0, 0, 0, 0, 1, None, Success, false, false, true)

  /**
   Deadlock freedom. Whatever is chosen may begin; in ready nothing is chosen exactly
   where start() succeeds; in running only while the queue holds frames to consume.
   */
  lemma ChoiceIsLive(v: View)
    requires v.Valid() && v.Active() && v.pending.None?
    ensures v.Choice().Some? ==>
              v.CanBegin(v.Choice().value.0, v.FirstOf(v.Choice().value.0), v.Choice().value.1)
    ensures v.Choice().Some? && v.Choice().value.0.Finalize? ==> v.CanFinalize()
    ensures v.state.Ready? ==> (v.Choice().None? <==> v.StartReady())
    ensures v.state.Running? && v.Choice().None? ==> v.consumed < v.read
    ensures v.Watermarks()
  {
  }

  /** Before playback starts: fewer frames are committed than the lead, or than the queue's fill. */
  predicate Short(v: View) {
    v.committed < v.lead || v.committed < Min(v.config.queueCapacity, v.config.total)
  }

  /** While playing: a whole block of committed frames, or all that are left of them, fits the queue. */
  predicate BatchFits(v: View) {
    0 < Min(v.config.maxBlock, v.committed - v.read) <= v.config.queueCapacity - (v.read - v.consumed)
  }

  /**
   What is due, by the watermarks alone. Before playback the lead and the queue's fill are stored
   first, and only then is the queue filled; while playing a batch that fits the queue comes before
   anything else. Storing flushes what is staged, the later stage first, before it produces more.
   */
  predicate Due(v: View, kind: ActionKind) {
    var storing := if v.state.Ready? then Short(v) else !BatchFits(v);
    match kind
    case Read => !storing && (v.state.Ready? ==> v.read - v.consumed < Min(v.config.queueCapacity, v.config.total))
    case VisibilityBarrier => storing && v.committed < v.written
    case Write => storing && v.committed == v.written < v.produced
    case Produce => storing && v.committed == v.written == v.produced < v.config.total
    case Finalize => v.state.Running? && v.AllAt(v.config.total)
  }

  /** As many frames as the block, the total, the staging, the committed mark and the queue's room allow. */
  predicate Largest(v: View, kind: ActionKind, frames: nat) {
    v.CanBegin(kind, v.FirstOf(kind), frames) && !v.CanBegin(kind, v.FirstOf(kind), frames + 1)
  }

  /** The action chosen is the one that is due, and as large as it may be; nothing is chosen only when nothing is due. */
  lemma ChoiceIsDue(v: View)
    requires v.Valid() && v.Active() && v.pending.None?
    ensures forall kind :: Due(v, kind) <==> v.Choice().Some? && v.Choice().value.0 == kind
    ensures v.Choice().Some? ==> Largest(v, v.Choice().value.0, v.Choice().value.1)
  {
    hide RequiredLead;
  }

  /** An action done moves its own watermark by its frames, and no other; finalization moves none and completes the run. */
  lemma AdvancesOneMark(v: View, kind: ActionKind, frames: nat)
    ensures var w := v.Advanced(kind, frames);
            && w.produced == v.produced + (if kind.Produce? then frames else 0)
            && w.written == v.written + (if kind.Write? then frames else 0)
            && w.committed == v.committed + (if kind.VisibilityBarrier? then frames else 0)
            && w.read == v.read + (if kind.Read? then frames else 0)
            && w.consumed == v.consumed
            && (w.finalized <==> v.finalized || kind.Finalize?) && w.state == (if kind.Finalize? then Completed else v.state)
            && w.(produced := v.produced, written := v.written, committed := v.committed, read := v.read,
                  finalized := v.finalized, state := v.state) == v
  {
  }

  /** An action that may begin keeps every bound once it is done, and the frames it was given are a 32-bit count. */
  lemma AdvanceKeepsBounds(v: View, kind: ActionKind, frames: nat)
    requires v.Watermarks() && v.CanBegin(kind, v.FirstOf(kind), frames)
    ensures v.Advanced(kind, frames).Watermarks() && frames <= UINT32_MAX
  {
  }

  /**
   Nothing stricter: within the block, a production or a read may begin exactly when the bounds hold
   once it is done, a write when besides nothing written waits to become visible, and a barrier
   whenever something does.
   */
  lemma BeginsIffItKeepsBounds(v: View, frames: nat)
    requires v.Watermarks()
    ensures v.CanProduce(frames) <==> 0 < frames <= v.config.maxBlock && v.Advanced(Produce, frames).Watermarks()
    ensures v.CanRead(frames) <==> 0 < frames <= v.config.maxBlock && v.Advanced(Read, frames).Watermarks()
    ensures v.CanWrite(frames) <==>
              0 < frames <= v.config.maxBlock && v.Advanced(Write, frames).Watermarks() && v.written == v.committed
    ensures v.CanBarrier() <==> v.written != v.committed
  {
  }

  /** A ticket settled with all its work done leaves a valid coordinator. */
  lemma AdvancedIsValid(v: View)
    requires v.Valid() && v.Active() && v.pending.Some?
    ensures v.(pending := None).Advanced(v.pending.value.kind, v.pending.value.frames).Valid()
    ensures v.Watermarks() && v.pending.value.firstFrame == v.FirstOf(v.pending.value.kind)
    ensures v.CanBegin(v.pending.value.kind, v.pending.value.firstFrame, v.pending.value.frames)
  {
    hide RequiredLead;
  }

  /** A ticket settled without its work: a cancelled run ends, any other goes on as it was. */
  lemma SettledIsValid(v: View)
    requires v.Valid() && v.pending.Some?
    ensures v.state.Cancelling? ==> v.(pending := None, state := Cancelled).Valid()
    ensures !v.state.Cancelling? ==> v.(pending := None).Valid() && (v.Active() || v.state.Failed?)
    ensures v.pending.value.token < v.nextToken <= UINT64_MAX
    ensures v.firstStatus.Success? <==> v.Active()
  {
    hide RequiredLead;
  }

  lemma LatchedIsValid(v: View, status: Status, to: State)
    requires v.Valid() && !v.state.Unconfigured? && !v.state.Completed? && to in {Failed, Cancelling, Cancelled}
    requires to.Cancelling? ==> v.pending.Some?
    requires to.Cancelled? ==> v.pending.None?
    requires status.Failure? && (v.firstStatus.Success? || v.firstStatus == status)
    requires v.state.Running? || v.state.Ready? || !to.Cancelled?
    ensures v.(state := to, firstStatus := status).Valid()
  {
    hide RequiredLead;
  }

  /** A new run starts with nothing produced and nothing outstanding. */
  lemma NewRunIsValid(v: View, config: Config)
    requires v.Valid() && config.Usable()
    ensures View(Ready, config, RequiredLead(config), 0, 0, 0, 0, 0, v.nextToken, None, Success, false, false, false).Valid()
  {
    hide RequiredLead;
  }

  // ---------------------------------------------------------------------
  // The coordinator

  class Scheduler {
    var config: Config
    var requiredLead: Uint64
    var produced: Uint64
    var written: Uint64
    var committed: Uint64
    var read: Uint64
    var consumed: Uint64
    var nextToken: Uint64
    var pendingAction: Action
    var firstStatus: Status
    var state: State
    var actionPending: bool
    var started: bool
    var artifactFinalized: bool
    var ownerReleased: bool

    function Now(): View
      reads this
    {
      View(state, config, requiredLead, produced, written, committed, read, consumed, nextToken,
           if actionPending then Some(pendingAction) else None, firstStatus, started, artifactFinalized, ownerReleased)
    }

    ghost predicate Valid()
      reads this
    {
      Now().Valid()
    }

    constructor ()
      ensures Valid() && Now() == NEW
    {
      config := Config(0, 0, 0, 0, 0);
      requiredLead, produced, written, committed, read, consumed := 0, 0, 0, 0, 0, 0;
      nextToken, pendingAction, firstStatus := 1, NoAction(), Success;
      state, actionPending, started, artifactFinalized, ownerReleased := Unconfigured, false, false, false, true;
    }

    static function NoAction(): Action {
      Action(0, 0, 0, Produce)
    }

    /** A new run; refused while one is active, and for a configuration no run can use. */
    method Configure(next: Config) returns (status: Status)
      requires Valid()
      modifies this
      ensures Valid()
      ensures status == if old(Now()).pending.Some?
                           || !(old(state).Unconfigured? || (old(state) in {Completed, Failed, Cancelled} && old(ownerReleased)))
                        then Failure(Busy)
                        else if next.Usable() then Success else Failure(InvalidConfiguration)
      ensures status.Failure? ==> Now() == old(Now())
      ensures status.Success? ==>
                Now() == View(Ready, next, RequiredLead(next), 0, 0, 0, 0, 0, old(nextToken), None, Success, false, false, false)
    {
      hide RequiredLead, View.Valid;
      var releasedTerminal := IsTerminal() && ownerReleased;
      if actionPending || (state != Unconfigured && !releasedTerminal) {
        return Failure(Busy);
      }
      if next.total == 0 || next.rate == 0 || next.queueCapacity == 0 || next.maxBlock == 0 || next.maxBlock > next.queueCapacity {
        return Failure(InvalidConfiguration);
      }
      ResetRun(next, RequiredLead(next));
      state := Ready;
      NewRunIsValid(old(Now()), next);
      return Success;
    }

    method ResetRun(next: Config, lead: Uint64)
      modifies this
      ensures Now() == View(old(state), next, lead, 0, 0, 0, 0, 0, old(nextToken), None, Success, false, false, false)
    {
      config, requiredLead := next, lead;
      produced, written, committed, read, consumed := 0, 0, 0, 0, 0;
      pendingAction, firstStatus := NoAction(), Success;
      actionPending, started, artifactFinalized, ownerReleased := false, false, false, false;
    }

    predicate IsTerminal()
      reads this
    {
      state == Completed || state == Failed || state == Cancelled
    }

    /** Issues the ticket of an action that may begin: refused while one is outstanding, or when the tokens ran out. */
    method Begin(kind: ActionKind, firstFrame: Uint64, frames: Uint32) returns (r: Result<Action>)
      requires Valid() && Now().Active()
      requires Now().CanBegin(kind, firstFrame, frames) && (kind.Finalize? ==> state.Running?)
      modifies this
      ensures Valid()
      ensures r.Value? <==> old(Now()).pending.None? && old(nextToken) < UINT64_MAX
      ensures r.Value? ==>
                && r.value == Action(old(nextToken), firstFrame, frames, kind)
                && Now() == old(Now()).(pending := Some(r.value), nextToken := old(nextToken) + 1)
      ensures r.Error? ==> Now() == old(Now()) && r.code == if old(Now()).pending.Some? then Busy else IoError
    {
      if actionPending {
        return Error(Busy);
      }
      if nextToken == 0xFFFF_FFFF_FFFF_FFFF {
        return Error(IoError);
      }
      pendingAction := Action(nextToken, firstFrame, frames, kind);
      nextToken := nextToken + 1;
      actionPending := true;
      return Value(pendingAction);
    }

    /** The outcome of a begin_*() call: a ticket exactly when the action may begin, none is outstanding and tokens remain. */
    ghost predicate Began(before: View, r: Result<Action>, after: View, kind: ActionKind, frames: nat, may: bool, refusal: Code) {
      if !before.Active() then r == Error(InvalidConfiguration) && after == before
      else if !may then r == Error(refusal) && after == before
      else if before.pending.Some? then r == Error(Busy) && after == before
      else if before.nextToken >= UINT64_MAX then r == Error(IoError) && after == before
      else
        && r == Value(Action(before.nextToken, before.FirstOf(kind), frames, kind))
        && after == before.(pending := Some(r.value), nextToken := before.nextToken + 1)
    }

    method BeginProduce(frames: Uint32) returns (r: Result<Action>)
      requires Valid()
      modifies this
      ensures Valid()
      ensures Began(old(Now()), r, Now(), Produce, frames, old(Now()).CanProduce(frames),
                    if 0 < frames <= old(config).maxBlock && old(produced) + frames <= old(config).total then Busy else InvalidArgument)
    {
      if state != Ready && state != Running {
        return Error(InvalidConfiguration);
      }
      if frames == 0 || frames > config.maxBlock || frames > config.total - produced {
        return Error(InvalidArgument);
      }
      var stagingUsed := produced - written;
      if frames > config.maxBlock - stagingUsed {
        return Error(Busy);
      }
      r := Begin(Produce, produced, frames);
    }

    method BeginWrite(frames: Uint32) returns (r: Result<Action>)
      requires Valid()
      modifies this
      ensures Valid() && Began(old(Now()), r, Now(), Write, frames, old(Now()).CanWrite(frames), InvalidArgument)
    {
      if state != Ready && state != Running {
        return Error(InvalidConfiguration);
      }
      if written != committed || frames == 0 || frames > config.maxBlock || frames > produced - written {
        return Error(InvalidArgument);
      }
      r := Begin(Write, written, frames);
    }

    /** The barrier covers all that is written and not committed; never more than one block, so its third refusal is unreachable. */
    method BeginVisibilityBarrier() returns (r: Result<Action>)
      requires Valid()
      modifies this
      ensures Valid()
      ensures Began(old(Now()), r, Now(), VisibilityBarrier, old(written) - old(committed), old(Now()).CanBarrier(),
                    InvalidConfiguration)
    {
      if (state != Ready && state != Running) || written == committed {
        return Error(InvalidConfiguration);
      }
      var pendingFrames := written - committed;
      if pendingFrames > config.maxBlock {
        assert false;
      }
      r := Begin(VisibilityBarrier, committed, pendingFrames);
    }

    method BeginRead(frames: Uint32) returns (r: Result<Action>)
      requires Valid()
      modifies this
      ensures Valid()
      ensures Began(old(Now()), r, Now(), Read, frames, old(Now()).CanRead(frames),
                    if 0 < frames <= old(config).maxBlock && old(read) + frames <= old(committed) then Busy else InvalidArgument)
    {
      if state != Ready && state != Running {
        return Error(InvalidConfiguration);
      }
      if frames == 0 || frames > config.maxBlock || frames > committed - read {
        return Error(InvalidArgument);
      }
      var queued := read - consumed;
      if frames > config.queueCapacity - queued {
        return Error(Busy);
      }
      r := Begin(Read, read, frames);
    }

    method BeginFinalize() returns (r: Result<Action>)
      requires Valid()
      modifies this
      ensures Valid() && Began(old(Now()), r, Now(), Finalize, 0, old(Now()).CanFinalize(), InvalidConfiguration)
    {
      if state != Running || produced != config.total || written != config.total || committed != config.total ||
         read != config.total || consumed != config.total || artifactFinalized {
        return Error(InvalidConfiguration);
      }
      r := Begin(Finalize, config.total, 0);
    }

    /** The outcome of next_action() with no ticket outstanding: the chosen action begun, or why not. */
    ghost predicate Chose(before: View, r: Result<Action>, after: View)
      requires before.Active()
    {
      match before.Choice()
      case None => r == Error(Busy) && after == before
      case Some((kind, frames)) =>
        if before.nextToken >= UINT64_MAX then r == Error(IoError) && after == before
        else r == Value(Action(before.nextToken, before.FirstOf(kind), frames, kind)) &&
             after == before.(pending := Some(r.value), nextToken := before.nextToken + 1)
    }

    /** One bounded action, begun: the one the plan chooses, unless a ticket is outstanding or the tokens ran out. */
    method NextAction() returns (r: Result<Action>)
      requires Valid()
      modifies this
      ensures Valid()
      ensures old(Now()).pending.Some? ==> r == Error(Busy) && Now() == old(Now())
      ensures old(Now()).pending.None? && !old(Now()).Active() ==> r == Error(InvalidConfiguration) && Now() == old(Now())
      ensures old(Now()).pending.None? && old(Now()).Active() ==> Chose(old(Now()), r, Now())
      ensures old(Now()).pending.None? && old(Now()).Active() && r.Value? ==>
                Due(old(Now()), r.value.kind) && Largest(old(Now()), r.value.kind, r.value.frames)
      ensures old(Now()).pending.None? && old(Now()).Active() && r == Error(Busy) ==> forall kind :: !Due(old(Now()), kind)
    {
      hide Due, Largest, View.Valid, RequiredLead;
      if actionPending {
        return Error(Busy);
      }
      if state != Ready && state != Running {
        return Error(InvalidConfiguration);
      }
      ChoiceIsDue(Now());
      if state == Ready {
        r := NextInReady();
      } else {
        r := NextInRunning();
      }
    }

    /** The lead and the queue's prefill, before playback starts. */
    method NextInReady() returns (r: Result<Action>)
      requires Valid() && state.Ready? && !actionPending
      modifies this
      ensures Valid() && Chose(old(Now()), r, Now())
    {
      hide RequiredLead, View.Valid;
      ChoiceIsLive(Now());
      var maxBlock := config.maxBlock;
      var prefill := Min(config.queueCapacity, config.total);
      var committedTarget := Max(requiredLead, prefill);
      if committed < committedTarget {
        if written > committed {
          assert Now().Choice() == Some((VisibilityBarrier, (written - committed) as nat));
          r := BeginVisibilityBarrier();
          return;
        }
        if produced > written {
          var available := produced - written;
          assert Now().Choice() == Some((Write, Min(maxBlock, available) as nat));
          r := BeginWrite(Min(maxBlock, available));
          return;
        }
        var remaining := config.total - produced;
        assert Now().Choice() == Some((Produce, Min(maxBlock, remaining) as nat));
        r := BeginProduce(Min(maxBlock, remaining));
        return;
      }
      if read - consumed < prefill {
        var room := config.queueCapacity - (read - consumed);
        var unread := committed - read;
        var count := Min(maxBlock, Min(room, unread));
        if count > 0 {
          assert Now().Choice() == Some((Read, count as nat));
          r := BeginRead(count);
          return;
        }
      }
      return Error(Busy);
    }

    /** While playing: refill the queue by a whole batch, else flush the staging, else produce, else finalize. */
    method NextInRunning() returns (r: Result<Action>)
      requires Valid() && state.Running? && !actionPending
      modifies this
      ensures Valid() && Chose(old(Now()), r, Now())
    {
      hide RequiredLead, View.Valid;
      ChoiceIsLive(Now());
      var maxBlock := config.maxBlock;
      var room := config.queueCapacity - (read - consumed);
      var committedUnread := committed - read;
      var refillFrames := Min(maxBlock, committedUnread);
      if refillFrames > 0 && room >= refillFrames {
        assert Now().Choice() == Some((Read, refillFrames as nat));
        r := BeginRead(refillFrames);
        return;
      }
      if written > committed {
        assert Now().Choice() == Some((VisibilityBarrier, (written - committed) as nat));
        r := BeginVisibilityBarrier();
        return;
      }
      if produced > written {
        var staged := produced - written;
        assert Now().Choice() == Some((Write, Min(maxBlock, staged) as nat));
        r := BeginWrite(Min(maxBlock, staged));
        return;
      }
      if produced < config.total {
        var remaining := config.total - produced;
        assert Now().Choice() == Some((Produce, Min(maxBlock, remaining) as nat));
        r := BeginProduce(Min(maxBlock, remaining));
        return;
      }
      if consumed == config.total {
        r := BeginFinalize();
        return;
      }
      return Error(Busy);
    }

    predicate ActionMatches(action: Action)
      reads this
    {
      actionPending && action == pendingAction
    }

    /** Records the first failure only, and moves to `to`. */
    method Latch(reason: Status, to: State) returns (status: Status)
      requires Valid() && to in {Failed, Cancelling, Cancelled} && reason.Failure?
      requires !state.Unconfigured? && !state.Completed?
      requires to.Cancelling? <==> (actionPending && !to.Failed?)
      requires Now().Active() || !to.Cancelled?
      modifies `firstStatus, `state
      ensures Valid()
      ensures status == if old(firstStatus).Success? then reason else old(firstStatus)
      ensures Now() == old(Now()).(state := to, firstStatus := status)
    {
      hide View.Valid;
      LatchedIsValid(Now(), if firstStatus.Success? then reason else firstStatus, to);
      if firstStatus.Success? {
        firstStatus := reason;
      }
      state := to;
      return firstStatus;
    }

    /**
     Settles the outstanding ticket. Any other ticket changes nothing. The cursors
     cannot have moved under a ticket, so the refusals that guard against it are
     unreachable.
     */
    method Complete(action: Action, operation: Status, frameCount: Uint32) returns (status: Status)
      requires Valid()
      modifies this
      ensures Valid()
      ensures old(Now()).pending != Some(action) ==> status == Failure(InvalidArgument) && Now() == old(Now())
      ensures old(Now()).pending == Some(action) ==>
                var before := old(Now()).(pending := None);
                if before.state.Cancelling? then status == before.firstStatus && Now() == before.(state := Cancelled)
                else if before.state.Failed? then status == before.firstStatus && Now() == before
                else if operation.Failure? then status == operation && Now() == before.(state := Failed, firstStatus := operation)
                else if frameCount != (if action.kind.VisibilityBarrier? || action.kind.Finalize? then 0 else action.frames) then
                  status == Failure(IoError) && Now() == before.(state := Failed, firstStatus := Failure(IoError))
                else status == Success && Now() == before.Advanced(action.kind, action.frames)
    {
      if !ActionMatches(action) {
        return Failure(InvalidArgument);
      }
      hide View.Valid;
      ghost var was := Now();
      SettledIsValid(was);
      actionPending := false;
      pendingAction := NoAction();
      if state == Cancelling || state == Failed {
        if state == Cancelling {
          state := Cancelled;
        }
        return firstStatus;
      }
      if operation.Failure? {
        status := Latch(operation, Failed);
        return;
      }
      if action.kind == VisibilityBarrier || action.kind == Finalize {
        if frameCount != 0 {
          status := Latch(Failure(IoError), Failed);
          return;
        }
      } else if frameCount != action.frames {
        status := Latch(Failure(IoError), Failed);
        return;
      }
      AdvancedIsValid(was);
      Advance(action, was);
      return Success;
    }

    /** The action's work is done: its cursor, which no other call moved, goes on by its frames. */
    method Advance(action: Action, ghost was: View)
      requires was.Watermarks() && was.CanBegin(action.kind, action.firstFrame, action.frames)
      requires Now() == was.(pending := None)
      modifies `produced, `written, `committed, `read, `artifactFinalized, `state
      ensures Now() == was.(pending := None).Advanced(action.kind, action.frames)
    {
      match action.kind {
        case Produce =>
          if action.firstFrame != produced {
            assert false;
          }
          produced := produced + action.frames;
        case Write =>
          if action.firstFrame != written || action.frames > produced - written {
            assert false;
          }
          written := written + action.frames;
        case VisibilityBarrier =>
          if action.firstFrame != committed || action.firstFrame + action.frames != written {
            assert false;
          }
          committed := written;
        case Read =>
          if action.firstFrame != read || action.firstFrame + action.frames > committed {
            assert false;
          }
          read := read + action.frames;
        case Finalize =>
          artifactFinalized := true;
          state := Completed;
      }
    }

    /** Refuses until the lead is committed and the queue is filled. */
    method Start() returns (status: Status)
      requires Valid()
      modifies this
      ensures Valid()
      ensures status == if !old(state).Ready? then Failure(InvalidConfiguration)
                        else if old(Now()).StartReady() then Success else Failure(Busy)
      ensures Now() == if status.Success? then old(Now()).(started := true, state := Running) else old(Now())
    {
      if state != Ready {
        return Failure(InvalidConfiguration);
      }
      var requiredPrefill := Min(config.queueCapacity, config.total);
      if committed < requiredLead || read - consumed < requiredPrefill {
        return Failure(Busy);
      }
      started := true;
      state := Running;
      return Success;
    }

    /** The audio clock takes frames from the queue; more than it holds is an underrun, which ends the run. */
    method Consume(frames: Uint32) returns (status: Status)
      requires Valid()
      modifies this
      ensures Valid()
      ensures !(old(state).Running? && 0 < frames <= old(config).maxBlock) ==>
                status == Failure(InvalidArgument) && Now() == old(Now())
      ensures old(state).Running? && 0 < frames <= old(config).maxBlock ==>
                if old(consumed) + frames <= old(read) then status == Success && Now() == old(Now()).(consumed := old(consumed) + frames)
                else status == Failure(Timeout) && Now() == old(Now()).(state := Failed, firstStatus := Failure(Timeout))
    {
      if !started || state != Running || frames == 0 || frames > config.maxBlock {
        return Failure(InvalidArgument);
      }
      if frames > read - consumed {
        status := Latch(Failure(Timeout), Failed);
        return;
      }
      consumed := consumed + frames;
      return Success;
    }

    method Fail(reason: Status) returns (status: Status)
      requires Valid()
      modifies this
      ensures Valid()
      ensures old(Now()).Terminal() ==> status == old(firstStatus) && Now() == old(Now())
      ensures old(state).Unconfigured? ==> status == Failure(InvalidConfiguration) && Now() == old(Now())
      ensures !old(Now()).Terminal() && !old(state).Unconfigured? ==>
                && status == (if old(firstStatus).Failure? then old(firstStatus)
                              else if reason.Failure? then reason else Failure(InternalError))
                && Now() == old(Now()).(state := Failed, firstStatus := status)
    {
      if IsTerminal() {
        return firstStatus;
      }
      if state == Unconfigured {
        return Failure(InvalidConfiguration);
      }
      status := Latch(if reason.Success? then Failure(InternalError) else reason, Failed);
    }

    /** A pending action stays outstanding until its owner completes it. */
    method Cancel() returns (status: Status)
      requires Valid()
      modifies this
      ensures Valid()
      ensures old(Now()).Terminal() ==> status == old(firstStatus) && Now() == old(Now())
      ensures old(state).Unconfigured? ==> status == Failure(InvalidConfiguration) && Now() == old(Now())
      ensures !old(Now()).Terminal() && !old(state).Unconfigured? ==>
                && status == (if old(firstStatus).Failure? then old(firstStatus) else Failure(Unavailable))
                && Now() == old(Now()).(state := if old(Now()).pending.Some? then Cancelling else Cancelled, firstStatus := status)
    {
      if IsTerminal() {
        return firstStatus;
      }
      if state == Unconfigured {
        return Failure(InvalidConfiguration);
      }
      status := Latch(Failure(Unavailable), if actionPending then Cancelling else Cancelled);
    }

    /** The explicit boundary that permits a terminal run to be reconfigured. */
    method Release() returns (status: Status)
      requires Valid()
      modifies this
      ensures Valid()
      ensures status == if old(Now()).Terminal() && old(Now()).pending.None? then Success else Failure(Busy)
      ensures Now() == if status.Success? then old(Now()).(released := true) else old(Now())
    {
      if !IsTerminal() || actionPending {
        return Failure(Busy);
      }
      ownerReleased := true;
      return Success;
    }
  }
}
