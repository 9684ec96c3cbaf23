/**
 The timing accumulator (common/operation_timing.hpp) and the host's checks of what it
 reports (host/live_control.py, host/summarize_prepare_play.py): whatever is recorded,
 every snapshot passes, and so does every pair of an earlier and a later one.
 */
module OperationTiming {
  import opened Words

  const PHASES: nat := 8
  const CYCLE_WRAP: nat := 0x1_0000_0000

  /** One endpoint: the cycle counter, the tick counter and the clock they ran at. */
  datatype Sample = Sample(cycles: Uint32, ticks: Uint32, frequency: Uint32)

  datatype Stats = Stats(calls: Uint64, totalCycles: Uint64, maxCycles: Uint32, rejected: Uint64, saturated: bool)

  datatype Snapshot = Snapshot(cycleHz: Uint32, tickHz: Uint32, phases: seq<Stats>)

  const NO_STATS: Stats := Stats(0, 0, 0, 0, false)

  /** A 64-bit sum that stops at its largest value and says so. */
  function SaturatingAdd(current: Uint64, increment: Uint64, saturated: bool): (result: (Uint64, bool))
    ensures result.1 <==> saturated || current + increment > UINT64_MAX
    ensures result.0 == Min(current + increment, UINT64_MAX)
  {
    if increment > UINT64_MAX - current then (UINT64_MAX, true) else (current + increment, saturated)
  }

  /** The elapsed count of a 32-bit counter. */
  function Elapsed(begin: Uint32, end: Uint32): Uint32 {
    (end - begin) % CYCLE_WRAP
  }

  /** valid_samples: both at the accumulator's clocks, and surely shorter than one turn of the cycle counter. */
  predicate ValidSamples(cycleHz: Uint32, tickHz: Uint32, begin: Sample, end: Sample) {
    && cycleHz != 0 && tickHz != 0 && begin.frequency == cycleHz && end.frequency == cycleHz
    && Elapsed(begin.ticks, end.ticks) + 2 <= (CYCLE_WRAP * tickHz - 1) / cycleHz
  }

  /**
   A span of `cycles` core cycles and `ticks` whole ticks may be one and the same: the two
   counters are read close together, and two more ticks cover the skew of both ends.
   */
  predicate MayLast(cycleHz: Uint32, tickHz: Uint32, cycles: nat, ticks: nat) {
    cycles * tickHz <= (ticks + 2) * cycleHz
  }

  /** The tick count is accepted exactly when no span it allows is a whole turn of the cycle counter. */
  lemma AcceptedIffUnambiguous(cycleHz: Uint32, tickHz: Uint32, ticks: nat)
    requires cycleHz != 0 && tickHz != 0
    ensures ticks + 2 <= (CYCLE_WRAP * tickHz - 1) / cycleHz
       <==> forall cycles: nat :: MayLast(cycleHz, tickHz, cycles, ticks) ==> cycles < CYCLE_WRAP
  {
    var limit, d: int := CYCLE_WRAP * tickHz - 1, cycleHz;
    Quotient(limit, d, ticks + 2);
    if ticks + 2 <= limit / d {
      forall cycles: nat | MayLast(cycleHz, tickHz, cycles, ticks)
        ensures cycles < CYCLE_WRAP
      {
        LessFactor(cycles, CYCLE_WRAP, tickHz);
      }
    } else {
      assert MayLast(cycleHz, tickHz, CYCLE_WRAP, ticks);
    }
  }

  /** A pair of samples is taken exactly if both were made at the accumulator's clocks and their ticks leave no doubt of the span. */
  lemma ValidIffUnambiguous(cycleHz: Uint32, tickHz: Uint32, begin: Sample, end: Sample)
    ensures ValidSamples(cycleHz, tickHz, begin, end) <==>
            && cycleHz != 0 && tickHz != 0 && begin.frequency == cycleHz && end.frequency == cycleHz
            && var ticks: nat := (end.ticks - begin.ticks) % 0x1_0000_0000;
               forall cycles: nat :: MayLast(cycleHz, tickHz, cycles, ticks) ==> cycles < 0x1_0000_0000
  {
    if cycleHz != 0 && tickHz != 0 {
      AcceptedIffUnambiguous(cycleHz, tickHz, Elapsed(begin.ticks, end.ticks));
    }
  }

  lemma LessFactor(a: nat, b: nat, t: nat)
    requires a * t < b * t
    ensures a < b
  {
  }

  lemma Quotient(limit: int, d: int, n: nat)
    requires d > 0 && limit >= 0
    ensures n <= limit / d <==> n * d <= limit
  {
    assert limit == limit / d * d + limit % d;
    if n <= limit / d {
      assert n * d <= limit / d * d;
    } else {
      assert n * d >= (limit / d + 1) * d;
    }
  }

  /** The counter's difference of an accepted span is the span itself. */
  lemma AcceptedSpanIsExact(cycleHz: Uint32, tickHz: Uint32, begin: Sample, end: Sample, cycles: nat, ticks: nat)
    requires ValidSamples(cycleHz, tickHz, begin, end) && MayLast(cycleHz, tickHz, cycles, ticks)
    requires ticks < CYCLE_WRAP && end.ticks == (begin.ticks + ticks) % CYCLE_WRAP
    requires end.cycles == (begin.cycles + cycles) % CYCLE_WRAP
    ensures Elapsed(begin.cycles, end.cycles) == cycles
  {
    CounterDifference(begin.ticks, end.ticks, ticks);
    AcceptedIffUnambiguous(cycleHz, tickHz, ticks);
    CounterDifference(begin.cycles, end.cycles, cycles);
  }

  lemma CounterDifference(begin: Uint32, end: Uint32, count: nat)
    requires count < CYCLE_WRAP && end == (begin + count) % CYCLE_WRAP
    ensures Elapsed(begin, end) == count
  {
    if begin + count < CYCLE_WRAP {
      assert end == begin + count;
    } else {
      assert end == begin + count - CYCLE_WRAP;
      assert end - begin == count - CYCLE_WRAP;
    }
  }

  // One phase's counters.

  function CountCall(s: Stats): Stats {
    var calls := SaturatingAdd(s.calls, 1, s.saturated);
    s.(calls := calls.0, saturated := calls.1)
  }

  function Reject(s: Stats): Stats {
    var counted := CountCall(s);
    var rejected := SaturatingAdd(counted.rejected, 1, counted.saturated);
    counted.(rejected := rejected.0, saturated := rejected.1)
  }

  function Accept(s: Stats, cycles: Uint32): Stats {
    var counted := CountCall(s);
    var total := SaturatingAdd(counted.totalCycles, cycles, counted.saturated);
    counted.(totalCycles := total.0, saturated := total.1, maxCycles := if cycles > s.maxCycles then cycles else s.maxCycles)
  }

  /** The snapshot after one more call. */
  function Recorded(snapshot: Snapshot, phase: nat, begin: Sample, end: Sample): Snapshot
    requires |snapshot.phases| == PHASES
  {
    var index := if phase < PHASES then phase else 0;
    var stats := snapshot.phases[index];
    var after := if phase < PHASES && ValidSamples(snapshot.cycleHz, snapshot.tickHz, begin, end)
                 then Accept(stats, Elapsed(begin.cycles, end.cycles)) else Reject(stats);
    snapshot.(phases := snapshot.phases[index := after])
  }

  class Accumulator {
    var cycleHz: Uint32
    var tickHz: Uint32
    const phases: array<Stats>

    ghost predicate Valid()
      reads this
    {
      phases.Length == PHASES
    }

    function Now(): (snapshot: Snapshot)
      requires Valid()
      reads this, phases
      ensures |snapshot.phases| == PHASES
    {
      Snapshot(cycleHz, tickHz, phases[..])
    }

    constructor ()
      ensures Valid() && fresh(phases) && Now() == Snapshot(0, 0, seq(PHASES, _ => NO_STATS))
    {
      cycleHz, tickHz := 0, 0;
      phases := new Stats[PHASES](_ => NO_STATS);
    }

    method Reset(cycleHz: Uint32, tickHz: Uint32)
      requires Valid()
      modifies this, phases
      ensures Valid() && Now() == Snapshot(cycleHz, tickHz, seq(PHASES, _ => NO_STATS))
    {
      this.cycleHz, this.tickHz := cycleHz, tickHz;
      for k := 0 to PHASES
        invariant Valid() && this.cycleHz == cycleHz && this.tickHz == tickHz
        invariant forall i :: 0 <= i < k ==> phases[i] == NO_STATS
      {
        phases[k] := NO_STATS;
      }
    }

    /** record: every call is counted; one that is not a phase is a rejected call of the first. */
    method Record(phase: nat, begin: Sample, end: Sample)
      requires Valid()
      modifies phases
      ensures Valid() && Now() == Recorded(old(Now()), phase, begin, end)
    {
      hide ValidSamples, SaturatingAdd;
      var index := if phase < PHASES then phase else 0;
      var stats := phases[index];
      var calls := SaturatingAdd(stats.calls, 1, stats.saturated);
      stats := stats.(calls := calls.0, saturated := calls.1);
      if phase >= PHASES || !ValidSamples(cycleHz, tickHz, begin, end) {
        var rejected := SaturatingAdd(stats.rejected, 1, stats.saturated);
        phases[index] := stats.(rejected := rejected.0, saturated := rejected.1);
        return;
      }
      var elapsed := Elapsed(begin.cycles, end.cycles);
      var total := SaturatingAdd(stats.totalCycles, elapsed, stats.saturated);
      stats := stats.(totalCycles := total.0, saturated := total.1);
      if elapsed > stats.maxCycles {
        stats := stats.(maxCycles := elapsed);
      }
      phases[index] := stats;
    }
  }

  // The host's checks.

  /** _check_prepare_timing_stats, and the bound of _stats_report. */
  predicate StatsPass(s: Stats) {
    && s.rejected <= s.calls && s.maxCycles <= s.totalCycles
    && (!s.saturated && s.calls == s.rejected ==> s.totalCycles == 0)
    && (!s.saturated ==> s.totalCycles <= (s.calls - s.rejected) * s.maxCycles)
  }

  /** _check_prepare_timing: without both clocks nothing is accepted. */
  predicate SnapshotPasses(snapshot: Snapshot) {
    && |snapshot.phases| == PHASES
    && (forall i :: 0 <= i < PHASES ==> StatsPass(snapshot.phases[i]))
    && (snapshot.cycleHz == 0 || snapshot.tickHz == 0 ==>
          forall i :: 0 <= i < PHASES ==> snapshot.phases[i].calls == snapshot.phases[i].rejected)
  }

  /** One phase of _check_snapshot_transition. */
  predicate StatsFollow(before: Stats, after: Stats) {
    && before.calls <= after.calls && before.totalCycles <= after.totalCycles
    && before.maxCycles <= after.maxCycles && before.rejected <= after.rejected
    && (before.saturated ==> after.saturated)
    && (!before.saturated && !after.saturated ==>
          var accepted := (after.calls - after.rejected) - (before.calls - before.rejected);
          var cycles := after.totalCycles - before.totalCycles;
          && accepted >= 0 && cycles <= accepted * after.maxCycles
          && (after.maxCycles > before.maxCycles ==> accepted > 0 && cycles >= after.maxCycles))
  }

  predicate SnapshotFollows(before: Snapshot, after: Snapshot) {
    && |before.phases| == |after.phases| == PHASES && before.cycleHz == after.cycleHz && before.tickHz == after.tickHz
    && forall i :: 0 <= i < PHASES ==> StatsFollow(before.phases[i], after.phases[i])
  }

  lemma RejectKeeps(before: Stats, s: Stats)
    requires StatsPass(s) && StatsFollow(before, s)
    ensures StatsPass(Reject(s)) && StatsFollow(before, Reject(s))
    ensures s.calls == s.rejected ==> Reject(s).calls == Reject(s).rejected
  {
  }

  lemma AcceptKeeps(before: Stats, s: Stats, cycles: Uint32)
    requires StatsPass(s) && StatsFollow(before, s)
    ensures StatsPass(Accept(s, cycles)) && StatsFollow(before, Accept(s, cycles))
  {
    var after := Accept(s, cycles);
    if !after.saturated {
      OneMoreCall(s.calls - s.rejected, s.maxCycles, after.maxCycles, cycles, s.totalCycles);
      OneMoreCall((s.calls - s.rejected) - (before.calls - before.rejected), s.maxCycles, after.maxCycles, cycles,
                  s.totalCycles - before.totalCycles);
    }
  }

  /** One more call of at most the new maximum keeps the sum within calls times maximum. */
  lemma OneMoreCall(calls: int, max: nat, more: nat, cycles: nat, total: int)
    requires calls >= 0 && max <= more && cycles <= more && total <= calls * max
    ensures total + cycles <= (calls + 1) * more
  {
    assert calls * max <= calls * more;
  }

  /** One recorded call keeps a snapshot passing, and keeps it following every earlier one. */
  lemma RecordedPasses(first: Snapshot, snapshot: Snapshot, phase: nat, begin: Sample, end: Sample)
    requires SnapshotPasses(snapshot) && SnapshotFollows(first, snapshot)
    ensures SnapshotPasses(Recorded(snapshot, phase, begin, end))
    ensures SnapshotFollows(first, Recorded(snapshot, phase, begin, end))
  {
    hide StatsPass, StatsFollow, Reject, Accept, ValidSamples;
    var index := if phase < PHASES then phase else 0;
    RejectKeeps(first.phases[index], snapshot.phases[index]);
    AcceptKeeps(first.phases[index], snapshot.phases[index], Elapsed(begin.cycles, end.cycles));
    ClocksNeeded(snapshot.cycleHz, snapshot.tickHz, begin, end);
  }

  lemma ClocksNeeded(cycleHz: Uint32, tickHz: Uint32, begin: Sample, end: Sample)
    ensures ValidSamples(cycleHz, tickHz, begin, end) ==> cycleHz != 0 && tickHz != 0
  {
  }

  lemma FollowsItself(snapshot: Snapshot)
    requires |snapshot.phases| == PHASES
    ensures SnapshotFollows(snapshot, snapshot)
  {
  }

  lemma NothingRecorded(cycleHz: Uint32, tickHz: Uint32)
    ensures SnapshotPasses(Snapshot(cycleHz, tickHz, seq(PHASES, _ => NO_STATS)))
  {
  }

  /** A recorded call, whatever its arguments. */
  datatype Event = Event(phase: nat, begin: Sample, end: Sample)

  ghost predicate IsTrace(trace: seq<Snapshot>, events: seq<Event>) {
    && |trace| == |events| + 1 && (forall i :: 0 <= i < |trace| ==> |trace[i].phases| == PHASES)
    && (forall i :: 0 <= i < |events| ==> trace[i + 1] == Recorded(trace[i], events[i].phase, events[i].begin, events[i].end))
  }

  /** Any run of the accumulator: each of its snapshots passes the host, and each follows every one before it. */
  method Observe(cycleHz: Uint32, tickHz: Uint32, events: seq<Event>) returns (trace: seq<Snapshot>)
    ensures |trace| == |events| + 1 && trace[0] == Snapshot(cycleHz, tickHz, seq(PHASES, _ => NO_STATS))
    ensures forall i :: 0 <= i < |trace| ==> SnapshotPasses(trace[i])
    ensures forall i, j :: 0 <= i <= j < |trace| ==> SnapshotFollows(trace[i], trace[j])
    ensures IsTrace(trace, events)
  {
    hide SnapshotPasses, SnapshotFollows, Recorded;
    var timing := new Accumulator();
    timing.Reset(cycleHz, tickHz);
    NothingRecorded(cycleHz, tickHz);
    FollowsItself(timing.Now());
    trace := [timing.Now()];
    for k := 0 to |events|
      invariant timing.Valid() && fresh(timing) && fresh(timing.phases) && |trace| == k + 1 && trace[k] == timing.Now()
      invariant trace[0] == Snapshot(cycleHz, tickHz, seq(PHASES, _ => NO_STATS))
      invariant forall i :: 0 <= i <= k ==> |trace[i].phases| == PHASES
      invariant forall i :: 0 <= i <= k ==> SnapshotPasses(trace[i])
      invariant forall i, j :: 0 <= i <= j <= k ==> SnapshotFollows(trace[i], trace[j])
      invariant forall i :: 0 <= i < k ==> trace[i + 1] == Recorded(trace[i], events[i].phase, events[i].begin, events[i].end)
    {
      var event := events[k];
      timing.Record(event.phase, event.begin, event.end);
      forall i | 0 <= i <= k
        ensures SnapshotPasses(timing.Now()) && SnapshotFollows(trace[i], timing.Now())
      {
        RecordedPasses(trace[i], trace[k], event.phase, event.begin, event.end);
      }
      FollowsItself(timing.Now());
      trace := trace + [timing.Now()];
    }
  }

  /** The phase that counts an event: its own, or the first when it names none. */
  predicate CountedBy(event: Event, phase: nat) {
    event.phase == phase || (phase == 0 && event.phase >= PHASES)
  }

  /** Whether an event's span is taken: it names a phase, and both its ends are sound. */
  predicate Taken(cycleHz: Uint32, tickHz: Uint32, event: Event) {
    event.phase < PHASES && ValidSamples(cycleHz, tickHz, event.begin, event.end)
  }

  /** How many events a phase counts. */
  function CountedEvents(phase: nat, events: seq<Event>): nat {
    if events == [] then 0
    else CountedEvents(phase, events[1..]) + if CountedBy(events[0], phase) then 1 else 0
  }

  /** How many of those are refused. */
  function RefusedEvents(cycleHz: Uint32, tickHz: Uint32, phase: nat, events: seq<Event>): nat {
    if events == [] then 0
    else
      RefusedEvents(cycleHz, tickHz, phase, events[1..])
      + if CountedBy(events[0], phase) && !Taken(cycleHz, tickHz, events[0]) then 1 else 0
  }

  lemma {:induction false} OneMoreEvent(cycleHz: Uint32, tickHz: Uint32, phase: nat, events: seq<Event>, last: Event)
    ensures CountedEvents(phase, events + [last])
         == CountedEvents(phase, events) + if CountedBy(last, phase) then 1 else 0
    ensures RefusedEvents(cycleHz, tickHz, phase, events + [last])
         == RefusedEvents(cycleHz, tickHz, phase, events)
            + if CountedBy(last, phase) && !Taken(cycleHz, tickHz, last) then 1 else 0
  {
    hide ValidSamples;
    if events == [] {
      assert (events + [last])[1..] == [];
    } else {
      OneMoreEvent(cycleHz, tickHz, phase, events[1..], last);
      assert (events + [last])[1..] == events[1..] + [last];
    }
  }

  /** Until it saturates, a phase's calls are the events it counts, and its rejected calls those refused. */
  lemma {:induction false} CallsAreTheEvents(trace: seq<Snapshot>, events: seq<Event>, phase: nat)
    requires IsTrace(trace, events) && phase < PHASES
    requires trace[0].phases[phase] == NO_STATS
    ensures trace[|events|].cycleHz == trace[0].cycleHz && trace[|events|].tickHz == trace[0].tickHz
    ensures !trace[|events|].phases[phase].saturated ==>
              var stats := trace[|events|].phases[phase];
              && stats.calls == CountedEvents(phase, events)
              && stats.rejected == RefusedEvents(trace[0].cycleHz, trace[0].tickHz, phase, events)
    decreases |events|
  {
    hide ValidSamples;
    if events != [] {
      var front, last := events[..|events| - 1], events[|events| - 1];
      CallsAreTheEvents(trace[..|events|], front, phase);
      assert events == front + [last];
      OneMoreEvent(trace[0].cycleHz, trace[0].tickHz, phase, front, last);
    }
  }

  /** A phase's maximum, saturated or not, is the greatest span it took: 0 without one. */
  lemma {:induction false} MaximumIsTheGreatest(trace: seq<Snapshot>, events: seq<Event>, phase: nat)
    requires IsTrace(trace, events) && phase < PHASES
    requires trace[0].phases[phase] == NO_STATS
    ensures trace[|events|].cycleHz == trace[0].cycleHz && trace[|events|].tickHz == trace[0].tickHz
    ensures var most := trace[|events|].phases[phase].maxCycles;
            && (forall i :: 0 <= i < |events| && events[i].phase == phase && Taken(trace[0].cycleHz, trace[0].tickHz, events[i])
                  ==> Elapsed(events[i].begin.cycles, events[i].end.cycles) <= most)
            && (most != 0 ==>
                  exists i :: 0 <= i < |events| && events[i].phase == phase
                              && Taken(trace[0].cycleHz, trace[0].tickHz, events[i])
                              && Elapsed(events[i].begin.cycles, events[i].end.cycles) == most)
    decreases |events|
  {
    hide ValidSamples, Elapsed, SaturatingAdd;
    if events != [] {
      var front, k := events[..|events| - 1], |events| - 1;
      MaximumIsTheGreatest(trace[..|events|], front, phase);
      assert trace[..|events|][|front|] == trace[k];
      var before, most := trace[k].phases[phase].maxCycles, trace[k + 1].phases[phase].maxCycles;
      if most == before && most != 0 {
        var i :| 0 <= i < |front| && front[i].phase == phase && Taken(trace[0].cycleHz, trace[0].tickHz, front[i])
                 && Elapsed(front[i].begin.cycles, front[i].end.cycles) == before;
        assert events[i] == front[i];
      } else if most != before {
        assert events[k].phase == phase && Taken(trace[0].cycleHz, trace[0].tickHz, events[k]);
      }
      forall i | 0 <= i < |events| && events[i].phase == phase && Taken(trace[0].cycleHz, trace[0].tickHz, events[i])
        ensures Elapsed(events[i].begin.cycles, events[i].end.cycles) <= most
      {
        if i < k {
          assert front[i] == events[i];
        }
      }
    }
  }

  /** The cycles of a phase's accepted calls, as they truly lasted. */
  function TrueCycles(cycleHz: Uint32, tickHz: Uint32, phase: nat, events: seq<Event>): nat {
    if events == [] then 0
    else
      var last := events[|events| - 1];
      TrueCycles(cycleHz, tickHz, phase, events[..|events| - 1])
      + if last.phase == phase && ValidSamples(cycleHz, tickHz, last.begin, last.end)
        then Elapsed(last.begin.cycles, last.end.cycles) else 0
  }

  /** Until it saturates, a phase's total is the sum of its accepted spans. */
  lemma {:induction false} TotalIsTheSum(trace: seq<Snapshot>, events: seq<Event>, phase: nat)
    requires IsTrace(trace, events) && phase < PHASES
    requires trace[0].phases[phase] == NO_STATS
    ensures trace[|events|].cycleHz == trace[0].cycleHz && trace[|events|].tickHz == trace[0].tickHz
    ensures !trace[|events|].phases[phase].saturated ==>
              trace[|events|].phases[phase].totalCycles == TrueCycles(trace[0].cycleHz, trace[0].tickHz, phase, events)
    decreases |events|
  {
    hide ValidSamples;
    if events != [] {
      var front := events[..|events| - 1];
      TotalIsTheSum(trace[..|events|], front, phase);
    }
  }
}

/** The host's checks of the coordinator's watermarks, on every state and every two states of a run. */
module WatermarkChecks {
  import opened FinitePlayback
  import opened PlaybackRuns

  /** The watermark checks of _check_prepare_play_snapshot. */
  predicate SnapshotPasses(v: View) {
    && v.consumed <= v.read && v.read <= v.committed && v.committed <= v.written && v.written <= v.produced
    && v.produced <= v.config.total && v.lead <= v.config.total
  }

  /** The watermark checks of _check_snapshot_transition; a run that ended and was released never changes again. */
  predicate SnapshotFollows(before: View, after: View) {
    && after.config == before.config && after.lead >= before.lead
    && after.produced >= before.produced && after.written >= before.written && after.committed >= before.committed
    && after.read >= before.read && after.consumed >= before.consumed
    && (before.Terminal() && before.released ==> after == before)
  }

  lemma {:induction false} StatesFollow(trace: seq<View>, calls: seq<Call>, i: nat, j: nat)
    requires IsRun(trace, calls) && i <= j < |trace|
    requires forall k :: i <= k < j ==> !calls[k].Configure?
    ensures SnapshotFollows(trace[i], trace[j])
    decreases j - i
  {
    hide View.Valid, Called;
    if i < j {
      StatesFollow(trace, calls, i, j - 1);
      RunIsSound(trace, calls, j - 1);
    }
  }

  /** Whatever the owner calls, the host accepts every snapshot of a configured run. */
  lemma SnapshotsPass(trace: seq<View>, calls: seq<Call>, i: nat)
    requires IsRun(trace, calls) && i < |trace| && !trace[i].state.Unconfigured?
    ensures SnapshotPasses(trace[i])
  {
    hide Called;
    RunKeepsBounds(trace, calls, i);
    RunIsValid(trace, calls, i);
  }
}
