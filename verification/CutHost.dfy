/** The host's one-shot form of a cut stream (apply() of host/cut_schedule.py), and its agreement with the board's. */
module CutHost {
  import opened Words
  import opened CutRules
  import opened CutStream
  import opened CutTally
  import opened CutStages

  /** A run of the cut stream: output frames from `cardFrame` on, or zeros. */
  datatype Segment = Segment(cardFrame: Option<nat>, frames: nat)

  datatype HostStream =
    | Refused(verdict: Verdict)
    | CutStream(segments: seq<Segment>, applied: seq<AppliedCut>, rejected: nat, frames: nat)

  /** The frames of a segment as the host names them: an output frame's number, or none for a zero. */
  function Named(segment: Segment): seq<Option<nat>> {
    seq(segment.frames, i requires 0 <= i =>
      if segment.cardFrame.Some? then Some(segment.cardFrame.value + i) else None)
  }

  function Expand(segments: seq<Segment>): seq<Option<nat>> {
    if |segments| == 0 then [] else Expand(segments[..|segments| - 1]) + Named(segments[|segments| - 1])
  }

  function Erase(slots: seq<Slot>): seq<Option<nat>> {
    seq(|slots|, i requires 0 <= i < |slots| => if slots[i].Frame? then Some(slots[i].index) else None)
  }

  lemma EraseAppends(slots: seq<Slot>, more: seq<Slot>, segments: seq<Segment>, segment: Segment)
    requires Expand(segments) == Erase(slots) && Named(segment) == Erase(more)
    ensures Expand(segments + [segment]) == Erase(slots + more)
  {
    assert (segments + [segment])[..|segments|] == segments;
  }

  /** The one-shot walk stands at `at` with the first `k` entries applied; the output's end may have clipped the last. */
  ghost predicate Walk(es: seq<Entry>, n: nat, at: nat, k: nat, slots: seq<Slot>) {
    && at <= n && BegunWithin(es, k, n)
    && if k > 0 && es[k - 1].kind.Drop? && n < es[k - 1].CoveredEnd() then
         at == n && slots == StreamTo(es, n)
       else
         At(es, at, k) && (k < |es| ==> at <= es[k].offset) && slots == Sent(es, at, k, 0)
  }

  lemma WalkStarts(es: seq<Entry>, n: nat)
    ensures Walk(es, n, 0, 0, []) && Expand([]) == Erase([])
    ensures forall m: nat :: CutsTo(es, m, 0) == []
  {
  }

  lemma WalkSends(es: seq<Entry>, n: nat, at: nat, k: nat, slots: seq<Slot>, m: nat)
    requires LengthsInRange(es) && AllClear(es) && Walk(es, n, at, k, slots)
    requires m > 0 && at + m <= n && (k < |es| ==> at + m <= es[k].offset)
    ensures Walk(es, n, at + m, k, slots + Frames(at, m))
    ensures Named(Segment(Some(at), m)) == Erase(Frames(at, m))
  {
    hide StreamTo, ZerosAt, Sent, AllClear;
    SendFrames(es, at, k, m);
  }

  lemma WalkInserts(es: seq<Entry>, n: nat, k: nat, slots: seq<Slot>)
    requires LengthsInRange(es) && AllClear(es) && k < |es| && es[k].kind.Zero? && es[k].offset < n
    requires Walk(es, n, es[k].offset, k, slots)
    ensures Walk(es, n, es[k].offset, k + 1, slots + Inserts(es[k].length, es[k].offset))
    ensures CutsTo(es, n, k + 1) == CutsTo(es, n, k) + [AppliedCut(|slots|, es[k].length, Zero)]
    ensures Named(Segment(None, es[k].length)) == Erase(Inserts(es[k].length, es[k].offset))
  {
    hide StreamTo, ZerosAt, Sent, CutsTo;
    ZeroStep(es, n, es[k].offset, k, 0);
    if k + 1 < |es| {
      assert Clear(es[k], es[k + 1]);
    }
  }

  lemma WalkDrops(es: seq<Entry>, n: nat, k: nat, slots: seq<Slot>)
    requires LengthsInRange(es) && AllClear(es) && k < |es| && es[k].kind.Drop? && es[k].offset < n
    requires Walk(es, n, es[k].offset, k, slots)
    ensures Walk(es, n, Min(es[k].CoveredEnd(), n), k + 1, slots)
    ensures CutsTo(es, n, k + 1) ==
            CutsTo(es, n, k) + [AppliedCut(|slots|, Min(es[k].length, n - es[k].offset), Drop)]
  {
    hide ZerosAt, CutsTo;
    var e := es[k];
    assert LengthInRange(e);
    DiscardFrames(es, e.offset, k, Min(e.CoveredEnd(), n) - e.offset);
    LogGrows(es, n, k);
    if k + 1 < |es| {
      assert Clear(es[k], es[k + 1]);
    }
  }

  lemma WalkEnds(es: seq<Entry>, n: nat, k: nat, slots: seq<Slot>)
    requires LengthsInRange(es) && AllClear(es) && Walk(es, n, n, k, slots)
    requires forall i :: k <= i < |es| ==> n <= es[i].offset
    ensures slots == StreamTo(es, n)
    ensures LogView(CutsTo(es, n, k), |es| - k, Some(|slots|)) == FinalLog(es, n)
  {
    hide StreamTo, ZerosAt, CutsTo, Begun;
    ClearIsOrdered(es);
    BegunIsUnique(es, n, k);
    assert ZerosSent(es, n, k, 0) == 0;
  }

  /** apply(): the reference stream and its cuts, in one pass over the entries. */
  method Apply(es: seq<Entry>, fileFrames: nat) returns (r: HostStream)
    ensures r.Refused? <==> !Valid(es)
    ensures r.Refused? ==> r.verdict == Judge(es)
    ensures r.CutStream? ==>
              && Expand(r.segments) == Erase(StreamTo(es, fileFrames))
              && LogView(r.applied, r.rejected, Some(r.frames)) == FinalLog(es, fileFrames)
  {
    hide StreamTo, ZerosAt, CutsTo, Walk, Begun, WindowsBounded, AllClear, Erase, Expand, Named, FinalLog;
    var verdict := HostJudges(es);
    if !verdict.Accepted? {
      return Refused(verdict);
    }
    ClearIsOrdered(es);
    var segments: seq<Segment> := [];
    var applied: seq<AppliedCut> := [];
    var rejected: nat, at: nat, sent: nat := 0, 0, 0;
    ghost var slots: seq<Slot> := [];
    ghost var k: nat := 0;
    WalkStarts(es, fileFrames);
    WalkInBounds(es, fileFrames, at, k, slots);
    for index := 0 to |es|
      invariant rejected == index - k
      invariant k == index || (forall i :: k <= i < |es| ==> fileFrames <= es[i].offset)
      invariant Walk(es, fileFrames, at, k, slots) && at <= fileFrames && BegunWithin(es, k, fileFrames)
      invariant Expand(segments) == Erase(slots) && sent == |slots|
      invariant applied == CutsTo(es, fileFrames, k)
    {
      var entry := es[index];
      if entry.offset >= fileFrames {
        rejected := rejected + 1;
        assert forall i :: index <= i < |es| ==> fileFrames <= es[i].offset;
        continue;
      }
      assert k == index;
      WalkReaches(es, fileFrames, at, k, slots);
      if entry.offset > at {
        WalkSends(es, fileFrames, at, k, slots, entry.offset - at);
        EraseAppends(slots, Frames(at, entry.offset - at), segments, Segment(Some(at), entry.offset - at));
        slots := slots + Frames(at, entry.offset - at);
        segments := segments + [Segment(Some(at), entry.offset - at)];
        sent := sent + (entry.offset - at);
      }
      at := entry.offset;
      if entry.kind.Zero? {
        WalkInserts(es, fileFrames, k, slots);
        EraseAppends(slots, Inserts(entry.length, at), segments, Segment(None, entry.length));
        applied := applied + [AppliedCut(sent, entry.length, Zero)];
        slots := slots + Inserts(entry.length, at);
        segments := segments + [Segment(None, entry.length)];
        sent := sent + entry.length;
      } else {
        WalkDrops(es, fileFrames, k, slots);
        var skipped := Min(entry.length, fileFrames - at);
        applied := applied + [AppliedCut(sent, skipped, Drop)];
        at := at + skipped;
      }
      k := k + 1;
      WalkInBounds(es, fileFrames, at, k, slots);
    }
    if at < fileFrames {
      WalkSendsRest(es, fileFrames, at, k, slots);
      EraseAppends(slots, Frames(at, fileFrames - at), segments, Segment(Some(at), fileFrames - at));
      slots := slots + Frames(at, fileFrames - at);
      segments := segments + [Segment(Some(at), fileFrames - at)];
      sent := sent + (fileFrames - at);
    }
    WalkEnds(es, fileFrames, k, slots);
    r := CutStream(segments, applied, rejected, sent);
  }

  lemma WalkInBounds(es: seq<Entry>, n: nat, at: nat, k: nat, slots: seq<Slot>)
    requires Walk(es, n, at, k, slots)
    ensures at <= n && BegunWithin(es, k, n)
  {
  }

  /** An entry within the output is never behind the walk, and the walk is not clipped before it. */
  lemma WalkReaches(es: seq<Entry>, n: nat, at: nat, k: nat, slots: seq<Slot>)
    requires Ordered(es) && Walk(es, n, at, k, slots) && k < |es| && es[k].offset < n
    ensures at <= es[k].offset
  {
    if k > 0 {
      assert es[k - 1].CoveredEnd() <= es[k].offset;
    }
  }

  lemma WalkSendsRest(es: seq<Entry>, n: nat, at: nat, k: nat, slots: seq<Slot>)
    requires LengthsInRange(es) && AllClear(es) && Walk(es, n, at, k, slots) && at < n
    requires k < |es| ==> n <= es[k].offset
    ensures Walk(es, n, n, k, slots + Frames(at, n - at))
    ensures Named(Segment(Some(at), n - at)) == Erase(Frames(at, n - at))
  {
    WalkSends(es, n, at, k, slots, n - at);
  }

  // ---------------------------------------------------------------------
  // The two forms of one play

  predicate InRange(names: seq<Option<nat>>, n: nat) {
    forall i :: 0 <= i < |names| && names[i].Some? ==> names[i].value < n
  }

  /** The samples that the host's segments name. */
  function SamplesNamed(names: seq<Option<nat>>, output: seq<int>): (samples: seq<int>)
    requires InRange(names, |output|)
    ensures |samples| == |names|
  {
    seq(|names|, i requires 0 <= i < |names| => if names[i].Some? then output[names[i].value] else 0)
  }

  /**
   The board's play of a schedule, in any blocks and any steps, sends the samples that the
   host's one-shot form names and logs the cuts that it lists, to the last field; and for
   every prefix sent both give one tally, the direct count of what the prefix holds and of the
   entries that took effect in it.
   */
  method BothForms(es: seq<Entry>, blocks: seq<seq<int>>, limits: nat -> StepLimit, sent: Uint32)
    returns (samples: seq<int>, log: LogView, host: HostStream, board: Counts, tally: Option<Counts>)
    requires Valid(es) && |Joined(blocks)| <= UINT32_MAX && |StreamTo(es, |Joined(blocks)|)| <= UINT32_MAX
    ensures host.CutStream? && InRange(Expand(host.segments), |Joined(blocks)|)
    ensures samples == SamplesNamed(Expand(host.segments), Joined(blocks)) && |samples| == host.frames
    ensures log == LogView(host.applied, host.rejected, Some(host.frames))
    ensures tally.Some? <==> sent <= host.frames
    ensures sent <= host.frames == |StreamTo(es, |Joined(blocks)|)| ==>
              && board == tally.value
              && board.zeroFrames == CountInserted(StreamTo(es, |Joined(blocks)|)[..sent])
              && board.outputFrames == Consumed(StreamTo(es, |Joined(blocks)|), |Joined(blocks)|, sent)
              && NamesTheEntries(board, es, |Joined(blocks)|, sent)
    ensures host.frames == |StreamTo(es, |Joined(blocks)|)|
  {
    hide StreamTo, TallyTo, Valid, CountInserted, Consumed, NamesTheEntries;
    ghost var n := |Joined(blocks)|;
    var readings;
    samples, log, readings, board := Play(es, blocks, limits, sent);
    host := Apply(es, |Joined(blocks)|);
    NamesOf(StreamTo(es, n), Joined(blocks));
    tally := HostTally(host.applied, host.rejected, host.frames, sent);
    if sent <= |StreamTo(es, n)| {
      TallyFits(es, n, sent);
      TallyIsTheDirectCount(es, n, sent);
      TallyNamesTheEntries(es, n, sent);
    }
  }

  lemma NamesOf(slots: seq<Slot>, output: seq<int>)
    requires InOutput(slots, |output|)
    ensures InRange(Erase(slots), |output|) && SamplesNamed(Erase(slots), output) == Samples(slots, output)
  {
  }
}
