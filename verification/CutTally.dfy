/**
 The log of a play's cuts and its tally for any prefix confirmed sent
 (CutLog of common/cut_schedule.hpp, tally() of host/cut_schedule.py), against
 a direct count of the stream's prefix.
 */
module CutTally {
  import opened Words
  import opened CutRules
  import opened CutStream

  datatype LogView = LogView(cuts: seq<AppliedCut>, rejected: nat, end: Option<nat>)

  datatype Counts = Counts(applied: nat, dropFrames: nat, zeroFrames: nat, first: Option<nat>,
                         rejected: nat, sent: nat, outputFrames: int)

  predicate WholeStream(log: LogView, sent: nat) {
    log.end == Some(sent)
  }

  /** A cut took effect once a frame at or after its place went out, or the whole stream that ends there. */
  predicate TookEffect(log: LogView, cut: AppliedCut, sent: nat) {
    sent > cut.position || (WholeStream(log, sent) && cut.position == sent)
  }

  /** The zeros sent of a cut, and the frames it dropped. */
  function ZerosCounted(log: LogView, cut: AppliedCut, sent: nat): nat {
    if TookEffect(log, cut, sent) && cut.kind.Zero? then Min(cut.frames, sent - cut.position) else 0
  }

  function DropsCounted(log: LogView, cut: AppliedCut, sent: nat): nat {
    if TookEffect(log, cut, sent) && cut.kind.Drop? then cut.frames else 0
  }

  /** The tally of the log's first `k` cuts; the output frames are what the sent frames cover. */
  function TallyTo(log: LogView, sent: nat, k: nat): (t: Counts)
    requires k <= |log.cuts|
    ensures t.sent == sent && t.outputFrames == sent - t.zeroFrames + t.dropFrames
  {
    if k == 0 then
      Counts(0, 0, 0, None, if WholeStream(log, sent) then log.rejected else 0, sent, sent)
    else
      var t := TallyTo(log, sent, k - 1);
      var cut := log.cuts[k - 1];
      var effect := TookEffect(log, cut, sent);
      var zeros, drops := t.zeroFrames + ZerosCounted(log, cut, sent), t.dropFrames + DropsCounted(log, cut, sent);
      Counts(t.applied + if effect then 1 else 0, drops, zeros,
             if effect && t.first.None? then Some(cut.position) else t.first,
             t.rejected, sent, sent - zeros + drops)
  }

  function TallyOf(log: LogView, sent: nat): Counts {
    TallyTo(log, sent, |log.cuts|)
  }

  /** The log a play of an output of `n` frames ends with. */
  function FinalLog(es: seq<Entry>, n: nat): LogView
    requires AllClear(es)
  {
    ClearIsOrdered(es);
    BegunIsAPrefix(es, n);
    LogView(CutsTo(es, n, Begun(es, n)), |es| - Begun(es, n), Some(|StreamTo(es, n)|))
  }

  // ---------------------------------------------------------------------
  // The direct count

  function CountInserted(slots: seq<Slot>): nat {
    if |slots| == 0 then 0
    else CountInserted(slots[..|slots| - 1]) + if slots[|slots| - 1].Inserted? then 1 else 0
  }

  /** The output frames behind the last frame sent of a stream on `n` output frames: all of them once the whole stream went out. */
  function Consumed(stream: seq<Slot>, n: nat, sent: nat): nat
    requires sent <= |stream|
  {
    if sent == |stream| then n
    else if sent == 0 then 0
    else match stream[sent - 1]
      case Frame(index) => index + 1
      case Inserted(before) => before
  }

  // ---------------------------------------------------------------------
  // Conservation: frames sent, dropped and inserted balance at every output frame

  /** The zeros an entry inserts before frames below `f`, and the frames below `f` it drops. */
  function ZeroPart(e: Entry, f: nat): nat {
    if e.kind.Zero? && e.offset < f then e.length else 0
  }

  function DropPart(e: Entry, f: nat): nat {
    if e.kind.Drop? then Min(e.CoveredEnd(), f) - Min(e.offset, f) else 0
  }

  function ZeroLength(es: seq<Entry>, f: nat, k: nat): nat
    requires k <= |es|
  {
    if k == 0 then 0 else ZeroLength(es, f, k - 1) + ZeroPart(es[k - 1], f)
  }

  function DropLength(es: seq<Entry>, f: nat, k: nat): nat
    requires k <= |es|
  {
    if k == 0 then 0 else DropLength(es, f, k - 1) + DropPart(es[k - 1], f)
  }

  lemma {:induction false} ZeroLengthStep(es: seq<Entry>, f: nat, k: nat)
    requires k <= |es|
    ensures ZeroLength(es, f + 1, k) == ZeroLength(es, f, k) + ZerosAt(es[..k], f)
  {
    if k > 0 {
      ZeroLengthStep(es, f, k - 1);
      assert es[..k][..k - 1] == es[..k - 1];
    }
  }

  lemma {:induction false} DropLengthStep(es: seq<Entry>, f: nat, k: nat)
    requires k <= |es| && Ordered(es)
    ensures DropLength(es, f + 1, k) == DropLength(es, f, k) + if Dropped(es[..k], f) then 1 else 0
  {
    if k > 0 {
      DropLengthStep(es, f, k - 1);
      var e := es[k - 1];
      assert es[..k][k - 1] == e;
      assert forall i :: 0 <= i < k - 1 ==> es[..k][i] == es[..k - 1][i];
      if DroppedBy(e, f) {
        assert DroppedBy(es[..k][k - 1], f);
        forall i | 0 <= i < k - 1 ensures !DroppedBy(es[i], f) {
          assert es[i].CoveredEnd() <= e.offset;
        }
      } else if Dropped(es[..k - 1], f) {
        var i :| 0 <= i < k - 1 && DroppedBy(es[..k - 1][i], f);
        assert DroppedBy(es[..k][i], f);
      }
    }
  }

  lemma {:induction false} InsertedAdds(a: seq<Slot>, b: seq<Slot>)
    ensures CountInserted(a + b) == CountInserted(a) + CountInserted(b)
  {
    if |b| == 0 {
      assert a + b == a;
    } else {
      InsertedAdds(a, b[..|b| - 1]);
      assert (a + b)[..|a + b| - 1] == a + b[..|b| - 1];
    }
  }

  lemma {:induction false} InsertsAreInserted(count: nat, f: nat)
    ensures CountInserted(Inserts(count, f)) == count
  {
    if count > 0 {
      InsertsAreInserted(count - 1, f);
      assert Inserts(count, f)[..count - 1] == Inserts(count - 1, f);
    }
  }

  lemma {:induction false} Conservation(es: seq<Entry>, f: nat)
    requires Ordered(es)
    ensures CountInserted(StreamTo(es, f)) == ZeroLength(es, f, |es|)
    ensures |StreamTo(es, f)| + DropLength(es, f, |es|) == f + ZeroLength(es, f, |es|)
  {
    if f == 0 {
      NothingBelowZero(es, |es|);
    } else {
      var g := f - 1;
      Conservation(es, g);
      ZeroLengthStep(es, g, |es|);
      DropLengthStep(es, g, |es|);
      assert es[..|es|] == es;
      var kept := if Dropped(es, g) then [] else [Frame(g)];
      InsertedAdds(StreamTo(es, g), SlotsAt(es, g));
      InsertedAdds(Inserts(ZerosAt(es, g), g), kept);
      InsertsAreInserted(ZerosAt(es, g), g);
      assert CountInserted(kept) == 0;
    }
  }

  lemma {:induction false} NothingBelowZero(es: seq<Entry>, k: nat)
    requires k <= |es|
    ensures ZeroLength(es, 0, k) == 0 && DropLength(es, 0, k) == 0
  {
    if k > 0 {
      NothingBelowZero(es, k - 1);
    }
  }

  /** Entries that begin at or after frame `f` neither insert nor drop below it. */
  lemma {:induction false} LaterEntriesAddNothing(es: seq<Entry>, f: nat, k: nat, m: nat)
    requires k <= m <= |es| && forall i :: k <= i < m ==> f <= es[i].offset
    ensures ZeroLength(es, f, m) == ZeroLength(es, f, k)
    ensures DropLength(es, f, m) == DropLength(es, f, k)
    decreases m
  {
    if k < m {
      LaterEntriesAddNothing(es, f, k, m - 1);
    }
  }

  // ---------------------------------------------------------------------
  // Which cuts a prefix holds

  /** The output frame whose slots hold the last of the first `sent` stream frames. */
  lemma {:induction false} FrameOfLast(es: seq<Entry>, n: nat, sent: nat) returns (f: nat)
    requires 0 < sent <= |StreamTo(es, n)|
    ensures f < n && |StreamTo(es, f)| < sent <= |StreamTo(es, f + 1)|
  {
    if |StreamTo(es, n - 1)| < sent {
      f := n - 1;
    } else {
      f := FrameOfLast(es, n - 1, sent);
    }
  }

  lemma ZeroTakesItsPlace(es: seq<Entry>, i: nat)
    requires AllClear(es) && i < |es| && es[i].kind.Zero?
    ensures |StreamTo(es, es[i].offset)| + es[i].length <= |StreamTo(es, es[i].offset + 1)|
  {
    TheZeroAt(es, i);
  }

  /** Within a DROP, past its first frame, the stream stands still. */
  lemma DroppedFrameHasNoSlots(es: seq<Entry>, i: nat, f: nat)
    requires AllClear(es) && i < |es| && es[i].kind.Drop? && es[i].offset < f < es[i].CoveredEnd()
    ensures |StreamTo(es, f + 1)| == |StreamTo(es, f)|
  {
    assert DroppedBy(es[i], f);
    forall j | 0 <= j < |es| ensures !(es[j].kind.Zero? && es[j].offset == f) {
      if j < i {
        assert Clear(es[j], es[i]);
      } else if i < j {
        assert Clear(es[i], es[j]);
      }
    }
    NoZerosAt(es, f);
  }

  /** Against the frame `f` of the last slot sent: which side of it cut `i` takes effect on. */
  lemma CutAgainstFrame(es: seq<Entry>, n: nat, i: nat, f: nat, sent: nat)
    requires AllClear(es) && i < |es| && es[i].offset < n && f < n
    requires |StreamTo(es, f)| < sent <= |StreamTo(es, f + 1)|
    ensures es[i].kind.Zero? && es[i].offset < f ==> CutAt(es, n, i).position + es[i].length < sent
    ensures es[i].kind.Zero? && es[i].offset == f ==> CutAt(es, n, i).position == |StreamTo(es, f)|
    ensures es[i].kind.Zero? && es[i].offset > f ==> sent <= CutAt(es, n, i).position
    ensures es[i].kind.Drop? && es[i].offset < f ==> es[i].CoveredEnd() <= f && CutAt(es, n, i).position < sent
    ensures es[i].kind.Drop? && es[i].offset >= f && es[i].length > 0 ==> sent <= CutAt(es, n, i).position
  {
    var e := es[i];
    if e.kind.Zero? {
      if e.offset < f {
        ZeroTakesItsPlace(es, i);
        StreamGrows(es, e.offset + 1, f);
      } else if f < e.offset {
        StreamGrows(es, f + 1, e.offset);
      }
    } else if e.offset < f {
      if f < e.CoveredEnd() {
        DroppedFrameHasNoSlots(es, i, f);
      }
      StreamGrows(es, e.CoveredEnd(), f);
    } else if e.length > 0 {
      StreamGrows(es, f + 1, Min(e.CoveredEnd(), n));
    }
  }

  ghost predicate ZeroAmong(es: seq<Entry>, f: nat, k: nat)
    requires k <= |es|
  {
    exists i :: 0 <= i < k && IsZeroAt(es[i], f)
  }

  ghost predicate IsFinalLog(log: LogView, es: seq<Entry>, n: nat) {
    && |log.cuts| <= |es|
    && log.end == Some(|StreamTo(es, n)|)
    && forall i :: 0 <= i < |log.cuts| ==> es[i].offset < n && log.cuts[i] == CutAt(es, n, i)
  }

  predicate IsZeroAt(e: Entry, f: nat) {
    e.kind.Zero? && e.offset == f
  }

  /** Summing per-cut counts: what each entry puts below `f`, and `here` for the one ZERO at `f`. */
  lemma {:induction false} SumCounts(log: LogView, es: seq<Entry>, f: nat, sent: nat, here: nat, k: nat)
    requires AllClear(es) && k <= |log.cuts| <= |es|
    requires forall i :: 0 <= i < |log.cuts| ==>
               DropsCounted(log, log.cuts[i], sent) == DropPart(es[i], f)
    requires forall i :: 0 <= i < |log.cuts| ==>
               ZerosCounted(log, log.cuts[i], sent) ==
               ZeroPart(es[i], f) + if IsZeroAt(es[i], f) then here else 0
    ensures TallyTo(log, sent, k).dropFrames == DropLength(es, f, k)
    ensures TallyTo(log, sent, k).zeroFrames == ZeroLength(es, f, k) + if ZeroAmong(es, f, k) then here else 0
  {
    if k > 0 {
      var i := k - 1;
      SumCounts(log, es, f, sent, here, i);
      if IsZeroAt(es[i], f) {
        forall j | 0 <= j < i ensures !IsZeroAt(es[j], f) {
          assert Clear(es[j], es[i]);
        }
        assert ZeroAmong(es, f, k) && !ZeroAmong(es, f, i);
      } else {
        assert ZeroAmong(es, f, k) == ZeroAmong(es, f, i);
      }
    }
  }

  /** Part way: the zeros and drops below frame `f` count in full, and of the ZERO at `f` the zeros sent. */
  lemma TallyPartWay(log: LogView, es: seq<Entry>, n: nat, f: nat, sent: nat, here: nat)
    requires LengthsInRange(es) && AllClear(es) && IsFinalLog(log, es, n) && f < n
    requires |StreamTo(es, f)| < sent <= |StreamTo(es, f + 1)| && !WholeStream(log, sent)
    requires here == Min(ZerosAt(es, f), sent - |StreamTo(es, f)|)
    ensures TallyOf(log, sent).dropFrames == DropLength(es, f, |log.cuts|)
    ensures TallyOf(log, sent).zeroFrames ==
            ZeroLength(es, f, |log.cuts|) + if ZeroAmong(es, f, |log.cuts|) then here else 0
  {
    forall i | 0 <= i < |log.cuts|
      ensures DropsCounted(log, log.cuts[i], sent) == DropPart(es[i], f)
      ensures ZerosCounted(log, log.cuts[i], sent) ==
              ZeroPart(es[i], f) + if IsZeroAt(es[i], f) then here else 0
    {
      CountedPartWay(log, es, n, f, sent, i);
    }
    SumCounts(log, es, f, sent, here, |log.cuts|);
  }

  /** What one cut adds part way. */
  lemma CountedPartWay(log: LogView, es: seq<Entry>, n: nat, f: nat, sent: nat, i: nat)
    requires LengthsInRange(es) && AllClear(es) && IsFinalLog(log, es, n) && i < |log.cuts| && f < n
    requires |StreamTo(es, f)| < sent <= |StreamTo(es, f + 1)| && !WholeStream(log, sent)
    ensures DropsCounted(log, log.cuts[i], sent) == DropPart(es[i], f)
    ensures ZerosCounted(log, log.cuts[i], sent) ==
            ZeroPart(es[i], f) +
            if es[i].kind.Zero? && es[i].offset == f then Min(ZerosAt(es, f), sent - |StreamTo(es, f)|) else 0
  {
    hide StreamTo, ZerosAt, AllClear;
    CutAgainstFrame(es, n, i, f, sent);
    assert LengthInRange(es[i]);
    if es[i].kind.Zero? && es[i].offset == f {
      TheZeroAt(es, i);
    }
  }

  /** At the whole stream's end every cut begun counts in full. */
  lemma {:induction false} TallyAtEnd(log: LogView, es: seq<Entry>, n: nat, k: nat)
    requires AllClear(es) && IsFinalLog(log, es, n) && k <= |log.cuts|
    ensures TallyTo(log, |StreamTo(es, n)|, k).applied == k
    ensures TallyTo(log, |StreamTo(es, n)|, k).dropFrames == DropLength(es, n, k)
    ensures TallyTo(log, |StreamTo(es, n)|, k).zeroFrames == ZeroLength(es, n, k)
  {
    hide StreamTo, IsFinalLog;
    if k > 0 {
      TallyAtEnd(log, es, n, k - 1);
      CountedAtEnd(log, es, n, k - 1);
    }
  }

  lemma CountedAtEnd(log: LogView, es: seq<Entry>, n: nat, i: nat)
    requires AllClear(es) && IsFinalLog(log, es, n) && i < |log.cuts|
    ensures TookEffect(log, log.cuts[i], |StreamTo(es, n)|)
    ensures DropsCounted(log, log.cuts[i], |StreamTo(es, n)|) == DropPart(es[i], n)
    ensures ZerosCounted(log, log.cuts[i], |StreamTo(es, n)|) == ZeroPart(es[i], n)
  {
    hide StreamTo, AllClear;
    var e := es[i];
    if e.kind.Zero? {
      ZeroTakesItsPlace(es, i);
      StreamGrows(es, e.offset + 1, n);
    } else {
      StreamGrows(es, Min(e.CoveredEnd(), n), n);
    }
  }

  lemma {:induction false} TallyOfNothing(log: LogView, k: nat)
    requires k <= |log.cuts| && log.end != Some(0)
    ensures TallyTo(log, 0, k).zeroFrames == 0 && TallyTo(log, 0, k).dropFrames == 0
  {
    if k > 0 {
      TallyOfNothing(log, k - 1);
    }
  }

  lemma {:induction false} TallyRejected(log: LogView, sent: nat, k: nat)
    requires k <= |log.cuts|
    ensures TallyTo(log, sent, k).rejected == if WholeStream(log, sent) then log.rejected else 0
  {
    if k > 0 {
      TallyRejected(log, sent, k - 1);
    }
  }

  lemma FinalLogIsFinal(es: seq<Entry>, n: nat)
    requires AllClear(es)
    ensures IsFinalLog(FinalLog(es, n), es, n)
    ensures FinalLog(es, n).rejected == |es| - |FinalLog(es, n).cuts|
    ensures forall i :: |FinalLog(es, n).cuts| <= i < |es| ==> n <= es[i].offset
  {
    ClearIsOrdered(es);
    BegunIsAPrefix(es, n);
  }

  /**
   For every prefix: the tally's zeros are the zeros in that prefix, and its output
   frames are those behind the prefix's last frame. Over the whole stream they are
   the output's length.
   */
  lemma TallyIsTheDirectCount(es: seq<Entry>, n: nat, sent: nat)
    requires Valid(es) && sent <= |StreamTo(es, n)|
    ensures TallyOf(FinalLog(es, n), sent).zeroFrames == CountInserted(StreamTo(es, n)[..sent])
    ensures TallyOf(FinalLog(es, n), sent).outputFrames == Consumed(StreamTo(es, n), n, sent)
    ensures sent == |StreamTo(es, n)| ==>
              && TallyOf(FinalLog(es, n), sent).outputFrames == n
              && TallyOf(FinalLog(es, n), sent).applied + TallyOf(FinalLog(es, n), sent).rejected == |es|
  {
    hide StreamTo, ZerosAt, CutsTo, TallyTo, Begun, WindowsBounded, FinalLog, ZeroLength, DropLength;
    var log := FinalLog(es, n);
    var stream := StreamTo(es, n);
    var begun := |log.cuts|;
    ClearIsOrdered(es);
    FinalLogIsFinal(es, n);
    if sent == |stream| {
      TallyAtEnd(log, es, n, begun);
      LaterEntriesAddNothing(es, n, begun, |es|);
      Conservation(es, n);
      assert stream[..sent] == stream;
      TallyRejected(log, sent, begun);
    } else if sent == 0 {
      TallyOfNothing(log, begun);
    } else {
      var f := FrameOfLast(es, n, sent);
      PrefixCounts(es, n, f, sent);
      TallyPartWay(log, es, n, f, sent, Min(ZerosAt(es, f), sent - |StreamTo(es, f)|));
      LaterEntriesAddNothing(es, f, begun, |es|);
      if !ZeroAmong(es, f, begun) {
        forall i | 0 <= i < |es| ensures !IsZeroAt(es[i], f) {
        }
        NoZerosAt(es, f);
      }
    }
  }

  // ---------------------------------------------------------------------
  // Which entries took effect, and where

  /** The stream's slots of output frames below `f`: those frames, and the zeros before them. */
  function Below(slots: seq<Slot>, f: nat): (count: nat)
    ensures count <= |slots|
  {
    if slots == [] then 0
    else
      var last := slots[|slots| - 1];
      Below(slots[..|slots| - 1], f) + if (if last.Frame? then last.index else last.before) < f then 1 else 0
  }

  /** Where an entry stands in the stream: a ZERO before the zeros it puts at its offset, a DROP where the frames it covers would end. */
  function Place(es: seq<Entry>, n: nat, i: nat): nat
    requires i < |es|
  {
    Below(StreamTo(es, n), if es[i].kind.Zero? then es[i].offset else es[i].offset + es[i].length)
  }

  /** An entry that begins in the output took effect once a slot at or past its place went out, or the whole stream did. */
  predicate Effective(es: seq<Entry>, n: nat, sent: nat, i: nat)
    requires i < |es|
  {
    es[i].offset < n && (Place(es, n, i) < sent || sent == |StreamTo(es, n)|)
  }

  lemma {:induction false} BelowAdds(a: seq<Slot>, b: seq<Slot>, f: nat)
    ensures Below(a + b, f) == Below(a, f) + Below(b, f)
  {
    if b == [] {
      assert a + b == a;
    } else {
      BelowAdds(a, b[..|b| - 1], f);
      assert (a + b)[..|a + b| - 1] == a + b[..|b| - 1];
    }
  }

  lemma {:induction false} AllOrNoneBelow(slots: seq<Slot>, g: nat, f: nat)
    requires forall i :: 0 <= i < |slots| ==> (if slots[i].Frame? then slots[i].index else slots[i].before) == g
    ensures Below(slots, f) == if g < f then |slots| else 0
  {
    if slots != [] {
      AllOrNoneBelow(slots[..|slots| - 1], g, f);
    }
  }

  lemma StreamStep(es: seq<Entry>, n: nat, f: nat)
    ensures StreamTo(es, n + 1) == StreamTo(es, n) + SlotsAt(es, n)
    ensures Below(SlotsAt(es, n), f) == if n < f then |SlotsAt(es, n)| else 0
  {
    hide ZerosAt, Dropped;
    AllOrNoneBelow(SlotsAt(es, n), n, f);
  }

  lemma NothingBelow(es: seq<Entry>, f: nat)
    ensures StreamTo(es, 0) == [] && Below(StreamTo(es, 0), f) == 0
  {
  }

  /** The slots below an output frame are the stream up to it. */
  lemma {:induction false} BelowIsTheStreamTo(es: seq<Entry>, n: nat, f: nat)
    ensures Below(StreamTo(es, n), f) == |StreamTo(es, Min(f, n))|
  {
    hide StreamTo, SlotsAt, Below;
    if n == 0 {
      NothingBelow(es, f);
    } else {
      BelowIsTheStreamTo(es, n - 1, f);
      StreamStep(es, n - 1, f);
      BelowAdds(StreamTo(es, n - 1), SlotsAt(es, n - 1), f);
    }
  }

  lemma CutAtIsInPlace(es: seq<Entry>, n: nat, i: nat)
    requires i < |es| && es[i].offset < n
    ensures var cut := CutAt(es, n, i);
            && cut.position == Place(es, n, i) && cut.kind == es[i].kind
            && cut.frames == if es[i].kind.Zero? then es[i].length else Min(es[i].length, n - es[i].offset)
  {
    hide StreamTo, Below;
    BelowIsTheStreamTo(es, n, if es[i].kind.Zero? then es[i].offset else es[i].offset + es[i].length);
  }

  /** The log of a whole play lists the entries that begin in the output, each at its place in the stream. */
  lemma CutsAreInPlace(es: seq<Entry>, n: nat, i: nat)
    requires AllClear(es) && i < |FinalLog(es, n).cuts|
    ensures i < |es| && es[i].offset < n
    ensures var cut := FinalLog(es, n).cuts[i];
            && cut.position == Place(es, n, i) && cut.kind == es[i].kind
            && cut.frames == if es[i].kind.Zero? then es[i].length else Min(es[i].length, n - es[i].offset)
  {
    hide StreamTo, FinalLog, Place, CutAt;
    FinalLogIsFinal(es, n);
    CutAtIsInPlace(es, n, i);
  }

  /** Later entries stand no earlier in the stream. */
  lemma PlacesAscend(es: seq<Entry>, n: nat, i: nat, j: nat)
    requires AllClear(es) && i < j < |es|
    ensures Place(es, n, i) <= Place(es, n, j)
  {
    hide Below;
    var f, g := if es[i].kind.Zero? then es[i].offset else es[i].CoveredEnd(), if es[j].kind.Zero? then es[j].offset else es[j].CoveredEnd();
    assert Clear(es[i], es[j]);
    BelowIsTheStreamTo(es, n, f);
    BelowIsTheStreamTo(es, n, g);
    StreamGrows(es, Min(f, n), Min(g, n));
  }

  /** If only a first part of the cuts took effect, they are counted, and the first of them is the first reported. */
  lemma {:induction false} CountsTheFirst(log: LogView, sent: nat, k: nat)
    requires k <= |log.cuts|
    requires forall i, j :: 0 <= i < j < |log.cuts| && TookEffect(log, log.cuts[j], sent) ==> TookEffect(log, log.cuts[i], sent)
    ensures var t := TallyTo(log, sent, k);
            && t.applied <= k && (forall i :: 0 <= i < k ==> (TookEffect(log, log.cuts[i], sent) <==> i < t.applied))
            && t.first == if t.applied == 0 then None else Some(log.cuts[0].position)
  {
    hide TookEffect;
    if k > 0 {
      CountsTheFirst(log, sent, k - 1);
    }
  }

  /** A logged cut took effect exactly when its entry did. */
  lemma CutsTakeEffect(es: seq<Entry>, n: nat, sent: nat, i: nat)
    requires AllClear(es) && sent <= |StreamTo(es, n)| && i < |es|
    ensures |FinalLog(es, n).cuts| <= |es|
    ensures i < |FinalLog(es, n).cuts| ==>
              (TookEffect(FinalLog(es, n), FinalLog(es, n).cuts[i], sent) <==> Effective(es, n, sent, i))
    ensures i >= |FinalLog(es, n).cuts| ==> !Effective(es, n, sent, i) && es[i].offset >= n
  {
    FinalLogIsFinal(es, n);
    if i < |FinalLog(es, n).cuts| {
      CutsAreInPlace(es, n, i);
    }
    hide StreamTo, FinalLog, Below;
  }

  ghost predicate NamesTheEntries(t: Counts, es: seq<Entry>, n: nat, sent: nat) {
    && t.applied <= |es| && (forall i :: 0 <= i < |es| ==> (Effective(es, n, sent, i) <==> i < t.applied))
    && (t.first.None? <==> forall i :: 0 <= i < |es| ==> !Effective(es, n, sent, i))
    && (t.first.Some? ==> es != [] && t.first.value == Place(es, n, 0))
    && t.rejected <= |es|
    && (if sent == |StreamTo(es, n)| then forall i :: 0 <= i < |es| ==> (n <= es[i].offset <==> |es| - t.rejected <= i)
        else t.rejected == 0)
  }

  /**
   For every prefix: the entries counted as applied are the first ones of the schedule, just those
   that took effect; the first position is the place of the schedule's first entry, once there is
   one; and the entries rejected are just those past the output's end, once the whole stream went out.
   */
  lemma TallyNamesTheEntries(es: seq<Entry>, n: nat, sent: nat)
    requires Valid(es) && sent <= |StreamTo(es, n)|
    ensures NamesTheEntries(TallyOf(FinalLog(es, n), sent), es, n, sent)
  {
    hide StreamTo, WindowsBounded, FinalLog, Below, TallyTo;
    var log := FinalLog(es, n);
    FinalLogIsFinal(es, n);
    forall i | 0 <= i < |es|
      ensures i < |log.cuts| ==> (TookEffect(log, log.cuts[i], sent) <==> Effective(es, n, sent, i))
      ensures i >= |log.cuts| ==> !Effective(es, n, sent, i) && es[i].offset >= n
    {
      CutsTakeEffect(es, n, sent, i);
    }
    forall i, j | 0 <= i < j < |log.cuts| && TookEffect(log, log.cuts[j], sent)
      ensures TookEffect(log, log.cuts[i], sent)
    {
      PlacesAscend(es, n, i, j);
    }
    CountsTheFirst(log, sent, |log.cuts|);
    TallyRejected(log, sent, |log.cuts|);
    if |log.cuts| > 0 {
      CutsAreInPlace(es, n, 0);
    }
  }

  /** The first `j` slots of output frame `f`: its zeros first, then the frame. */
  lemma PartCounts(es: seq<Entry>, f: nat, j: nat)
    requires 0 < j <= |SlotsAt(es, f)|
    ensures CountInserted(SlotsAt(es, f)[..j]) == Min(ZerosAt(es, f), j)
    ensures SlotsAt(es, f)[j - 1] == if j <= ZerosAt(es, f) then Inserted(f) else Frame(f)
  {
    var zeros := ZerosAt(es, f);
    var part := SlotsAt(es, f)[..j];
    if j <= zeros {
      assert part == Inserts(j, f);
      InsertsAreInserted(j, f);
    } else {
      assert part == Inserts(zeros, f) + [Frame(f)];
      InsertsAreInserted(zeros, f);
      InsertedAdds(Inserts(zeros, f), [Frame(f)]);
      assert CountInserted([Frame(f)]) == 0;
    }
  }

  lemma PrefixSplits(es: seq<Entry>, n: nat, f: nat, sent: nat)
    requires f < n && sent < |StreamTo(es, n)|
    requires |StreamTo(es, f)| < sent <= |StreamTo(es, f + 1)|
    ensures 0 < sent - |StreamTo(es, f)| <= |SlotsAt(es, f)|
    ensures StreamTo(es, n)[..sent] == StreamTo(es, f) + SlotsAt(es, f)[..sent - |StreamTo(es, f)|]
    ensures StreamTo(es, n)[sent - 1] == SlotsAt(es, f)[sent - |StreamTo(es, f)| - 1]
  {
    StreamGrows(es, f + 1, n);
    var whole, upTo := StreamTo(es, n), StreamTo(es, f + 1);
    assert upTo == StreamTo(es, f) + SlotsAt(es, f);
    assert whole[..sent] == upTo[..sent];
    assert whole[sent - 1] == whole[..sent][sent - 1] == upTo[sent - 1];
  }

  /** The direct counts of a prefix whose last slot is of output frame `f`. */
  lemma PrefixCounts(es: seq<Entry>, n: nat, f: nat, sent: nat)
    requires Ordered(es) && f < n && sent < |StreamTo(es, n)|
    requires |StreamTo(es, f)| < sent <= |StreamTo(es, f + 1)|
    ensures CountInserted(StreamTo(es, n)[..sent]) ==
            ZeroLength(es, f, |es|) + Min(ZerosAt(es, f), sent - |StreamTo(es, f)|)
    ensures Consumed(StreamTo(es, n), n, sent) ==
            sent - CountInserted(StreamTo(es, n)[..sent]) + DropLength(es, f, |es|)
  {
    var j := sent - |StreamTo(es, f)|;
    Conservation(es, f);
    PrefixSplits(es, n, f, sent);
    PartCounts(es, f, j);
    InsertedAdds(StreamTo(es, f), SlotsAt(es, f)[..j]);
  }

  // ---------------------------------------------------------------------
  // A tally taken while the play runs

  /** A log read mid-run: part of the final one, whose other cuts lie at or past what was queued. */
  ghost predicate MidRun(reading: LogView, queued: nat, final: LogView) {
    && reading.end.None?
    && reading.cuts <= final.cuts
    && forall i :: |reading.cuts| <= i < |final.cuts| ==> queued <= final.cuts[i].position
  }

  lemma {:induction false} LaterCutsDoNotCount(log: LogView, sent: nat, k: nat, m: nat)
    requires k <= m <= |log.cuts| && !WholeStream(log, sent)
    requires forall i :: k <= i < m ==> sent <= log.cuts[i].position
    ensures TallyTo(log, sent, m) == TallyTo(log, sent, k)
    decreases m
  {
    if k < m {
      LaterCutsDoNotCount(log, sent, k, m - 1);
    }
  }

  lemma {:induction false} SameCutsSameTally(a: LogView, b: LogView, sent: nat, k: nat)
    requires k <= |a.cuts| && k <= |b.cuts| && a.cuts[..k] == b.cuts[..k]
    requires !WholeStream(a, sent) && !WholeStream(b, sent)
    ensures TallyTo(a, sent, k) == TallyTo(b, sent, k)
  {
    if k > 0 {
      assert a.cuts[..k][..k - 1] == a.cuts[..k - 1] && b.cuts[..k][..k - 1] == b.cuts[..k - 1];
      SameCutsSameTally(a, b, sent, k - 1);
      assert a.cuts[..k][k - 1] == a.cuts[k - 1] && b.cuts[..k][k - 1] == b.cuts[k - 1];
    }
  }

  /** A tally of frames already queued, short of the stream's end, is already the final one. */
  lemma MidRunTallyIsFinal(reading: LogView, queued: nat, final: LogView, sent: nat)
    requires MidRun(reading, queued, final) && sent <= queued && final.end.Some? && sent < final.end.value
    ensures TallyOf(reading, sent) == TallyOf(final, sent)
  {
    LaterCutsDoNotCount(final, sent, |reading.cuts|, |final.cuts|);
    SameCutsSameTally(reading, final, sent, |reading.cuts|);
  }

  // ---------------------------------------------------------------------
  // The two implementations

  /** The value a 32-bit counter holds. */
  function Wrap(x: int): Uint32 {
    x % 0x1_0000_0000
  }

  lemma WrapAdds(a: int, b: int)
    ensures Wrap(Wrap(a) + b) == Wrap(a + b)
  {
  }

  lemma WrapOfDifference(sent: int, zeros: int, drops: int)
    ensures Wrap(sent - Wrap(zeros) + Wrap(drops)) == Wrap(sent - zeros + drops)
  {
    WrapAdds(zeros, -sent - Wrap(drops));
    WrapAdds(drops, sent - zeros);
  }

  /** The tally as the board's 32-bit counters hold it. */
  function Wrapped(t: Counts): Counts {
    t.(dropFrames := Wrap(t.dropFrames), zeroFrames := Wrap(t.zeroFrames), outputFrames := Wrap(t.outputFrames))
  }

  lemma {:induction false} InsertedFit(slots: seq<Slot>)
    ensures CountInserted(slots) <= |slots|
    decreases |slots|
  {
    if slots != [] {
      InsertedFit(slots[..|slots| - 1]);
    }
  }

  lemma ConsumedFits(es: seq<Entry>, n: nat, sent: nat)
    requires sent <= |StreamTo(es, n)|
    ensures Consumed(StreamTo(es, n), n, sent) <= n
  {
    StreamFramesInRange(es, n);
  }

  /** While output and stream fit 32 bits, no counter of the board's tally wraps, for any prefix sent. */
  lemma TallyFits(es: seq<Entry>, n: nat, sent: nat)
    requires Valid(es) && n <= UINT32_MAX && sent <= |StreamTo(es, n)| <= UINT32_MAX
    ensures Wrapped(TallyOf(FinalLog(es, n), sent)) == TallyOf(FinalLog(es, n), sent)
  {
    hide StreamTo, FinalLog, TallyTo, Valid;
    TallyIsTheDirectCount(es, n, sent);
    InsertedFit(StreamTo(es, n)[..sent]);
    ConsumedFits(es, n, sent);
  }

  /** count(): adds `cut`, which took effect, to a tally the board holds. */
  function Count(cut: AppliedCut, tally: Counts): Counts
    requires cut.kind.Zero? ==> cut.position <= tally.sent
  {
    var counted := tally.(applied := tally.applied + 1,
                          first := if tally.first.None? then Some(cut.position) else tally.first);
    if cut.kind.Drop? then
      counted.(dropFrames := Wrap(tally.dropFrames + cut.frames))
    else
      counted.(zeroFrames := Wrap(tally.zeroFrames + Min(cut.frames, tally.sent - cut.position)))
  }

  lemma CountIsATallyStep(log: LogView, sent: nat, k: nat)
    requires k < |log.cuts|
    ensures var cut := log.cuts[k];
            Wrapped(TallyTo(log, sent, k + 1)).(outputFrames := sent) ==
            if TookEffect(log, cut, sent) then Count(cut, Wrapped(TallyTo(log, sent, k)).(outputFrames := sent))
            else Wrapped(TallyTo(log, sent, k)).(outputFrames := sent)
  {
    var t := TallyTo(log, sent, k);
    var cut := log.cuts[k];
    WrapAdds(t.dropFrames, cut.frames);
    WrapAdds(t.zeroFrames, Min(cut.frames, sent - cut.position));
  }

  class CutLog {
    var cuts: seq<AppliedCut>
    var rejected: nat
    var streamEnd: Uint32
    var ended: bool

    ghost predicate Valid()
      reads this
    {
      |cuts| <= MAX_ENTRIES && forall i :: 0 <= i < |cuts| ==> cuts[i].position <= UINT32_MAX
    }

    function View(): LogView
      reads this
    {
      LogView(cuts, rejected, if ended then Some(streamEnd as nat) else None)
    }

    constructor ()
      ensures Valid() && View() == LogView([], 0, None)
    {
      cuts, rejected, streamEnd, ended := [], 0, 0, false;
    }

    /** Keeps a cut that took effect; false, changing nothing, when the log is full. */
    method Record(cut: AppliedCut) returns (kept: bool)
      requires Valid() && cut.position <= UINT32_MAX
      modifies this
      ensures Valid()
      ensures kept <==> |old(cuts)| < MAX_ENTRIES
      ensures View() == old(View()).(cuts := if kept then old(cuts) + [cut] else old(cuts))
    {
      if |cuts| == MAX_ENTRIES {
        return false;
      }
      cuts := cuts + [cut];
      return true;
    }

    method Reject(entries: nat)
      requires Valid()
      modifies this
      ensures Valid() && View() == old(View()).(rejected := old(rejected) + entries)
    {
      rejected := rejected + entries;
    }

    method End(stream: Uint32)
      requires Valid()
      modifies this
      ensures Valid() && View() == old(View()).(end := Some(stream))
    {
      streamEnd, ended := stream, true;
    }

    method Tally(sent: Uint32) returns (tally: Counts)
      requires Valid()
      ensures tally == Wrapped(TallyOf(View(), sent))
    {
      ghost var log := View();
      var whole := ended && sent == streamEnd;
      tally := Counts(0, 0, 0, None, if whole then rejected else 0, sent, sent);
      for k := 0 to |cuts|
        invariant tally == Wrapped(TallyTo(log, sent, k)).(outputFrames := sent)
      {
        CountIsATallyStep(log, sent, k);
        var cut := cuts[k];
        if sent > cut.position || (whole && cut.position == streamEnd) {
          tally := Count(cut, tally);
        }
      }
      ghost var exact := TallyOf(log, sent);
      WrapOfDifference(sent, exact.zeroFrames, exact.dropFrames);
      tally := tally.(outputFrames := Wrap(sent - tally.zeroFrames + tally.dropFrames));
    }
  }

  /** tally() of host/cut_schedule.py, on a whole stream of `frames` frames; none for a prefix longer than it. */
  method HostTally(applied: seq<AppliedCut>, rejected: nat, frames: nat, sent: int) returns (tally: Option<Counts>)
    ensures tally.None? <==> !(0 <= sent <= frames)
    ensures tally.Some? ==> tally.value == TallyOf(LogView(applied, rejected, Some(frames)), sent)
  {
    if !(0 <= sent <= frames) {
      return None;
    }
    ghost var log := LogView(applied, rejected, Some(frames));
    var count, dropFrames, zeroFrames: nat := 0, 0, 0;
    var first: Option<nat> := None;
    for k := 0 to |applied|
      invariant count == TallyTo(log, sent, k).applied && first == TallyTo(log, sent, k).first
      invariant dropFrames == TallyTo(log, sent, k).dropFrames
      invariant zeroFrames == TallyTo(log, sent, k).zeroFrames
      invariant TallyTo(log, sent, k).rejected == if sent == frames then rejected else 0
    {
      var cut := applied[k];
      if !(sent > cut.position || (sent == frames && cut.position == frames)) {
        continue;
      }
      count := count + 1;
      first := if first.None? then Some(cut.position) else first;
      if cut.kind.Drop? {
        dropFrames := dropFrames + cut.frames;
      } else {
        zeroFrames := zeroFrames + Min(cut.frames, sent - cut.position);
      }
    }
    return Some(Counts(count, dropFrames, zeroFrames, first, if sent == frames then rejected else 0,
                      sent, sent - zeroFrames + dropFrames));
  }
}
