/**
 The cut stream, frame by frame: what a schedule makes of an engine output, said
 without any order of work. Before output frame f stand the zeros of the ZERO at
 f; then the frame itself, unless a DROP covers it. The stage and the host's
 one-shot form are both proved against this.
 */
module CutStream {
  import opened Words
  import opened CutRules

  /** One frame of the stream: an inserted zero before an output frame, or an output frame. */
  datatype Slot = Inserted(before: nat) | Frame(index: nat)

  /** A cut as it took effect: the stream's frames before it, and its zeros or its discarded frames. */
  datatype AppliedCut = AppliedCut(position: nat, frames: nat, kind: Kind)

  function Inserts(count: nat, before: nat): (slots: seq<Slot>)
    ensures |slots| == count
  {
    seq(count, _ => Inserted(before))
  }

  function Frames(first: nat, count: nat): (slots: seq<Slot>)
    ensures |slots| == count
  {
    seq(count, i requires 0 <= i => Frame(first + i))
  }

  /** The zeros that ZEROs put before output frame `f`. */
  function ZerosAt(es: seq<Entry>, f: nat): nat {
    if |es| == 0 then 0
    else
      var last := es[|es| - 1];
      ZerosAt(es[..|es| - 1], f) + if last.kind.Zero? && last.offset == f then last.length else 0
  }

  function SlotsAt(es: seq<Entry>, f: nat): seq<Slot> {
    Inserts(ZerosAt(es, f), f) + if Dropped(es, f) then [] else [Frame(f)]
  }

  /** The stream of the output's first `f` frames. */
  function StreamTo(es: seq<Entry>, f: nat): seq<Slot> {
    if f == 0 then [] else StreamTo(es, f - 1) + SlotsAt(es, f - 1)
  }

  /** The samples of a stream: exact zeros, and the output's own samples. */
  function Samples(slots: seq<Slot>, output: seq<int>): (samples: seq<int>)
    requires forall i :: 0 <= i < |slots| && slots[i].Frame? ==> slots[i].index < |output|
    ensures |samples| == |slots|
  {
    seq(|slots|, i requires 0 <= i < |slots| => if slots[i].Frame? then output[slots[i].index] else 0)
  }

  /** How many entries begin before the output's end: the others never apply. */
  function Begun(es: seq<Entry>, n: nat): (k: nat)
    ensures k <= |es|
  {
    if |es| == 0 then 0
    else Begun(es[..|es| - 1], n) + if es[|es| - 1].offset < n then 1 else 0
  }

  /** Where and how entry `i` takes effect on an output of `n` frames; the output's end clips a DROP. */
  function CutAt(es: seq<Entry>, n: nat, i: nat): AppliedCut
    requires i < |es| && es[i].offset <= n
  {
    var e := es[i];
    match e.kind
    case Zero => AppliedCut(|StreamTo(es, e.offset)|, e.length, Zero)
    case Drop => AppliedCut(|StreamTo(es, Min(e.CoveredEnd(), n))|, Min(e.CoveredEnd(), n) - e.offset, Drop)
  }

  /** The cuts of the first `k` entries, in their order. */
  function CutsTo(es: seq<Entry>, n: nat, k: nat): (cuts: seq<AppliedCut>)
    requires k <= |es| && forall i :: 0 <= i < k ==> es[i].offset <= n
    ensures |cuts| == k
  {
    seq(k, i requires 0 <= i < k => CutAt(es, n, i))
  }

  // ---------------------------------------------------------------------
  // Facts about valid schedules

  lemma {:induction false} BegunIsAPrefix(es: seq<Entry>, n: nat)
    requires Ordered(es)
    ensures forall i :: 0 <= i < |es| ==> (i < Begun(es, n) <==> es[i].offset < n)
  {
    if |es| > 0 {
      var init := es[..|es| - 1];
      assert forall i, j :: 0 <= i < j < |init| ==> init[i] == es[i] && init[j] == es[j];
      BegunIsAPrefix(init, n);
      if es[|es| - 1].offset < n {
        forall i | 0 <= i < |init| ensures init[i].offset < n {
          assert es[i].CoveredEnd() <= es[|es| - 1].offset;
        }
        if |init| > 0 {
          assert init[|init| - 1].offset < n;
        }
      }
    }
  }

  lemma BegunIsUnique(es: seq<Entry>, n: nat, k: nat)
    requires Ordered(es) && k <= |es|
    requires forall i :: 0 <= i < k ==> es[i].offset < n
    requires forall i :: k <= i < |es| ==> n <= es[i].offset
    ensures Begun(es, n) == k
  {
    BegunIsAPrefix(es, n);
    var begun := Begun(es, n);
    assert begun < |es| ==> n <= es[begun].offset;
    assert k < |es| ==> n <= es[k].offset;
  }

  lemma {:induction false} NoZerosAt(es: seq<Entry>, f: nat)
    requires forall i :: 0 <= i < |es| ==> !(es[i].kind.Zero? && es[i].offset == f)
    ensures ZerosAt(es, f) == 0
  {
    if |es| > 0 {
      NoZerosAt(es[..|es| - 1], f);
    }
  }

  /** A valid schedule has at most one ZERO at an offset: its zeros are that entry's. */
  lemma {:induction false} TheZeroAt(es: seq<Entry>, i: nat)
    requires AllClear(es) && i < |es| && es[i].kind.Zero?
    ensures ZerosAt(es, es[i].offset) == es[i].length
  {
    var init := es[..|es| - 1];
    if i == |es| - 1 {
      forall j | 0 <= j < |init| ensures !(init[j].kind.Zero? && init[j].offset == es[i].offset) {
        assert Clear(es[j], es[i]);
      }
      NoZerosAt(init, es[i].offset);
    } else {
      forall a, b | 0 <= a < b < |init| ensures Clear(init[a], init[b]) {
        assert Clear(es[a], es[b]);
      }
      TheZeroAt(init, i);
      assert Clear(es[i], es[|es| - 1]);
    }
  }

  lemma ClearIsOrdered(es: seq<Entry>)
    requires AllClear(es)
    ensures Ordered(es)
  {
    forall i, j | 0 <= i < j < |es| ensures es[i].CoveredEnd() <= es[j].offset {
      assert Clear(es[i], es[j]);
    }
  }

  lemma {:induction false} StreamGrows(es: seq<Entry>, f: nat, g: nat)
    requires f <= g
    ensures |StreamTo(es, f)| <= |StreamTo(es, g)|
    ensures StreamTo(es, f) == StreamTo(es, g)[..|StreamTo(es, f)|]
    decreases g
  {
    if f < g {
      StreamGrows(es, f, g - 1);
    }
  }

  lemma {:induction false} StreamFramesInRange(es: seq<Entry>, f: nat)
    ensures forall i :: 0 <= i < |StreamTo(es, f)| ==>
              (if StreamTo(es, f)[i].Frame? then StreamTo(es, f)[i].index < f else StreamTo(es, f)[i].before < f)
  {
    if f > 0 {
      StreamFramesInRange(es, f - 1);
    }
  }

  // ---------------------------------------------------------------------
  // Walking the output with the schedule

  /** The walk stands at output frame `p` with the first `k` entries behind it; entry `k` may be a DROP under way. */
  ghost predicate At(es: seq<Entry>, p: nat, k: nat) {
    && k <= |es|
    && (forall i :: 0 <= i < k ==> es[i].CoveredEnd() <= p)
    && (forall i :: k < i < |es| ==> p <= es[i].offset)
    && (k < |es| ==> p <= es[k].offset || (es[k].kind.Drop? && p < es[k].CoveredEnd()))
  }

  /** Of the ZERO that stands at frame `p`, just passed, the zeros sent: all but `left`. */
  function ZerosSent(es: seq<Entry>, p: nat, k: nat, left: nat): nat
    requires k <= |es|
  {
    if k > 0 && es[k - 1].kind.Zero? && es[k - 1].offset == p && left <= es[k - 1].length then es[k - 1].length - left else 0
  }

  /** The stream a walk that stands at `p` has sent. */
  function Sent(es: seq<Entry>, p: nat, k: nat, left: nat): seq<Slot>
    requires k <= |es|
  {
    StreamTo(es, p) + Inserts(ZerosSent(es, p, k, left), p)
  }

  /** With every ZERO before frame `p` and at it behind the walk, the zeros sent there are all that stand there. */
  lemma ZerosHereAreSent(es: seq<Entry>, p: nat, k: nat)
    requires LengthsInRange(es) && AllClear(es) && At(es, p, k)
    requires k < |es| ==> p < es[k].offset || (es[k].kind.Drop? && es[k].offset <= p)
    ensures ZerosAt(es, p) == ZerosSent(es, p, k, 0)
  {
    if k > 0 && es[k - 1].kind.Zero? && es[k - 1].offset == p {
      TheZeroAt(es, k - 1);
    } else {
      forall i | 0 <= i < |es| ensures !(es[i].kind.Zero? && es[i].offset == p) {
        if i < k - 1 {
          assert Clear(es[i], es[k - 1]);
          assert LengthInRange(es[k - 1]);
        } else if i > k {
          assert Clear(es[k], es[i]);
          assert LengthInRange(es[k]);
        }
      }
      NoZerosAt(es, p);
    }
  }

  lemma NotDroppedHere(es: seq<Entry>, p: nat, k: nat)
    requires AllClear(es) && At(es, p, k)
    requires k < |es| ==> p < es[k].offset
    ensures !Dropped(es, p)
  {
    forall i | 0 <= i < |es| ensures !DroppedBy(es[i], p) {
      if k < i {
        assert Clear(es[k], es[i]);
      }
    }
  }

  /** Sending `m` frames that no pending entry reaches adds exactly those frames. */
  lemma {:induction false} SendFrames(es: seq<Entry>, p: nat, k: nat, m: nat)
    requires LengthsInRange(es) && AllClear(es) && At(es, p, k)
    requires k < |es| ==> p + m <= es[k].offset
    ensures At(es, p + m, k)
    ensures Sent(es, p + m, k, 0) == Sent(es, p, k, 0) + Frames(p, m)
    decreases m
  {
    hide ZerosAt;
    if k < |es| {
      forall i | k < i < |es| ensures p + m <= es[i].offset {
        assert Clear(es[k], es[i]);
      }
    }
    if m > 0 {
      SendFrames(es, p, k, m - 1);
      var q := p + m - 1;
      NotDroppedHere(es, q, k);
      ZerosHereAreSent(es, q, k);
      assert Frames(p, m) == Frames(p, m - 1) + [Frame(q)];
      assert ZerosSent(es, p + m, k, 0) == 0;
      calc {
        Sent(es, p + m, k, 0);
        StreamTo(es, q) + (Inserts(ZerosSent(es, q, k, 0), q) + [Frame(q)]);
        Sent(es, q, k, 0) + [Frame(q)];
        Sent(es, p, k, 0) + (Frames(p, m - 1) + [Frame(q)]);
      }
    }
  }

  /** Discarding `m` frames of the DROP under way adds nothing. */
  lemma {:induction false} DiscardFrames(es: seq<Entry>, p: nat, k: nat, m: nat)
    requires LengthsInRange(es) && AllClear(es) && At(es, p, k)
    requires k < |es| && es[k].kind.Drop? && es[k].offset <= p && p + m <= es[k].CoveredEnd()
    ensures StreamTo(es, p + m) + Inserts(if m == 0 then ZerosSent(es, p, k, 0) else 0, p + m) == Sent(es, p, k, 0)
    ensures p + m < es[k].CoveredEnd() ==> At(es, p + m, k) && Sent(es, p + m, k, 0) == Sent(es, p, k, 0)
    ensures p + m == es[k].CoveredEnd() ==> At(es, p + m, k + 1) && Sent(es, p + m, k + 1, 0) == Sent(es, p, k, 0)
    decreases m
  {
    hide ZerosAt;
    forall i | k < i < |es| ensures es[k].CoveredEnd() <= es[i].offset {
      assert Clear(es[k], es[i]);
    }
    if m > 0 {
      DiscardFrames(es, p, k, m - 1);
      var q := p + m - 1;
      assert At(es, q, k);
      assert DroppedBy(es[k], q);
      ZerosHereAreSent(es, q, k);
      if m > 1 {
        assert ZerosSent(es, q, k, 0) == 0;
      }
    }
  }

  /** Beginning the ZERO at `p` adds the zeros that went out of it. */
  lemma BeginZeros(es: seq<Entry>, p: nat, k: nat, left: nat)
    requires LengthsInRange(es) && AllClear(es) && At(es, p, k)
    requires k < |es| && es[k].kind.Zero? && es[k].offset == p && left <= es[k].length
    ensures At(es, p, k + 1)
    ensures Sent(es, p, k, 0) == StreamTo(es, p)
    ensures Sent(es, p, k + 1, left) == Sent(es, p, k, 0) + Inserts(es[k].length - left, p)
  {
    if k > 0 {
      assert Clear(es[k - 1], es[k]);
    }
    forall i | k + 1 <= i < |es| ensures p <= es[i].offset {
      assert Clear(es[k], es[i]);
    }
    if k + 1 < |es| {
      assert LengthInRange(es[k + 1]);
    }
  }

  /** A walk's stream is a prefix of the whole stream. */
  lemma SentIsAPrefix(es: seq<Entry>, n: nat, p: nat, k: nat, left: nat)
    requires LengthsInRange(es) && AllClear(es) && At(es, p, k) && p <= n
    requires ZerosSent(es, p, k, left) > 0 ==> p < n
    ensures Sent(es, p, k, left) <= StreamTo(es, n)
  {
    StreamGrows(es, p, n);
    if ZerosSent(es, p, k, left) > 0 {
      StreamGrows(es, p + 1, n);
      TheZeroAt(es, k - 1);
      assert Inserts(es[k - 1].length, p)[..ZerosSent(es, p, k, left)] == Inserts(ZerosSent(es, p, k, left), p);
    }
  }

  /** The log of a walk does not depend on where the output will end. */
  lemma CutsAreStable(es: seq<Entry>, n: nat, n': nat, p: nat, k: nat)
    requires At(es, p, k) && p <= n && p <= n'
    ensures forall i :: 0 <= i < k ==> es[i].offset <= n && es[i].offset <= n'
    ensures CutsTo(es, n, k) == CutsTo(es, n', k)
  {
    forall i | 0 <= i < k ensures es[i].CoveredEnd() <= p && CutAt(es, n, i) == CutAt(es, n', i) {
    }
  }

  /** Cuts not yet logged lie at or past what a walk has sent. */
  lemma LaterCutsLieAhead(es: seq<Entry>, n: nat, p: nat, k: nat, left: nat, i: nat)
    requires LengthsInRange(es) && AllClear(es) && At(es, p, k) && p <= n
    requires ZerosSent(es, p, k, left) > 0 ==> p < n
    requires k <= i < |es| && es[i].offset < n
    ensures |Sent(es, p, k, left)| <= CutAt(es, n, i).position
  {
    var e := es[i];
    var place := if e.kind.Zero? then e.offset else Min(e.CoveredEnd(), n);
    assert CutAt(es, n, i).position == |StreamTo(es, place)|;
    assert LengthInRange(e);
    if ZerosSent(es, p, k, left) == 0 {
      StreamGrows(es, p, place);
    } else {
      assert Clear(es[k - 1], e);
      TheZeroAt(es, k - 1);
      StreamGrows(es, p + 1, place);
    }
  }

  // ---------------------------------------------------------------------
  // One step of a walk, and what it logs

  /** The entries behind a walk began within the output offered. */
  ghost predicate BegunWithin(es: seq<Entry>, k: nat, offered: nat) {
    k <= |es| && forall i :: 0 <= i < k ==> es[i].offset < offered
  }

  lemma LogGrows(es: seq<Entry>, n: nat, k: nat)
    requires BegunWithin(es, k, n) && k < |es| && es[k].offset <= n
    ensures CutsTo(es, n, k + 1) == CutsTo(es, n, k) + [CutAt(es, n, k)]
  {
  }

  lemma DiscardStep(es: seq<Entry>, offered: nat, p: nat, k: nat, m: nat)
    requires LengthsInRange(es) && AllClear(es) && At(es, p, k) && BegunWithin(es, k, offered)
    requires k < |es| && es[k].kind.Drop? && es[k].offset <= p && m > 0 && p + m <= es[k].CoveredEnd()
    requires p + m <= offered
    ensures p + m < es[k].CoveredEnd() ==> At(es, p + m, k) && Sent(es, p + m, k, 0) == Sent(es, p, k, 0)
    ensures p + m == es[k].CoveredEnd() ==>
              && At(es, p + m, k + 1) && Sent(es, p + m, k + 1, 0) == Sent(es, p, k, 0)
              && CutsTo(es, offered, k + 1) ==
                 CutsTo(es, offered, k) + [AppliedCut(|Sent(es, p, k, 0)|, es[k].length, Drop)]
  {
    DiscardFrames(es, p, k, m);
    LogGrows(es, offered, k);
    if p + m == es[k].CoveredEnd() {
      assert ZerosSent(es, p + m, k + 1, 0) == 0;
    }
  }

  lemma ZeroStep(es: seq<Entry>, offered: nat, p: nat, k: nat, left: nat)
    requires LengthsInRange(es) && AllClear(es) && At(es, p, k) && BegunWithin(es, k, offered)
    requires k < |es| && es[k].kind.Zero? && es[k].offset == p < offered && left <= es[k].length
    ensures At(es, p, k + 1)
    ensures Sent(es, p, k + 1, left) == Sent(es, p, k, 0) + Inserts(es[k].length - left, p)
    ensures CutsTo(es, offered, k + 1) ==
            CutsTo(es, offered, k) + [AppliedCut(|Sent(es, p, k, 0)|, es[k].length, Zero)]
  {
    BeginZeros(es, p, k, left);
    LogGrows(es, offered, k);
  }

  lemma MoreZeros(es: seq<Entry>, p: nat, k: nat, left: nat, m: nat)
    requires 0 < k <= |es| && es[k - 1].kind.Zero? && es[k - 1].offset == p && m <= left <= es[k - 1].length
    ensures Sent(es, p, k, left - m) == Sent(es, p, k, left) + Inserts(m, p)
  {
  }

  /** A walk at the output's end: a DROP under way is clipped there, the entries not begun never apply. */
  lemma FinishStep(es: seq<Entry>, n: nat, k: nat)
    requires LengthsInRange(es) && AllClear(es) && Ordered(es) && At(es, n, k) && BegunWithin(es, k, n)
    ensures Sent(es, n, k, 0) == StreamTo(es, n)
    ensures var underWay := k < |es| && es[k].kind.Drop? && es[k].offset < n;
            && Begun(es, n) == (if underWay then k + 1 else k)
            && BegunWithin(es, Begun(es, n), n)
            && CutsTo(es, n, Begun(es, n)) ==
               CutsTo(es, n, k) + if underWay then [AppliedCut(|StreamTo(es, n)|, n - es[k].offset, Drop)] else []
  {
    hide StreamTo, ZerosAt, Begun;
    assert ZerosSent(es, n, k, 0) == 0;
    if k < |es| && es[k].kind.Drop? && es[k].offset < n {
      LogGrows(es, n, k);
      BegunIsUnique(es, n, k + 1);
    } else {
      BegunIsUnique(es, n, k);
    }
  }
}
