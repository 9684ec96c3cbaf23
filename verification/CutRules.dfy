/**
 The rules a CUT schedule keeps (common/cut_schedule.hpp and its host twin
 host/cut_schedule.py), judged by two implementations against one declarative
 verdict. The drop balance is stated on windows of the engine's output.
 */
module CutRules {
  import opened Words

  const MAX_ENTRIES: nat := 16
  const MIN_LENGTH: nat := 1
  const MAX_LENGTH: nat := 4800
  const MAX_DROP_BALANCE: nat := 3 * MAX_LENGTH

  datatype Kind = Drop | Zero

  datatype Entry = Entry(offset: nat, length: nat, kind: Kind) {
    /** The output frame just past those the entry covers: a ZERO covers none. */
    function CoveredEnd(): nat {
      offset + if kind.Drop? then length else 0
    }
  }

  datatype Verdict = Accepted | TooMany | LengthOutOfRange | Unsorted | Overlap | DropRunTooLong

  // ---------------------------------------------------------------------
  // The declarative rules

  predicate LengthInRange(e: Entry) {
    MIN_LENGTH <= e.length <= MAX_LENGTH
  }

  predicate LengthsInRange(es: seq<Entry>) {
    forall i :: 0 <= i < |es| ==> LengthInRange(es[i])
  }

  /** Whether `later` may stand anywhere after `earlier`. */
  predicate Clear(earlier: Entry, later: Entry) {
    && earlier.CoveredEnd() <= later.offset
    && !(earlier.kind.Zero? && later.kind.Zero? && earlier.offset == later.offset)
  }

  predicate AllClear(es: seq<Entry>) {
    forall i, j :: 0 <= i < j < |es| ==> Clear(es[i], es[j])
  }

  /** Each entry starts at or after the end of what every earlier one covers. */
  predicate Ordered(es: seq<Entry>) {
    forall i, j :: 0 <= i < j < |es| ==> es[i].CoveredEnd() <= es[j].offset
  }

  predicate DroppedBy(e: Entry, frame: nat) {
    e.kind.Drop? && e.offset <= frame < e.CoveredEnd()
  }

  predicate Dropped(es: seq<Entry>, frame: nat) {
    exists i :: 0 <= i < |es| && DroppedBy(es[i], frame)
  }

  /** Dropped less kept frames of the engine output's window [a, b). */
  function Excess(es: seq<Entry>, a: nat, b: nat): int {
    if b <= a then 0 else Excess(es, a, b - 1) + if Dropped(es, b - 1) then 1 else -1
  }

  ghost predicate WindowsBounded(es: seq<Entry>) {
    forall a: nat, b: nat :: a <= b ==> Excess(es, a, b) <= MAX_DROP_BALANCE
  }

  /** Every rule, as a condition on the schedule and on the frames it drops. */
  ghost predicate Valid(es: seq<Entry>) {
    && |es| <= MAX_ENTRIES
    && LengthsInRange(es)
    && AllClear(es)
    && WindowsBounded(es)
  }

  // ---------------------------------------------------------------------
  // The verdict: which rule an implementation names first

  /** check_order(): whether `later` may follow `earlier` directly. */
  function CheckOrder(earlier: Entry, later: Entry): Verdict {
    if later.offset < earlier.offset then
      Unsorted
    else
      var zerosAtOneOffset := earlier.kind.Zero? && later.kind.Zero? && later.offset == earlier.offset;
      if later.offset < earlier.CoveredEnd() || zerosAtOneOffset then Overlap else Accepted
  }

  /** The verdict on the neighbours from `es[i]` on: the first pair out of order decides. */
  function OrderVerdict(es: seq<Entry>, i: nat): Verdict
    requires 0 < i
    decreases |es| - i
  {
    if i >= |es| then Accepted
    else if CheckOrder(es[i - 1], es[i]) != Accepted then CheckOrder(es[i - 1], es[i])
    else OrderVerdict(es, i + 1)
  }

  ghost function Judge(es: seq<Entry>): Verdict {
    if |es| > MAX_ENTRIES then TooMany
    else if !LengthsInRange(es) then LengthOutOfRange
    else if OrderVerdict(es, 1) != Accepted then OrderVerdict(es, 1)
    else if !WindowsBounded(es) then DropRunTooLong
    else Accepted
  }

  lemma {:induction false} OrderVerdictNeighbours(es: seq<Entry>, i: nat)
    requires 0 < i
    ensures OrderVerdict(es, i) == Accepted <==>
            forall j :: i <= j < |es| ==> CheckOrder(es[j - 1], es[j]) == Accepted
    ensures OrderVerdict(es, i) in {Accepted, Unsorted, Overlap}
    decreases |es| - i
  {
    if i < |es| {
      OrderVerdictNeighbours(es, i + 1);
    }
  }

  /** Neighbours in order cover ever later frames. */
  lemma {:induction false} NeighboursAreOrdered(es: seq<Entry>, i: nat, j: nat)
    requires forall k :: 1 <= k < |es| ==> CheckOrder(es[k - 1], es[k]) == Accepted
    requires i < j < |es|
    ensures es[i].CoveredEnd() <= es[j].offset
    decreases j
  {
    assert CheckOrder(es[j - 1], es[j]) == Accepted;
    if i < j - 1 {
      NeighboursAreOrdered(es, i, j - 1);
    }
  }

  lemma OrderedFromVerdict(es: seq<Entry>)
    requires OrderVerdict(es, 1) == Accepted
    ensures Ordered(es)
  {
    OrderVerdictNeighbours(es, 1);
    forall i, j | 0 <= i < j < |es| ensures es[i].CoveredEnd() <= es[j].offset {
      NeighboursAreOrdered(es, i, j);
    }
  }

  /** Checking neighbours is enough: on lengths of at least one frame, every pair is then clear. */
  lemma NeighboursSuffice(es: seq<Entry>)
    requires LengthsInRange(es)
    ensures OrderVerdict(es, 1) == Accepted <==> AllClear(es)
  {
    OrderVerdictNeighbours(es, 1);
    if OrderVerdict(es, 1) == Accepted {
      OrderedFromVerdict(es);
      forall i, j | 0 <= i < j < |es| ensures Clear(es[i], es[j]) {
        if i + 1 < j {
          assert es[i].CoveredEnd() <= es[i + 1].offset;
          assert es[i + 1].CoveredEnd() <= es[j].offset;
          assert CheckOrder(es[(i + 1) - 1], es[i + 1]) == Accepted;
          assert LengthInRange(es[i + 1]);
        } else {
          assert CheckOrder(es[j - 1], es[j]) == Accepted;
        }
      }
    }
    if AllClear(es) {
      forall j | 1 <= j < |es| ensures CheckOrder(es[j - 1], es[j]) == Accepted {
        assert Clear(es[j - 1], es[j]);
      }
    }
  }

  /** The verdict is acceptance exactly on the schedules that keep every rule. */
  lemma AcceptedIsValid(es: seq<Entry>)
    ensures Judge(es) == Accepted <==> Valid(es)
  {
    if LengthsInRange(es) {
      NeighboursSuffice(es);
    }
  }

  /** `es[i]` may not stand after its neighbour: it starts before that one ends, or is a second ZERO at its offset. */
  predicate Misplaced(es: seq<Entry>, i: nat)
    requires 0 < i < |es|
  {
    var earlier, later := es[i - 1], es[i];
    || later.offset < earlier.offset
    || (earlier.kind.Drop? && later.offset < earlier.offset + earlier.length)
    || (earlier.kind.Zero? && later.kind.Zero? && later.offset == earlier.offset)
  }

  predicate FirstMisplaced(es: seq<Entry>, i: nat) {
    0 < i < |es| && Misplaced(es, i) && forall j :: 0 < j < i ==> !Misplaced(es, j)
  }

  /**
   Which rule a verdict names: the count first, then any length, then the first neighbour out
   of place, unsorted if it starts before the one ahead of it and otherwise overlapping, and
   last the drop balance.
   */
  ghost predicate NamesTheRule(es: seq<Entry>, verdict: Verdict) {
    var fits := |es| <= MAX_ENTRIES && LengthsInRange(es);
    var ordered := forall i :: 0 < i < |es| ==> !Misplaced(es, i);
    match verdict
    case TooMany => |es| > MAX_ENTRIES
    case LengthOutOfRange => |es| <= MAX_ENTRIES && exists i :: 0 <= i < |es| && !LengthInRange(es[i])
    case Unsorted => fits && exists i: nat :: FirstMisplaced(es, i) && es[i].offset < es[i - 1].offset
    case Overlap => fits && exists i: nat :: FirstMisplaced(es, i) && es[i].offset >= es[i - 1].offset
    case DropRunTooLong => fits && ordered && !WindowsBounded(es)
    case Accepted => fits && ordered && WindowsBounded(es)
  }

  lemma {:induction false} FirstOutOfPlace(es: seq<Entry>, i: nat) returns (k: nat)
    requires 0 < i && forall j :: 0 < j < i && j < |es| ==> !Misplaced(es, j)
    ensures OrderVerdict(es, i) == Accepted ==> forall j :: 0 < j < |es| ==> !Misplaced(es, j)
    ensures OrderVerdict(es, i) != Accepted ==> FirstMisplaced(es, k)
    ensures OrderVerdict(es, i) != Accepted ==>
              OrderVerdict(es, i) == if es[k].offset < es[k - 1].offset then Unsorted else Overlap
    decreases |es| - i
  {
    k := i;
    if i < |es| && CheckOrder(es[i - 1], es[i]) == Accepted {
      k := FirstOutOfPlace(es, i + 1);
    }
  }

  /** The verdict names the rule that a list breaks first. */
  lemma VerdictNamesTheRule(es: seq<Entry>)
    ensures NamesTheRule(es, Judge(es))
  {
    hide WindowsBounded;
    var k := FirstOutOfPlace(es, 1);
  }

  // ---------------------------------------------------------------------
  // The running balance is the worst window that ends at a frame

  /** The drop balance counted frame by frame: up one per dropped frame, down one per kept frame, never below zero. */
  function Level(es: seq<Entry>, b: nat): nat {
    if b == 0 then 0
    else if Dropped(es, b - 1) then Level(es, b - 1) + 1
    else if Level(es, b - 1) == 0 then 0 else Level(es, b - 1) - 1
  }

  lemma {:induction false} LevelBoundsWindows(es: seq<Entry>, a: nat, b: nat)
    requires a <= b
    ensures Excess(es, a, b) <= Level(es, b)
    decreases b
  {
    if a < b {
      LevelBoundsWindows(es, a, b - 1);
    }
  }

  lemma {:induction false} LevelIsAWindow(es: seq<Entry>, b: nat) returns (a: nat)
    ensures a <= b && Excess(es, a, b) == Level(es, b)
  {
    a := b;
    if b > 0 && Level(es, b) > 0 {
      a := LevelIsAWindow(es, b - 1);
    }
  }

  ghost predicate LevelsBounded(es: seq<Entry>) {
    forall b: nat :: Level(es, b) <= MAX_DROP_BALANCE
  }

  /** No window of the output passes the bound exactly when the running balance never does. */
  lemma WindowsBoundedByLevel(es: seq<Entry>)
    ensures WindowsBounded(es) <==> LevelsBounded(es)
  {
    if WindowsBounded(es) {
      forall b: nat ensures Level(es, b) <= MAX_DROP_BALANCE {
        var a := LevelIsAWindow(es, b);
      }
    }
    if LevelsBounded(es) {
      forall a: nat, b: nat | a <= b ensures Excess(es, a, b) <= MAX_DROP_BALANCE {
        LevelBoundsWindows(es, a, b);
      }
    }
  }

  /** Over kept frames the level falls by their number, never below zero. */
  lemma {:induction false} LevelFalls(es: seq<Entry>, lo: nat, hi: nat)
    requires lo <= hi
    requires forall f :: lo <= f < hi ==> !Dropped(es, f)
    ensures Level(es, hi) == Max(0, Level(es, lo) - (hi - lo))
    decreases hi
  {
    if lo < hi {
      LevelFalls(es, lo, hi - 1);
    }
  }

  /** Over dropped frames it rises by their number. */
  lemma {:induction false} LevelRises(es: seq<Entry>, lo: nat, hi: nat)
    requires lo <= hi
    requires forall f :: lo <= f < hi ==> Dropped(es, f)
    ensures Level(es, hi) == Level(es, lo) + (hi - lo)
    decreases hi
  {
    if lo < hi {
      LevelRises(es, lo, hi - 1);
    }
  }

  /** Where the DROPs among the first `i` entries end: 0 before the first. */
  function DropsEnd(es: seq<Entry>, i: nat): nat
    requires i <= |es|
  {
    if i == 0 then 0 else if es[i - 1].kind.Drop? then es[i - 1].CoveredEnd() else DropsEnd(es, i - 1)
  }

  lemma {:induction false} DropsEndCovers(es: seq<Entry>, i: nat)
    requires i <= |es| && Ordered(es)
    ensures forall j :: 0 <= j < i && es[j].kind.Drop? ==> es[j].CoveredEnd() <= DropsEnd(es, i)
    ensures forall j :: i <= j < |es| ==> DropsEnd(es, i) <= es[j].offset
  {
    if i > 0 {
      DropsEndCovers(es, i - 1);
      forall j | 0 <= j < i && es[j].kind.Drop? ensures es[j].CoveredEnd() <= DropsEnd(es, i) {
        if j < i - 1 && es[i - 1].kind.Drop? {
          assert es[j].CoveredEnd() <= es[i - 1].offset;
        }
      }
    }
  }

  /** What a DROP does to the level: the kept frames before it take back, its frames add. */
  lemma LevelThroughDrop(es: seq<Entry>, i: nat, f: nat)
    requires i < |es| && Ordered(es) && es[i].kind.Drop?
    requires DropsEnd(es, i) <= f <= es[i].CoveredEnd()
    ensures DropsEnd(es, i) <= es[i].offset
    ensures f <= es[i].offset ==> Level(es, f) == Max(0, Level(es, DropsEnd(es, i)) - (f - DropsEnd(es, i)))
    ensures es[i].offset <= f ==>
              Level(es, f) == Max(0, Level(es, DropsEnd(es, i)) - (es[i].offset - DropsEnd(es, i))) + (f - es[i].offset)
  {
    DropsEndCovers(es, i);
    forall g: nat | DropsEnd(es, i) <= g < es[i].offset ensures !Dropped(es, g) {
      forall j | 0 <= j < |es| ensures !DroppedBy(es[j], g) {
        if j > i {
          assert es[i].CoveredEnd() <= es[j].offset;
        }
      }
    }
    if f <= es[i].offset {
      LevelFalls(es, DropsEnd(es, i), f);
    }
    if es[i].offset <= f {
      LevelFalls(es, DropsEnd(es, i), es[i].offset);
      forall g: nat | es[i].offset <= g < f ensures Dropped(es, g) {
        assert DroppedBy(es[i], g);
      }
      LevelRises(es, es[i].offset, f);
    }
  }

  lemma LevelAfterDrops(es: seq<Entry>, f: nat)
    requires Ordered(es) && DropsEnd(es, |es|) <= f
    ensures Level(es, f) <= Level(es, DropsEnd(es, |es|))
  {
    DropsEndCovers(es, |es|);
    forall g: nat | DropsEnd(es, |es|) <= g < f ensures !Dropped(es, g) {
      forall j | 0 <= j < |es| ensures !DroppedBy(es[j], g) {
      }
    }
    LevelFalls(es, DropsEnd(es, |es|), f);
  }

  // ---------------------------------------------------------------------
  // The board's implementation

  /** check_drop_balance(): one pass over the DROPs, in place of every window. */
  method CheckDropBalance(es: seq<Entry>) returns (accepted: bool)
    requires Ordered(es)
    ensures accepted <==> WindowsBounded(es)
  {
    hide WindowsBounded, Dropped;
    WindowsBoundedByLevel(es);
    var balance: nat := 0;
    var previousEnd: nat := 0;
    for i := 0 to |es|
      invariant previousEnd == DropsEnd(es, i)
      invariant balance == Level(es, previousEnd)
      invariant forall b: nat :: b <= previousEnd ==> Level(es, b) <= MAX_DROP_BALANCE
    {
      var entry := es[i];
      if entry.kind.Drop? {
        DropsEndCovers(es, i);
        LevelThroughDrop(es, i, entry.CoveredEnd());
        var between := entry.offset - Min(previousEnd, entry.offset);
        balance := balance - Min(balance, between) + entry.length;
        if balance > MAX_DROP_BALANCE {
          return false;
        }
        forall b: nat | b <= entry.CoveredEnd() ensures Level(es, b) <= MAX_DROP_BALANCE {
          if previousEnd < b {
            LevelThroughDrop(es, i, b);
          }
        }
        previousEnd := entry.CoveredEnd();
      }
    }
    forall b: nat ensures Level(es, b) <= MAX_DROP_BALANCE {
      if previousEnd < b {
        LevelAfterDrops(es, b);
      }
    }
    return true;
  }

  /** Up to MAX_ENTRIES entries in the order they were given, judged or not. */
  class CutList {
    var entries: seq<Entry>

    ghost predicate Valid()
      reads this
    {
      |entries| <= MAX_ENTRIES
    }

    constructor ()
      ensures Valid() && entries == []
    {
      entries := [];
    }

    method Push(entry: Entry) returns (verdict: Verdict)
      requires Valid()
      modifies this
      ensures Valid()
      ensures verdict == if |old(entries)| == MAX_ENTRIES then TooMany else Accepted
      ensures entries == if verdict.Accepted? then old(entries) + [entry] else old(entries)
    {
      if |entries| == MAX_ENTRIES {
        return TooMany;
      }
      entries := entries + [entry];
      return Accepted;
    }

    /** validate(): the lengths, then the neighbours, then the drop balance. */
    method Validate() returns (verdict: Verdict)
      requires Valid()
      ensures verdict == Judge(entries)
    {
      for i := 0 to |entries|
        invariant forall j :: 0 <= j < i ==> LengthInRange(entries[j])
      {
        if entries[i].length < MIN_LENGTH || entries[i].length > MAX_LENGTH {
          return LengthOutOfRange;
        }
      }
      var index := 1;
      while index < |entries|
        invariant 1 <= index
        invariant OrderVerdict(entries, 1) == OrderVerdict(entries, index)
      {
        var ordered := CheckOrder(entries[index - 1], entries[index]);
        if !ordered.Accepted? {
          return ordered;
        }
        index := index + 1;
      }
      OrderedFromVerdict(entries);
      var balanced := CheckDropBalance(entries);
      return if balanced then Accepted else DropRunTooLong;
    }
  }

  /** The board's answer to a list of entries: push() each, then validate(). */
  method BoardJudges(es: seq<Entry>) returns (verdict: Verdict)
    ensures verdict == Judge(es)
    ensures verdict.Accepted? <==> Valid(es)
    ensures NamesTheRule(es, verdict)
  {
    hide NamesTheRule;
    AcceptedIsValid(es);
    VerdictNamesTheRule(es);
    var list := new CutList();
    for i := 0 to |es|
      invariant fresh(list) && list.Valid() && list.entries == es[..i]
    {
      var pushed := list.Push(es[i]);
      if !pushed.Accepted? {
        return TooMany;
      }
    }
    assert es[..|es|] == es;
    verdict := list.Validate();
  }

  // ---------------------------------------------------------------------
  // The host's implementation

  /** drop_balance(): the highest balance the DROPs reach. */
  method HostDropBalance(es: seq<Entry>) returns (highest: nat)
    requires Ordered(es)
    ensures forall b: nat :: Level(es, b) <= highest
    ensures exists b: nat :: Level(es, b) == highest
    ensures highest <= MAX_DROP_BALANCE <==> WindowsBounded(es)
  {
    hide WindowsBounded, Dropped;
    WindowsBoundedByLevel(es);
    highest := 0;
    var balance: nat := 0;
    var previousEnd: nat := 0;
    ghost var peak: nat := 0;
    for i := 0 to |es|
      invariant previousEnd == DropsEnd(es, i)
      invariant balance == Level(es, previousEnd)
      invariant forall b: nat :: b <= previousEnd ==> Level(es, b) <= highest
      invariant Level(es, peak) == highest
    {
      var entry := es[i];
      if entry.kind.Drop? {
        DropsEndCovers(es, i);
        LevelThroughDrop(es, i, entry.CoveredEnd());
        balance := Max(0, balance - Max(0, entry.offset - previousEnd)) + entry.length;
        if balance > highest {
          peak := entry.CoveredEnd();
        }
        highest := Max(highest, balance);
        forall b: nat | b <= entry.CoveredEnd() ensures Level(es, b) <= highest {
          if previousEnd < b {
            LevelThroughDrop(es, i, b);
          }
        }
        previousEnd := entry.CoveredEnd();
      }
    }
    forall b: nat ensures Level(es, b) <= highest {
      if previousEnd < b {
        LevelAfterDrops(es, b);
      }
    }
  }

  /** validate() of host/cut_schedule.py: the same verdict on every list, by its own tests and loops. */
  method HostJudges(es: seq<Entry>) returns (verdict: Verdict)
    ensures verdict == Judge(es)
    ensures verdict.Accepted? <==> Valid(es)
    ensures NamesTheRule(es, verdict)
  {
    hide NamesTheRule;
    AcceptedIsValid(es);
    VerdictNamesTheRule(es);
    if |es| > MAX_ENTRIES {
      return TooMany;
    }
    for i := 0 to |es|
      invariant forall j :: 0 <= j < i ==> LengthInRange(es[j])
    {
      if !(MIN_LENGTH <= es[i].length <= MAX_LENGTH) {
        return LengthOutOfRange;
      }
    }
    var i := 1;
    while i < |es|
      invariant 1 <= i
      invariant OrderVerdict(es, 1) == OrderVerdict(es, i)
    {
      var earlier, later := es[i - 1], es[i];
      if later.offset < earlier.offset {
        return Unsorted;
      }
      if later.offset < earlier.CoveredEnd() || (earlier.kind == later.kind == Zero && later.offset == earlier.offset) {
        return Overlap;
      }
      i := i + 1;
    }
    OrderedFromVerdict(es);
    var balance := HostDropBalance(es);
    return if balance > MAX_DROP_BALANCE then DropRunTooLong else Accepted;
  }
}
