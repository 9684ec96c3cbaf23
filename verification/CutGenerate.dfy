/** The host's random schedules (generate() of host/cut_schedule.py), for any draws. */
module CutGenerate {
  import opened Words
  import opened CutRules

  datatype Generated =
    | Refused(verdict: Verdict)
    | BadArgument
    | CardTooShort
    | Schedule(entries: seq<Entry>)

  predicate Ascending(s: seq<nat>) {
    forall i, j :: 0 <= i < j < |s| ==> s[i] <= s[j]
  }

  function Insert(x: nat, s: seq<nat>): (r: seq<nat>)
    ensures |r| == |s| + 1
  {
    if |s| == 0 || x <= s[0] then [x] + s else [s[0]] + Insert(x, s[1..])
  }

  /** sorted(). */
  function Sorted(s: seq<nat>): (r: seq<nat>)
    ensures |r| == |s|
  {
    if |s| == 0 then [] else Insert(s[0], Sorted(s[1..]))
  }

  lemma {:induction false} InsertPermutes(x: nat, s: seq<nat>)
    ensures multiset(Insert(x, s)) == multiset{x} + multiset(s)
  {
    if |s| == 0 || x <= s[0] {
      assert multiset([x] + s) == multiset{x} + multiset(s);
    } else {
      InsertPermutes(x, s[1..]);
      assert s == [s[0]] + s[1..];
      assert multiset([s[0]] + Insert(x, s[1..])) == multiset{s[0]} + multiset(Insert(x, s[1..]));
    }
  }

  lemma {:induction false} InsertKeepsOrder(x: nat, s: seq<nat>)
    requires Ascending(s)
    ensures Ascending(Insert(x, s)) && forall y :: y in Insert(x, s) ==> y == x || y in s
  {
    if |s| > 0 && x > s[0] {
      InsertKeepsOrder(x, s[1..]);
      var rest := Insert(x, s[1..]);
      forall i | 0 <= i < |rest| ensures s[0] <= rest[i] {
        assert rest[i] in rest;
      }
    }
  }

  lemma {:induction false} SortedIsAscending(s: seq<nat>)
    ensures Ascending(Sorted(s)) && multiset(Sorted(s)) == multiset(s)
  {
    if |s| > 0 {
      SortedIsAscending(s[1..]);
      InsertKeepsOrder(s[0], Sorted(s[1..]));
      InsertPermutes(s[0], Sorted(s[1..]));
      assert s == [s[0]] + s[1..];
    }
  }

  lemma SortedKeepsBound(s: seq<nat>, bound: nat)
    requires forall i :: 0 <= i < |s| ==> s[i] <= bound
    ensures Ascending(Sorted(s)) && forall i :: 0 <= i < |Sorted(s)| ==> Sorted(s)[i] <= bound
  {
    SortedIsAscending(s);
    forall i | 0 <= i < |Sorted(s)| ensures Sorted(s)[i] <= bound {
      assert Sorted(s)[i] in multiset(Sorted(s));
      assert Sorted(s)[i] in s;
    }
  }

  /** The card frames an entry takes from the walk along the card. */
  function Covered(kind: Kind, length: nat): nat {
    if kind.Drop? then length else 0
  }

  function Sum(s: seq<nat>, k: nat): nat
    requires k <= |s|
  {
    if k == 0 then 0 else Sum(s, k - 1) + s[k - 1]
  }

  lemma {:induction false} SumGrows(s: seq<nat>, j: nat, k: nat)
    requires j <= k <= |s|
    ensures Sum(s, j) <= Sum(s, k)
    decreases k
  {
    if j < k {
      SumGrows(s, j, k - 1);
    }
  }

  /** What every generated list keeps, whatever was drawn. */
  predicate Spread(es: seq<Entry>, fileFrames: int, minSpacing: int, start: int) {
    && (forall i :: 0 <= i < |es| ==> start <= es[i].offset < fileFrames && es[i].CoveredEnd() <= fileFrames)
    && (forall i :: 0 < i < |es| ==> es[i - 1].CoveredEnd() + minSpacing <= es[i].offset)
  }

  /** The kinds and the lengths drawn. */
  function Kinds(count: nat, drawKind: nat -> Kind): (kinds: seq<Kind>)
    ensures |kinds| == count
  {
    seq(count, i requires 0 <= i => drawKind(i))
  }

  function Lengths(count: nat, minLength: nat, maxLength: nat, drawLength: nat -> nat): (lengths: seq<nat>)
    requires minLength <= maxLength
    ensures |lengths| == count
  {
    seq(count, i requires 0 <= i => minLength + drawLength(i) % (maxLength - minLength + 1))
  }

  /** The card frames a list takes at the least: what its DROPs cover, its spacings, and the frame of its last entry. */
  function Least(kinds: seq<Kind>, lengths: seq<nat>, minSpacing: nat): nat
    requires |kinds| == |lengths|
  {
    Sum(Covers(kinds, lengths), |kinds|) + Sum(Spacings(kinds, minSpacing), |kinds|) + 1
  }

  /** The card frames left over. */
  function Slack(fileFrames: int, count: nat, minLength: nat, maxLength: nat, minSpacing: nat, start: nat,
                 drawKind: nat -> Kind, drawLength: nat -> nat): int
    requires minLength <= maxLength
  {
    fileFrames - start - Least(Kinds(count, drawKind), Lengths(count, minLength, maxLength, drawLength), minSpacing)
  }

  /** The gaps drawn among them. */
  function Gaps(count: nat, slack: int, drawGap: nat -> nat): (gaps: seq<nat>)
    ensures |gaps| == if slack < 0 then 0 else count
    ensures forall i :: 0 <= i < |gaps| ==> gaps[i] == drawGap(i) % (slack + 1) <= slack
  {
    if slack < 0 then [] else seq(count, i requires 0 <= i => drawGap(i) % (slack + 1))
  }

  /** Frames kept between what one entry covers and the next: two ZEROs never share an offset. */
  function Between(earlier: Kind, later: Kind, minSpacing: nat): nat {
    if earlier.Zero? && later.Zero? && minSpacing == 0 then 1 else minSpacing
  }

  /**
   The walk along the card: the first entry stands after the first gap, each later one past
   what the one before covers, the spacing between and the growth of the gap, and what the
   last gap leaves of the slack, and one frame, are left behind the last entry.
   */
  predicate Walks(es: seq<Entry>, gaps: seq<nat>, slack: int, fileFrames: int, minSpacing: nat, start: nat) {
    && |gaps| == |es|
    && (|es| > 0 ==>
          && es[0].offset == start + gaps[0]
          && es[|es| - 1].CoveredEnd() + (slack - gaps[|es| - 1]) + 1 == fileFrames)
    && (forall i :: 0 < i < |es| ==>
          es[i].offset + gaps[i - 1] == es[i - 1].CoveredEnd() + Between(es[i - 1].kind, es[i].kind, minSpacing) + gaps[i])
  }

  /**
   The draws stand for random.Random(seed): any kinds, lengths and gaps. The list made
   keeps every rule but possibly the drop balance, the one ground of refusal left.
   */
  method Generate(fileFrames: int, count: int, minLength: int, maxLength: int, minSpacing: int, start: int,
                  drawKind: nat -> Kind, drawLength: nat -> nat, drawGap: nat -> nat)
    returns (r: Generated, entries: seq<Entry>)
    ensures !(0 <= count <= MAX_ENTRIES) ==> r == Refused(TooMany)
    ensures 0 <= count <= MAX_ENTRIES && !(MIN_LENGTH <= minLength <= maxLength <= MAX_LENGTH) ==>
              r == Refused(LengthOutOfRange)
    ensures 0 <= count <= MAX_ENTRIES && MIN_LENGTH <= minLength <= maxLength <= MAX_LENGTH ==>
              && (r.BadArgument? <==> minSpacing < 0 || start < 0)
              && r != Refused(TooMany) && r != Refused(LengthOutOfRange)
    ensures r.CardTooShort? <==>
              && 0 < count <= MAX_ENTRIES && MIN_LENGTH <= minLength <= maxLength <= MAX_LENGTH && minSpacing >= 0 && start >= 0
              && fileFrames - start < Least(Kinds(count, drawKind), Lengths(count, minLength, maxLength, drawLength), minSpacing)
    ensures r.Schedule? ==> r.entries == entries && CutRules.Valid(entries)
    ensures r == Refused(DropRunTooLong) ==> !WindowsBounded(entries)
    ensures r.Schedule? || r == Refused(DropRunTooLong) ==>
              && |entries| == count
              && (forall i :: 0 <= i < |entries| ==>
                    && entries[i].kind == drawKind(i)
                    && entries[i].length == minLength + drawLength(i) % (maxLength - minLength + 1) <= maxLength)
              && LengthsInRange(entries) && AllClear(entries)
              && Spread(entries, fileFrames, minSpacing, start)
              && Walks(entries, Sorted(Gaps(count, Slack(fileFrames, count, minLength, maxLength, minSpacing, start,
                                                        drawKind, drawLength), drawGap)),
                       Slack(fileFrames, count, minLength, maxLength, minSpacing, start, drawKind, drawLength),
                       fileFrames, minSpacing, start)
    ensures r.Refused? ==> r.verdict in {TooMany, LengthOutOfRange, DropRunTooLong}
  {
    hide Placed, Walks, Spread, Sum, Judge, NamesTheRule, AllClear, WindowsBounded, Covers, Spacings, Sorted;
    entries := [];
    if !(0 <= count <= MAX_ENTRIES) {
      return Refused(TooMany), [];
    }
    if !(MIN_LENGTH <= minLength <= maxLength <= MAX_LENGTH) {
      return Refused(LengthOutOfRange), [];
    }
    if minSpacing < 0 || start < 0 {
      return BadArgument, [];
    }
    var kinds := Kinds(count, drawKind);
    var lengths := Lengths(count, minLength, maxLength, drawLength);
    var covers := Covers(kinds, lengths);
    var spacings := Spacings(kinds, minSpacing);
    var slack := fileFrames - start - Sum(covers, count) - Sum(spacings, count) - 1;
    if count != 0 && slack < 0 {
      return CardTooShort, [];
    }
    var draws := Gaps(count, slack, drawGap);
    SortedKeepsBound(draws, if slack < 0 then 0 else slack);
    entries := Place(kinds, lengths, covers, spacings, Sorted(draws), start);
    ListLaidOut(entries, kinds, lengths, Sorted(draws), slack, fileFrames, minSpacing, start);
    var verdict := HostJudges(entries);
    r := if verdict.Accepted? then Schedule(entries) else Refused(verdict);
  }

  function Covers(kinds: seq<Kind>, lengths: seq<nat>): (covers: seq<nat>)
    requires |kinds| == |lengths|
    ensures |covers| == |kinds|
  {
    seq(|kinds|, i requires 0 <= i < |kinds| => Covered(kinds[i], lengths[i]))
  }

  /** Card frames between each entry's end and the next one's offset; none after the last. */
  function Spacings(kinds: seq<Kind>, minSpacing: nat): (spacings: seq<nat>)
    ensures |spacings| == |kinds|
  {
    seq(|kinds|, i requires 0 <= i < |kinds| =>
      if i + 1 == |kinds| then 0
      else if kinds[i].Zero? && kinds[i + 1].Zero? then Max(minSpacing, 1) else minSpacing)
  }

  predicate Placed(es: seq<Entry>, kinds: seq<Kind>, lengths: seq<nat>, covers: seq<nat>, spacings: seq<nat>,
                   gaps: seq<nat>, start: nat)
    requires |es| <= |kinds| == |lengths| == |covers| == |spacings| == |gaps|
  {
    forall j :: 0 <= j < |es| ==>
      es[j] == Entry(start + gaps[j] + Sum(covers, j) + Sum(spacings, j), lengths[j], kinds[j])
  }

  /** The walk along the card: each entry after its gap, then past what it covers and its spacing. */
  method Place(kinds: seq<Kind>, lengths: seq<nat>, covers: seq<nat>, spacings: seq<nat>, gaps: seq<nat>, start: nat)
    returns (entries: seq<Entry>)
    requires |kinds| == |lengths| == |covers| == |spacings| == |gaps| && Ascending(gaps)
    requires covers == Covers(kinds, lengths)
    ensures |entries| == |kinds| && Placed(entries, kinds, lengths, covers, spacings, gaps, start)
  {
    entries := [];
    var position: nat := start;
    var previousGap: nat := 0;
    for i := 0 to |kinds|
      invariant |entries| == i
      invariant previousGap == if i == 0 then 0 else gaps[i - 1]
      invariant position == start + previousGap + Sum(covers, i) + Sum(spacings, i)
      invariant Placed(entries, kinds, lengths, covers, spacings, gaps, start)
    {
      assert previousGap <= gaps[i];
      position := position + gaps[i] - previousGap;
      previousGap := gaps[i];
      entries := entries + [Entry(position, lengths[i], kinds[i])];
      position := position + Covered(kinds[i], lengths[i]) + spacings[i];
    }
  }

  lemma {:induction false} PlacedInCard(es: seq<Entry>, kinds: seq<Kind>, lengths: seq<nat>, covers: seq<nat>,
                                        spacings: seq<nat>, gaps: seq<nat>, start: nat, i: nat, slack: nat)
    requires |es| == |kinds| == |lengths| == |covers| == |spacings| == |gaps| && i < |es|
    requires Placed(es, kinds, lengths, covers, spacings, gaps, start)
    requires covers[i] == Covered(kinds[i], lengths[i]) && gaps[i] <= slack
    ensures start <= es[i].offset <= es[i].CoveredEnd() <= start + slack + Sum(covers, |es|) + Sum(spacings, |es|)
  {
    SumGrows(covers, i + 1, |es|);
    SumGrows(spacings, i + 1, |es|);
  }

  lemma {:induction false} PlacedApart(es: seq<Entry>, kinds: seq<Kind>, lengths: seq<nat>, covers: seq<nat>,
                                       spacings: seq<nat>, gaps: seq<nat>, start: nat, i: nat)
    requires |es| == |kinds| == |lengths| == |covers| == |spacings| == |gaps| && 0 < i < |es|
    requires Placed(es, kinds, lengths, covers, spacings, gaps, start)
    requires covers[i - 1] == Covered(kinds[i - 1], lengths[i - 1]) && gaps[i - 1] <= gaps[i]
    ensures es[i - 1].CoveredEnd() + spacings[i - 1] <= es[i].offset
  {
    assert Sum(covers, i) == Sum(covers, i - 1) + covers[i - 1];
    assert Sum(spacings, i) == Sum(spacings, i - 1) + spacings[i - 1];
  }

  lemma {:induction false} PlacedIsSpread(es: seq<Entry>, kinds: seq<Kind>, lengths: seq<nat>, gaps: seq<nat>,
                                          slack: int, fileFrames: int, minSpacing: nat, start: nat)
    requires |es| == |kinds| == |lengths| == |gaps| && Ascending(gaps)
    requires Placed(es, kinds, lengths, Covers(kinds, lengths), Spacings(kinds, minSpacing), gaps, start)
    requires slack == fileFrames - start - Sum(Covers(kinds, lengths), |es|) - Sum(Spacings(kinds, minSpacing), |es|) - 1
    requires forall i :: 0 <= i < |gaps| ==> gaps[i] <= slack
    ensures Spread(es, fileFrames, minSpacing, start)
    ensures forall i :: 0 < i < |es| && es[i - 1].kind.Zero? && es[i].kind.Zero? ==> es[i - 1].offset < es[i].offset
  {
    hide Sum, Placed;
    var covers, spacings := Covers(kinds, lengths), Spacings(kinds, minSpacing);
    KindsPlaced(es, kinds, lengths, covers, spacings, gaps, start);
    forall i | 0 <= i < |es|
      ensures start <= es[i].offset < fileFrames && es[i].CoveredEnd() <= fileFrames
    {
      assert 0 <= gaps[i] <= slack;
      PlacedInCard(es, kinds, lengths, covers, spacings, gaps, start, i, slack);
    }
    forall i | 0 < i < |es|
      ensures es[i - 1].CoveredEnd() + minSpacing <= es[i].offset
      ensures es[i - 1].kind.Zero? && es[i].kind.Zero? ==> es[i - 1].offset < es[i].offset
    {
      PlacedApart(es, kinds, lengths, covers, spacings, gaps, start, i);
    }
  }

  lemma {:induction false} PlacedNext(es: seq<Entry>, kinds: seq<Kind>, lengths: seq<nat>, covers: seq<nat>,
                                      spacings: seq<nat>, gaps: seq<nat>, start: nat, i: nat)
    requires |es| == |kinds| == |lengths| == |covers| == |spacings| == |gaps| && 0 < i < |es|
    requires Placed(es, kinds, lengths, covers, spacings, gaps, start)
    requires covers[i - 1] == Covered(kinds[i - 1], lengths[i - 1])
    ensures es[i].offset + gaps[i - 1] == es[i - 1].CoveredEnd() + spacings[i - 1] + gaps[i]
  {
    assert Sum(covers, i) == Sum(covers, i - 1) + covers[i - 1];
    assert Sum(spacings, i) == Sum(spacings, i - 1) + spacings[i - 1];
  }

  lemma {:induction false} PlacedLast(es: seq<Entry>, kinds: seq<Kind>, lengths: seq<nat>, covers: seq<nat>,
                                      spacings: seq<nat>, gaps: seq<nat>, start: nat)
    requires 0 < |es| == |kinds| == |lengths| == |covers| == |spacings| == |gaps|
    requires Placed(es, kinds, lengths, covers, spacings, gaps, start)
    requires covers[|es| - 1] == Covered(kinds[|es| - 1], lengths[|es| - 1]) && spacings[|es| - 1] == 0
    ensures es[0].offset == start + gaps[0]
    ensures es[|es| - 1].CoveredEnd() == start + gaps[|es| - 1] + Sum(covers, |es|) + Sum(spacings, |es|)
  {
    var last := |es| - 1;
    assert Sum(covers, |es|) == Sum(covers, last) + covers[last];
    assert Sum(spacings, |es|) == Sum(spacings, last) + spacings[last];
  }

  lemma {:induction false} PlacedWalks(es: seq<Entry>, kinds: seq<Kind>, lengths: seq<nat>, gaps: seq<nat>,
                                       slack: int, fileFrames: int, minSpacing: nat, start: nat)
    requires |es| == |kinds| == |lengths| == |gaps|
    requires Placed(es, kinds, lengths, Covers(kinds, lengths), Spacings(kinds, minSpacing), gaps, start)
    requires slack == fileFrames - start - Sum(Covers(kinds, lengths), |es|) - Sum(Spacings(kinds, minSpacing), |es|) - 1
    ensures Walks(es, gaps, slack, fileFrames, minSpacing, start)
  {
    hide Sum, Placed, Entry.CoveredEnd;
    var covers, spacings := Covers(kinds, lengths), Spacings(kinds, minSpacing);
    KindsPlaced(es, kinds, lengths, covers, spacings, gaps, start);
    if |es| > 0 {
      PlacedLast(es, kinds, lengths, covers, spacings, gaps, start);
    }
    forall i | 0 < i < |es|
      ensures es[i].offset + gaps[i - 1] == es[i - 1].CoveredEnd() + Between(es[i - 1].kind, es[i].kind, minSpacing) + gaps[i]
    {
      PlacedNext(es, kinds, lengths, covers, spacings, gaps, start, i);
    }
  }

  lemma {:induction false} KindsPlaced(es: seq<Entry>, kinds: seq<Kind>, lengths: seq<nat>, covers: seq<nat>,
                                       spacings: seq<nat>, gaps: seq<nat>, start: nat)
    requires |es| == |kinds| == |lengths| == |covers| == |spacings| == |gaps|
    requires Placed(es, kinds, lengths, covers, spacings, gaps, start)
    ensures forall i :: 0 <= i < |es| ==> es[i].kind == kinds[i] && es[i].length == lengths[i]
  {
  }

  lemma NeighboursClear(es: seq<Entry>, minSpacing: nat)
    requires |es| <= MAX_ENTRIES && LengthsInRange(es)
    requires forall i :: 0 < i < |es| ==>
               && es[i - 1].CoveredEnd() + minSpacing <= es[i].offset
               && (es[i - 1].kind.Zero? && es[i].kind.Zero? ==> es[i - 1].offset < es[i].offset)
    ensures AllClear(es)
    ensures Judge(es) == if WindowsBounded(es) then Accepted else DropRunTooLong
  {
    forall j | 1 <= j < |es| ensures CheckOrder(es[j - 1], es[j]) == Accepted {
    }
    OrderVerdictNeighbours(es, 1);
    NeighboursSuffice(es);
  }

  /** All that holds of a list laid out along the card. */
  lemma ListLaidOut(es: seq<Entry>, kinds: seq<Kind>, lengths: seq<nat>, gaps: seq<nat>,
                    slack: int, fileFrames: int, minSpacing: nat, start: nat)
    requires |es| == |kinds| == |lengths| == |gaps| <= MAX_ENTRIES && Ascending(gaps)
    requires forall i :: 0 <= i < |lengths| ==> MIN_LENGTH <= lengths[i] <= MAX_LENGTH
    requires Placed(es, kinds, lengths, Covers(kinds, lengths), Spacings(kinds, minSpacing), gaps, start)
    requires slack == fileFrames - start - Sum(Covers(kinds, lengths), |es|) - Sum(Spacings(kinds, minSpacing), |es|) - 1
    requires forall i :: 0 <= i < |gaps| ==> gaps[i] <= slack
    ensures forall i :: 0 <= i < |es| ==> es[i].kind == kinds[i] && es[i].length == lengths[i]
    ensures Spread(es, fileFrames, minSpacing, start) && Walks(es, gaps, slack, fileFrames, minSpacing, start)
    ensures LengthsInRange(es) && AllClear(es)
    ensures Judge(es) == if WindowsBounded(es) then Accepted else DropRunTooLong
  {
    hide Placed, Walks, Sum, Covers, Spacings, Judge, AllClear, WindowsBounded;
    KindsPlaced(es, kinds, lengths, Covers(kinds, lengths), Spacings(kinds, minSpacing), gaps, start);
    PlacedIsSpread(es, kinds, lengths, gaps, slack, fileFrames, minSpacing, start);
    PlacedWalks(es, kinds, lengths, gaps, slack, fileFrames, minSpacing, start);
    NeighboursClear(es, minSpacing);
  }
}
