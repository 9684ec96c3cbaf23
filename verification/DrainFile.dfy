/**
 What a drain's file must hold (host/live_control.py, PlaylistDrain): the pure side of
 the delivery protocol. A block counts as saved when an equal one is in the file.
 */
module DrainFile {
  import opened Words
  import opened ResultRings

  /** `file` after every one of `blocks` has been saved to it, each at most once. */
  function SaveAll(file: seq<Block>, blocks: seq<Block>): (after: seq<Block>)
    ensures |file| <= |after| && after[..|file|] == file
  {
    if blocks == [] then file
    else
      var front := SaveAll(file, blocks[..|blocks| - 1]);
      var block := blocks[|blocks| - 1];
      if block in front then front else front + [block]
  }

  /** No line from `first` on repeats an earlier one. */
  ghost predicate NoneTwice(file: seq<Block>, first: nat) {
    forall i, j :: 0 <= i < j < |file| && first <= j ==> file[i] != file[j]
  }

  lemma {:induction false} SavedIsThere(file: seq<Block>, blocks: seq<Block>)
    ensures forall block :: block in SaveAll(file, blocks) <==> block in file || block in blocks
  {
    if blocks != [] {
      var front := blocks[..|blocks| - 1];
      SavedIsThere(file, front);
      assert blocks == front + [blocks[|blocks| - 1]];
    }
  }

  lemma {:induction false} SavedOnce(file: seq<Block>, blocks: seq<Block>, first: nat)
    requires NoneTwice(file, first)
    ensures NoneTwice(SaveAll(file, blocks), first)
  {
    if blocks != [] {
      SavedOnce(file, blocks[..|blocks| - 1], first);
    }
  }

  /** Saving in two parts saves the whole. */
  lemma {:induction false} SaveInParts(file: seq<Block>, a: seq<Block>, b: seq<Block>)
    ensures SaveAll(SaveAll(file, a), b) == SaveAll(file, a + b)
  {
    if b == [] {
      assert a + b == a;
    } else {
      SaveInParts(file, a, b[..|b| - 1]);
      assert (a + b)[..|a + b| - 1] == a + b[..|b| - 1];
    }
  }

  /** Blocks shown again change nothing. */
  lemma {:induction false} ShownAgain(file: seq<Block>, blocks: seq<Block>)
    requires forall i :: 0 <= i < |blocks| ==> blocks[i] in file
    ensures SaveAll(file, blocks) == file
  {
    if blocks != [] {
      ShownAgain(file, blocks[..|blocks| - 1]);
    }
  }

  /** Saving a stretch that overlaps what is already saved extends it. */
  lemma SaveOverlapping(file: seq<Block>, made: seq<Block>, lo: nat, at: nat, shown: nat, end: nat)
    requires lo <= at <= shown <= |made| && at <= end <= |made|
    ensures SaveAll(SaveAll(file, made[lo..shown]), made[at..end]) == SaveAll(file, made[lo..Max(shown, end)])
  {
    hide SaveAll;
    var seen := made[lo..shown];
    var mid := Min(shown, end);
    var again, more := made[at..mid], made[mid..end];
    SavedIsThere(file, seen);
    forall i | 0 <= i < |again|
      ensures again[i] in SaveAll(file, seen)
    {
      assert again[i] == seen[at + i - lo];
    }
    ShownAgain(SaveAll(file, seen), again);
    SaveInParts(SaveAll(file, seen), again, more);
    assert made[at..end] == again + more;
    SaveInParts(file, seen, more);
    if end <= shown {
      assert seen + more == seen;
    } else {
      assert seen + more == made[lo..end];
    }
  }

  /** Into an empty file, blocks with distinct numbers go exactly as they are. */
  lemma {:induction false} FreshFile(blocks: seq<Block>, first: nat)
    requires Numbered(blocks, first)
    ensures SaveAll([], blocks) == blocks
  {
    if blocks != [] {
      var front := blocks[..|blocks| - 1];
      FreshFile(front, first);
      assert blocks == front + [blocks[|blocks| - 1]];
      assert blocks[|blocks| - 1] !in front;
    }
  }

  /**
   The board as the protocol sees it: every block it made since it started, how many of
   those are acknowledged, every block ever freed by an acknowledgement, and its starts.
   */
  datatype Ledger = Ledger(made: seq<Block>, acked: nat, freed: seq<Block>, boots: nat)

  type BoardView = v: Ledger | v.acked <= |v.made| witness Ledger([], 0, [], 0)

  ghost predicate Sound(v: BoardView) {
    Numbered(v.made, FIRST_SEQ)
  }

  /** The board worked on: more blocks, none of them acknowledged, no new start. */
  ghost predicate Grown(v: BoardView, w: BoardView) {
    v.made <= w.made && v.acked == w.acked && v.freed == w.freed && v.boots == w.boots
  }

  /** Where a drain began: its file, and the board then. */
  datatype Start = Start(file: seq<Block>, acked: nat, freed: nat, boots: nat)

  /** The first block of the board's present run that this drain may see acknowledged. */
  function Since(s: Start, v: BoardView): nat {
    if v.boots == s.boots then s.acked else 0
  }

  /** What holds in every run, resets or not: nothing is freed unsaved, nothing is saved twice. */
  ghost predicate Safe(s: Start, v: BoardView, file: seq<Block>) {
    && |s.file| <= |file| && file[..|s.file|] == s.file
    && NoneTwice(file, |s.file|)
    && s.freed <= |v.freed| && (forall i :: s.freed <= i < |v.freed| ==> v.freed[i] in file)
    && s.boots <= v.boots
    && (forall i :: Since(s, v) <= i < v.acked ==> v.made[i] in file)
  }

  /** What holds while no reset came: the file is the old one and then every block shown so far. */
  ghost predicate Exact(s: Start, v: BoardView, file: seq<Block>, newest: nat) {
    var shown := Max(newest, s.acked);
    && s.acked <= v.acked <= shown <= |v.made|
    && file == SaveAll(s.file, v.made[s.acked..shown])
  }

  /** The board's side of a reply: its oldest blocks, how many it holds, the next number. */
  datatype Page = Page(pending: nat, oldest: nat, next: nat, blocks: seq<Block>)

  function PageAt(v: BoardView): (p: Page)
    ensures |p.blocks| <= BLOCKS_PER_REPLY && v.acked + |p.blocks| <= |v.made|
    ensures p.blocks == [] <==> v.acked == |v.made|
  {
    var pending := |v.made| - v.acked;
    Page(pending, if pending == 0 then 0 else v.acked + FIRST_SEQ, |v.made| + FIRST_SEQ,
         v.made[v.acked..v.acked + Min(BLOCKS_PER_REPLY, pending)])
  }

  ghost predicate PageOf(p: Page, v: BoardView) {
    p == PageAt(v)
  }

  lemma GrowthKeepsSafe(s: Start, v: BoardView, w: BoardView, file: seq<Block>)
    requires Safe(s, v, file) && Grown(v, w)
    ensures Safe(s, w, file)
  {
    assert forall i :: 0 <= i < v.acked ==> v.made[i] == w.made[i];
  }

  lemma GrowthKeepsExact(s: Start, v: BoardView, w: BoardView, file: seq<Block>, newest: nat)
    requires Exact(s, v, file, newest) && Grown(v, w)
    ensures Exact(s, w, file, newest)
  {
    var shown := Max(newest, s.acked);
    assert v.made[s.acked..shown] == w.made[s.acked..shown];
  }

  /** Saving a page keeps a safe file safe, and puts the whole page in it. */
  lemma PageKeepsSafe(s: Start, v: BoardView, file: seq<Block>, page: seq<Block>)
    requires Safe(s, v, file)
    ensures Safe(s, v, SaveAll(file, page))
    ensures forall i :: 0 <= i < |page| ==> page[i] in SaveAll(file, page)
  {
    SavedIsThere(file, page);
    SavedOnce(file, page, |s.file|);
  }

  lemma PageKeepsExact(s: Start, v: BoardView, file: seq<Block>, newest: nat, p: Page, after: nat)
    requires Sound(v) && Exact(s, v, file, newest) && PageOf(p, v)
    requires after == Max(newest, if p.blocks == [] then 0 else p.blocks[|p.blocks| - 1].number)
    ensures Exact(s, v, SaveAll(file, p.blocks), after)
  {
    hide SaveAll, Numbered;
    var shown, end := Max(newest, s.acked), v.acked + |p.blocks|;
    SaveOverlapping(s.file, v.made, s.acked, v.acked, shown, end);
    if p.blocks != [] {
      LastNumber(v, end);
    }
  }

  lemma LastNumber(v: BoardView, end: nat)
    requires Sound(v) && 0 < end <= |v.made|
    ensures v.made[end - 1].number == end
  {
  }

  /** The board after its `count` oldest blocks are acknowledged. */
  function Freed(v: BoardView, count: nat): BoardView
    requires v.acked + count <= |v.made|
  {
    v.(acked := v.acked + count, freed := v.freed + v.made[v.acked..v.acked + count])
  }

  lemma AckKeepsSafe(s: Start, v: BoardView, file: seq<Block>, count: nat)
    requires Safe(s, v, file) && v.acked + count <= |v.made|
    requires forall i :: v.acked <= i < v.acked + count ==> v.made[i] in file
    ensures Safe(s, Freed(v, count), file)
  {
    var w := Freed(v, count);
    forall i | s.freed <= i < |w.freed|
      ensures w.freed[i] in file
    {
      if i >= |v.freed| {
        assert w.freed[i] == v.made[v.acked + i - |v.freed|];
      }
    }
  }

  lemma AckKeepsExact(s: Start, v: BoardView, file: seq<Block>, newest: nat, count: nat)
    requires Exact(s, v, file, newest) && v.acked + count <= Max(newest, s.acked)
    ensures Exact(s, Freed(v, count), file, newest)
  {
    hide SaveAll;
  }

  lemma ResetKeepsSafe(s: Start, v: BoardView, w: BoardView, file: seq<Block>)
    requires Safe(s, v, file)
    requires w.made == [] && w.acked == 0 && w.freed == v.freed && w.boots == v.boots + 1
    ensures Safe(s, w, file)
  {
  }

  /** With an empty page on show, every block made in this run of the board is in the file. */
  lemma EmptyPageMeansAllSaved(s: Start, v: BoardView, file: seq<Block>, p: Page)
    requires Safe(s, v, file) && PageOf(p, v) && p.blocks == []
    ensures forall i :: Since(s, v) <= i < |v.made| ==> v.made[i] in file
  {
    assert p.pending == 0;
  }

  /** With an empty page on show and no reset, the file ends with every block made, in order. */
  lemma EmptyPageIsTheWholeFile(s: Start, v: BoardView, file: seq<Block>, newest: nat, p: Page)
    requires Exact(s, v, file, newest) && PageOf(p, v) && p.blocks == []
    ensures file == SaveAll(s.file, v.made[s.acked..])
  {
    assert p.pending == 0;
    assert v.made[s.acked..] == v.made[s.acked..|v.made|];
  }

  /** The first and last number of the blocks lost. */
  datatype Span = Nothing | Numbers(first: nat, last: nat)

  /** host/live_control.py, `_lost_blocks`. */
  function LostBlocks(last: Page, newest: nat): Span {
    var acknowledged := if last.pending > 0 then last.oldest - 1 else last.next - 1;
    var first := Max(newest, acknowledged) + 1;
    if first <= last.next - 1 then Numbers(first, last.next - 1) else Nothing
  }

  predicate Names(span: Span, number: nat) {
    span.Numbers? && span.first <= number <= span.last
  }

  /**
   For a file that was empty, the blocks reported lost are exactly those the board had
   made by its last reply that were neither acknowledged before the drain nor ever saved.
   */
  lemma LostExactly(s: Start, v: BoardView, file: seq<Block>, newest: nat, last: Page, number: nat)
    requires Sound(v) && Exact(s, v, file, newest) && PageOf(last, v) && s.file == []
    requires FIRST_SEQ <= number < last.next
    ensures Names(LostBlocks(last, newest), number) <==> number > s.acked && v.made[number - FIRST_SEQ] !in file
  {
    hide SaveAll;
    var shown := Max(newest, s.acked);
    var kept := v.made[s.acked..shown];
    assert Numbered(kept, s.acked + FIRST_SEQ);
    FreshFile(kept, s.acked + FIRST_SEQ);
    var block := v.made[number - FIRST_SEQ];
    if s.acked < number <= shown {
      assert block == kept[number - FIRST_SEQ - s.acked];
    } else {
      assert forall i :: 0 <= i < |kept| ==> kept[i].number != block.number;
    }
  }
}
