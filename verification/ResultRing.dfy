/**
 The board's ring of result blocks (common/playlist.hpp): at most 32 blocks not yet
 acknowledged, oldest first and numbered without a gap, over a fixed array.
 */
module ResultRings {
  import opened Words

  const RESULT_CAPACITY: nat := 32
  const BLOCKS_PER_REPLY: nat := 2
  const FIRST_SEQ: nat := 1
  const SEQUENCES: nat := UINT32_MAX + 1

  /** One item's result: its number, its run, and everything else the board measured. */
  datatype Block = Block(number: Uint32, run: Uint32, measured: nat)

  datatype RingStatus = Kept | RingFull | AckRange | Freed(blocks: nat)

  /** Blocks numbered one after the other from `first` on. */
  ghost predicate Numbered(blocks: seq<Block>, first: nat) {
    forall i :: 0 <= i < |blocks| ==> blocks[i].number == first + i
  }

  /** How many of `count` blocks numbered from `first` on an acknowledgement through `through` covers. */
  function Covered(first: nat, count: nat, through: nat): (freed: nat)
    ensures freed <= count
    ensures freed > 0 ==> first + freed - 1 <= through
    ensures freed < count ==> through < first + freed
  {
    if through < first then 0 else Min(count, through - first + 1)
  }

  /** How many blocks from the front on are numbered `through` or below: what an acknowledgement frees. */
  function Leading(held: seq<Block>, through: Uint32): (freed: nat)
    ensures freed <= |held|
  {
    if held == [] || held[0].number > through then 0 else 1 + Leading(held[1..], through)
  }

  /** Numbered without a gap, the blocks freed are those that the number covers. */
  lemma {:induction false} LeadingIsCovered(held: seq<Block>, first: nat, through: Uint32)
    requires Numbered(held, first)
    ensures Leading(held, through) == Covered(first, |held|, through)
  {
    if held != [] && held[0].number <= through {
      assert Numbered(held[1..], first + 1);
      LeadingIsCovered(held[1..], first + 1, through);
    }
  }

  /** The numbers after one another, in 32 bits. */
  ghost predicate NumberedInWords(blocks: seq<Block>, next: Uint32) {
    forall i :: 0 <= i < |blocks| ==> blocks[i].number == (next - |blocks| + i) % SEQUENCES
  }

  /**
   The number of blocks is 32 bits wide and wraps. A ring that holds blocks can be acknowledged
   at all if and only if its next number has not wrapped past them: otherwise every number that
   the board takes lies below its oldest block's.
   */
  lemma AcknowledgeableIffUnwrapped(held: seq<Block>, next: Uint32)
    requires 0 < |held| <= RESULT_CAPACITY && NumberedInWords(held, next)
    ensures (exists through: Uint32 :: through < next && Leading(held, through) > 0) <==> |held| <= next
  {
    var oldest := held[0].number;
    if |held| <= next {
      assert oldest == next - |held|;
      assert Leading(held, oldest) > 0;
    } else {
      assert oldest == next - |held| + SEQUENCES >= next;
    }
  }

  /** A block kept under the next number keeps the numbering, across a wrap too. */
  lemma OneMoreNumbered(held: seq<Block>, next: Uint32, block: Block)
    requires NumberedInWords(held, next) && block.number == next
    ensures NumberedInWords(held + [block], (next + 1) % SEQUENCES)
  {
    forall i | 0 <= i < |held| + 1
      ensures (held + [block])[i].number == ((next + 1) % SEQUENCES - (|held| + 1) + i) % SEQUENCES
    {
      SameWord(next - |held| + i, (next + 1) % SEQUENCES - (|held| + 1) + i);
    }
  }

  lemma SameWord(x: int, y: int)
    requires x == y || x == y + SEQUENCES
    ensures x % SEQUENCES == y % SEQUENCES
  {
  }

  class ResultRing {
    const blocks: array<Block>
    var first: nat
    var count: nat
    var nextSeq: Uint32

    ghost predicate Valid()
      reads this, blocks
    {
      && blocks.Length == RESULT_CAPACITY
      && first < RESULT_CAPACITY && count <= RESULT_CAPACITY
    }

    /** The blocks held, oldest first. */
    ghost function Contents(): (held: seq<Block>)
      requires blocks.Length == RESULT_CAPACITY
      reads this, blocks
      ensures |held| == count
    {
      seq(count, i requires 0 <= i reads this, blocks => blocks[(first + i) % RESULT_CAPACITY])
    }

    constructor ()
      ensures Valid() && fresh(blocks) && Contents() == [] && nextSeq == FIRST_SEQ
    {
      blocks := new Block[RESULT_CAPACITY](_ => Block(0, 0, 0));
      first, count, nextSeq := 0, 0, FIRST_SEQ;
    }

    method Clear()
      requires Valid()
      modifies this
      ensures Valid() && Contents() == [] && count == 0 && nextSeq == FIRST_SEQ
    {
      first, count, nextSeq := 0, 0, FIRST_SEQ;
    }

    /** Keeps a block as the newest, under the next number; a full ring changes nothing. */
    method Push(run: Uint32, measured: nat) returns (status: RingStatus)
      requires Valid()
      modifies this, blocks
      ensures Valid()
      ensures old(count) == RESULT_CAPACITY ==>
                status == RingFull && Contents() == old(Contents()) && nextSeq == old(nextSeq)
      ensures old(count) < RESULT_CAPACITY ==>
                && status == Kept && nextSeq == (old(nextSeq) + 1) % SEQUENCES
                && Contents() == old(Contents()) + [Block(old(nextSeq), run, measured)]
    {
      if count == RESULT_CAPACITY {
        return RingFull;
      }
      blocks[(first + count) % RESULT_CAPACITY] := Block(nextSeq, run, measured);
      nextSeq := (nextSeq + 1) % SEQUENCES;
      count := count + 1;
      status := Kept;
      assert Contents() == old(Contents()) + [Block(old(nextSeq), run, measured)];
    }

    /** Frees the blocks from the oldest on that are numbered `through` or below; a number not given yet frees nothing. */
    method Acknowledge(through: Uint32) returns (status: RingStatus)
      requires Valid()
      modifies this
      ensures Valid() && nextSeq == old(nextSeq)
      ensures through >= nextSeq ==> status == AckRange && Contents() == old(Contents())
      ensures through < nextSeq ==>
                var freed := Leading(old(Contents()), through);
                status == Freed(freed) && Contents() == old(Contents())[freed..]
    {
      if through >= nextSeq {
        return AckRange;
      }
      var freed := 0;
      ghost var held := Contents();
      while count != 0 && OldestSeq() <= through
        invariant Valid() && nextSeq == old(nextSeq) && freed + count == |held|
        invariant Contents() == held[freed..]
        invariant Leading(held, through) == freed + Leading(held[freed..], through)
        decreases count
      {
        assert held[freed..][1..] == held[freed + 1..];
        FreeOldest();
        freed := freed + 1;
      }
      status := Freed(freed);
    }

    /** One step of the loop above. */
    method FreeOldest()
      requires Valid() && count > 0
      modifies `first, `count
      ensures Valid() && Contents() == old(Contents())[1..] && count == old(count) - 1
    {
      first := (first + 1) % RESULT_CAPACITY;
      count := count - 1;
      assert Contents() == old(Contents())[1..];
    }

    /** The oldest blocks, at most `room`. */
    method CopyOldest(room: nat) returns (copied: seq<Block>)
      requires Valid()
      ensures copied == Contents()[..Min(room, count)]
    {
      copied := [];
      for index := 0 to Min(room, count)
        invariant copied == Contents()[..index]
      {
        copied := copied + [blocks[(first + index) % RESULT_CAPACITY]];
      }
    }

    /** The oldest block's number, 0 when there is none. */
    function OldestSeq(): (oldest: Uint32)
      requires Valid()
      reads this, blocks
      ensures oldest == if count == 0 then 0 else Contents()[0].number
    {
      if count == 0 then 0 else blocks[first].number
    }
  }
}
