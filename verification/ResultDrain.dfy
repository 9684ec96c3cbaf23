/**
 Delivering the board's result blocks to the host (rt1170/player.cpp,
 host/live_control.py): the board pushes blocks whenever it likes, the drain asks for a
 page, saves it and acknowledges it, and the link may lose any request or its reply,
 come back, and come back to a board that started again.
 */
module ResultDrain {
  import opened Words
  import opened ResultRings
  import opened DrainFile

  const BLOCKS_ACCEPTED: nat := 3
  const ACK_BUSY_RETRIES: nat := 8
  const TICK_SLACK_MS: real := 2000.0
  const TICK_RATE_TOLERANCE: real := 0.01
  const TICKS: nat := UINT32_MAX + 1

  datatype State = Idle | Running | Gap | PausedRingFull | Done | Aborted | Failed

  predicate Active(state: State) {
    state.Running? || state.Gap? || state.PausedRingFull?
  }

  /** What the board says of its playlist: its state, its name, the number of its run. */
  datatype Progress = Progress(state: State, name: string, run: Uint32)

  /** One PLAYLIST? reply. */
  datatype Reply = Reply(progress: Progress, page: Page, tick: Option<Uint32>)

  /** The checks a reply passes before the drain uses it. */
  predicate WellFormed(p: Page) {
    && |p.blocks| <= Min(BLOCKS_ACCEPTED, p.pending)
    && (forall i :: 0 <= i < |p.blocks| ==> p.blocks[i].number > if i == 0 then 0 else p.blocks[i - 1].number)
    && (p.blocks != [] ==> p.blocks[0].number == p.oldest)
  }

  lemma PagesAreWellFormed(p: Page, v: BoardView)
    requires Sound(v) && PageOf(p, v)
    ensures WellFormed(p)
  {
    assert forall i :: 0 <= i < |p.blocks| ==> p.blocks[i] == v.made[v.acked + i];
  }

  /** What the board does on its own between two requests. */
  datatype Work = Made(run: Uint32, measured: nat) | Report(progress: Progress)

  /** The board as a value: its blocks and what it reports. */
  datatype BoardState = BoardState(view: BoardView, progress: Progress)

  const BOOTED: BoardState := BoardState(Ledger([], 0, [], 0), Progress(Idle, "", 0))

  /** One block, if the ring has room, or a new report; numbers are taken not to run out. */
  function Worked(b: BoardState, work: Work): BoardState {
    match work
    case Made(run, measured) =>
      if |b.view.made| - b.view.acked < RESULT_CAPACITY && |b.view.made| + FIRST_SEQ < UINT32_MAX then
        b.(view := b.view.(made := b.view.made + [Block(|b.view.made| + FIRST_SEQ, run, measured)]))
      else b
    case Report(now) => b.(progress := now)
  }

  function WorkedOn(b: BoardState, work: seq<Work>): (w: BoardState)
    ensures w.view.acked == b.view.acked && |b.view.made| <= |w.view.made| && w.view.boots == b.view.boots
  {
    if work == [] then b else Worked(WorkedOn(b, work[..|work| - 1]), work[|work| - 1])
  }

  /** A reset: the ring is empty and numbers from the first again, and nothing was played yet. */
  function Restarted(b: BoardState): BoardState {
    BoardState(Ledger([], 0, b.view.freed, b.view.boots + 1), Progress(Idle, "", 0))
  }

  lemma HeldAreNumbered(v: BoardView)
    requires Sound(v)
    ensures Numbered(v.made[v.acked..], v.acked + FIRST_SEQ)
  {
  }

  lemma EmptyIsSound(v: BoardView)
    requires v.made == []
    ensures Sound(v)
  {
  }

  lemma WorkIsSound(b: BoardState, work: Work)
    requires Sound(b.view)
    ensures Sound(Worked(b, work).view) && Grown(b.view, Worked(b, work).view)
  {
  }

  lemma OneMoreHeld(v: BoardView, block: Block)
    ensures (v.made + [block])[v.acked..] == v.made[v.acked..] + [block]
  {
  }

  lemma AckIsSound(v: BoardView, count: nat)
    requires Sound(v) && v.acked + count <= |v.made|
    ensures Sound(DrainFile.Freed(v, count))
  {
  }

  class Board {
    const ring: ResultRing
    var progress: Progress
    /** History the board itself forgets. */
    ghost var view: BoardView

    ghost predicate Valid()
      reads this, ring, ring.blocks
    {
      && ring.Valid() && Sound(view)
      && ring.nextSeq == |view.made| + FIRST_SEQ
      && ring.Contents() == view.made[view.acked..]
    }

    ghost function State(): BoardState
      reads this
    {
      BoardState(view, progress)
    }

    constructor ()
      ensures Valid() && fresh(ring) && fresh(ring.blocks) && State() == BOOTED
    {
      ring := new ResultRing();
      progress, view := Progress(Idle, "", 0), Ledger([], 0, [], 0);
    }

    method Reset()
      requires Valid()
      modifies this, ring
      ensures Valid() && State() == Restarted(old(State()))
    {
      EmptyIsSound(Restarted(State()).view);
      hide Sound, ring.Contents;
      ring.Clear();
      progress, view := Progress(Idle, "", 0), Restarted(State()).view;
    }

    method Make(run: Uint32, measured: nat)
      requires Valid()
      modifies this, ring, ring.blocks
      ensures Valid() && State() == Worked(old(State()), Made(run, measured))
      ensures old(ring.count) < RESULT_CAPACITY && old(ring.nextSeq) < UINT32_MAX ==>
                ring.Contents() == old(ring.Contents()) + [Block(old(ring.nextSeq), run, measured)]
    {
      WorkIsSound(State(), Made(run, measured));
      hide Sound, ring.Contents;
      if ring.nextSeq == UINT32_MAX {
        return;
      }
      ghost var next := ring.nextSeq;
      var status := ring.Push(run, measured);
      if status.Kept? {
        assert ring.nextSeq == next + 1;
        ghost var block := Block(next, run, measured);
        OneMoreHeld(view, block);
        view := view.(made := view.made + [block]);
      }
    }

    method Do(work: seq<Work>)
      requires Valid()
      modifies this, ring, ring.blocks
      ensures Valid() && State() == WorkedOn(old(State()), work)
    {
      hide Sound, ring.Contents;
      for k := 0 to |work|
        invariant Valid() && State() == WorkedOn(old(State()), work[..k])
      {
        assert work[..k + 1][..k] == work[..k];
        match work[k] {
          case Made(run, measured) => Make(run, measured);
          case Report(now) => progress := now;
        }
      }
      assert work[..|work|] == work;
    }

    /** PLAYLIST?: progress and page in one critical section. */
    method Snapshot(tick: Option<Uint32>) returns (reply: Reply)
      requires Valid()
      ensures reply == Reply(progress, PageAt(view), tick) && WellFormed(reply.page)
      ensures reply.page.pending == |ring.Contents()| && reply.page.next == ring.nextSeq
      ensures reply.page.blocks == ring.Contents()[..Min(BLOCKS_PER_REPLY, |ring.Contents()|)]
      ensures reply.page.oldest == if ring.Contents() == [] then 0 else ring.Contents()[0].number
    {
      var blocks := ring.CopyOldest(BLOCKS_PER_REPLY);
      reply := Reply(progress, Page(ring.count, ring.OldestSeq(), ring.nextSeq, blocks), tick);
      assert reply.page == PageAt(view) by {
        assert view.made[view.acked..][..Min(BLOCKS_PER_REPLY, ring.count)]
            == view.made[view.acked..view.acked + Min(BLOCKS_PER_REPLY, ring.count)];
        assert ring.count > 0 ==> ring.Contents()[0] == view.made[view.acked];
      }
      PagesAreWellFormed(reply.page, view);
    }

    /** PLAYLIST ACK of the last of the `count` oldest blocks frees exactly those. */
    method Acknowledge(through: Uint32, ghost count: nat) returns (status: RingStatus)
      requires Valid() && view.acked + count <= |view.made| && through == view.acked + count
      modifies this, ring
      ensures Valid() && status == RingStatus.Freed(count)
      ensures State() == old(State()).(view := DrainFile.Freed(old(view), count))
    {
      HeldAreNumbered(view);
      LeadingIsCovered(ring.Contents(), view.acked + FIRST_SEQ, through);
      AckIsSound(view, count);
      hide Sound, Numbered, Leading, ring.Contents;
      status := ring.Acknowledge(through);
      assert view.made[view.acked..][count..] == view.made[view.acked + count..];
      view := DrainFile.Freed(view, count);
    }
  }

  /** Work only adds blocks, none of them acknowledged. */
  lemma {:induction false} WorkGrows(b: BoardState, work: seq<Work>)
    requires Sound(b.view)
    ensures var w := WorkedOn(b, work); Sound(w.view) && Grown(b.view, w.view)
  {
    if work != [] {
      WorkGrows(b, work[..|work| - 1]);
      WorkIsSound(WorkedOn(b, work[..|work| - 1]), work[|work| - 1]);
    }
  }

  /** The rules by which a first reply after a lost link shows that the board was reset. */
  datatype Rule = Tick | Sequence | WentIdle | Image

  /** The tick did not run on by the host's elapsed time. */
  predicate TickRule(last: Uint32, now: Uint32, elapsed: real) {
    var advance := ((now - last) % TICKS) as real;
    var expected := (if elapsed > 0.0 then elapsed else 0.0) * 1000.0;
    var apart := if advance >= expected then advance - expected else expected - advance;
    apart > TICK_SLACK_MS + TICK_RATE_TOLERANCE * expected
  }

  predicate BothTicks(last: Reply, now: Reply) {
    last.tick.Some? && now.tick.Some?
  }

  predicate SequenceRule(last: Reply, now: Reply) {
    now.progress.run < last.progress.run || (now.progress.run == last.progress.run && now.page.next < last.page.next)
  }

  predicate IdleRule(last: Reply, now: Reply) {
    now.progress.state.Idle? && !last.progress.state.Idle?
  }

  function BoardReset(last: Reply, now: Reply, elapsed: real): seq<Rule> {
    (if BothTicks(last, now) && TickRule(last.tick.value, now.tick.value, elapsed) then [Tick] else [])
    + (if SequenceRule(last, now) then [Sequence] else [])
    + (if IdleRule(last, now) then [WentIdle] else [])
  }

  /**
   A board that only ran on is never taken for a reset one: its tick advanced by the
   host's time within the margin (a wrap of the counter included), its run and block
   numbers did not go back, and only a reset gives idle again.
   */
  lemma NoFalseAlarm(last: Reply, now: Reply, elapsed: real, ticks: nat)
    requires elapsed >= 0.0
    requires BothTicks(last, now) ==>
               && ticks < TICKS && now.tick.value == (last.tick.value + ticks) % TICKS
               && -TICK_SLACK_MS - TICK_RATE_TOLERANCE * (elapsed * 1000.0) <= ticks as real - elapsed * 1000.0
                  <= TICK_SLACK_MS + TICK_RATE_TOLERANCE * (elapsed * 1000.0)
    requires now.progress.run > last.progress.run || (now.progress.run == last.progress.run && now.page.next >= last.page.next)
    requires !last.progress.state.Idle? ==> !now.progress.state.Idle?
    ensures BoardReset(last, now, elapsed) == []
  {
    if BothTicks(last, now) {
      Advance(last.tick.value, now.tick.value, ticks);
    }
  }

  lemma Advance(last: Uint32, now: Uint32, ticks: nat)
    requires ticks < TICKS && now == (last + ticks) % TICKS
    ensures (now - last) % TICKS == ticks
  {
    if last + ticks < TICKS {
      assert now == last + ticks;
    } else {
      assert now == last + ticks - TICKS;
      assert now - last == ticks - TICKS;
    }
  }

  /** How far a tick may run from the host's time. */
  function Margin(elapsed: real): real {
    TICK_SLACK_MS + TICK_RATE_TOLERANCE * (elapsed * 1000.0)
  }

  /**
   When the tick alone shows a restart, exactly. The board ran `last` ticks before its last
   reply and has run `now` ticks since it restarted, no longer than the host waited; as long
   as nothing comes near a whole turn of the counter, the restart is seen if and only if the
   tick went back, or the ticks it lost and the time it was down pass the margin together.
   */
  lemma RestartIsSeen(last: Uint32, now: Uint32, elapsed: real)
    requires now as real <= elapsed * 1000.0
    requires last as real + elapsed * 1000.0 + Margin(elapsed) < TICKS as real
    ensures TickRule(last, now, elapsed)
       <==> now < last || last as real + (elapsed * 1000.0 - now as real) > Margin(elapsed)
  {
    if now >= last {
      Advance(last, now, now - last);
    } else {
      Advance(last, now, now - last + TICKS);
    }
  }

  /** A restart that goes unseen: two seconds after its start, with the host gone for two seconds. */
  lemma RestartMissed()
    ensures !TickRule(2000, 2000, 2.0)
  {
  }

  /** How a lost link ends: for good, or with a new session, the board having worked on or started again. */
  datatype Relink = NotRestored | Restored(meanwhile: seq<Work>, reset: bool, imageChanged: bool)

  /** What becomes of one request. */
  datatype Fate = Answered | Busy | Broken | Lost(processed: bool, relink: Relink)

  /**
   One request: what the board did before it, its fate, and the two clocks at the reply: the
   board's milliseconds since it started, if its image reports them, and the host's seconds.
   */
  datatype Exchange = Exchange(work: seq<Work>, fate: Fate, uptime: Option<nat>, at: real)

  /** The board's 32-bit tick. */
  function TickOf(uptime: Option<nat>): Option<Uint32> {
    if uptime.Some? then Some(uptime.value % TICKS) else None
  }

  datatype Ending =
    | LinkLost
    | ResetSeen(rules: seq<Rule>, lost: Span, wasRunning: bool)
    | EmptyPoll
    | Ended(state: State)
    | MaxPolls
    | Refused

  /** One line of the file: a block, under the playlist's name if it is of the run reported. */
  datatype Line = Line(playlist: Option<string>, block: Block)

  function Blocks(lines: seq<Line>): (blocks: seq<Block>)
    ensures |blocks| == |lines|
  {
    seq(|lines|, i requires 0 <= i < |lines| => lines[i].block)
  }

  /** What the drain remembers, as a value: its file, its newest number, its last reply and the board then. */
  datatype Memory = Memory(start: Start, file: seq<Block>, newest: nat, last: Option<Page>, seen: BoardView)

  ghost predicate Tracks(m: Memory, v: BoardView) {
    && Safe(m.start, v, m.file)
    && (v.boots == m.start.boots ==> Exact(m.start, v, m.file, m.newest))
    && (m.last.Some? ==> LastTracks(m))
  }

  ghost predicate LastTracks(m: Memory)
    requires m.last.Some?
  {
    && Sound(m.seen) && PageOf(m.last.value, m.seen)
    && (m.seen.boots == m.start.boots ==> Exact(m.start, m.seen, m.file, m.newest))
  }

  lemma TracksGrowth(m: Memory, v: BoardView, w: BoardView)
    requires Tracks(m, v) && Grown(v, w)
    ensures Tracks(m, w)
  {
    hide Safe, Exact;
    GrowthKeepsSafe(m.start, v, w, m.file);
    if v.boots == m.start.boots {
      GrowthKeepsExact(m.start, v, w, m.file, m.newest);
    }
  }

  lemma TracksReset(m: Memory, v: BoardView, w: BoardView)
    requires Tracks(m, v) && w == Ledger([], 0, v.freed, v.boots + 1)
    ensures Tracks(m, w)
  {
    hide Exact;
    ResetKeepsSafe(m.start, v, w, m.file);
  }

  /** After a page is saved and remembered. */
  function Remember(m: Memory, page: Page, v: BoardView): Memory {
    m.(file := SaveAll(m.file, page.blocks), last := Some(page), seen := v,
    newest := Max(m.newest, if page.blocks == [] then 0 else page.blocks[|page.blocks| - 1].number))
  }

  /** The `count` oldest blocks on the board are in the file. */
  ghost predicate PageSaved(m: Memory, v: BoardView, count: nat) {
    && v.acked + count <= |v.made|
    && (forall i :: v.acked <= i < v.acked + count ==> v.made[i] in m.file)
    && (v.boots == m.start.boots ==> v.acked + count <= Max(m.newest, m.start.acked))
  }

  lemma TracksPage(m: Memory, v: BoardView, page: Page)
    requires Sound(v) && Tracks(m, v) && PageOf(page, v)
    ensures Tracks(Remember(m, page, v), v) && PageSaved(Remember(m, page, v), v, |page.blocks|)
  {
    hide Safe, Exact, SaveAll, Sound;
    var after := Remember(m, page, v);
    PageKeepsSafe(m.start, v, m.file, page.blocks);
    if v.boots == m.start.boots {
      PageKeepsExact(m.start, v, m.file, m.newest, page, after.newest);
      ShownIsCounted(m.start, v, after.file, after.newest, page);
    }
    forall i | v.acked <= i < v.acked + |page.blocks|
      ensures v.made[i] in after.file
    {
      assert v.made[i] == page.blocks[i - v.acked];
    }
  }

  lemma ShownIsCounted(s: Start, v: BoardView, file: seq<Block>, newest: nat, page: Page)
    requires Sound(v) && Exact(s, v, file, newest) && PageOf(page, v)
    requires page.blocks != [] ==> newest >= page.blocks[|page.blocks| - 1].number
    ensures v.acked + |page.blocks| <= Max(newest, s.acked)
  {
    hide SaveAll;
  }

  lemma PageSavedGrowth(m: Memory, v: BoardView, w: BoardView, count: nat)
    requires PageSaved(m, v, count) && Grown(v, w)
    ensures PageSaved(m, w, count)
  {
    assert forall i :: v.acked <= i < v.acked + count ==> w.made[i] == v.made[i];
  }

  lemma TracksAck(m: Memory, v: BoardView, count: nat)
    requires Tracks(m, v) && PageSaved(m, v, count)
    ensures Tracks(m, DrainFile.Freed(v, count))
  {
    hide Safe, Exact;
    AckKeepsSafe(m.start, v, m.file, count);
    if v.boots == m.start.boots {
      AckKeepsExact(m.start, v, m.file, m.newest, count);
    }
  }
}
