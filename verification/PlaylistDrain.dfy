/**
 The drain itself (host/live_control.py, PlaylistDrain): ask, save, acknowledge, reopen
 the link, over every list of things that may happen to its requests.
 */
module PlaylistDrains {
  import opened Words
  import opened ResultRings
  import opened DrainFile
  import opened ResultDrain

  /** What the drain notes about a link it lost. */
  datatype LinkEvent = LinkEvent(afterPolls: nat, restored: bool, imageChanged: bool)

  /** How acknowledging one page went. */
  datatype AckOutcome = Acknowledged | LinkDropped(restored: bool) | Raised | StillTrying

  /** The drain as a value; where it began and the board at its last reply are history. */
  datatype Drain = Drain(
    reconnects: bool, start: Start, lines: seq<Line>, newest: nat, last: Option<Reply>, lastAt: real, relinked: bool,
    links: seq<LinkEvent>, acknowledged: nat, polls: nat, emptyPolls: nat, sessions: nat, seen: BoardView)
  {
    function Memory(): Memory {
      ResultDrain.Memory(start, Blocks(lines), newest, if last.Some? then Some(last.value.page) else None, seen)
    }
  }

  /** The drain and the board it drains. */
  datatype World = World(drain: Drain, board: BoardState)

  /** How a drain is asked to run. */
  datatype Orders = Orders(untilDone: bool, maxPolls: Option<nat>)

  // What one exchange does to the two.

  /** A drain on a file with the given lines, to a board as it now is. */
  function Opened(reconnects: bool, file: seq<Line>, v: BoardView): Drain {
    Drain(reconnects, Start(Blocks(file), v.acked, |v.freed|, v.boots), file, 0, None, 0.0, false, [], 0, 0, 0, 1, v)
  }

  /** A block is named for the playlist reported only if it is of its run. */
  function LineOf(progress: Progress, block: Block): Line {
    Line(if block.run == progress.run then Some(progress.name) else None, block)
  }

  /** The file after a page: each block not in it yet, as a line of its own. */
  function SaveLines(lines: seq<Line>, progress: Progress, blocks: seq<Block>): (after: seq<Line>)
    ensures |lines| <= |after| && after[..|lines|] == lines
  {
    if blocks == [] then lines
    else
      var front := SaveLines(lines, progress, blocks[..|blocks| - 1]);
      var block := blocks[|blocks| - 1];
      if block in Blocks(front) then front else front + [LineOf(progress, block)]
  }

  /** The new lines hold just the blocks that were not there, each once, under the name of its own run only. */
  lemma {:induction false} SavedLines(lines: seq<Line>, progress: Progress, blocks: seq<Block>)
    ensures var after := SaveLines(lines, progress, blocks);
            && Blocks(after) == SaveAll(Blocks(lines), blocks)
            && (forall i :: |lines| <= i < |after| ==>
                  after[i].playlist == if after[i].block.run == progress.run then Some(progress.name) else None)
  {
    if blocks != [] {
      var front, block := SaveLines(lines, progress, blocks[..|blocks| - 1]), blocks[|blocks| - 1];
      SavedLines(lines, progress, blocks[..|blocks| - 1]);
      assert Blocks(front + [LineOf(progress, block)]) == Blocks(front) + [block];
    }
  }

  function AfterSave(d: Drain, progress: Progress, page: Page): Drain {
    d.(lines := SaveLines(d.lines, progress, page.blocks),
       newest := Max(d.newest, if page.blocks == [] then 0 else page.blocks[|page.blocks| - 1].number))
  }

  /** A new session comes only to a drain that reconnects. */
  predicate Relinks(d: Drain, relink: Relink) {
    d.reconnects && relink.Restored?
  }

  /** After a lost link: noted, or a new session, the board having worked on or started again meanwhile. */
  function AfterRelink(w: World, relink: Relink): World {
    if !Relinks(w.drain, relink) then w.(drain := w.drain.(links := w.drain.links + [LinkEvent(w.drain.polls, false, false)]))
    else
      var board := WorkedOn(w.board, relink.meanwhile);
      World(w.drain.(links := w.drain.links + [LinkEvent(w.drain.polls, true, relink.imageChanged)],
                     sessions := w.drain.sessions + 1, relinked := true),
            if relink.reset then Restarted(board) else board)
  }

  function AfterFree(w: World, count: nat): World
    requires w.board.view.acked + count <= |w.board.view.made|
  {
    w.(board := w.board.(view := DrainFile.Freed(w.board.view, count)))
  }

  datatype AckResult = AckResult(world: World, outcome: AckOutcome, next: nat)

  /**
   PLAYLIST ACK of a saved page: only a BUSY refusal is tried again, at most eight times, and
   an acknowledgement whose fate is unknown is never sent again.
   */
  function AfterAck(w: World, script: seq<Exchange>, at: nat, count: nat, attempt: nat): (r: AckResult)
    requires at <= |script| && w.board.view.acked + count <= |w.board.view.made| && attempt <= ACK_BUSY_RETRIES
    ensures at <= r.next <= |script| && (r.outcome.StillTrying? ==> r.next == |script|)
    decreases |script| - at
  {
    if at == |script| then AckResult(w, StillTrying, at)
    else
      var k := w.(board := WorkedOn(w.board, script[at].work));
      match script[at].fate
      case Busy =>
        if attempt == ACK_BUSY_RETRIES then AckResult(k, Raised, at + 1) else AfterAck(k, script, at + 1, count, attempt + 1)
      case Broken => AckResult(k, Raised, at + 1)
      case Answered => AckResult(AfterFree(k, count), Acknowledged, at + 1)
      case Lost(processed, relink) =>
        AckResult(AfterRelink(if processed then AfterFree(k, count) else k, relink), LinkDropped(Relinks(k.drain, relink)), at + 1)
  }

  /** The rules by which the first reply of a new session shows a reset. */
  function Rules(d: Drain, reply: Reply, at: real): seq<Rule> {
    if !d.relinked || d.last.None? then []
    else
      BoardReset(d.last.value, reply, at - d.lastAt)
      + if d.links != [] && d.links[|d.links| - 1].imageChanged then [Image] else []
  }

  function AfterTake(d: Drain, reply: Reply, at: real, v: BoardView): Drain {
    AfterSave(d.(relinked := false, last := Some(reply), lastAt := at, seen := v), reply.progress, reply.page)
  }

  datatype TurnResult = TurnResult(world: World, ending: Option<Ending>, next: nat)

  /** After a page is saved: its acknowledgement, and the end if that or the link behind it fails. */
  function AfterConfirm(w: World, script: seq<Exchange>, at: nat, count: nat): (r: TurnResult)
    requires at <= |script| && w.board.view.acked + count <= |w.board.view.made|
    ensures at <= r.next <= |script|
  {
    var acked := AfterAck(w, script, at, count, 0);
    match acked.outcome
    case Acknowledged =>
      TurnResult(acked.world.(drain := acked.world.drain.(acknowledged := acked.world.drain.acknowledged + count)), None, acked.next)
    case LinkDropped(restored) => TurnResult(acked.world, if restored then None else Some(LinkLost), acked.next)
    case Raised => TurnResult(acked.world, Some(Refused), acked.next)
    case StillTrying => TurnResult(acked.world, None, acked.next)
  }

  /** After an empty page: the end, or another poll. */
  function AfterEmptyPoll(w: World, at: nat, state: State, orders: Orders): TurnResult {
    var d := w.drain.(emptyPolls := w.drain.emptyPolls + 1);
    TurnResult(w.(drain := d),
               if !orders.untilDone then Some(EmptyPoll)
               else if !Active(state) then Some(Ended(state))
               else if orders.maxPolls.Some? && d.emptyPolls >= orders.maxPolls.value then Some(MaxPolls)
               else None, at)
  }

  /** What follows from a reply: the end for a reset, or the page saved, and then acknowledged if it holds anything. */
  function AfterAnswer(w: World, script: seq<Exchange>, at: nat, request: Exchange, orders: Orders): (r: TurnResult)
    requires at <= |script|
    ensures at <= r.next <= |script|
  {
    var reply := Reply(w.board.progress, PageAt(w.board.view), TickOf(request.uptime));
    var d := w.drain.(polls := w.drain.polls + 1);
    var rules := Rules(d, reply, request.at);
    if rules != [] && d.last.Some? then
      TurnResult(w.(drain := d), Some(ResetSeen(rules, LostBlocks(d.last.value.page, d.newest), Active(d.last.value.progress.state))), at)
    else
      var taken := w.(drain := AfterTake(d, reply, request.at, w.board.view));
      if reply.page.blocks != [] then AfterConfirm(taken, script, at, |reply.page.blocks|)
      else AfterEmptyPoll(taken, at, reply.progress.state, orders)
  }

  /** One round of the loop: a poll, and what follows from its reply. */
  function AfterTurn(w: World, script: seq<Exchange>, at: nat, orders: Orders): (r: TurnResult)
    requires at < |script|
    ensures at < r.next <= |script|
  {
    var k := w.(board := WorkedOn(w.board, script[at].work));
    match script[at].fate
    case Busy => TurnResult(k, Some(Refused), at + 1)
    case Broken => TurnResult(k, Some(Refused), at + 1)
    case Lost(_, relink) => TurnResult(AfterRelink(k, relink), if Relinks(k.drain, relink) then None else Some(LinkLost), at + 1)
    case Answered => AfterAnswer(k, script, at + 1, script[at], orders)
  }

  datatype Outcome = Outcome(world: World, ending: Option<Ending>)

  /** The drain's loop, for as long as the script of things that happen goes on. */
  function RunFrom(w: World, script: seq<Exchange>, at: nat, orders: Orders): Outcome
    requires at <= |script|
    decreases |script| - at
  {
    if at == |script| then Outcome(w, None)
    else
      var turn := AfterTurn(w, script, at, orders);
      if turn.ending.Some? then Outcome(turn.world, turn.ending) else RunFrom(turn.world, script, turn.next, orders)
  }

  // The drain's object.

  class PlaylistDrain {
    const reconnects: bool
    ghost const start: Start
    var lines: seq<Line>
    var saved: set<Block>
    var written: nat
    var acknowledged: nat
    var polls: nat
    var emptyPolls: nat
    var sessions: nat
    var links: seq<LinkEvent>
    var last: Option<Reply>
    var lastAt: real
    var newest: nat
    var relinked: bool
    /** The board at the last reply. */
    ghost var seen: BoardView

    ghost predicate Valid()
      reads this
    {
      && (forall block :: block in saved <==> block in Blocks(lines))
      && (relinked ==> links != [])
      && |start.file| + written == |lines|
    }

    ghost function Now(): Drain
      reads this
    {
      Drain(reconnects, start, lines, newest, last, lastAt, relinked, links, acknowledged, polls, emptyPolls, sessions, seen)
    }

    constructor (reconnects: bool, file: seq<Line>, ghost v: BoardView)
      ensures Valid() && Now() == Opened(reconnects, file, v)
    {
      this.reconnects := reconnects;
      start := Start(Blocks(file), v.acked, |v.freed|, v.boots);
      lines := file;
      saved := set line | line in file :: line.block;
      written, acknowledged, polls, emptyPolls, sessions := 0, 0, 0, 0, 1;
      links, last, lastAt, newest, relinked := [], None, 0.0, 0, false;
      seen := v;
      new;
      forall block
        ensures block in saved <==> block in Blocks(lines)
      {
        if block in saved {
          var line :| line in file && line.block == block;
          var i :| 0 <= i < |file| && file[i] == line;
          assert Blocks(lines)[i] == block;
        }
        if block in Blocks(lines) {
          var i :| 0 <= i < |file| && Blocks(lines)[i] == block;
          assert file[i] in file;
        }
      }
    }

    /** Saves a page: each block not in the file yet, under the name of its run. */
    method Save(progress: Progress, page: Page)
      requires Valid() && WellFormed(page)
      modifies `lines, `saved, `written, `newest
      ensures Valid() && Now() == AfterSave(old(Now()), progress, page)
    {
      var blocks := page.blocks;
      for k := 0 to |blocks|
        invariant Valid() && lines == SaveLines(old(lines), progress, blocks[..k])
        invariant newest == Max(old(newest), if k == 0 then 0 else blocks[k - 1].number)
      {
        newest := Max(newest, blocks[k].number);
        assert blocks[..k + 1][..k] == blocks[..k];
        if blocks[k] !in saved {
          AddLine(Line(if blocks[k].run == progress.run then Some(progress.name) else None, blocks[k]));
        }
      }
      assert blocks[..|blocks|] == blocks;
    }

    method AddLine(line: Line)
      requires Valid() && line.block !in saved
      modifies `lines, `saved, `written
      ensures Valid() && lines == old(lines) + [line]
    {
      lines := lines + [line];
      saved := saved + {line.block};
      written := written + 1;
      assert Blocks(lines) == old(Blocks(lines)) + [line.block];
    }

    /** A new session after a lost link, if one comes; meanwhile the board works on or starts again. */
    method Relink(board: Board, relink: Relink) returns (ok: bool)
      requires Valid() && board.Valid()
      modifies `sessions, `relinked, `links, board, board.ring, board.ring.blocks
      ensures Valid() && board.Valid() && ok == Relinks(old(Now()), relink)
      ensures World(Now(), board.State()) == AfterRelink(World(old(Now()), old(board.State())), relink)
      ensures ok <==> reconnects && relink.Restored?
      ensures links == old(links) + [LinkEvent(polls, ok, ok && relink.imageChanged)]
      ensures sessions == old(sessions) + (if ok then 1 else 0) && (relinked <==> old(relinked) || ok)
    {
      if !reconnects || relink.NotRestored? {
        links := links + [LinkEvent(polls, false, false)];
        return false;
      }
      board.Do(relink.meanwhile);
      if relink.reset {
        board.Reset();
      }
      links := links + [LinkEvent(polls, true, relink.imageChanged)];
      sessions := sessions + 1;
      relinked := true;
      ok := true;
    }

    method AcknowledgePage(board: Board, script: seq<Exchange>, at: nat, through: Uint32, ghost count: nat)
      returns (outcome: AckOutcome, next: nat)
      requires Valid() && board.Valid() && at <= |script|
      requires board.view.acked + count <= |board.view.made| && through == board.view.acked + count
      modifies `sessions, `relinked, `links, board, board.ring, board.ring.blocks
      ensures Valid() && board.Valid()
      ensures AckResult(World(Now(), board.State()), outcome, next)
           == AfterAck(World(old(Now()), old(board.State())), script, at, count, 0)
    {
      hide WorkedOn, AfterRelink, board.Valid;
      ghost var whole := AfterAck(World(Now(), board.State()), script, at, count, 0);
      next := at;
      for attempt := 0 to ACK_BUSY_RETRIES + 1
        invariant Valid() && board.Valid() && Now() == old(Now()) && at <= next <= |script|
        invariant board.view.acked == old(board.view.acked) && board.view.acked + count <= |board.view.made|
        invariant attempt <= ACK_BUSY_RETRIES && AfterAck(World(Now(), board.State()), script, next, count, attempt) == whole
      {
        if next == |script| {
          return StillTrying, next;
        }
        var request := script[next];
        next := next + 1;
        board.Do(request.work);
        match request.fate {
          case Busy =>
            if attempt == ACK_BUSY_RETRIES {
              return Raised, next;
            }
          case Broken => return Raised, next;
          case Answered =>
            var status := board.Acknowledge(through, count);
            return Acknowledged, next;
          case Lost(processed, relink) =>
            if processed {
              var status := board.Acknowledge(through, count);
            }
            var ok := Relink(board, relink);
            return LinkDropped(ok), next;
        }
      }
      outcome := Raised;
    }

    /** Whether the first reply after a new session shows a reset, by which rules. */
    method ResetRules(reply: Reply, at: real) returns (rules: seq<Rule>)
      requires Valid()
      ensures rules == Rules(Now(), reply, at)
    {
      if !relinked || last.None? {
        return [];
      }
      rules := BoardReset(last.value, reply, at - lastAt);
      if links[|links| - 1].imageChanged {
        rules := rules + [Image];
      }
    }

    /** Keeps a reply as the last one and saves its page. */
    method Take(reply: Reply, at: real, ghost v: BoardView)
      requires Valid() && WellFormed(reply.page)
      modifies `relinked, `last, `lastAt, `seen, `lines, `saved, `written, `newest
      ensures Valid() && Now() == AfterTake(old(Now()), reply, at, v)
    {
      relinked := false;
      last, lastAt, seen := Some(reply), at, v;
      Save(reply.progress, reply.page);
    }

    /** One round of the loop: a poll, and what follows from its reply. */
    method Turn(board: Board, script: seq<Exchange>, at: nat, orders: Orders) returns (ending: Option<Ending>, next: nat)
      requires Valid() && board.Valid() && at < |script|
      modifies this, board, board.ring, board.ring.blocks
      ensures Valid() && board.Valid()
      ensures TurnResult(World(Now(), board.State()), ending, next)
           == AfterTurn(World(old(Now()), old(board.State())), script, at, orders)
    {
      hide WorkedOn, AfterRelink, AfterAnswer, board.Valid;
      next := at + 1;
      var request := script[at];
      board.Do(request.work);
      match request.fate {
        case Busy =>
          ending := Some(Refused);
        case Broken =>
          ending := Some(Refused);
        case Lost(processed, relink) =>
          var ok := Relink(board, relink);
          ending := if ok then None else Some(LinkLost);
        case Answered =>
          ending, next := Answer(board, script, next, request, orders);
      }
    }

    method Answer(board: Board, script: seq<Exchange>, at: nat, request: Exchange, orders: Orders)
      returns (ending: Option<Ending>, next: nat)
      requires Valid() && board.Valid() && at <= |script|
      modifies this, board, board.ring, board.ring.blocks
      ensures Valid() && board.Valid()
      ensures TurnResult(World(Now(), board.State()), ending, next)
           == AfterAnswer(World(old(Now()), old(board.State())), script, at, request, orders)
    {
      hide Rules, AfterTake, AfterConfirm, board.Valid, PageAt, WellFormed, LostBlocks, Active;
      next := at;
      var reply := board.Snapshot(TickOf(request.uptime));
      polls := polls + 1;
      var rules := ResetRules(reply, request.at);
      if rules != [] && last.Some? {
        ending := Some(ResetSeen(rules, LostBlocks(last.value.page, newest), Active(last.value.progress.state)));
        return;
      }
      Take(reply, request.at, board.view);
      if reply.page.blocks != [] {
        ending, next := Confirm(board, script, at, reply.page);
        return;
      }
      emptyPolls := emptyPolls + 1;
      if !orders.untilDone || !Active(reply.progress.state) {
        ending := Some(if orders.untilDone then Ended(reply.progress.state) else EmptyPoll);
        return;
      }
      ending := if orders.maxPolls.Some? && emptyPolls >= orders.maxPolls.value then Some(MaxPolls) else None;
    }

    method Confirm(board: Board, script: seq<Exchange>, at: nat, page: Page) returns (ending: Option<Ending>, next: nat)
      requires Valid() && board.Valid() && at <= |script| && page == PageAt(board.view) && page.blocks != []
      modifies this, board, board.ring, board.ring.blocks
      ensures Valid() && board.Valid()
      ensures TurnResult(World(Now(), board.State()), ending, next)
           == AfterConfirm(World(old(Now()), old(board.State())), script, at, |page.blocks|)
    {
      var outcome: AckOutcome;
      LastNumber(board.view, board.view.acked + |page.blocks|);
      hide AfterAck, board.Valid, Sound;
      outcome, next := AcknowledgePage(board, script, at, page.blocks[|page.blocks| - 1].number, |page.blocks|);
      match outcome {
        case Acknowledged =>
          acknowledged := acknowledged + |page.blocks|;
          ending := None;
        case LinkDropped(restored) =>
          ending := if restored then None else Some(LinkLost);
        case Raised =>
          ending := Some(Refused);
        case StillTrying =>
          ending := None;
      }
    }

    /** The drain's loop. */
    method Run(board: Board, script: seq<Exchange>, orders: Orders) returns (ending: Option<Ending>)
      requires Valid() && board.Valid()
      modifies this, board, board.ring, board.ring.blocks
      ensures Valid() && board.Valid()
      ensures Outcome(World(Now(), board.State()), ending) == RunFrom(World(old(Now()), old(board.State())), script, 0, orders)
    {
      hide AfterTurn, board.Valid;
      ghost var whole := RunFrom(World(Now(), board.State()), script, 0, orders);
      var at := 0;
      ending := None;
      while at < |script| && ending.None?
        invariant Valid() && board.Valid() && at <= |script|
        invariant ending.None? ==> RunFrom(World(Now(), board.State()), script, at, orders) == whole
        invariant ending.Some? ==> Outcome(World(Now(), board.State()), ending) == whole
      {
        ending, at := Turn(board, script, at, orders);
      }
    }
  }
}
