/**
 Whole drains (host/live_control.py, PlaylistDrain), over every script of what happens to
 the requests and to the board: what the file holds, how the drain may end, and when it
 takes a board for one that was reset.
 */
module DrainRuns {
  import opened Words
  import opened ResultRings
  import opened DrainFile
  import opened ResultDrain
  import opened PlaylistDrains

  // What every exchange keeps.

  /** The file tracks the board. */
  ghost predicate Kept(w: World) {
    Sound(w.board.view) && Tracks(w.drain.Memory(), w.board.view)
  }

  /** The `count` oldest blocks of the board are in the file. */
  ghost predicate Saved(w: World, count: nat) {
    PageSaved(w.drain.Memory(), w.board.view, count)
  }

  lemma OpenedKeeps(reconnects: bool, file: seq<Line>, b: BoardState)
    requires Sound(b.view)
    ensures Kept(World(Opened(reconnects, file, b.view), b))
  {
    assert b.view.made[b.view.acked..b.view.acked] == [];
  }

  lemma WorkKeeps(w: World, work: seq<Work>, count: nat)
    requires Kept(w) && Saved(w, count)
    ensures var k := w.(board := WorkedOn(w.board, work)); Kept(k) && Saved(k, count)
  {
    WorkGrows(w.board, work);
    hide Sound, Tracks, PageSaved, WorkedOn;
    TracksGrowth(w.drain.Memory(), w.board.view, WorkedOn(w.board, work).view);
    PageSavedGrowth(w.drain.Memory(), w.board.view, WorkedOn(w.board, work).view, count);
  }

  lemma NothingSaved(w: World)
    ensures Saved(w, 0) <==> (w.board.view.boots == w.drain.start.boots ==> w.board.view.acked <= Max(w.drain.newest, w.drain.start.acked))
  {
  }

  lemma KeptSaves(w: World)
    requires Kept(w)
    ensures Saved(w, 0)
  {
    NothingSaved(w);
    hide Safe, SaveAll;
  }

  lemma RelinkKeeps(w: World, relink: Relink)
    requires Kept(w)
    ensures Kept(AfterRelink(w, relink))
  {
    if Relinks(w.drain, relink) {
      KeptSaves(w);
      WorkKeeps(w, relink.meanwhile, 0);
      var board := WorkedOn(w.board, relink.meanwhile);
      if relink.reset {
        TracksReset(w.drain.Memory(), board.view, Restarted(board).view);
        EmptyIsSound(Restarted(board).view);
      }
      hide Sound, Tracks, WorkedOn, PageSaved;
    }
    hide Sound, Tracks, WorkedOn, PageSaved;
  }

  lemma FreeKeeps(w: World, count: nat)
    requires Kept(w) && Saved(w, count)
    ensures w.board.view.acked + count <= |w.board.view.made| && Kept(AfterFree(w, count))
  {
    TracksAck(w.drain.Memory(), w.board.view, count);
    AckIsSound(w.board.view, count);
    hide Sound, Tracks;
  }

  lemma {:induction false} AckKeeps(w: World, script: seq<Exchange>, at: nat, count: nat, attempt: nat)
    requires Kept(w) && Saved(w, count) && at <= |script| && attempt <= ACK_BUSY_RETRIES
    ensures w.board.view.acked + count <= |w.board.view.made| && Kept(AfterAck(w, script, at, count, attempt).world)
    decreases |script| - at
  {
    hide Kept, Saved, WorkedOn, AfterRelink;
    FreeKeeps(w, count);
    if at < |script| {
      var k := w.(board := WorkedOn(w.board, script[at].work));
      WorkKeeps(w, script[at].work, count);
      FreeKeeps(k, count);
      match script[at].fate {
        case Busy =>
          if attempt < ACK_BUSY_RETRIES {
            AckKeeps(k, script, at + 1, count, attempt + 1);
          }
        case Broken =>
        case Answered =>
        case Lost(processed, relink) =>
          RelinkKeeps(k, relink);
          RelinkKeeps(AfterFree(k, count), relink);
      }
    }
  }

  lemma TakeKeeps(w: World, reply: Reply, at: real)
    requires Kept(w) && reply.page == PageAt(w.board.view)
    ensures var k := w.(drain := AfterTake(w.drain, reply, at, w.board.view)); Kept(k) && Saved(k, |reply.page.blocks|)
  {
    TracksPage(w.drain.Memory(), w.board.view, reply.page);
    SavedLines(w.drain.lines, reply.progress, reply.page.blocks);
    hide Sound, Tracks, PageSaved, SaveLines, SaveAll, PageAt;
  }

  lemma ConfirmKeeps(w: World, script: seq<Exchange>, at: nat, count: nat)
    requires Kept(w) && Saved(w, count) && at <= |script|
    ensures w.board.view.acked + count <= |w.board.view.made|
    ensures var r := AfterConfirm(w, script, at, count);
            Kept(r.world) && (r.ending.Some? ==> r.ending.value.LinkLost? || r.ending.value.Refused?)
  {
    AckKeeps(w, script, at, count, 0);
    hide Sound, Tracks, AfterAck;
  }

  // What each way of ending tells.

  /** Every block of the board's present run is in the file, but for those acknowledged before the drain. */
  ghost predicate AllSaved(m: Memory, v: BoardView) {
    && (forall i :: Since(m.start, v) <= i < |v.made| ==> v.made[i] in m.file)
    && (v.boots == m.start.boots && m.start.acked <= |v.made| ==> m.file == SaveAll(m.start.file, v.made[m.start.acked..]))
  }

  /** Of a file that was empty and a board not reset before the last reply, the span names just the blocks never saved. */
  ghost predicate LostRight(m: Memory, lost: Span) {
    m.last.Some? && m.start.file == [] && m.seen.boots == m.start.boots ==>
      m.last.value.next == |m.seen.made| + 1
      && forall number :: FIRST_SEQ <= number < m.last.value.next ==>
           (Names(lost, number) <==> number > m.start.acked && m.seen.made[number - FIRST_SEQ] !in m.file)
  }

  /** What each way of ending tells of the file and the board. */
  ghost predicate Justified(ending: Ending, m: Memory, v: BoardView, untilDone: bool) {
    match ending
    case Ended(state) => untilDone && state in {Idle, Done, Aborted, State.Failed} && AllSaved(m, v)
    case EmptyPoll => !untilDone && AllSaved(m, v)
    case ResetSeen(rules, lost, wasRunning) => rules != [] && m.last.Some? && LostRight(m, lost)
    case _ => true
  }

  /** The same of a world, of whatever ending there is. */
  ghost predicate Tells(ending: Option<Ending>, w: World, untilDone: bool) {
    ending.Some? ==> Justified(ending.value, w.drain.Memory(), w.board.view, untilDone)
  }

  lemma JustifiedReset(ending: Ending, m: Memory, v: BoardView, untilDone: bool)
    requires Tracks(m, v) && m.last.Some? && ending.ResetSeen? && ending.rules != []
    requires ending.lost == LostBlocks(m.last.value, m.newest)
    ensures Justified(ending, m, v, untilDone)
  {
    hide Safe, Exact, Sound;
    if m.start.file == [] && m.seen.boots == m.start.boots {
      forall number | FIRST_SEQ <= number < m.last.value.next
        ensures Names(ending.lost, number) <==> number > m.start.acked && m.seen.made[number - FIRST_SEQ] !in m.file
      {
        LostExactly(m.start, m.seen, m.file, m.newest, m.last.value, number);
      }
    }
  }

  lemma JustifiedEnd(ending: Ending, m: Memory, v: BoardView, untilDone: bool)
    requires Tracks(m, v) && PageAt(v).blocks == []
    requires if untilDone then ending.Ended? && !Active(ending.state) else ending.EmptyPoll?
    ensures Justified(ending, m, v, untilDone)
  {
    hide Safe, Exact, SaveAll;
    EmptyPageMeansAllSaved(m.start, v, m.file, PageAt(v));
    if v.boots == m.start.boots {
      EmptyPageIsTheWholeFile(m.start, v, m.file, m.newest, PageAt(v));
    }
  }

  lemma EmptyPollTells(w: World, at: nat, state: State, orders: Orders)
    requires Kept(w) && PageAt(w.board.view).blocks == []
    ensures var r := AfterEmptyPoll(w, at, state, orders); Kept(r.world) && Tells(r.ending, r.world, orders.untilDone)
  {
    hide Sound, Tracks, PageAt, Active;
    var r := AfterEmptyPoll(w, at, state, orders);
    if r.ending.Some? && !r.ending.value.MaxPolls? {
      JustifiedEnd(r.ending.value, w.drain.Memory(), w.board.view, orders.untilDone);
    }
    hide Justified;
  }

  lemma AnswerTells(w: World, script: seq<Exchange>, at: nat, request: Exchange, orders: Orders)
    requires Kept(w) && at <= |script|
    ensures var r := AfterAnswer(w, script, at, request, orders); Kept(r.world) && Tells(r.ending, r.world, orders.untilDone)
  {
    hide Sound, Tracks, PageSaved, PageAt, Rules, AfterTake, AfterConfirm, AfterEmptyPoll, LostBlocks, Active;
    var reply := Reply(w.board.progress, PageAt(w.board.view), TickOf(request.uptime));
    var d := w.drain.(polls := w.drain.polls + 1);
    var rules := Rules(d, reply, request.at);
    if rules != [] && d.last.Some? {
      JustifiedReset(AfterAnswer(w, script, at, request, orders).ending.value, d.Memory(), w.board.view, orders.untilDone);
      hide Justified;
    } else {
      var taken := w.(drain := AfterTake(d, reply, request.at, w.board.view));
      TakeKeeps(w.(drain := d), reply, request.at);
      if reply.page.blocks != [] {
        ConfirmKeeps(taken, script, at, |reply.page.blocks|);
      } else {
        EmptyPollTells(taken, at, reply.progress.state, orders);
      }
    }
  }

  lemma TurnTells(w: World, script: seq<Exchange>, at: nat, orders: Orders)
    requires Kept(w) && at < |script|
    ensures var r := AfterTurn(w, script, at, orders); Kept(r.world) && Tells(r.ending, r.world, orders.untilDone)
  {
    hide Kept, Saved, WorkedOn, AfterRelink, AfterAnswer;
    var k := w.(board := WorkedOn(w.board, script[at].work));
    KeptSaves(w);
    WorkKeeps(w, script[at].work, 0);
    match script[at].fate {
      case Busy =>
      case Broken =>
      case Lost(_, relink) => RelinkKeeps(k, relink);
      case Answered => AnswerTells(k, script, at + 1, script[at], orders);
    }
  }

  lemma {:induction false} RunTells(w: World, script: seq<Exchange>, at: nat, orders: Orders)
    requires Kept(w) && at <= |script|
    ensures var o := RunFrom(w, script, at, orders); Kept(o.world) && Tells(o.ending, o.world, orders.untilDone)
    decreases |script| - at
  {
    hide Kept, Tells, AfterTurn;
    if at < |script| {
      var turn := AfterTurn(w, script, at, orders);
      TurnTells(w, script, at, orders);
      if turn.ending.None? {
        RunTells(turn.world, script, turn.next, orders);
      }
    } else {
      assert Tells(None, w, orders.untilDone) by {
        NoEnding(w, orders.untilDone);
      }
    }
  }

  lemma NoEnding(w: World, untilDone: bool)
    ensures Tells(None, w, untilDone)
  {
  }

  // A script without a reset.

  /** The board starts again while the link is down. */
  predicate Resets(e: Exchange) {
    e.fate.Lost? && e.fate.relink.Restored? && e.fate.relink.reset
  }

  predicate NoReset(script: seq<Exchange>) {
    forall k :: 0 <= k < |script| ==> !Resets(script[k])
  }

  /** Where a drain began, and how often the board has started. */
  ghost predicate Stays(w: World, k: World, script: seq<Exchange>) {
    k.drain.start == w.drain.start && (NoReset(script) ==> k.board.view.boots == w.board.view.boots)
  }

  lemma {:induction false} AckStays(w: World, script: seq<Exchange>, at: nat, count: nat, attempt: nat)
    requires at <= |script| && w.board.view.acked + count <= |w.board.view.made| && attempt <= ACK_BUSY_RETRIES
    ensures Stays(w, AfterAck(w, script, at, count, attempt).world, script)
    decreases |script| - at
  {
    hide WorkedOn, NoReset;
    if at < |script| {
      var k := w.(board := WorkedOn(w.board, script[at].work));
      assert NoReset(script) ==> !Resets(script[at]) by {
        NotReset(script, at);
      }
      if script[at].fate.Busy? && attempt < ACK_BUSY_RETRIES {
        AckStays(k, script, at + 1, count, attempt + 1);
      }
    }
  }

  lemma NotReset(script: seq<Exchange>, at: nat)
    requires at < |script|
    ensures NoReset(script) ==> !Resets(script[at])
  {
  }

  lemma TurnStays(w: World, script: seq<Exchange>, at: nat, orders: Orders)
    requires at < |script|
    ensures Stays(w, AfterTurn(w, script, at, orders).world, script)
  {
    hide WorkedOn, NoReset, AfterAck, SaveLines, PageAt, Rules, LostBlocks, Active;
    NotReset(script, at);
    var k := w.(board := WorkedOn(w.board, script[at].work));
    if script[at].fate.Answered? {
      var page := PageAt(k.board.view);
      var reply := Reply(k.board.progress, page, TickOf(script[at].uptime));
      var d := k.drain.(polls := k.drain.polls + 1);
      var taken := k.(drain := AfterTake(d, reply, script[at].at, k.board.view));
      if page.blocks != [] {
        AckStays(taken, script, at + 1, |page.blocks|, 0);
      }
    }
  }

  lemma {:induction false} RunStays(w: World, script: seq<Exchange>, at: nat, orders: Orders)
    requires at <= |script|
    ensures Stays(w, RunFrom(w, script, at, orders).world, script)
    decreases |script| - at
  {
    hide NoReset, AfterTurn;
    if at < |script| {
      var turn := AfterTurn(w, script, at, orders);
      TurnStays(w, script, at, orders);
      if turn.ending.None? {
        RunStays(turn.world, script, turn.next, orders);
      }
    }
  }

  // When no reset is seen.

  /** The order of a board's reports since it started: its runs count up, and idle does not come again. */
  predicate Follows(earlier: Progress, later: Progress) {
    earlier.run <= later.run && (!earlier.state.Idle? ==> !later.state.Idle?)
  }

  /** The report after this work. */
  function Latest(progress: Progress, work: seq<Work>): Progress {
    if work == [] then progress
    else if work[|work| - 1].Report? then work[|work| - 1].progress else Latest(progress, work[..|work| - 1])
  }

  predicate InOrder(progress: Progress, work: seq<Work>) {
    work == [] || (InOrder(progress, work[..|work| - 1]) && Follows(Latest(progress, work[..|work| - 1]), Latest(progress, work)))
  }

  /** What the board does while the link is down. */
  function Meanwhile(e: Exchange): seq<Work> {
    if e.fate.Lost? && e.fate.relink.Restored? then e.fate.relink.meanwhile else []
  }

  /** Every report of the script comes in that order. */
  predicate AllInOrder(progress: Progress, script: seq<Exchange>, at: nat)
    requires at <= |script|
    decreases |script| - at
  {
    at == |script|
    || (var polled := Latest(progress, script[at].work);
        && InOrder(progress, script[at].work) && InOrder(polled, Meanwhile(script[at]))
        && AllInOrder(Latest(polled, Meanwhile(script[at])), script, at + 1))
  }

  /** The image is the one the drain began with. */
  predicate SameImage(script: seq<Exchange>) {
    forall k :: 0 <= k < |script| && script[k].fate.Lost? && script[k].fate.relink.Restored? ==> !script[k].fate.relink.imageChanged
  }

  /** The two clocks between two requests: neither runs back, and they agree within the margin. */
  ghost predicate InStep(e: Exchange, f: Exchange) {
    && e.at <= f.at
    && (e.uptime.Some? && f.uptime.Some? ==>
          && e.uptime.value <= f.uptime.value < e.uptime.value + TICKS
          && var ticks, host := (f.uptime.value - e.uptime.value) as real, (f.at - e.at) * 1000.0;
             -Margin(f.at - e.at) <= ticks - host <= Margin(f.at - e.at))
  }

  ghost predicate Steady(script: seq<Exchange>) {
    forall j, k :: 0 <= j < k < |script| ==> InStep(script[j], script[k])
  }

  /** A script of a board that only ran on. */
  ghost predicate RanOn(script: seq<Exchange>) {
    NoReset(script) && SameImage(script) && Steady(script)
  }

  lemma {:induction false} LatestIsReported(b: BoardState, work: seq<Work>)
    ensures WorkedOn(b, work).progress == Latest(b.progress, work)
  {
    if work != [] {
      LatestIsReported(b, work[..|work| - 1]);
    }
  }

  lemma {:induction false} OrderHolds(progress: Progress, work: seq<Work>)
    requires InOrder(progress, work)
    ensures Follows(progress, Latest(progress, work))
  {
    if work != [] {
      OrderHolds(progress, work[..|work| - 1]);
    }
  }

  /** The last reply came at one of the requests before, and the board has only gone on from it. */
  ghost predicate GoneOn(d: Drain, b: BoardState, script: seq<Exchange>, at: nat) {
    && (d.last.Some? ==>
          && Follows(d.last.value.progress, b.progress) && d.last.value.page.next <= |b.view.made| + FIRST_SEQ
          && exists k :: 0 <= k < at && k < |script| && d.last.value.tick == TickOf(script[k].uptime) && d.lastAt == script[k].at)
    && (forall i :: 0 <= i < |d.links| ==> !d.links[i].imageChanged)
  }

  lemma WorkGoesOn(d: Drain, b: BoardState, script: seq<Exchange>, at: nat, work: seq<Work>)
    requires GoneOn(d, b, script, at) && InOrder(b.progress, work)
    ensures var w := WorkedOn(b, work);
            GoneOn(d, w, script, at) && GoneOn(d, w, script, at + 1) && w.progress == Latest(b.progress, work)
  {
    LatestIsReported(b, work);
    OrderHolds(b.progress, work);
    hide WorkedOn, InOrder, Latest;
  }

  lemma RelinkGoesOn(w: World, script: seq<Exchange>, at: nat, relink: Relink)
    requires GoneOn(w.drain, w.board, script, at)
    requires relink.Restored? ==> InOrder(w.board.progress, relink.meanwhile) && !relink.reset && !relink.imageChanged
    ensures var k := AfterRelink(w, relink);
            && GoneOn(k.drain, k.board, script, at)
            && (Relinks(w.drain, relink) ==> k.board.progress == Latest(w.board.progress, relink.meanwhile))
  {
    if Relinks(w.drain, relink) {
      WorkGoesOn(w.drain, w.board, script, at, relink.meanwhile);
    }
    hide WorkedOn, InOrder, Latest, Follows;
  }

  lemma Quiet(script: seq<Exchange>, at: nat)
    requires RanOn(script) && at < |script| && script[at].fate.Lost? && script[at].fate.relink.Restored?
    ensures !script[at].fate.relink.reset && !script[at].fate.relink.imageChanged
  {
    NotReset(script, at);
  }

  /** The order of the reports from a request on. */
  lemma NextInOrder(progress: Progress, script: seq<Exchange>, at: nat)
    requires at < |script| && AllInOrder(progress, script, at)
    ensures var polled := Latest(progress, script[at].work);
            && InOrder(progress, script[at].work) && InOrder(polled, Meanwhile(script[at]))
            && AllInOrder(Latest(polled, Meanwhile(script[at])), script, at + 1)
    ensures Meanwhile(script[at]) == [] ==> AllInOrder(Latest(progress, script[at].work), script, at + 1)
  {
  }

  lemma {:induction false} AckGoesOn(w: World, script: seq<Exchange>, at: nat, count: nat, attempt: nat)
    requires at <= |script| && w.board.view.acked + count <= |w.board.view.made| && attempt <= ACK_BUSY_RETRIES
    requires RanOn(script) && GoneOn(w.drain, w.board, script, at) && AllInOrder(w.board.progress, script, at)
    ensures var r := AfterAck(w, script, at, count, attempt);
            r.outcome.Acknowledged? || r.outcome.StillTrying? || (r.outcome.LinkDropped? && r.outcome.restored) ==>
              GoneOn(r.world.drain, r.world.board, script, r.next) && AllInOrder(r.world.board.progress, script, r.next)
    decreases |script| - at
  {
    hide WorkedOn, RanOn, GoneOn, AllInOrder, InOrder, Latest, AfterRelink;
    if at < |script| {
      var k := w.(board := WorkedOn(w.board, script[at].work));
      NextInOrder(w.board.progress, script, at);
      WorkGoesOn(w.drain, w.board, script, at, script[at].work);
      FreeGoesOn(k, script, at + 1, count);
      match script[at].fate {
        case Busy =>
          if attempt < ACK_BUSY_RETRIES {
            AckGoesOn(k, script, at + 1, count, attempt + 1);
          }
        case Broken =>
        case Answered =>
        case Lost(processed, relink) =>
          if relink.Restored? {
            Quiet(script, at);
            RelinkGoesOn(if processed then AfterFree(k, count) else k, script, at + 1, relink);
          }
      }
    }
  }

  lemma FreeGoesOn(w: World, script: seq<Exchange>, at: nat, count: nat)
    requires w.board.view.acked + count <= |w.board.view.made| && GoneOn(w.drain, w.board, script, at)
    ensures var k := AfterFree(w, count); GoneOn(k.drain, k.board, script, at) && k.board.progress == w.board.progress && k.drain == w.drain
  {
  }

  /** The first reply of a new session to a board that went on breaks no rule. */
  lemma NoRule(w: World, script: seq<Exchange>, at: nat)
    requires RanOn(script) && at < |script| && GoneOn(w.drain, w.board, script, at)
    ensures Rules(w.drain, Reply(w.board.progress, PageAt(w.board.view), TickOf(script[at].uptime)), script[at].at) == []
  {
    var d, reply := w.drain, Reply(w.board.progress, PageAt(w.board.view), TickOf(script[at].uptime));
    if d.last.Some? {
      var k :| 0 <= k < at && d.last.value.tick == TickOf(script[k].uptime) && d.lastAt == script[k].at;
      assert InStep(script[k], script[at]);
      if script[k].uptime.Some? && script[at].uptime.Some? {
        TicksAgree(script[k].uptime.value, script[at].uptime.value);
        NoFalseAlarm(d.last.value, reply, script[at].at - d.lastAt, script[at].uptime.value - script[k].uptime.value);
      } else {
        NoFalseAlarm(d.last.value, reply, script[at].at - d.lastAt, 0);
      }
    }
  }

  lemma TicksAgree(earlier: nat, later: nat)
    requires earlier <= later
    ensures later % TICKS == (earlier % TICKS + (later - earlier)) % TICKS
  {
    var turns := earlier / TICKS;
    assert later == turns * TICKS + (earlier % TICKS + (later - earlier));
    WholeTurns(turns, earlier % TICKS + (later - earlier));
  }

  lemma {:induction false} WholeTurns(turns: nat, rest: nat)
    ensures (turns * TICKS + rest) % TICKS == rest % TICKS
  {
    if turns > 0 {
      WholeTurns(turns - 1, rest);
      OneTurn((turns - 1) * TICKS + rest);
    }
  }

  lemma OneTurn(x: nat)
    ensures (x + TICKS) % TICKS == x % TICKS
  {
  }

  lemma TakeGoesOn(w: World, script: seq<Exchange>, at: nat)
    requires at < |script| && GoneOn(w.drain, w.board, script, at)
    ensures var reply := Reply(w.board.progress, PageAt(w.board.view), TickOf(script[at].uptime));
            GoneOn(AfterTake(w.drain, reply, script[at].at, w.board.view), w.board, script, at + 1)
  {
    hide SaveLines;
  }

  /** A round in a script of a board that ran on: no reset is seen, and the board has gone on. */
  ghost predicate TurnsOn(r: TurnResult, script: seq<Exchange>) {
    && r.next <= |script|
    && (r.ending.None? ==> GoneOn(r.world.drain, r.world.board, script, r.next) && AllInOrder(r.world.board.progress, script, r.next))
    && (r.ending.Some? ==> !r.ending.value.ResetSeen?)
  }

  /** What a drain counts does not matter to it. */
  lemma CountsGoOn(d: Drain, e: Drain, b: BoardState, script: seq<Exchange>, at: nat)
    requires GoneOn(d, b, script, at) && e.last == d.last && e.lastAt == d.lastAt && e.links == d.links
    ensures GoneOn(e, b, script, at)
  {
  }

  lemma ConfirmGoesOn(w: World, script: seq<Exchange>, at: nat, count: nat)
    requires at <= |script| && w.board.view.acked + count <= |w.board.view.made|
    requires RanOn(script) && GoneOn(w.drain, w.board, script, at) && AllInOrder(w.board.progress, script, at)
    ensures TurnsOn(AfterConfirm(w, script, at, count), script)
  {
    hide RanOn, GoneOn, AllInOrder, AfterAck;
    AckGoesOn(w, script, at, count, 0);
    var r, acked := AfterConfirm(w, script, at, count), AfterAck(w, script, at, count, 0);
    if acked.outcome.Acknowledged? {
      CountsGoOn(acked.world.drain, r.world.drain, r.world.board, script, r.next);
    }
  }

  lemma AnswerGoesOn(w: World, script: seq<Exchange>, at: nat, orders: Orders)
    requires RanOn(script) && at < |script| && GoneOn(w.drain, w.board, script, at)
    requires AllInOrder(w.board.progress, script, at + 1)
    ensures TurnsOn(AfterAnswer(w, script, at + 1, script[at], orders), script)
  {
    hide RanOn, GoneOn, AllInOrder, PageAt, Rules, AfterTake, AfterConfirm, LostBlocks, Active;
    var page := PageAt(w.board.view);
    var reply := Reply(w.board.progress, page, TickOf(script[at].uptime));
    var d := w.drain.(polls := w.drain.polls + 1);
    CountsGoOn(w.drain, d, w.board, script, at);
    NoRule(w.(drain := d), script, at);
    TakeGoesOn(w.(drain := d), script, at);
    var taken := w.(drain := AfterTake(d, reply, script[at].at, w.board.view));
    if page.blocks != [] {
      ConfirmGoesOn(taken, script, at + 1, |page.blocks|);
    } else {
      CountsGoOn(taken.drain, taken.drain.(emptyPolls := taken.drain.emptyPolls + 1), w.board, script, at + 1);
    }
  }

  lemma TurnGoesOn(w: World, script: seq<Exchange>, at: nat, orders: Orders)
    requires RanOn(script) && at < |script| && GoneOn(w.drain, w.board, script, at) && AllInOrder(w.board.progress, script, at)
    ensures TurnsOn(AfterTurn(w, script, at, orders), script)
  {
    hide WorkedOn, RanOn, GoneOn, AllInOrder, InOrder, Latest, AfterRelink, AfterAnswer;
    var k := w.(board := WorkedOn(w.board, script[at].work));
    NextInOrder(w.board.progress, script, at);
    WorkGoesOn(w.drain, w.board, script, at, script[at].work);
    match script[at].fate {
      case Busy =>
      case Broken =>
      case Lost(_, relink) =>
        if relink.Restored? {
          Quiet(script, at);
          RelinkGoesOn(k, script, at + 1, relink);
        }
      case Answered => AnswerGoesOn(k, script, at, orders);
    }
  }

  lemma {:induction false} RunGoesOn(w: World, script: seq<Exchange>, at: nat, orders: Orders)
    requires RanOn(script) && at <= |script| && GoneOn(w.drain, w.board, script, at) && AllInOrder(w.board.progress, script, at)
    ensures var ending := RunFrom(w, script, at, orders).ending; ending.Some? ==> !ending.value.ResetSeen?
    decreases |script| - at
  {
    hide RanOn, GoneOn, AllInOrder, AfterTurn;
    if at < |script| {
      var turn := AfterTurn(w, script, at, orders);
      TurnGoesOn(w, script, at, orders);
      if turn.ending.None? {
        RunGoesOn(turn.world, script, turn.next, orders);
      }
    }
  }

  // A whole drain.

  /** A board that did some work and then had the `drained` oldest of its blocks acknowledged, as far as it held so many. */
  function WorkedBoard(before: seq<Work>, drained: nat): BoardState {
    var b := WorkedOn(BOOTED, before);
    b.(view := DrainFile.Freed(b.view, Min(drained, |b.view.made| - b.view.acked)))
  }

  /** A drain on a file, begun on such a board. */
  function Begun(before: seq<Work>, drained: nat, reconnects: bool, file: seq<Line>): World {
    var b := WorkedBoard(before, drained);
    World(Opened(reconnects, file, b.view), b)
  }

  /** A drain on a file, of such a board, over a script of what happens. */
  function Drained(before: seq<Work>, drained: nat, reconnects: bool, file: seq<Line>, script: seq<Exchange>, orders: Orders): Outcome {
    RunFrom(Begun(before, drained, reconnects, file), script, 0, orders)
  }

  // When a reset is seen.

  /** A reply and the host's time at it. */
  datatype Heard = Heard(reply: Reply, at: real)

  /** What the board answers to an exchange. */
  function HeardAt(b: BoardState, e: Exchange): Heard {
    var worked := WorkedOn(b, e.work);
    Heard(Reply(worked.progress, PageAt(worked.view), TickOf(e.uptime)), e.at)
  }

  /** The drain after so many rounds of its loop, or at its end. */
  function Turned(w: World, script: seq<Exchange>, orders: Orders, turns: nat): (t: TurnResult)
    ensures t.next <= |script|
  {
    if turns == 0 then TurnResult(w, None, 0)
    else
      var t := Turned(w, script, orders, turns - 1);
      if t.ending.Some? || t.next == |script| then t else AfterTurn(t.world, script, t.next, orders)
  }

  /** The replies to the polls of those rounds. */
  function Replies(w: World, script: seq<Exchange>, orders: Orders, turns: nat): seq<Heard> {
    if turns == 0 then []
    else
      var t := Turned(w, script, orders, turns - 1);
      Replies(w, script, orders, turns - 1)
      + if t.ending.None? && t.next < |script| && script[t.next].fate.Answered? then [HeardAt(t.world.board, script[t.next])] else []
  }

  function Empties(replies: seq<Heard>): nat {
    if replies == [] then 0
    else Empties(replies[..|replies| - 1]) + if replies[|replies| - 1].reply.page.blocks == [] then 1 else 0
  }

  /** What the drain remembers of its replies, and of a link that came back since the last of them. */
  ghost predicate Remembers(d: Drain, replies: seq<Heard>) {
    && (d.last.None? <==> replies == [])
    && (replies != [] ==> d.last.value == replies[|replies| - 1].reply && d.lastAt == replies[|replies| - 1].at)
    && d.polls == |replies| && d.emptyPolls == Empties(replies)
  }

  /** A link lost at this exchange came back, and the next reply is the first since. */
  ghost predicate CameBack(d: Drain, e: Exchange) {
    e.fate.Lost? ==>
      e.fate.relink.Restored? && d.relinked && d.links != [] && d.links[|d.links| - 1].imageChanged == e.fate.relink.imageChanged
  }

  /** The drain's reports of a board are the same, but for a link since. */
  ghost predicate SameReports(d: Drain, e: Drain) {
    e.last == d.last && e.lastAt == d.lastAt && e.polls == d.polls && e.emptyPolls == d.emptyPolls && e.newest == d.newest
    && e.start == d.start && e.lines == d.lines && e.seen == d.seen && e.reconnects == d.reconnects
  }

  lemma {:induction false} AckReports(w: World, script: seq<Exchange>, at: nat, count: nat, attempt: nat)
    requires at <= |script| && w.board.view.acked + count <= |w.board.view.made| && attempt <= ACK_BUSY_RETRIES
    ensures var r := AfterAck(w, script, at, count, attempt);
            && SameReports(w.drain, r.world.drain)
            && (at < r.next && (r.outcome.LinkDropped? ==> r.outcome.restored) ==> CameBack(r.world.drain, script[r.next - 1]))
    decreases |script| - at
  {
    hide WorkedOn;
    if at < |script| && script[at].fate.Busy? && attempt < ACK_BUSY_RETRIES {
      AckReports(w.(board := WorkedOn(w.board, script[at].work)), script, at + 1, count, attempt + 1);
    }
  }

  lemma EmptyOrNot(replies: seq<Heard>, heard: Heard)
    ensures Empties(replies + [heard]) == Empties(replies) + if heard.reply.page.blocks == [] then 1 else 0
  {
    assert (replies + [heard])[..|replies|] == replies;
  }

  lemma TakeReports(d: Drain, reply: Reply, at: real, v: BoardView)
    ensures var taken := AfterTake(d, reply, at, v);
            && taken.last == Some(reply) && taken.lastAt == at && taken.polls == d.polls && taken.emptyPolls == d.emptyPolls
  {
  }

  /** After the page is saved: its acknowledgement, or one more empty poll. */
  lemma ReplyReports(w: World, script: seq<Exchange>, at: nat, orders: Orders, state: State, count: nat)
    requires 0 < at <= |script| && !script[at - 1].fate.Lost? && w.board.view.acked + count <= |w.board.view.made|
    ensures var r := AfterConfirm(w, script, at, count);
            SameReports(w.drain, r.world.drain) && (r.ending.None? && r.next > 0 ==> CameBack(r.world.drain, script[r.next - 1]))
    ensures var r := AfterEmptyPoll(w, at, state, orders);
            && SameReports(w.drain.(emptyPolls := w.drain.emptyPolls + 1), r.world.drain) && r.next == at
  {
    hide AfterAck;
    AckReports(w, script, at, count, 0);
  }

  lemma AnswerReports(w: World, script: seq<Exchange>, at: nat, orders: Orders, replies: seq<Heard>)
    requires at < |script| && script[at].fate.Answered? && Remembers(w.drain, replies)
    ensures var r := AfterTurn(w, script, at, orders);
            r.ending.None? ==>
              Remembers(r.world.drain, replies + [HeardAt(w.board, script[at])]) && CameBack(r.world.drain, script[r.next - 1])
  {
    hide WorkedOn, PageAt, Rules, LostBlocks, AfterTake, AfterConfirm, AfterEmptyPoll, Empties;
    var heard := HeardAt(w.board, script[at]);
    var k := w.(board := WorkedOn(w.board, script[at].work));
    EmptyOrNot(replies, heard);
    TakeReports(k.drain.(polls := k.drain.polls + 1), heard.reply, heard.at, k.board.view);
    var taken := k.(drain := AfterTake(k.drain.(polls := k.drain.polls + 1), heard.reply, heard.at, k.board.view));
    ReplyReports(taken, script, at + 1, orders, heard.reply.progress.state, |heard.reply.page.blocks|);
  }

  lemma SilentTurn(w: World, script: seq<Exchange>, at: nat, orders: Orders, replies: seq<Heard>)
    requires at < |script| && !script[at].fate.Answered? && Remembers(w.drain, replies)
    ensures var r := AfterTurn(w, script, at, orders);
            r.ending.None? ==> Remembers(r.world.drain, replies) && CameBack(r.world.drain, script[r.next - 1])
  {
    hide WorkedOn, Empties;
  }

  /** What the drain remembers after some rounds are just the replies to its polls. */
  ghost predicate Knows(w: World, script: seq<Exchange>, orders: Orders, turns: nat) {
    var t := Turned(w, script, orders, turns);
    t.ending.None? ==>
      && Remembers(t.world.drain, Replies(w, script, orders, turns))
      && (t.next > 0 ==> CameBack(t.world.drain, script[t.next - 1]))
  }

  lemma TurnRemembers(w: World, script: seq<Exchange>, orders: Orders, turns: nat)
    requires Knows(w, script, orders, turns)
    ensures Knows(w, script, orders, turns + 1)
  {
    hide AfterTurn, CameBack, Remembers, HeardAt;
    var t, replies := Turned(w, script, orders, turns), Replies(w, script, orders, turns);
    assert replies + [] == replies;
    if t.ending.None? && t.next < |script| {
      if script[t.next].fate.Answered? {
        AnswerReports(t.world, script, t.next, orders, replies);
      } else {
        SilentTurn(t.world, script, t.next, orders, replies);
      }
    }
  }

  lemma {:induction false} TurnsRemember(w: World, script: seq<Exchange>, orders: Orders, turns: nat)
    requires Remembers(w.drain, [])
    ensures Knows(w, script, orders, turns)
  {
    if turns > 0 {
      hide Knows;
      TurnsRemember(w, script, orders, turns - 1);
      TurnRemembers(w, script, orders, turns - 1);
    }
  }

  /** A drain that has not ended after some rounds goes on from there. */
  lemma {:induction false} RunGoesOnFrom(w: World, script: seq<Exchange>, orders: Orders, turns: nat)
    ensures var t := Turned(w, script, orders, turns);
            RunFrom(w, script, 0, orders) ==
            if t.ending.Some? then Outcome(t.world, t.ending) else RunFrom(t.world, script, t.next, orders)
  {
    hide AfterTurn;
    if turns > 0 {
      RunGoesOnFrom(w, script, orders, turns - 1);
    }
  }

  /** The board's milliseconds between two replies and the host's time between them are farther apart than two seconds and a hundredth. */
  predicate ClocksApart(last: Heard, now: Heard) {
    && last.reply.tick.Some? && now.reply.tick.Some?
    && var ran, waited := ((now.reply.tick.value - last.reply.tick.value) % 0x1_0000_0000) as real, (now.at - last.at) * 1000.0;
       var expected := if waited > 0.0 then waited else 0.0;
       ran - expected > 2000.0 + 0.01 * expected || expected - ran > 2000.0 + 0.01 * expected
  }

  /** The later reply is of a board that started again, as far as the two of them and the image show. */
  predicate ShowsReset(last: Heard, now: Heard, imageChanged: bool) {
    var was, here := last.reply, now.reply;
    || here.progress.run < was.progress.run
    || (here.progress.run == was.progress.run && here.page.next < was.page.next)
    || (here.progress.state.Idle? && !was.progress.state.Idle?)
    || imageChanged
    || ClocksApart(last, now)
  }

  /** The rules name something exactly then. */
  lemma RulesShowReset(d: Drain, replies: seq<Heard>, now: Heard, imageChanged: bool)
    requires Remembers(d, replies) && replies != [] && d.relinked && d.links != []
    requires d.links[|d.links| - 1].imageChanged == imageChanged
    ensures Rules(d, now.reply, now.at) != [] <==> ShowsReset(replies[|replies| - 1], now, imageChanged)
  {
    var last := replies[|replies| - 1];
    if BothTicks(last.reply, now.reply) {
      assert TickRule(last.reply.tick.value, now.reply.tick.value, now.at - last.at) <==> ClocksApart(last, now);
    }
  }

  /** After some rounds the link came back from a loss, and the next poll is answered; there was a reply before. */
  predicate Back(w: World, script: seq<Exchange>, orders: Orders, turns: nat) {
    var t := Turned(w, script, orders, turns);
    && t.ending.None? && 0 < t.next < |script| && script[t.next - 1].fate.Lost? && script[t.next].fate.Answered?
    && Replies(w, script, orders, turns) != []
  }

  /** The reply then shows a reset against the last one before. */
  predicate ResetShown(w: World, script: seq<Exchange>, orders: Orders, turns: nat)
    requires Back(w, script, orders, turns)
  {
    var t, replies := Turned(w, script, orders, turns), Replies(w, script, orders, turns);
    var relink := script[t.next - 1].fate.relink;
    relink.Restored? && ShowsReset(replies[|replies| - 1], HeardAt(t.world.board, script[t.next]), relink.imageChanged)
  }

  lemma ShownIsSeen(w: World, script: seq<Exchange>, orders: Orders, turns: nat)
    requires Remembers(w.drain, []) && Back(w, script, orders, turns)
    ensures var t, replies := Turned(w, script, orders, turns), Replies(w, script, orders, turns);
            var r := AfterTurn(t.world, script, t.next, orders);
            && (ResetShown(w, script, orders, turns) <==> r.ending.Some? && r.ending.value.ResetSeen?)
            && (ResetShown(w, script, orders, turns) ==>
                  (r.ending.value.wasRunning <==> replies[|replies| - 1].reply.progress.state in {Running, Gap, PausedRingFull}))
  {
    hide HeardAt, ShowsReset, Rules, AfterTurn;
    var t, replies := Turned(w, script, orders, turns), Replies(w, script, orders, turns);
    TurnsRemember(w, script, orders, turns);
    var now := HeardAt(t.world.board, script[t.next]);
    RulesShowReset(t.world.drain, replies, now, script[t.next - 1].fate.relink.imageChanged);
    Polling(t.world.drain, now);
    AnswerEnds(t.world, script, t.next, orders);
    hide Turned, Replies;
  }

  /**
   Whatever came before: when the link came back and the next poll is answered, that reply ends the
   drain for a reset if and only if it shows one against the last reply before: a lower run, a lower
   next number in the same run, idle where the board was not, another image, or clocks apart.
   */
  lemma ResetIsSeen(before: seq<Work>, drained: nat, reconnects: bool, file: seq<Line>, script: seq<Exchange>, orders: Orders,
                    turns: nat)
    requires Back(Begun(before, drained, reconnects, file), script, orders, turns)
    ensures var w := Begun(before, drained, reconnects, file);
            var ending := AfterTurn(Turned(w, script, orders, turns).world, script, Turned(w, script, orders, turns).next, orders).ending;
            ResetShown(w, script, orders, turns) <==> ending.Some? && ending.value.ResetSeen?
    ensures var w, replies := Begun(before, drained, reconnects, file), Replies(Begun(before, drained, reconnects, file), script, orders, turns);
            var ending := Drained(before, drained, reconnects, file, script, orders).ending;
            ResetShown(w, script, orders, turns) ==>
              && ending.Some? && ending.value.ResetSeen?
              && (ending.value.wasRunning <==> replies[|replies| - 1].reply.progress.state in {Running, Gap, PausedRingFull})
  {
    var w := Begun(before, drained, reconnects, file);
    BegunRemembers(before, drained, reconnects, file);
    hide Begun, Remembers, AfterTurn, Replies, ResetShown, Back;
    ShownIsSeen(w, script, orders, turns);
    RunGoesOnFrom(w, script, orders, turns + 1);
    assert Turned(w, script, orders, turns).ending.None? && Turned(w, script, orders, turns).next < |script| by {
      BackGoesOn(w, script, orders, turns);
    }
  }

  lemma BackGoesOn(w: World, script: seq<Exchange>, orders: Orders, turns: nat)
    requires Back(w, script, orders, turns)
    ensures Turned(w, script, orders, turns).ending.None? && Turned(w, script, orders, turns).next < |script|
  {
  }

  lemma BegunRemembers(before: seq<Work>, drained: nat, reconnects: bool, file: seq<Line>)
    ensures Remembers(Begun(before, drained, reconnects, file).drain, [])
  {
    hide WorkedBoard;
  }

  /** Polling counts a poll, which no rule looks at. */
  lemma Polling(d: Drain, now: Heard)
    ensures Rules(d.(polls := d.polls + 1), now.reply, now.at) == Rules(d, now.reply, now.at)
  {
  }

  /** An answered poll ends the drain for a reset exactly when the rules name something. */
  lemma AnswerEnds(w: World, script: seq<Exchange>, at: nat, orders: Orders)
    requires at < |script| && script[at].fate.Answered?
    ensures var r, now, last := AfterTurn(w, script, at, orders), HeardAt(w.board, script[at]), w.drain.last;
            var rules := Rules(w.drain.(polls := w.drain.polls + 1), now.reply, now.at);
            && (rules != [] && last.Some? ==>
                  && r.ending.Some? && r.ending.value.ResetSeen?
                  && (r.ending.value.wasRunning <==> last.value.progress.state in {Running, Gap, PausedRingFull}))
            && (rules == [] && r.ending.Some? ==> !r.ending.value.ResetSeen?)
  {
    hide WorkedOn, Rules, AfterTake, AfterAck, PageAt, LostBlocks;
  }

  // How a round ends.

  /** Eight BUSY refusals of an acknowledgement are borne, the ninth is not; anything else settles it, and only an answer frees the page. */
  lemma {:induction false} AckIsTriedNineTimes(w: World, script: seq<Exchange>, at: nat, count: nat, attempt: nat, settled: nat)
    requires w.board.view.acked + count <= |w.board.view.made| && attempt <= settled <= 8
    requires at + (settled - attempt) < |script|
    requires forall i :: at <= i < at + (settled - attempt) ==> script[i].fate.Busy?
    requires settled < 8 ==> !script[at + (settled - attempt)].fate.Busy?
    ensures var r, fate := AfterAck(w, script, at, count, attempt), script[at + (settled - attempt)].fate;
            && r.next == at + (settled - attempt) + 1
            && (fate.Busy? || fate.Broken? ==> r.outcome.Raised? && r.world.board.view.acked == w.board.view.acked)
            && (fate.Answered? ==> r.outcome.Acknowledged? && r.world.board.view.acked == w.board.view.acked + count)
            && (fate.Lost? ==> r.outcome == LinkDropped(w.drain.reconnects && fate.relink.Restored?))
            && (fate.Lost? && !(w.drain.reconnects && Resets(script[at + (settled - attempt)])) ==>
                  r.world.board.view.acked == w.board.view.acked + if fate.processed then count else 0)
            && r.world.drain.lines == w.drain.lines && r.world.drain.acknowledged == w.drain.acknowledged
    decreases settled - attempt
  {
    hide WorkedOn;
    if attempt < settled {
      AckIsTriedNineTimes(w.(board := WorkedOn(w.board, script[at].work)), script, at + 1, count, attempt + 1, settled);
    }
  }

  /** How a round ends: by what becomes of its poll, and after an empty page by what the drain was asked. */
  lemma RoundEnds(w: World, script: seq<Exchange>, at: nat, orders: Orders)
    requires at < |script|
    ensures var r, fate, now := AfterTurn(w, script, at, orders), script[at].fate, HeardAt(w.board, script[at]).reply;
            && (fate.Busy? || fate.Broken? ==> r.ending == Some(Refused))
            && (fate.Lost? ==> r.ending == if w.drain.reconnects && fate.relink.Restored? then None else Some(LinkLost))
            && (fate.Answered? && now.page.blocks == [] && !(r.ending.Some? && r.ending.value.ResetSeen?) ==>
                  r.ending == if !orders.untilDone then Some(EmptyPoll)
                              else if now.progress.state in {Idle, Done, Aborted, State.Failed} then Some(Ended(now.progress.state))
                              else if orders.maxPolls.Some? && w.drain.emptyPolls + 1 >= orders.maxPolls.value then Some(MaxPolls)
                              else None)
  {
    hide WorkedOn, Rules, AfterAck, PageAt, LostBlocks, SaveLines;
  }

  /**
   What becomes of a page: it is saved, and then freed exactly if its acknowledgement was answered,
   or taken and its answer lost; borne eight times, a busy board ends the drain at the ninth.
   */
  lemma PageIsFreed(w: World, script: seq<Exchange>, at: nat, orders: Orders, busy: nat)
    requires at < |script| && script[at].fate.Answered? && HeardAt(w.board, script[at]).reply.page.blocks != []
    requires busy <= 8 && at + 1 + busy < |script|
    requires forall i :: at + 1 <= i < at + 1 + busy ==> script[i].fate.Busy?
    requires busy < 8 ==> !script[at + 1 + busy].fate.Busy?
    requires var ending := AfterTurn(w, script, at, orders).ending; !(ending.Some? && ending.value.ResetSeen?)
    ensures var r, page, fate := AfterTurn(w, script, at, orders), HeardAt(w.board, script[at]).reply.page, script[at + 1 + busy].fate;
            && r.next == at + busy + 2
            && Blocks(r.world.drain.lines) == SaveAll(Blocks(w.drain.lines), page.blocks)
            && (fate.Answered? ==>
                  && r.ending.None? && r.world.board.view.acked == w.board.view.acked + |page.blocks|
                  && r.world.drain.acknowledged == w.drain.acknowledged + |page.blocks|)
            && (fate.Busy? || fate.Broken? ==> r.ending == Some(Refused) && r.world.board.view.acked == w.board.view.acked)
            && (fate.Lost? ==> r.ending == if w.drain.reconnects && fate.relink.Restored? then None else Some(LinkLost))
            && (fate.Lost? && !(w.drain.reconnects && Resets(script[at + 1 + busy])) ==>
                  r.world.board.view.acked == w.board.view.acked + if fate.processed then |page.blocks| else 0)
            && (!fate.Answered? ==> r.world.drain.acknowledged == w.drain.acknowledged)
  {
    hide WorkedOn, Rules, AfterAck, PageAt, LostBlocks, SaveLines;
    var heard := HeardAt(w.board, script[at]);
    var k := w.(board := WorkedOn(w.board, script[at].work));
    SavedLines(w.drain.lines, heard.reply.progress, heard.reply.page.blocks);
    var taken := k.(drain := AfterTake(k.drain.(polls := k.drain.polls + 1), heard.reply, heard.at, k.board.view));
    AckIsTriedNineTimes(taken, script, at + 1, |heard.reply.page.blocks|, 0, busy);
  }

  /** Every request is answered, and the board makes and reports nothing meanwhile. */
  predicate Undisturbed(script: seq<Exchange>) {
    forall k :: 0 <= k < |script| ==> script[k].fate.Answered? && script[k].work == []
  }

  /** The polls it takes to drain so many blocks: two at a time, and one more that finds none. */
  function PollsFor(held: nat): nat {
    (held + 1) / 2 + 1
  }

  lemma {:induction false} QuietRun(w: World, script: seq<Exchange>, at: nat, orders: Orders)
    requires Undisturbed(script) && !w.drain.relinked
    requires at + 2 * PollsFor(|w.board.view.made| - w.board.view.acked) <= |script| + 1
    requires orders.untilDone ==> w.board.progress.state in {Idle, Done, Aborted, State.Failed}
    ensures var v, o := w.board.view, RunFrom(w, script, at, orders);
            && o.ending == Some(if orders.untilDone then Ended(w.board.progress.state) else EmptyPoll)
            && o.world.board.view.made == v.made && o.world.board.view.acked == |v.made|
            && o.world.drain.polls == w.drain.polls + PollsFor(|v.made| - v.acked)
            && Blocks(o.world.drain.lines) == SaveAll(Blocks(w.drain.lines), v.made[v.acked..])
    decreases |w.board.view.made| - w.board.view.acked
  {
    hide Rules, SaveLines, SaveAll;
    var v := w.board.view;
    QuietTurn(w, script, at, orders);
    if v.acked < |v.made| {
      var turn := AfterTurn(w, script, at, orders);
      var front := v.made[v.acked..turn.world.board.view.acked];
      QuietRun(turn.world, script, turn.next, orders);
      SaveInParts(Blocks(w.drain.lines), front, v.made[turn.world.board.view.acked..]);
      assert v.made[v.acked..] == front + v.made[turn.world.board.view.acked..];
    }
  }

  /** One round of it: the two oldest blocks saved and freed, or the end. */
  lemma QuietTurn(w: World, script: seq<Exchange>, at: nat, orders: Orders)
    requires Undisturbed(script) && !w.drain.relinked && at < |script|
    requires w.board.view.acked < |w.board.view.made| ==> at + 1 < |script|
    requires orders.untilDone ==> w.board.progress.state in {Idle, Done, Aborted, State.Failed}
    ensures var v, r := w.board.view, AfterTurn(w, script, at, orders);
            && r.world.drain.polls == w.drain.polls + 1 && !r.world.drain.relinked
            && r.world.board.view.made == v.made && r.world.board.progress == w.board.progress
            && r.world.board.view.acked == Min(v.acked + 2, |v.made|)
            && Blocks(r.world.drain.lines) == SaveAll(Blocks(w.drain.lines), v.made[v.acked..r.world.board.view.acked])
            && (v.acked == |v.made| ==> r.ending == Some(if orders.untilDone then Ended(w.board.progress.state) else EmptyPoll))
            && (v.acked < |v.made| ==> r.ending.None? && r.next == at + 2)
  {
    hide SaveLines, SaveAll;
    assert WorkedOn(w.board, []) == w.board;
    SavedLines(w.drain.lines, w.board.progress, PageAt(w.board.view).blocks);
  }

  /**
   A drain nothing disturbs completes: of a board at rest, with every request answered, it saves all
   that the board holds, frees it two blocks at a time and ends at the first empty page.
   */
  lemma UndisturbedDrain(before: seq<Work>, drained: nat, reconnects: bool, file: seq<Line>, script: seq<Exchange>, orders: Orders)
    requires Undisturbed(script)
    requires var b := WorkedBoard(before, drained);
             && 2 * PollsFor(|b.view.made| - b.view.acked) <= |script| + 1
             && (orders.untilDone ==> b.progress.state in {Idle, Done, Aborted, State.Failed})
    ensures var b, o := WorkedBoard(before, drained), Drained(before, drained, reconnects, file, script, orders);
            && o.ending == Some(if orders.untilDone then Ended(b.progress.state) else EmptyPoll)
            && Blocks(o.world.drain.lines) == SaveAll(Blocks(file), b.view.made[b.view.acked..])
            && o.world.board.view.acked == |b.view.made|
            && o.world.drain.polls == PollsFor(|b.view.made| - b.view.acked)
  {
    hide WorkedBoard, RunFrom, Undisturbed;
    QuietRun(Begun(before, drained, reconnects, file), script, 0, orders);
  }

  // What whole drains keep.

  lemma WorkedBoardIsSound(before: seq<Work>, drained: nat)
    ensures Sound(WorkedBoard(before, drained).view)
  {
    EmptyIsSound(BOOTED.view);
    WorkGrows(BOOTED, before);
    var v := WorkedOn(BOOTED, before).view;
    AckIsSound(v, Min(drained, |v.made| - v.acked));
  }

  /**
   Whatever the link and the board do: every block that this drain had freed is in the file, the
   new lines repeat none and the old ones stand; the way the drain ends tells the truth of the
   file. Without a reset in the script the file is the old one followed by every block shown.
   */
  lemma DrainIsSafe(before: seq<Work>, drained: nat, reconnects: bool, file: seq<Line>, script: seq<Exchange>, orders: Orders)
    ensures var o := Drained(before, drained, reconnects, file, script, orders);
            var m, v, b := o.world.drain.Memory(), o.world.board.view, WorkedBoard(before, drained).view;
            && m.start == Start(Blocks(file), b.acked, |b.freed|, b.boots)
            && Safe(m.start, v, m.file)
            && (o.ending.Some? ==> Justified(o.ending.value, m, v, orders.untilDone))
            && (NoReset(script) ==> v.boots == b.boots && Exact(m.start, v, m.file, m.newest))
  {
    var b := WorkedBoard(before, drained);
    var w := World(Opened(reconnects, file, b.view), b);
    WorkedBoardIsSound(before, drained);
    OpenedKeeps(reconnects, file, b);
    hide Safe, Exact, Justified, Sound, RunFrom, WorkedBoard, NoReset;
    RunTells(w, script, 0, orders);
    RunStays(w, script, 0, orders);
  }

  /**
   A drain whose script holds no reset and no other image, whose board reports its runs in order
   and whose clocks keep step, never ends for a reset: the run, the next number and the tick that
   the rules compare are those of one board that only ran on, across any number of lost links and
   any wrap of the tick.
   */
  lemma NoResetIsSeen(before: seq<Work>, drained: nat, reconnects: bool, file: seq<Line>, script: seq<Exchange>, orders: Orders)
    requires NoReset(script) && SameImage(script) && Steady(script)
    requires AllInOrder(WorkedBoard(before, drained).progress, script, 0)
    ensures var ending := Drained(before, drained, reconnects, file, script, orders).ending;
            ending.Some? ==> !ending.value.ResetSeen?
  {
    var b := WorkedBoard(before, drained);
    var w := World(Opened(reconnects, file, b.view), b);
    assert GoneOn(w.drain, w.board, script, 0);
    hide NoReset, SameImage, Steady, AllInOrder, RunFrom, WorkedBoard;
    RunGoesOn(w, script, 0, orders);
  }

  method MakeBoard(before: seq<Work>, drained: nat) returns (board: Board)
    ensures board.Valid() && fresh(board) && fresh(board.ring) && fresh(board.ring.blocks)
    ensures board.State() == WorkedBoard(before, drained)
  {
    hide Sound;
    board := new Board();
    board.Do(before);
    assert |board.ring.Contents()| == |board.view.made[board.view.acked..]|;
    var earlier := Min(drained, board.ring.count);
    var status := board.Acknowledge(board.ring.nextSeq - FIRST_SEQ - board.ring.count + earlier, earlier);
  }

  /** The drain's and the board's objects, run over a script, do as the drain says; the lines are the file after it. */
  method DrainPlaylist(before: seq<Work>, drained: nat, reconnects: bool, file: seq<Line>, script: seq<Exchange>, orders: Orders)
    returns (ending: Option<Ending>, lines: seq<Line>)
    ensures var o := Drained(before, drained, reconnects, file, script, orders); ending == o.ending && lines == o.world.drain.lines
  {
    hide RunFrom, WorkedBoard;
    var board := MakeBoard(before, drained);
    var drain := new PlaylistDrain(reconnects, file, board.view);
    ending := drain.Run(board, script, orders);
    lines := drain.lines;
  }
}
