/**
 Where the items of a playlist start on the USB route (common/playlist.hpp,
 host/make_playlist.py): the board goes from item to item in 32-bit stream indices that
 wrap, the host predicts each start as an offset from the first item of its run.
 */
module ItemStarts {
  import opened Words
  import PlaylistLine
  import Seconds

  const CHUNK_FRAMES: nat := 48
  const ON_TIME_GAP_MS: nat := 1000
  const INDICES: nat := UINT32_MAX + 1

  /** whole_chunk_frames of the board: wraps with the index. */
  function WholeChunkFrames(frames: Uint32): Uint32 {
    var partial := if frames % CHUNK_FRAMES == 0 then 0 else 1;
    (frames / CHUNK_FRAMES + partial) * CHUNK_FRAMES % INDICES
  }

  /** whole_chunk_frames of the host: a ceiling by floor division of the negative. */
  function HostWholeChunkFrames(frames: nat): int {
    -((0 - frames) / CHUNK_FRAMES) * CHUNK_FRAMES
  }

  /** The host's count is the least number of whole packets that holds the frames. */
  lemma WholePackets(frames: nat)
    ensures HostWholeChunkFrames(frames) % CHUNK_FRAMES == 0
    ensures frames <= HostWholeChunkFrames(frames) < frames + CHUNK_FRAMES
  {
  }

  /** The board's is the same count on its wrapping counter, and the count itself exactly while that fits 32 bits. */
  lemma SamePackets(frames: Uint32)
    ensures WholeChunkFrames(frames) == HostWholeChunkFrames(frames) % INDICES
    ensures WholeChunkFrames(frames) == HostWholeChunkFrames(frames) <==> frames <= UINT32_MAX - UINT32_MAX % CHUNK_FRAMES
  {
    var q, r := frames / CHUNK_FRAMES, frames % CHUNK_FRAMES;
    assert frames == q * CHUNK_FRAMES + r;
    assert (0 - frames) / CHUNK_FRAMES == if r == 0 then -q else -q - 1;
  }

  function NextStartIndex(first: Uint32, sent: Uint32, gap: Uint32): Uint32 {
    ((first + WholeChunkFrames(sent)) % INDICES + gap) % INDICES
  }

  /** A USB item's start: whether it is scheduled and late, as far as that can be said, and its place from the run's first item. */
  datatype Start = NotUsb | Usb(scheduled: Option<bool>, late: Option<bool>, runItem: nat, offset: int)

  /** The frames an item sends, as far as they are predicted. */
  type Prediction = Option<nat>

  function SentBefore(items: seq<PlaylistLine.Item>, sent: seq<Prediction>, i: nat): Prediction
    requires i < |items| == |sent|
  {
    if i > 0 && items[i - 1].route.Usb? then sent[i - 1] else Some(0)
  }

  function GapMsBefore(items: seq<PlaylistLine.Item>, i: nat): nat
    requires i < |items|
  {
    if i > 0 then items[i - 1].gapFrames / Seconds.FRAMES_PER_MILLISECOND else 0
  }

  /** Item `i` goes out exactly where the item before it says. */
  predicate Follows(items: seq<PlaylistLine.Item>, sent: seq<Prediction>, i: nat)
    requires i < |items| == |sent|
  {
    var before := SentBefore(items, sent, i);
    before.Some? && before.value != 0 && GapMsBefore(items, i) >= ON_TIME_GAP_MS
  }

  /** What is predicted of item `i`. */
  function StartOf(items: seq<PlaylistLine.Item>, sent: seq<Prediction>, i: nat): (start: Start)
    requires i < |items| == |sent|
    ensures start.Usb? <==> items[i].route.Usb?
  {
    if !items[i].route.Usb? then NotUsb
    else
      var before, gap := SentBefore(items, sent, i), GapMsBefore(items, i);
      var scheduled := if before.None? then None else Some(before.value != 0);
      var late := if scheduled == Some(false) || gap >= ON_TIME_GAP_MS then Some(false)
                  else if scheduled == Some(true) && gap == 0 then Some(true) else None;
      if Follows(items, sent, i) then
        var previous := StartOf(items, sent, i - 1);
        Usb(scheduled, late, previous.runItem, previous.offset + HostWholeChunkFrames(before.value) + items[i - 1].gapFrames)
      else Usb(scheduled, late, i, 0)
  }

  /** The frames predicted of the item before, if it goes out on the same route: nothing precedes any other. */
  function Ahead(items: seq<PlaylistLine.Item>, sent: seq<Prediction>, i: nat): Prediction
    requires i < |items| == |sent|
  {
    if i == 0 || items[i - 1].route.Codec? then Some(0) else sent[i - 1]
  }

  /** The frames of the gap before an item. */
  function GapBefore(items: seq<PlaylistLine.Item>, i: nat): nat
    requires i < |items|
  {
    if i == 0 then 0 else items[i - 1].gapFrames
  }

  /**
   What a prediction says. An item is scheduled when the one before it on the route sends anything:
   it is on time after a gap of a second, late after less than a millisecond, and in between that
   cannot be said; one that is not scheduled is never late. After such a gap it starts the frames
   sent, rounded up to whole packets, and the gap past the start before it; otherwise a new run.
   */
  lemma StartSays(items: seq<PlaylistLine.Item>, sent: seq<Prediction>, i: nat)
    requires i < |items| == |sent| && items[i].route.Usb?
    ensures var start, ahead, gap := StartOf(items, sent, i), Ahead(items, sent, i), GapBefore(items, i);
            && (start.scheduled.None? <==> ahead.None?)
            && (start.scheduled == Some(true) <==> ahead.Some? && ahead.value > 0)
            && (start.late == Some(true) <==> ahead.Some? && ahead.value > 0 && gap < 48)
            && (start.late == Some(false) <==> ahead == Some(0) || gap >= 48000)
            && (ahead.Some? && ahead.value > 0 && gap >= 48000 ==>
                  var previous, packets := StartOf(items, sent, i - 1), start.offset - StartOf(items, sent, i - 1).offset - gap;
                  && start.runItem == previous.runItem
                  && packets % 48 == 0 && ahead.value <= packets < ahead.value + 48)
            && (!(ahead.Some? && ahead.value > 0 && gap >= 48000) ==> start.runItem == i && start.offset == 0)
  {
    hide HostWholeChunkFrames;
    var ahead := Ahead(items, sent, i);
    if ahead.Some? {
      WholePackets(ahead.value);
    }
  }

  /** start_predictions: each start from the one before it. */
  method StartPredictions(items: seq<PlaylistLine.Item>, sent: seq<Prediction>) returns (starts: seq<Start>)
    requires |items| == |sent|
    ensures |starts| == |items| && forall i :: 0 <= i < |items| ==> starts[i] == StartOf(items, sent, i)
  {
    starts := [];
    for i := 0 to |items|
      invariant |starts| == i && forall j :: 0 <= j < i ==> starts[j] == StartOf(items, sent, j)
    {
      if !items[i].route.Usb? {
        starts := starts + [NotUsb];
        continue;
      }
      var before := if i > 0 && items[i - 1].route.Usb? then sent[i - 1] else Some(0);
      var scheduled := if before.None? then None else Some(before.value != 0);
      var gap := if i > 0 then items[i - 1].gapFrames / Seconds.FRAMES_PER_MILLISECOND else 0;
      var late := None;
      if scheduled == Some(false) || gap >= ON_TIME_GAP_MS {
        late := Some(false);
      } else if scheduled == Some(true) && gap == 0 {
        late := Some(true);
      }
      if scheduled == Some(true) && gap >= ON_TIME_GAP_MS {
        var previous := starts[i - 1];
        starts := starts + [Usb(scheduled, late, previous.runItem,
                                previous.offset + HostWholeChunkFrames(before.value) + items[i - 1].gapFrames)];
      } else {
        starts := starts + [Usb(scheduled, late, i, 0)];
      }
    }
  }

  /** How the board played an item: the stream index of its first frame, and its frames sent. */
  datatype Play = Play(first: Uint32, sent: Uint32)

  /** Every gap long enough to prepare the next USB item in ends with that item at its scheduled index. */
  ghost predicate OnSchedule(items: seq<PlaylistLine.Item>, plays: seq<Play>) {
    && |plays| == |items|
    && forall i :: 0 < i < |items| && items[i].route.Usb? && items[i - 1].route.Usb?
                   && plays[i - 1].sent != 0 && GapMsBefore(items, i) >= ON_TIME_GAP_MS ==>
         items[i - 1].gapFrames <= UINT32_MAX
         && plays[i].first == NextStartIndex(plays[i - 1].first, plays[i - 1].sent, items[i - 1].gapFrames)
  }

  /** The frames predicted are the frames sent. */
  ghost predicate Foretold(sent: seq<Prediction>, plays: seq<Play>) {
    |sent| == |plays| && forall i :: 0 <= i < |sent| && sent[i].Some? ==> sent[i].value == plays[i].sent
  }

  /**
   However many items a run has and however often the board's index wraps on the way, each
   item starts at the index of the run's first item plus the predicted offset; the run is of
   USB items only, and gaps of whole milliseconds keep every offset on a packet.
   */
  lemma {:induction false} StartsAsPredicted(items: seq<PlaylistLine.Item>, sent: seq<Prediction>, plays: seq<Play>, i: nat)
    requires |items| == |sent| && i < |items| && items[i].route.Usb?
    requires OnSchedule(items, plays) && Foretold(sent, plays)
    ensures var start := StartOf(items, sent, i);
            && start.runItem <= i && start.offset >= 0
            && plays[i].first == (plays[start.runItem].first + start.offset) % INDICES
            && (forall k :: start.runItem <= k <= i ==> items[k].route.Usb?)
            && ((forall k :: 0 <= k < |items| ==> Seconds.IsGap(items[k].gapFrames)) ==> start.offset % CHUNK_FRAMES == 0)
    decreases i
  {
    hide NextStartIndex, HostWholeChunkFrames, WholeChunkFrames, Seconds.IsGap;
    if Follows(items, sent, i) {
      StartsAsPredicted(items, sent, plays, i - 1);
      var previous, play := StartOf(items, sent, i - 1), plays[i - 1];
      WholePackets(play.sent);
      NextIndex(plays[previous.runItem].first, previous.offset, play, items[i - 1].gapFrames);
      GapIsPackets(items[i - 1].gapFrames);
      MorePackets(previous.offset, HostWholeChunkFrames(play.sent), items[i - 1].gapFrames);
    } else {
      AtItself(plays[i].first);
    }
  }

  /** Wrapping at every item or once for the whole run is the same. */
  lemma NextIndex(first: Uint32, offset: nat, play: Play, gap: Uint32)
    requires play.first == (first + offset) % INDICES
    ensures NextStartIndex(play.first, play.sent, gap) == (first + (offset + HostWholeChunkFrames(play.sent) + gap)) % INDICES
  {
    hide HostWholeChunkFrames, WholeChunkFrames;
    SamePackets(play.sent);
    var packets := HostWholeChunkFrames(play.sent);
    WrapOnce(first + offset, packets % INDICES);
    WrapOnce(packets, first + offset);
    WrapOnce(first + offset + packets, gap);
  }

  lemma WrapOnce(a: int, b: int)
    ensures (a % INDICES + b) % INDICES == (a + b) % INDICES
  {
  }

  lemma AtItself(first: Uint32)
    ensures first == (first + 0) % INDICES && 0 % CHUNK_FRAMES == 0
  {
  }

  lemma GapIsPackets(gap: nat)
    ensures Seconds.IsGap(gap) ==> gap % CHUNK_FRAMES == 0
  {
  }

  lemma MorePackets(a: nat, b: int, c: nat)
    ensures a % CHUNK_FRAMES == 0 && b % CHUNK_FRAMES == 0 && c % CHUNK_FRAMES == 0 ==> (a + b + c) % CHUNK_FRAMES == 0
  {
  }
}
