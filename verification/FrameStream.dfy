/**
 The DD-008 stream decoder (host/dd008.py, StreamDecoder): frames out of a byte stream in
 any pieces, and what malformed and overlong packets do to it.
 */
module FrameStream {
  import opened Words
  import opened Cobs
  import opened Dd008

  /** The packet being collected, and whether it is being thrown away. */
  datatype Line = Line(packet: Bytes, discarding: bool)

  const CLEAN: Line := Line([], false)

  /** What feeding bytes did: the line after, the frames found, the fault that stopped it. */
  datatype Fed = Fed(line: Line, frames: seq<Frame>, raised: Option<Fault>)

  ghost predicate Sane(line: Line) {
    |line.packet| <= MAX_PACKET && 0 !in line.packet && (line.discarding ==> line.packet == [])
  }

  function FeedLineByte(line: Line, value: Uint8): Fed {
    if value == 0 then
      if line.discarding then Fed(CLEAN, [], None)
      else if line.packet == [] then Fed(line, [], None)
      else
        match DecodeFrame(line.packet)
        case Good(frame) => Fed(Line([], false), [frame], None)
        case Bad(fault) => Fed(line, [], Some(fault))
    else if line.discarding then Fed(line, [], None)
    else if |line.packet| == MAX_PACKET then Fed(Line([], true), [], None)
    else Fed(Line(line.packet + [value], false), [], None)
  }

  /** Bytes one by one, up to the first fault. */
  function FeedLine(line: Line, bytes: Bytes): Fed {
    if bytes == [] then Fed(line, [], None)
    else
      var front := FeedLine(line, bytes[..|bytes| - 1]);
      if front.raised.Some? then front
      else
        var one := FeedLineByte(front.line, bytes[|bytes| - 1]);
        Fed(one.line, front.frames + one.frames, one.raised)
  }

  /** What two stretches did, one after the other. */
  function Then(first: Fed, bytes: Bytes): Fed {
    if first.raised.Some? then first
    else
      var second := FeedLine(first.line, bytes);
      Fed(second.line, first.frames + second.frames, second.raised)
  }

  /** Any split of the bytes does the same. */
  lemma {:induction false} FeedInParts(line: Line, a: Bytes, b: Bytes)
    ensures FeedLine(line, a + b) == Then(FeedLine(line, a), b)
    decreases |b|
  {
    hide FeedLineByte;
    if b == [] {
      assert a + b == a;
    } else {
      FeedInParts(line, a, b[..|b| - 1]);
      assert (a + b)[..|a + b| - 1] == a + b[..|b| - 1];
      assert (a + b)[|a + b| - 1] == b[|b| - 1];
    }
  }

  /** Where a line stands after bytes without a zero. */
  function Collected(line: Line, bytes: Bytes): Line {
    if line.discarding then line
    else if |line.packet| + |bytes| <= MAX_PACKET then Line(line.packet + bytes, false)
    else Line([], true)
  }

  lemma {:induction false} FeedNoZero(line: Line, bytes: Bytes)
    requires Sane(line) && 0 !in bytes
    ensures FeedLine(line, bytes) == Fed(Collected(line, bytes), [], None)
    decreases |bytes|
  {
    if bytes != [] {
      FeedNoZero(line, bytes[..|bytes| - 1]);
      assert bytes == bytes[..|bytes| - 1] + [bytes[|bytes| - 1]];
    }
  }

  lemma FeedZero(line: Line)
    ensures FeedLine(line, [0]) == FeedLineByte(line, 0)
  {
    hide FeedLineByte;
    assert [0][..0] == [];
    assert FeedLine(line, [0][..0]) == Fed(line, [], None);
    assert FeedLine(line, [0]).frames == [] + FeedLineByte(line, 0).frames;
  }

  predicate Legal(frame: Frame) {
    |frame.payload| <= MAX_PAYLOAD
  }

  ghost predicate AllLegal(frames: seq<Frame>) {
    forall i :: 0 <= i < |frames| ==> Legal(frames[i])
  }

  /** One encoded frame on a clean line is that frame. */
  lemma FeedFrame(frame: Frame)
    requires Legal(frame)
    ensures FeedLine(CLEAN, EncodeFrame(frame).value) == Fed(CLEAN, [frame], None)
  {
    hide Encode, Sealed, Body, DecodeFrame, FeedLine;
    var packet := Encode(Sealed(Body(frame)));
    EncodedFrame(frame);
    FeedNoZero(CLEAN, packet);
    FeedInParts(CLEAN, packet, [0]);
    assert [] + packet == packet;
    FeedZero(Line(packet, false));
  }

  /** The bytes of several frames. */
  ghost function Wire(frames: seq<Frame>): Bytes
    requires AllLegal(frames)
  {
    if frames == [] then [] else Wire(frames[..|frames| - 1]) + EncodeFrame(frames[|frames| - 1]).value
  }

  /** Encoded frames on a clean line are exactly those frames, and leave it clean. */
  lemma {:induction false} FeedFrames(frames: seq<Frame>)
    requires AllLegal(frames)
    ensures FeedLine(CLEAN, Wire(frames)) == Fed(CLEAN, frames, None)
    decreases |frames|
  {
    hide Encode, Sealed, Body, FeedLineByte;
    if frames != [] {
      var front, last := frames[..|frames| - 1], frames[|frames| - 1];
      FeedFrames(front);
      FeedFrame(last);
      FeedInParts(CLEAN, Wire(front), EncodeFrame(last).value);
      assert frames == front + [last];
    }
  }

  /**
   From any line, an overlong run without a zero, then a zero: whatever was collected is
   dropped without a fault, and the frames that follow are found, all of them.
   */
  lemma Resynchronises(line: Line, run: Bytes, frames: seq<Frame>)
    requires Sane(line) && 0 !in run && (line.discarding || |line.packet| + |run| > MAX_PACKET)
    requires AllLegal(frames)
    ensures FeedLine(line, run + [0] + Wire(frames)) == Fed(CLEAN, frames, None)
  {
    hide FeedLine, Wire;
    FeedNoZero(line, run);
    FeedInParts(line, run, [0]);
    FeedZero(Line([], true));
    FeedInParts(line, run + [0], Wire(frames));
    FeedFrames(frames);
  }

  /** A zero after these bytes drops whatever is on the line without looking at it, or finds nothing there. */
  predicate Drops(line: Line, run: Bytes) {
    line.discarding || |line.packet| + |run| > MAX_PACKET || line.packet + run == []
  }

  /**
   When a line recovers at the next zero, exactly. After bytes without a zero and then a
   zero, the frames that follow are found, and only those, if and only if the zero drops
   what was collected; it raises no fault if and only if it drops it or what was collected
   is itself a frame. A packet that is neither stays on the line, and its fault ends the call.
   */
  lemma RecoversExactly(line: Line, run: Bytes, frames: seq<Frame>)
    requires Sane(line) && 0 !in run && AllLegal(frames)
    ensures FeedLine(line, run + [0] + Wire(frames)) == Fed(CLEAN, frames, None) <==> Drops(line, run)
    ensures FeedLine(line, run + [0] + Wire(frames)).raised.None? <==> Drops(line, run) || DecodeFrame(line.packet + run).Good?
    ensures !Drops(line, run) && DecodeFrame(line.packet + run).Bad? ==>
              FeedLine(line, run + [0] + Wire(frames))
              == Fed(Line(line.packet + run, false), [], Some(DecodeFrame(line.packet + run).fault))
  {
    hide FeedLine, Wire, DecodeFrame;
    FeedNoZero(line, run);
    FeedInParts(line, run, [0]);
    FeedZero(Collected(line, run));
    FeedInParts(line, run + [0], Wire(frames));
    FeedFrames(frames);
  }

  /**
   A packet that does not recover: the one byte 1 is refused as too short, and whichever
   frame comes next is lost with it.
   */
  lemma FaultSwallowsTheNextFrame(frame: Frame)
    requires Legal(frame)
    ensures !Drops(CLEAN, [1]) && DecodeFrame([1]) == Bad(TooShort)
    ensures FeedLine(CLEAN, [1, 0]).raised == Some(TooShort)
    ensures FeedLine(FeedLine(CLEAN, [1, 0]).line, EncodeFrame(frame).value).frames == []
  {
    hide Encode, Sealed, Body, DecodeFrame, FeedLine;
    OneIsTooShort();
    var packet := Encode(Sealed(Body(frame)));
    EncodedFrame(frame);
    var stuck := Line([1], false);
    FeedNoZero(stuck, packet);
    FeedInParts(stuck, packet, [0]);
    FeedZero(Collected(stuck, packet));
    RoundTrip(Sealed(Body(frame)));
    if |packet| < MAX_PACKET {
      StuckPacket(packet, Sealed(Body(frame)));
    }
  }

  lemma OneIsTooShort()
    ensures FeedLine(CLEAN, [1, 0]) == Fed(Line([1], false), [], Some(TooShort)) && DecodeFrame([1]) == Bad(TooShort)
  {
    hide Decode;
    DecodeOne([1]);
    DecodeOne([]);
    assert [1][1..] == [];
    FeedNoZero(CLEAN, [1]);
    FeedInParts(CLEAN, [1], [0]);
    assert [1] + [0] == [1, 0];
    assert [] + [1] == [1];
    FeedZero(Line([1], false));
  }

  lemma StuckPacket(packet: Bytes, sealed: Bytes)
    requires packet != [] && DecodeFrame(packet).Good? && Decode(packet) == Plain(sealed)
    ensures DecodeFrame([1] + packet).Bad?
  {
    hide Decode, CrcOf;
    var stuck := [1] + packet;
    DecodeOne(stuck);
    assert stuck[1..] == packet && stuck[1..1] == [];
    assert Decode(stuck) == Plain([0] + sealed);
    assert ([0] + sealed)[..2][0] == 0;
  }

  /** The decoder object: the same line, kept between calls. */
  class StreamDecoder {
    var packet: Bytes
    var discarding: bool

    function State(): Line
      reads this
    {
      Line(packet, discarding)
    }

    constructor ()
      ensures State() == CLEAN
    {
      packet, discarding := [], false;
    }

    method Reset()
      modifies this
      ensures State() == CLEAN
    {
      packet, discarding := [], false;
    }

    /** feed: the frames found, unless a fault is raised, which loses them and the bytes after it. */
    method Feed(payload: Bytes) returns (frames: seq<Frame>, raised: Option<Fault>)
      modifies this
      ensures var fed := FeedLine(old(State()), payload);
              State() == fed.line && raised == fed.raised && frames == if fed.raised.Some? then [] else fed.frames
    {
      hide DecodeFrame;
      frames := [];
      raised := None;
      ghost var start := State();
      for k := 0 to |payload|
        invariant FeedLine(start, payload[..k]) == Fed(State(), frames, None)
      {
        var value := payload[k];
        ghost var before := frames;
        assert payload[..k + 1][..k] == payload[..k];
        var one, fault := FeedByte(value);
        if fault.Some? {
          FaultEnds(start, payload, k + 1);
          return [], fault;
        }
        frames := frames + one;
      }
      assert payload[..|payload|] == payload;
    }

    /** One turn of the loop. */
    method FeedByte(value: Uint8) returns (frames: seq<Frame>, raised: Option<Fault>)
      modifies this
      ensures FeedLineByte(old(State()), value) == Fed(State(), frames, raised)
    {
      frames, raised := [], None;
      if value == 0 {
        if discarding {
          discarding := false;
          packet := [];
          return;
        }
        if packet != [] {
          var verdict := DecodeFrame(packet);
          if verdict.Bad? {
            return [], Some(verdict.fault);
          }
          frames := [verdict.frame];
          packet := [];
        }
        return;
      }
      if discarding {
        return;
      }
      if |packet| == MAX_PACKET {
        packet := [];
        discarding := true;
        return;
      }
      packet := packet + [value];
    }
  }

  /** A fault ends the call: the bytes after it are not looked at. */
  lemma FaultEnds(line: Line, bytes: Bytes, at: nat)
    requires at <= |bytes| && FeedLine(line, bytes[..at]).raised.Some?
    ensures FeedLine(line, bytes) == FeedLine(line, bytes[..at])
  {
    hide FeedLine;
    FeedInParts(line, bytes[..at], bytes[at..]);
    assert bytes[..at] + bytes[at..] == bytes;
  }

  /** A whole stream in whatever pieces it comes: no fault, and the frames sent, in order. */
  method Receive(chunks: seq<Bytes>, ghost sent: seq<Frame>) returns (frames: seq<Frame>)
    requires AllLegal(sent)
    requires Joined(chunks) == Wire(sent)
    ensures frames == sent
  {
    hide FeedLine, FeedLineByte, Wire;
    FeedFrames(sent);
    var decoder := new StreamDecoder();
    frames := [];
    FeedNothing();
    assert chunks[..0] == [];
    for k := 0 to |chunks|
      invariant FeedLine(CLEAN, Joined(chunks[..k])) == Fed(decoder.State(), frames, None)
    {
      assert chunks[..k + 1][..k] == chunks[..k];
      FeedInParts(CLEAN, Joined(chunks[..k]), chunks[k]);
      JoinedUpTo(chunks, k + 1);
      NoEarlierFault(Joined(chunks), |Joined(chunks[..k + 1])|);
      assert Joined(chunks)[..|Joined(chunks[..k + 1])|] == Joined(chunks[..k]) + chunks[k];
      var more, raised := decoder.Feed(chunks[k]);
      frames := frames + more;
    }
    assert chunks[..|chunks|] == chunks;
  }

  lemma FeedNothing()
    ensures FeedLine(CLEAN, Joined([])) == Fed(CLEAN, [], None)
  {
  }

  lemma NoEarlierFault(bytes: Bytes, at: nat)
    requires at <= |bytes| && FeedLine(CLEAN, bytes).raised.None?
    ensures FeedLine(CLEAN, bytes[..at]).raised.None?
  {
    hide FeedLine;
    if FeedLine(CLEAN, bytes[..at]).raised.Some? {
      FaultEnds(CLEAN, bytes, at);
      assert false;
    }
  }
}
