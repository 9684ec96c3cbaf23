/**
 The host's prediction of what an item sends (host/make_playlist.py): a looped, cut and
 attenuated engine output as PCM24 bytes, in the pieces the files are read in.
 */
module PredictStream {
  import opened Words
  import opened Attenuation
  import opened CutRules
  import opened CutStream
  import opened CutHost
  import opened CutTally
  import C = Crc

  const COPY_FRAMES: nat := 65536

  // Samples as bytes.

  function Encode24(sample: int): (bytes: Bytes)
    ensures |bytes| == 3
  {
    var v := sample % 0x100_0000;
    [v % 256, v / 256 % 256, v / 65536]
  }

  function Decode24(bytes: Bytes, at: nat): (sample: Sample)
    requires at + 3 <= |bytes|
  {
    var v := bytes[at] as int + 256 * bytes[at + 1] as int + 65536 * bytes[at + 2] as int;
    if v >= 0x80_0000 then v - 0x100_0000 else v
  }

  /** A sample's three bytes, the lowest first, are its 24-bit two's complement, and decode to it. */
  lemma SampleRoundTrip(sample: Sample)
    ensures Decode24(Encode24(sample), 0) == sample
    ensures var b := Encode24(sample);
            b[0] as int + 0x100 * b[1] as int + 0x1_0000 * b[2] as int == if sample >= 0 then sample else sample + 0x100_0000
  {
    var v := sample % 0x100_0000;
    assert v == if sample >= 0 then sample else sample + 0x100_0000;
    var w := v / 256;
    assert v == 256 * w + v % 256 && w == 256 * (w / 256) + w % 256 && w / 256 == v / 65536;
  }

  function Pcm(samples: seq<Sample>): (bytes: Bytes)
    ensures |bytes| == 3 * |samples|
  {
    if samples == [] then [] else Pcm(samples[..|samples| - 1]) + Encode24(samples[|samples| - 1])
  }

  lemma {:induction false} PcmAppends(a: seq<Sample>, b: seq<Sample>)
    ensures Pcm(a + b) == Pcm(a) + Pcm(b)
    decreases |b|
  {
    hide Encode24;
    if b == [] {
      assert a + b == a;
    } else {
      PcmAppends(a, b[..|b| - 1]);
      assert (a + b)[..|a + b| - 1] == a + b[..|b| - 1];
    }
  }

  /** Frames in the middle of the data are those frames' bytes. */
  lemma PcmSlice(samples: seq<Sample>, lo: nat, hi: nat)
    requires lo <= hi <= |samples|
    ensures Pcm(samples)[3 * lo..3 * hi] == Pcm(samples[lo..hi])
  {
    hide Pcm;
    ThreeParts(samples, lo, hi);
    PcmMiddle(samples, samples[..lo], samples[lo..hi], samples[hi..]);
  }

  lemma ThreeParts(samples: seq<Sample>, lo: nat, hi: nat)
    requires lo <= hi <= |samples|
    ensures samples == samples[..lo] + samples[lo..hi] + samples[hi..]
  {
  }

  lemma PcmMiddle(samples: seq<Sample>, a: seq<Sample>, b: seq<Sample>, c: seq<Sample>)
    requires samples == a + b + c
    ensures Pcm(samples)[3 * |a|..3 * (|a| + |b|)] == Pcm(b)
  {
    hide Pcm;
    PcmAppends(a + b, c);
    PcmAppends(a, b);
    Middle(Pcm(a), Pcm(b), Pcm(c));
  }

  lemma Middle(a: Bytes, b: Bytes, c: Bytes)
    ensures (a + b + c)[|a|..|a| + |b|] == b
  {
  }

  lemma PcmOne(sample: Sample)
    ensures Pcm([sample]) == Encode24(sample)
  {
    assert [sample][..0] == [];
  }

  lemma PcmBytesAt(samples: seq<Sample>, k: nat)
    requires k < |samples|
    ensures Pcm(samples)[3 * k..3 * k + 3] == Encode24(samples[k])
  {
    hide Pcm, Encode24, Decode24;
    AroundOne(samples, k);
    PcmThere(samples, samples[..k], [samples[k]], samples[k + 1..], 3 * k);
    PcmOne(samples[k]);
  }

  lemma PcmAt(samples: seq<Sample>, k: nat)
    requires k < |samples|
    ensures Pcm(samples)[3 * k..3 * k + 3] == Encode24(samples[k])
    ensures Decode24(Pcm(samples), 3 * k) == samples[k]
  {
    hide Pcm, Encode24, Decode24;
    PcmBytesAt(samples, k);
    SampleRoundTrip(samples[k]);
    DecodeThere(Pcm(samples), 3 * k);
  }

  lemma AroundOne(samples: seq<Sample>, k: nat)
    requires k < |samples|
    ensures samples == samples[..k] + [samples[k]] + samples[k + 1..]
  {
  }

  lemma PcmThere(samples: seq<Sample>, a: seq<Sample>, b: seq<Sample>, c: seq<Sample>, at: nat)
    requires samples == a + b + c && at == 3 * |a| && |b| == 1
    ensures at + 3 <= |Pcm(samples)| && Pcm(samples)[at..at + 3] == Pcm(b)
  {
    hide Pcm;
    PcmMiddle(samples, a, b, c);
  }

  lemma DecodeThere(data: Bytes, at: nat)
    requires at + 3 <= |data|
    ensures Decode24(data[at..at + 3], 0) == Decode24(data, at)
  {
  }

  // Attenuating.

  function Quieter(gain: Gain, sample: Sample): (quieter: Sample)
    ensures quieter == Scaled(gain, sample)
  {
    ScaledShrinks(gain, sample);
    Scaled(gain, sample)
  }

  function Attenuate(gain: Gain, samples: seq<Sample>): (quieter: seq<Sample>)
    ensures |quieter| == |samples|
  {
    seq(|samples|, i requires 0 <= i < |samples| => Quieter(gain, samples[i]))
  }

  /** attenuated(): every whole sample of the data in place; a part of a sample at its end becomes zeros, but not at 0 dB. */
  method Attenuated(data: Bytes, gain: Gain) returns (output: Bytes)
    ensures gain == UNITY ==> output == data
    ensures |output| == |data|
    ensures forall k :: 0 <= k < |data| / 3 ==> output[3 * k..3 * k + 3] == Encode24(Scaled(gain, Decode24(data, 3 * k)))
    ensures gain != UNITY ==> forall i :: |data| - |data| % 3 <= i < |data| ==> output[i] == 0
  {
    hide Encode24, Decode24, Scaled;
    if gain == UNITY {
      forall k | 0 <= k < |data| / 3
        ensures data[3 * k..3 * k + 3] == Encode24(Scaled(gain, Decode24(data, 3 * k)))
      {
        ScaledKeeps(gain, Decode24(data, 3 * k));
        ReencodeSample(data, 3 * k);
      }
      return data;
    }
    var buffer := new Uint8[|data|](_ => 0);
    for k := 0 to |data| / 3
      invariant Written(buffer[..], data, gain, k)
    {
      var bytes := Encode24(Scaled(gain, Decode24(data, 3 * k)));
      ghost var before := buffer[..];
      PutSample(buffer, 3 * k, bytes);
      WriteOne(before, buffer[..], data, gain, k);
    }
    output := buffer[..];
  }

  /** The first samples are attenuated, and every byte after them is still zero. */
  ghost predicate Written(output: Bytes, data: Bytes, gain: Gain, count: nat)
    requires 3 * count <= |data|
  {
    && |output| == |data|
    && (forall k :: 0 <= k < count ==> output[3 * k..3 * k + 3] == Encode24(Scaled(gain, Decode24(data, 3 * k))))
    && (forall i :: 3 * count <= i < |data| ==> output[i] == 0)
  }

  lemma WriteOne(before: Bytes, after: Bytes, data: Bytes, gain: Gain, k: nat)
    requires 3 * k + 3 <= |data| && Written(before, data, gain, k)
    requires after == before[..3 * k] + Encode24(Scaled(gain, Decode24(data, 3 * k))) + before[3 * k + 3..]
    ensures Written(after, data, gain, k + 1)
  {
    hide Encode24, Decode24, Scaled;
    forall j | 0 <= j < k
      ensures after[3 * j..3 * j + 3] == before[3 * j..3 * j + 3]
    {
    }
  }

  method PutSample(buffer: array<Uint8>, at: nat, bytes: Bytes)
    requires |bytes| == 3 && at + 3 <= buffer.Length
    modifies buffer
    ensures buffer[..] == old(buffer[..])[..at] + bytes + old(buffer[..])[at + 3..]
  {
    buffer[at] := bytes[0];
    buffer[at + 1] := bytes[1];
    buffer[at + 2] := bytes[2];
  }

  lemma ReencodeSample(data: Bytes, at: nat)
    requires at + 3 <= |data|
    ensures Encode24(Decode24(data, at)) == data[at..at + 3]
  {
    var a, b, c := data[at] as int, data[at + 1] as int, data[at + 2] as int;
    var v := a + 256 * b + 65536 * c;
    assert Decode24(data, at) % 0x100_0000 == v;
    assert v % 256 == a && v / 256 == b + 256 * c && (b + 256 * c) % 256 == b && v / 65536 == c;
  }

  /** Of whole samples, the attenuated data is the attenuated samples. */
  method AttenuatedPcm(data: Bytes, gain: Gain, ghost samples: seq<Sample>) returns (output: Bytes)
    requires data == Pcm(samples)
    ensures output == Pcm(Attenuate(gain, samples))
  {
    hide Pcm, Encode24, Decode24, Scaled;
    output := Attenuated(data, gain);
    var quieter := Attenuate(gain, samples);
    forall i | 0 <= i < |data|
      ensures output[i] == Pcm(quieter)[i]
    {
      var k := i / 3;
      PcmAt(samples, k);
      PcmAt(quieter, k);
      assert output[3 * k..3 * k + 3][i - 3 * k] == Pcm(quieter)[3 * k..3 * k + 3][i - 3 * k];
    }
  }

  // Reading a looped output.

  /** The frames of an output that repeats the first `period` samples of a card. */
  function Looped(card: seq<Sample>, period: nat, first: nat, count: nat): (frames: seq<Sample>)
    requires count > 0 ==> 0 < period <= |card|
    ensures |frames| == count
  {
    seq(count, i requires 0 <= i < count => card[(first + i) % period])
  }

  /** A run of card frames. */
  datatype Run = Run(at: nat, frames: nat)

  /** The card frames of several runs, one after the other. */
  function Covered(card: seq<Sample>, runs: seq<Run>): seq<Sample>
    requires forall i :: 0 <= i < |runs| ==> runs[i].at + runs[i].frames <= |card|
  {
    if runs == [] then []
    else Covered(card, runs[..|runs| - 1]) + card[runs[|runs| - 1].at..runs[|runs| - 1].at + runs[|runs| - 1].frames]
  }

  ghost predicate Within(runs: seq<Run>, period: nat) {
    forall i :: 0 <= i < |runs| ==> 0 < runs[i].frames <= COPY_FRAMES && runs[i].at + runs[i].frames <= period
  }

  lemma LoopedStep(card: seq<Sample>, period: nat, first: nat, done: nat, run: nat)
    requires 0 < period <= |card| && (first + done) % period + run <= period
    ensures Looped(card, period, first, done + run)
         == Looped(card, period, first, done) + card[(first + done) % period..(first + done) % period + run]
  {
    var at := (first + done) % period;
    var longer := Looped(card, period, first, done + run);
    forall i | done <= i < done + run
      ensures longer[i] == card[at..at + run][i - done]
    {
      InsidePass(first + done, i - done, period);
    }
  }

  lemma InsidePass(start: nat, i: nat, period: nat)
    requires 0 < period && start % period + i < period
    ensures (start + i) % period == start % period + i
  {
    var pass := start / period;
    assert start == pass * period + start % period;
    assert start + i == pass * period + (start % period + i);
    SmallRest(pass, start % period + i, period);
  }

  lemma SmallRest(pass: nat, rest: nat, period: nat)
    requires rest < period
    ensures (pass * period + rest) % period == rest
  {
    var x := pass * period + rest;
    assert x == x / period * period + x % period;
    NearZero(x / period - pass, period, rest - x % period);
  }

  lemma NearZero(passes: int, period: int, apart: int)
    requires passes * period == apart && -period < apart < period
    ensures apart == 0
  {
  }

  /** EngineOutput.runs: split at each pass's end and at the copy size. */
  method Runs(ghost card: seq<Sample>, period: nat, first: nat, count: nat) returns (runs: seq<Run>)
    requires count > 0 ==> 0 < period <= |card|
    ensures Within(runs, period)
    ensures period <= |card| ==> Covered(card, runs) == Looped(card, period, first, count)
  {
    hide Looped;
    runs := [];
    var done := 0;
    NoneCovered(card, period, first);
    while done < count
      invariant done <= count && Within(runs, period)
      invariant period <= |card| ==> Covered(card, runs) == Looped(card, period, first, done)
    {
      var at := (first + done) % period;
      var run := Min(Min(count - done, period - at), COPY_FRAMES);
      LoopedStep(card, period, first, done, run);
      CoveredOne(card, runs, Run(at, run));
      runs := runs + [Run(at, run)];
      done := done + run;
    }
  }

  lemma NoneCovered(card: seq<Sample>, period: nat, first: nat)
    ensures Looped(card, period, first, 0) == [] && Covered(card, []) == []
  {
  }

  lemma CoveredOne(card: seq<Sample>, runs: seq<Run>, run: Run)
    requires forall i :: 0 <= i < |runs| ==> runs[i].at + runs[i].frames <= |card|
    requires run.at + run.frames <= |card|
    ensures Covered(card, runs + [run]) == Covered(card, runs) + card[run.at..run.at + run.frames]
  {
    LastOff(runs, run);
  }

  lemma JoinedOne(chunks: seq<Bytes>, chunk: Bytes)
    ensures Joined(chunks + [chunk]) == Joined(chunks) + chunk
  {
    assert (chunks + [chunk])[..|chunks|] == chunks;
  }

  /** The reader of an engine output: a looped card is held in memory, attenuated once; anything else is read as needed. */
  class OutputReader {
    const data: Bytes
    const period: nat
    const gain: Gain
    const held: Option<Bytes>
    ghost const card: seq<Sample>

    ghost predicate Valid() {
      && data == Pcm(card) && period <= |card|
      && (held.Some? ==> held.value == Pcm(Attenuate(gain, card[..period])))
    }

    constructor (data: Bytes, period: nat, frames: nat, gain: Gain, ghost card: seq<Sample>)
      requires data == Pcm(card) && period <= |card|
      ensures Valid() && this.period == period && this.gain == gain && this.card == card
    {
      hide Pcm;
      this.data, this.period, this.gain, this.card := data, period, gain, card;
      if period < frames {
        PcmSlice(card, 0, period);
        var once := AttenuatedPcm(data[..3 * period], gain, card[..period]);
        held := Some(once);
      } else {
        held := None;
      }
    }

    /** The attenuated bytes of `count` frames of the output from `first` on. */
    method Read(first: nat, count: nat) returns (chunks: seq<Bytes>)
      requires Valid() && (count > 0 ==> period > 0)
      ensures Joined(chunks) == Pcm(Attenuate(gain, Looped(card, period, first, count)))
    {
      hide Pcm, Looped, Attenuate, Quieter, Covered;
      var runs := Runs(card, period, first, count);
      chunks := [];
      NothingRead(gain, card);
      assert runs[..0] == [];
      for k := 0 to |runs|
        invariant Joined(chunks) == Pcm(Attenuate(gain, Covered(card, runs[..k])))
      {
        var run := runs[k];
        var piece: Bytes;
        if held.Some? {
          piece := held.value[3 * run.at..3 * (run.at + run.frames)];
          HeldSlice(gain, card, period, run);
        } else {
          PcmSlice(card, run.at, run.at + run.frames);
          piece := AttenuatedPcm(data[3 * run.at..3 * (run.at + run.frames)], gain, card[run.at..run.at + run.frames]);
        }
        assert runs[..k + 1] == runs[..k] + [run];
        CoveredOne(card, runs[..k], run);
        AttenuateParts(gain, Covered(card, runs[..k]), card[run.at..run.at + run.frames]);
        JoinedOne(chunks, piece);
        chunks := chunks + [piece];
      }
      assert runs[..|runs|] == runs;
    }
  }

  lemma NothingRead(gain: Gain, card: seq<Sample>)
    ensures Joined([]) == Pcm(Attenuate(gain, Covered(card, [])))
  {
  }

  /** Attenuating once and slicing is slicing and then attenuating. */
  lemma HeldSlice(gain: Gain, card: seq<Sample>, period: nat, run: Run)
    requires period <= |card| && run.at + run.frames <= period
    ensures Pcm(Attenuate(gain, card[..period]))[3 * run.at..3 * (run.at + run.frames)]
         == Pcm(Attenuate(gain, card[run.at..run.at + run.frames]))
  {
    hide Pcm, Quieter;
    var whole := Attenuate(gain, card[..period]);
    PcmSlice(whole, run.at, run.at + run.frames);
    assert whole[run.at..run.at + run.frames] == Attenuate(gain, card[run.at..run.at + run.frames]);
  }

  lemma AttenuateParts(gain: Gain, a: seq<Sample>, b: seq<Sample>)
    ensures Attenuate(gain, a + b) == Attenuate(gain, a) + Attenuate(gain, b)
    ensures Pcm(Attenuate(gain, a + b)) == Pcm(Attenuate(gain, a)) + Pcm(Attenuate(gain, b))
  {
    hide Pcm, Quieter;
    assert Attenuate(gain, a + b) == Attenuate(gain, a) + Attenuate(gain, b);
    PcmAppends(Attenuate(gain, a), Attenuate(gain, b));
  }

  // The item's stream.

  /** The samples of named frames: exact zeros, and the looped card's frames. */
  function NamedSamples(names: seq<Option<nat>>, card: seq<Sample>, period: nat): (samples: seq<Sample>)
    requires 0 < period <= |card|
    ensures |samples| == |names|
  {
    seq(|names|, i requires 0 <= i < |names| => if names[i].Some? then card[names[i].value % period] else 0)
  }

  lemma NamedParts(a: seq<Option<nat>>, b: seq<Option<nat>>, card: seq<Sample>, period: nat)
    requires 0 < period <= |card|
    ensures NamedSamples(a + b, card, period) == NamedSamples(a, card, period) + NamedSamples(b, card, period)
  {
  }

  /** The first frames of a run of output frames, and of a run of zeros. */
  lemma SegmentSamples(segment: Segment, frames: nat, card: seq<Sample>, period: nat)
    requires 0 < period <= |card| && frames <= segment.frames
    ensures segment.cardFrame.Some? ==>
              NamedSamples(Named(segment)[..frames], card, period) == Looped(card, period, segment.cardFrame.value, frames)
    ensures segment.cardFrame.None? ==> NamedSamples(Named(segment)[..frames], card, period) == Zeros(frames)
  {
  }

  function Zeros(count: nat): (samples: seq<Sample>)
    ensures |samples| == count
  {
    seq(count, _ => 0)
  }

  lemma ZeroBytes(count: nat)
    ensures Pcm(Zeros(count)) == seq(3 * count, _ => 0)
    decreases count
  {
    if count > 0 {
      ZeroBytes(count - 1);
      assert Zeros(count)[..count - 1] == Zeros(count - 1);
      assert Encode24(0) == [0, 0, 0];
    }
  }

  lemma ZerosAttenuated(gain: Gain, count: nat)
    ensures Attenuate(gain, Zeros(count)) == Zeros(count)
  {
    hide Scaled;
    ScaledKeeps(gain, 0);
  }

  /** Zeros of a ZERO, in pieces of at most the copy size. */
  method ZeroChunks(frames: nat) returns (chunks: seq<Bytes>)
    ensures Joined(chunks) == Pcm(Zeros(frames))
  {
    hide Pcm;
    chunks := [];
    var done := 0;
    ZeroBytes(frames);
    while done < frames
      invariant done <= frames && Joined(chunks) == seq(3 * done, _ => 0)
    {
      var count := Min(COPY_FRAMES, frames - done);
      var piece: Bytes := seq(3 * count, _ => 0);
      JoinedOne(chunks, piece);
      chunks := chunks + [piece];
      done := done + count;
    }
  }

  /** The first `sent` frames of the named stream, as the item sends them. */
  ghost predicate SentSoFar(chunks: seq<Bytes>, names: seq<Option<nat>>, gain: Gain, card: seq<Sample>, period: nat)
    requires 0 < period <= |card|
  {
    Joined(chunks) == Pcm(Attenuate(gain, NamedSamples(names, card, period)))
  }

  lemma SendSegment(chunks: seq<Bytes>, names: seq<Option<nat>>, gain: Gain, card: seq<Sample>, period: nat,
                    segment: Segment, frames: nat, pieces: seq<Bytes>)
    requires 0 < period <= |card| && frames <= segment.frames
    requires SentSoFar(chunks, names, gain, card, period)
    requires segment.cardFrame.Some? ==>
               Joined(pieces) == Pcm(Attenuate(gain, Looped(card, period, segment.cardFrame.value, frames)))
    requires segment.cardFrame.None? ==> Joined(pieces) == Pcm(Zeros(frames))
    ensures SentSoFar(chunks + pieces, names + Named(segment)[..frames], gain, card, period)
  {
    hide Pcm, Attenuate, Looped, NamedSamples, Joined;
    SegmentSamples(segment, frames, card, period);
    ZerosAttenuated(gain, frames);
    var more := Named(segment)[..frames];
    NamedParts(names, more, card, period);
    AttenuateParts(gain, NamedSamples(names, card, period), NamedSamples(more, card, period));
    JoinedParts(chunks, pieces);
  }

  lemma ExpandOne(segments: seq<Segment>, k: nat)
    requires k < |segments|
    ensures Expand(segments[..k + 1]) == Expand(segments[..k]) + Named(segments[k])
    ensures |Expand(segments[..k + 1])| == |Expand(segments[..k])| + segments[k].frames
  {
    assert segments[..k + 1][..k] == segments[..k];
  }

  lemma {:induction false} ExpandGrows(segments: seq<Segment>, k: nat)
    requires k <= |segments|
    ensures Expand(segments[..k]) <= Expand(segments)
    decreases |segments| - k
  {
    hide Named;
    if k == |segments| {
      assert segments[..k] == segments;
    } else {
      ExpandOne(segments, k);
      ExpandGrows(segments, k + 1);
    }
  }

  /** What is left to send once whole segments were sent. */
  lemma SentPrefix(segments: seq<Segment>, k: nat, sent: nat, frames: nat)
    requires k < |segments| && |Expand(segments[..k])| <= sent <= |Expand(segments)|
    requires frames == Min(segments[k].frames, sent - |Expand(segments[..k])|)
    ensures Expand(segments[..k]) + Named(segments[k])[..frames] == Expand(segments)[..|Expand(segments[..k])| + frames]
  {
    hide Expand;
    ExpandOne(segments, k);
    ExpandGrows(segments, k + 1);
  }

  /** stream_chunks: the first `sent` frames of a cut stream of a looped card, attenuated. */
  method StreamChunks(reader: OutputReader, segments: seq<Segment>, sent: nat) returns (chunks: seq<Bytes>)
    requires reader.Valid() && reader.period > 0 && sent <= |Expand(segments)|
    ensures SentSoFar(chunks, Expand(segments)[..sent], reader.gain, reader.card, reader.period)
  {
    hide SentSoFar, Expand, Named;
    chunks := [];
    var remaining: nat := sent;
    NothingSent(segments, reader.gain, reader.card, reader.period);
    for k := 0 to |segments|
      invariant remaining + |Expand(segments[..k])| == sent
      invariant SentSoFar(chunks, Expand(segments[..k]), reader.gain, reader.card, reader.period)
    {
      var segment := segments[k];
      var frames := Min(segment.frames, remaining);
      remaining := remaining - frames;
      var pieces: seq<Bytes>;
      if segment.cardFrame.None? {
        pieces := ZeroChunks(frames);
      } else {
        pieces := reader.Read(segment.cardFrame.value, frames);
      }
      SendSegment(chunks, Expand(segments[..k]), reader.gain, reader.card, reader.period, segment, frames, pieces);
      chunks := chunks + pieces;
      SentPrefix(segments, k, sent, frames);
      ExpandOne(segments, k);
      if remaining == 0 {
        return;
      }
      WholeSegment(segment, frames);
    }
    assert segments[..|segments|] == segments;
    assert Expand(segments)[..sent] == Expand(segments);
  }

  lemma WholeSegment(segment: Segment, frames: nat)
    requires frames == segment.frames
    ensures Named(segment)[..frames] == Named(segment)
  {
  }

  lemma NothingSent(segments: seq<Segment>, gain: Gain, card: seq<Sample>, period: nat)
    requires 0 < period <= |card|
    ensures Expand(segments[..0]) == [] && SentSoFar([], [], gain, card, period)
  {
  }

  // Cutting and attenuating in either order.

  /** The samples of a stream of slots, typed as samples. */
  function Stream(slots: seq<Slot>, output: seq<Sample>): (samples: seq<Sample>)
    requires forall i :: 0 <= i < |slots| && slots[i].Frame? ==> slots[i].index < |output|
    ensures |samples| == |slots| && samples == Samples(slots, output)
  {
    Samples(slots, output)
  }

  /** Attenuating a cut stream is cutting the attenuated output, for every prefix of it. */
  lemma AttenuationCommutesWithCuts(gain: Gain, slots: seq<Slot>, output: seq<Sample>, sent: nat)
    requires sent <= |slots|
    requires forall i :: 0 <= i < |slots| && slots[i].Frame? ==> slots[i].index < |output|
    ensures Attenuate(gain, Stream(slots[..sent], output)) == Stream(slots[..sent], Attenuate(gain, output))
    ensures Stream(slots[..sent], Attenuate(gain, output)) == Stream(slots, Attenuate(gain, output))[..sent]
  {
    hide Scaled;
    ScaledKeeps(gain, 0);
  }

  lemma NamesAreTheStream(slots: seq<Slot>, card: seq<Sample>, period: nat, frames: nat, sent: nat)
    requires 0 < period <= |card| && sent <= |slots|
    requires forall i :: 0 <= i < |slots| && slots[i].Frame? ==> slots[i].index < frames
    ensures NamedSamples(Erase(slots)[..sent], card, period) == Stream(slots[..sent], Looped(card, period, 0, frames))
  {
  }

  lemma {:induction false} StreamIndices(es: seq<Entry>, frames: nat)
    ensures forall i :: 0 <= i < |StreamTo(es, frames)| && StreamTo(es, frames)[i].Frame? ==> StreamTo(es, frames)[i].index < frames
    decreases frames
  {
    hide ZerosAt, Dropped;
    if frames > 0 {
      StreamIndices(es, frames - 1);
    }
  }

  /** The check value of a stream's chunks, taken one after the other as they are read. */
  method ChunksCrc(chunks: seq<Bytes>) returns (crc: bv32)
    ensures crc == C.Checksum(C.CRC32_POLYNOMIAL, C.Raw(Joined(chunks)))
  {
    hide C.Take, C.Raw, Joined;
    var running := new C.Crc32();
    NoChunks(chunks);
    for k := 0 to |chunks|
      invariant running.Valid() && running.state == C.Take(C.CRC32_POLYNOMIAL, C.INITIAL, C.Raw(Joined(chunks[..k])))
    {
      running.Update(C.Raw(chunks[k]));
      OneMoreChunk(chunks, k);
      C.RawJoins(Joined(chunks[..k]), chunks[k]);
      C.TakeInParts(C.CRC32_POLYNOMIAL, C.INITIAL, C.Raw(Joined(chunks[..k])), C.Raw(chunks[k]));
    }
    assert chunks[..|chunks|] == chunks;
    crc := running.Value();
  }

  lemma NoChunks(chunks: seq<Bytes>)
    ensures C.Take(C.CRC32_POLYNOMIAL, C.INITIAL, C.Raw(Joined(chunks[..0]))) == C.INITIAL
  {
  }

  lemma OneMoreChunk(chunks: seq<Bytes>, k: nat)
    requires k < |chunks|
    ensures Joined(chunks[..k + 1]) == Joined(chunks[..k]) + chunks[k]
  {
    assert chunks[..k + 1] == chunks[..k] + [chunks[k]];
    JoinedOne(chunks[..k], chunks[k]);
  }

  /** What is predicted of an item's stream: its bytes, their CRC-32 and the cuts that took effect. */
  datatype Prediction =
    | CutRefused(verdict: Verdict)
    | SentOutOfRange
    | Predicted(chunks: seq<Bytes>, crc: bv32, tally: Counts, frames: nat)

  /** The bytes an item sends of its whole stream: the cut of the attenuated looped card. */
  function StreamBytes(es: seq<Entry>, card: seq<Sample>, period: nat, frames: nat, gain: Gain, sent: nat): Bytes
    requires 0 < period <= |card| && sent <= |StreamTo(es, frames)|
  {
    StreamIndices(es, frames);
    Pcm(Stream(StreamTo(es, frames), Attenuate(gain, Looped(card, period, 0, frames)))[..sent])
  }

  /**
   predict_stream: for every schedule, loop, gain, prefix and way the data is read, the
   bytes predicted are the PCM24 of the cut of the attenuated looped card, with their
   CRC-32 and the tally of that prefix; no prefix given is the whole stream.
   */
  method PredictStream(es: seq<Entry>, data: Bytes, period: nat, frames: nat, gain: Gain, sent: Option<int>,
                       ghost card: seq<Sample>)
    returns (r: Prediction)
    requires data == Pcm(card) && 0 < period <= |card|
    ensures r.CutRefused? <==> !Valid(es)
    ensures r.CutRefused? ==> r.verdict == Judge(es)
    ensures r.SentOutOfRange? <==> Valid(es) && sent.Some? && !(0 <= sent.value <= |StreamTo(es, frames)|)
    ensures r.Predicted? ==>
              var n := if sent.Some? then sent.value else |StreamTo(es, frames)|;
              && r.frames == |StreamTo(es, frames)| && 0 <= n <= r.frames
              && Joined(r.chunks) == StreamBytes(es, card, period, frames, gain, n)
              && r.crc == C.Checksum(C.CRC32_POLYNOMIAL, C.Raw(StreamBytes(es, card, period, frames, gain, n)))
              && Valid(es) && r.tally == TallyOf(FinalLog(es, frames), n)
  {
    hide StreamTo, Expand, Erase, Named, Pcm, Looped, Attenuate, Stream, NamedSamples, WindowsBounded, AllClear, Joined, Valid;
    hide TallyTo, FinalLog, C.Raw, C.Take;
    StreamIndices(es, frames);
    ghost var slots := StreamTo(es, frames);
    var stream := Apply(es, frames);
    if stream.Refused? {
      return CutRefused(stream.verdict);
    }
    EraseLength(slots);
    EndOfStream(es, frames);
    var n: int := if sent.Some? then sent.value else stream.frames;
    var tally := HostTally(stream.applied, stream.rejected, stream.frames, n);
    if tally.None? {
      return SentOutOfRange;
    }
    var reader := new OutputReader(data, period, frames, gain, card);
    var chunks := StreamChunks(reader, stream.segments, n);
    NamesAreTheStream(slots, card, period, frames, n);
    AttenuationCommutesWithCuts(gain, slots, Looped(card, period, 0, frames), n);
    var crc := ChunksCrc(chunks);
    r := Predicted(chunks, crc, tally.value, stream.frames);
  }

  lemma EndOfStream(es: seq<Entry>, frames: nat)
    requires Valid(es)
    ensures FinalLog(es, frames).end == Some(|StreamTo(es, frames)|)
  {
  }

  lemma EraseLength(slots: seq<Slot>)
    ensures |Erase(slots)| == |slots|
  {
  }
}
