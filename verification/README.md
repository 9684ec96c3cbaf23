# Verified model of the waveform generator's protocols

A Dafny model of the parts of the waveform generator that two programs must agree on or
that must hold over every run, with the proofs that they do. The board's C++ (`common/`,
`rt1170/`) and the host's Python (`host/`) are modelled each in its own form: the board's
objects as classes whose methods change their fields, its loops as loops, the host's
expressions as functions. Where the two sides say the same thing twice, both are proved
against one specification, so that their agreement is a theorem.

- **CUT injector** (`CutRules`, `CutStream`, `CutStage`, `CutTally`, `CutHost`, `CutGenerate`,
  `CutText`). `StreamTo` says frame by frame what a schedule makes of an engine output. The
  board's streaming stage, fed in any blocks and drained in any steps, and the host's one-shot
  form both produce it; the tally of every prefix is the direct count of that prefix.
- **Finite playback** (`FinitePlayback`, `PlaybackRuns`). The coordinator of five watermarks
  with one outstanding ticket: bounds over every sequence of calls, stale tickets, the sticky
  first failure, freedom from deadlock, completion, which action is due, and the least
  sufficient lead.
- **The growing prepared file** (`PreparedFile`, `Artifact`, `Recording`, `Riff`, `RiffPcm`). A file of
  bytes with one cursor, shared by the WAV writer and by playback reads while every operation
  may fail or come up short, and the bounded RIFF reader against the chunk layout of
  "Multimedia Programming Interface and Data Specifications 1.0", with which files it takes.
- **Result delivery** (`ResultRing`, `DrainFile`, `ResultDrain`, `PlaylistDrain`, `DrainRuns`).
  The board's ring and the host's drain over a link that loses requests or replies, comes back,
  and may hide a reset of the board: what the file holds, exactly when a reset is reported,
  and that an undisturbed drain completes.
- **Codecs and arithmetic** (`Crc`, `Cobs`, `Dd008`, `FrameStream`, `Attenuation`,
  `PredictStream`). CRC-32 (section 8 of RFC 1952) and CRC-32C (section 12.1 of RFC 3720) as
  one reflected division, byte stuffing, the frame decoder on any chunking, half-even
  attenuation, and the host's prediction of a cut, looped, attenuated stream.
- **Playlists** (`Texts`, `Seconds`, `PlaylistLine`, `PlaylistText`, `PlaylistFile`,
  `PlaylistRules`, `ItemStarts`). Two independent parsers with the same items and the same first
  refusal, which files they take and what each line is refused for, a printer they undo, and
  where each item of a run starts.
- **Preparation and timing** (`PrepareJob`, `PrepareSteps`, `PrepareRuns`, `PrepareAccounts`,
  `OperationTiming`). The job that renders, reads back and publishes a WAV and its manifest one
  bounded step at a time, over any owner's calls and any file faults, what each step reports and
  what a manifest tells, and the timing accumulator with the host's consistency checks.

## How to read it

Each file holds one module (`OperationTiming.dfy` holds two), named in its first comment with
the source it models. A class method states its new state by a function of the old one, or by
a value it shares with a specification; what the source promises is then proved of that
function. Runs are functions of their inputs: `PlaybackRuns.Trace` of the calls,
`Recording.TapeOf` of the operations, `DrainRuns.Drained` of the script, `PrepareRuns.RunOf` of
the owner's calls. The methods that drive the objects through a run (`Replay`, `PlayOut`,
`Record`, `DrainPlaylist`, `Run`) end where those functions say, and the theorems about whole
runs are lemmas on them; `Play`, `BothForms`, `Receive`, `ReadFile` and `Observe` state theirs
directly. What the outside world answers (a short write, a failed rename, a lost reply, a
clock) is always a parameter.

Widths are explicit: `Uint32` and `Uint64` are ranges that every assignment is checked
against, and a wrap is written as `%`. Histories that only the statements read are ghost
fields: the blocks a board made and had freed (`ResultDrain.Board`), where a drain began
(`PlaylistDrains.PlaylistDrain`), the files a job found and what stood behind each manifest
(`PrepareJobs.PrepareJob`).

## Where the code differs from what is said of it

- The frame decoder keeps a packet that failed to decode, so it does not always recover at the
  next zero. `FrameStream.RecoversExactly` says when it does: the frames that follow are found
  if and only if what was collected is dropped as overlong, or empty.
  `FrameStream.FaultSwallowsTheNextFrame` is a packet with which it does not.
- The WAV writer accepts a RIFF size up to 2^32 - 1, and so whole files up to eight bytes
  longer than the reader opens; `Riff.ArtifactOpens` gives the exact condition, and
  `Riff.LongestArtifactDoesNotOpen` a file.
- A board that restarts is not always noticed by its tick. `ResultDrain.RestartIsSeen` says
  exactly when it is: if the tick went back, or if the ticks lost and the time down pass the
  margin together. `ResultDrain.RestartMissed` is a restart it misses, which is why two more
  rules stand beside it.
- A close that fails after both files are published ends the job as failed although they are
  complete, and a rename that is refused may still have moved the manifest.
  `PrepareRuns.PublicationEnds` says exactly when the manifest is there and when the job is
  complete; `PrepareRuns.PublishedYetFailed` is a whole run that publishes and fails.
- The ring's block numbers are 32 bits wide and wrap, and an acknowledgement compares them as
  they are: `ResultRings.AcknowledgeableIffUnwrapped` says that once the next number has
  wrapped past the blocks held, none of them can be acknowledged any more.

## Model

| member | source | states |
|---|---|---|
| `CutRules.AcceptedIsValid` | common/cut_schedule.hpp:225-251 | A list is accepted if and only if it has at most sixteen entries, every length is 1 to 4800, every pair of entries (not only neighbours) is clear of one another, and no contiguous window of engine output drops more than 14400 frames beyond those it keeps |
| `CutRules.NeighboursSuffice` | common/cut_schedule.hpp:141-157 | Comparing neighbours decides the order of all pairs, in both directions |
| `CutRules.LevelBoundsWindows` | common/cut_schedule.hpp:159-186 | The running balance at a frame is at least the excess of every window that ends there |
| `CutRules.LevelIsAWindow` | common/cut_schedule.hpp:159-186 | The running balance at a frame is the excess of some window that ends there |
| `CutRules.WindowsBoundedByLevel` | host/cut_schedule.py:165-175 | No window passes the bound exactly when the running balance never does |
| `CutRules.CheckDropBalance` | common/cut_schedule.hpp:162-186 | One pass over the DROPs answers the question about all windows of the output, exactly |
| `CutRules.CutList.Push` | common/cut_schedule.hpp:101-110 | The seventeenth entry is refused and changes nothing |
| `CutRules.CutList.Validate` | common/cut_schedule.hpp:225-251 | The board's three checks in their order give the declarative verdict |
| `CutRules.BoardJudges` | common/cut_schedule.hpp:96-251 | For every list the board accepts exactly the valid ones and otherwise names the rule it breaks first |
| `CutRules.HostDropBalance` | host/cut_schedule.py:165-175 | The host's number is the highest balance reached at any frame, and it is within the limit exactly when every window is |
| `CutRules.HostJudges` | host/cut_schedule.py:178-202 | The host gives the same verdict as the board on every list, and names the same rule |
| `CutRules.VerdictNamesTheRule` | host/cut_schedule.py:178-202 | The verdict names the count, else a length, else the first neighbour out of place (unsorted if it starts before the one ahead of it, overlapping if it starts inside it or is a second ZERO there), else the drop balance |
| `CutStream.SentIsAPrefix` | common/cut_schedule.hpp:470-654 | What a walk through the output has sent at any frame is a prefix of the whole cut stream, whatever follows |
| `CutStream.CutsAreStable` | common/cut_schedule.hpp:675-702 | The cuts logged so far do not depend on where the output will end |
| `CutStream.LaterCutsLieAhead` | common/cut_schedule.hpp:708-730 | A cut not yet logged lies at or past everything already sent |
| `CutTally.Conservation` | host/cut_schedule.py:309-336 | At every output frame the stream's length plus the frames dropped is the frames taken plus the zeros inserted |
| `CutTally.TallyIsTheDirectCount` | common/cut_schedule.hpp:708-761 | For every valid schedule and every prefix sent, the tally's zeros and output frames are what counting the prefix slot by slot gives; over the whole stream the output frames are the engine's length and every entry is applied or rejected |
| `CutTally.TallyNamesTheEntries` | host/cut_schedule.py:309-336 | For every prefix sent: the entries counted as applied are the first ones of the schedule, exactly those that begin in the output and whose place in the stream went out or that the whole stream ended with; the first position reported is the number of stream slots before the first entry's place; those rejected are exactly the ones past the output's end, once the whole stream went out |
| `CutTally.CutsAreInPlace` | host/cut_schedule.py:279-306 | Each logged cut stands at its entry's place, counted in the stream itself: a ZERO before the slots of its frame, a DROP where the frames it covers would end |
| `CutTally.CountsTheFirst` | common/cut_schedule.hpp:739-753 | If only a first part of the cuts took effect the tally counts just those, and the first position is the first cut's |
| `CutTally.MidRunTallyIsFinal` | common/cut_schedule.hpp:708-761 | A tally read while the play runs, of frames already queued and short of the end, is already the final log's |
| `CutTally.FinalLogIsFinal` | host/cut_schedule.py:279-306 | The final log holds exactly the entries that begin inside the output, clipped where it ends; the rest are counted as rejected |
| `CutTally.CutLog.Record` | common/cut_schedule.hpp:684-693 | A cut is kept unless sixteen are there, and then nothing changes |
| `CutTally.CutLog.Tally` | common/cut_schedule.hpp:712-761 | The board's tally in wrapping 32-bit counters is the unbounded tally of its log, wrapped, which TallyIsTheDirectCount and TallyNamesTheEntries say what it counts |
| `CutTally.TallyFits` | common/cut_schedule.hpp:712-761 | While output and stream fit 32 bits no counter of that tally wraps, for any prefix sent |
| `CutTally.HostTally` | host/cut_schedule.py:309-336 | The host's tally is the unbounded tally of its log, refused exactly for a prefix longer than the stream |
| `CutStages.CutStage.Latch` | common/cut_schedule.hpp:474-480 | A new play starts with no output and an empty stream |
| `CutStages.CutStage.Next` | common/cut_schedule.hpp:520-552 | A step is bounded by its limit and by the frames on hand, and shorter only if it ends the zeros, reaches an entry or ends a DROP; it asks for a block or ends exactly when there is nothing to send, insert or discard |
| `CutStages.CutStage.BlockPosition` | common/cut_schedule.hpp:582 | The place in the last block is inside it and is the output frame the stage stands at |
| `CutStages.CutStage.Offer` | common/cut_schedule.hpp:484-497 | A block is taken unless the output would pass 2^32 - 1 frames, and offering changes neither stream nor log |
| `CutStages.CutStage.Finish` | common/cut_schedule.hpp:501-517 | Ending the output logs the DROP it clips and counts exactly the entries that never began |
| `CutStages.CutStage.Take` | common/cut_schedule.hpp:555-575 | Each step adds its own frames or zeros to the stream and nothing else, logs at most one cut, at the place the owner reports, and the log never passes sixteen |
| `CutStages.CutStage.TakeDiscard` | common/cut_schedule.hpp:611-624 | A discard moves through the output without adding to the stream and logs the DROP once its last frame goes |
| `CutStages.CutStage.TakeZeros` | common/cut_schedule.hpp:627-645 | A zeros step adds its zeros without moving through the output and logs the ZERO when it begins |
| `CutStages.CarryOut` | common/cut_schedule.hpp:470-654 | The frames a send step reads at the stage's place in the last block are the frames the reference stream has there |
| `CutStages.Round` | common/cut_schedule.hpp:470-654 | Every round of a play makes progress: a block, a frame, an entry or a zero |
| `CutStages.Play` | common/cut_schedule.hpp:470-654 | For every valid schedule, split of the output into blocks and choice of step limits, the play ends, sends the reference stream and ends with the reference log; every reading of the log on the way is part of it |
| `CutHost.Apply` | host/cut_schedule.py:279-306 | The one-shot form is refused exactly for an invalid list, and otherwise names the reference stream and its log |
| `CutHost.BothForms` | host/cut_schedule.py:279-306 | The board's streaming play and the host's one-shot form agree on every sample, every logged cut, the rejected count and the stream's length, and for every prefix sent both tallies are the direct count of that prefix and of the entries that took effect in it, first position included |
| `CutGenerate.Generate` | host/cut_schedule.py:213-251 | For any draws a generated list keeps every rule but possibly the drop balance, the only rule it can still be refused for, and the card is too short exactly when covers and spacings need more than it has; the sorted gaps place it: the first entry after the first gap, each later one past the one before, the spacing and the gap's growth, and what the last gap leaves of the slack stays behind the last |
| `CutGenerate.Place` | host/cut_schedule.py:243-251 | The walk along the card puts each entry after its gap, what the earlier ones cover and their spacings |
| `CutText.EntryRoundTrip` | host/cut_schedule.py:131-153 | A text parses as an entry if and only if it is that entry's spelling and both numbers fit 32 bits |
| `CutText.ListRoundTrip` | host/cut_schedule.py:141-153 | A text parses as a list if and only if it is the spelling of one to sixteen entries that fit |
| `CutText.CommandRoundTrip` | host/cut_schedule.py:156-210 | A CUT command gives a schedule back if and only if it is the command rendered for it |
| `CutText.TheTwoWords` | host/cut_schedule.py:131-153 | A text parses as a DROP, or as a ZERO, if and only if it is the two decimals followed by ":drop", or by ":zero" |
| `CutText.ReadEntry` | common/cut_schedule.hpp:321-342 | The board's entry parser, which looks for two colons, is the host's, which splits at all of them |
| `CutText.ReadEntries` | common/cut_schedule.hpp:346-373 | The board's list parser, which stops at the seventeenth entry, accepts what the host's accepts |
| `Texts.NumberRoundTrip` | host/cut_schedule.py:135-138 | A text is a 32-bit number's canonical decimal if and only if it parses to that number |
| `Texts.ParseUint32` | common/cut_schedule.hpp:273-303 | The digit loop that refuses as soon as 32 bits overflow accepts exactly the canonical decimals that fit |
| `FinitePlayback.LeadIsTheShortfall` | common/finite_playback.cpp:36-48 | The lead, computed in 64-bit words of which none overflows, is min(total, ceil(total * max(0, 48000 - rate) / 48000) + margin) |
| `FinitePlayback.LeadSuffices` | common/finite_playback.cpp:36-48 | With that lead and a producer at the rate, consumption never passes the committed mark |
| `FinitePlayback.LeadIsLeast` | common/finite_playback.cpp:36-48 | At zero margin a lead keeps every consumption covered if and only if it is at least this one |
| `FinitePlayback.ChoiceIsLive` | common/finite_playback.cpp:159-244 | No deadlock: what is chosen may begin; when ready nothing is chosen exactly when start would succeed; when running only while the queue holds frames |
| `FinitePlayback.ChoiceIsDue` | common/finite_playback.cpp:159-244 | What is chosen is what is due by the watermarks alone: before playback storing until the lead and the queue's fill are committed and then filling; while playing a read whenever a whole batch min(block, committed - read) fits the queue, else a barrier, a write, a production, and at the end finalization; and one frame more could not begin |
| `FinitePlayback.BeginsIffItKeepsBounds` | common/finite_playback.cpp:72-146 | Within the block a production or a read may begin exactly when the bounds hold once it is done, a write when besides nothing written waits to become visible, a barrier when something does |
| `FinitePlayback.AdvanceKeepsBounds` | common/finite_playback.cpp:246-328 | An action that may begin keeps consumed <= read <= committed <= written <= produced <= total, the block bounds and the queue bound |
| `FinitePlayback.AdvancesOneMark` | common/finite_playback.cpp:283-327 | An action done moves its own watermark by its frames and no other; finalization moves none and completes the run |
| `FinitePlayback.Scheduler.Configure` | common/finite_playback.cpp:52-70 | A run starts afresh only when none is active and the last was released; tokens go on |
| `FinitePlayback.Scheduler.BeginProduce` | common/finite_playback.cpp:72-92 | A ticket is issued exactly when the production may begin, none is outstanding and tokens remain; a refusal changes nothing |
| `FinitePlayback.Scheduler.BeginWrite` | common/finite_playback.cpp:94-107 | A ticket for a write is issued on the same terms |
| `FinitePlayback.Scheduler.BeginVisibilityBarrier` | common/finite_playback.cpp:109-124 | The same for a barrier, which always covers all that is written; its refusal for an oversized range is unreachable |
| `FinitePlayback.Scheduler.BeginRead` | common/finite_playback.cpp:126-146 | The same for a read, within the committed range and the queue's room |
| `FinitePlayback.Scheduler.BeginFinalize` | common/finite_playback.cpp:148-157 | The same for finalization, only with every watermark at the total |
| `FinitePlayback.Scheduler.NextAction` | common/finite_playback.cpp:159-244 | Begins the one action that is due, as large as the block, the total, the staging, the committed mark and the queue's room allow; a batch that fits the queue comes before all else while playing; or reports a ticket outstanding, no tokens left, or nothing due |
| `FinitePlayback.Scheduler.Complete` | common/finite_playback.cpp:246-328 | Only the outstanding ticket changes anything; its watermark moves by exactly its frames; the refusals for a cursor that moved under a ticket are unreachable |
| `FinitePlayback.Scheduler.Start` | common/finite_playback.cpp:330-347 | Succeeds exactly with the lead committed and the queue filled |
| `FinitePlayback.Scheduler.Consume` | common/finite_playback.cpp:349-363 | Takes frames that are there; asking for more ends the run as an underrun |
| `FinitePlayback.Scheduler.Fail` | common/finite_playback.cpp:365-383 | Ends the run with its first failure |
| `FinitePlayback.Scheduler.Cancel` | common/finite_playback.cpp:385-399 | Ends the run at once, or once the outstanding ticket is settled |
| `FinitePlayback.Scheduler.Release` | common/finite_playback.cpp:401-410 | Possible exactly for an ended run with no ticket |
| `PlaybackRuns.Perform` | common/finite_playback.cpp:52-484 | Every call on the object, with any arguments, leaves it as the call's function says |
| `PlaybackRuns.CalledIsSound` | common/finite_playback.cpp:52-484 | Every call, with any arguments, keeps the coordinator valid, touches no watermark backwards, reuses no token, keeps the first failure and leaves an ended and released run alone; a run completes only by settling its finalization |
| `PlaybackRuns.Replay` | common/finite_playback.cpp:52-484 | Any sequence of calls on a new coordinator passes through exactly the states of its trace |
| `PlaybackRuns.RunIsSound` | common/finite_playback.cpp:52-484 | Every step of every run does only that |
| `PlaybackRuns.RunKeepsBounds` | common/finite_playback.cpp:52-157 | Every state of every run keeps the watermark bounds; completed means every watermark at the total |
| `PlaybackRuns.TicketNeverReturns` | common/finite_playback.cpp:430-451 | A ticket no longer outstanding never is again, in this run or a later one |
| `PlaybackRuns.StaleTicketIsInert` | common/finite_playback.cpp:246-260 | A stale ticket from any earlier action or run changes nothing |
| `PlaybackRuns.FirstFailureSticks` | common/finite_playback.cpp:458-467 | The first failure is the one reported until the next configuration, and the run neither resumes nor completes |
| `PlaybackRuns.RunsToCompletion` | common/finite_playback.cpp:159-363 | Any active run, under any choice of legal moves, completes within the work it has left, as long as that many tokens are left |
| `PlaybackRuns.FreshWork` | common/finite_playback.cpp:52-70 | A run just configured has at most 10 * total + 4 moves of work |
| `PlaybackRuns.FirstRunCompletes` | common/finite_playback.cpp:159-363 | So a coordinator's first run completes, for any total whose work 64-bit tokens can number |
| `PlaybackRuns.PlayOut` | common/finite_playback.cpp:159-363 | Played out on the object, from whatever active state, a run completes within the work it has left; only a coordinator that has used its last token is left active |
| `PreparedFile.PreparedStream.Bind` | rt1170/prepared_stream.cpp:22-41 | Only an empty file with its cursor at the start and an aligned scratch is bound |
| `PreparedFile.PreparedStream.WriteExact` | rt1170/prepared_stream.cpp:43-102 | Whatever the file does, the committed payload keeps its bytes; a write lands whole at the writer's cursor or the stream fails for good |
| `PreparedFile.PreparedStream.Seek` | rt1170/prepared_stream.cpp:104-128 | The writer's cursor moves only within what is written, and a failed move latches |
| `PreparedFile.PreparedStream.CommitFrames` | rt1170/prepared_stream.cpp:130-167 | The committed payload only grows, over bytes already written |
| `PreparedFile.PreparedStream.ReadAt` | rt1170/prepared_stream.cpp:195-240 | Only a whole read gives bytes, and then exactly the file's |
| `PreparedFile.PreparedStream.ReadFrames` | rt1170/prepared_stream.cpp:169-246 | A read that succeeds gives exactly the committed frames and leaves file, cursor and stream as they were; any other gives nothing |
| `PreparedFile.FirstFaultIsNamed` | rt1170/prepared_stream.cpp:195-246 | A read goes well exactly if the move, the read and the move back do; else the first fault is named, and short means a read that reported no error and too few bytes |
| `PreparedFile.PreparedStream.ReadRefusal` | rt1170/prepared_stream.cpp:169-193 | A read is refused exactly for a range not committed or not of whole frames, or else for bytes that, from the word boundary before them, do not fit the scratch |
| `PreparedFile.OverwriteKeeps` | rt1170/prepared_stream.cpp:72-98 | Bytes wholly before or after what is written keep their values |
| `Artifact.MakeHeader` | common/pcm24_artifact.cpp:203-221 | Filling in the fields in place gives the canonical 44-byte RIFF/WAVE header, byte for byte |
| `Artifact.ArtifactWriter.Begin` | common/pcm24_artifact.cpp:49-90 | Starts with the header of an empty payload at the front of the file |
| `Artifact.ArtifactWriter.AppendFrames` | common/pcm24_artifact.cpp:92-134 | Appends whole frames after those there are; each refusal is named, and no byte of the payload is lost by a failure |
| `Artifact.ArtifactWriter.Finish` | common/pcm24_artifact.cpp:136-183 | Fails only for a fault of its own operations or an earlier one, never for the committed range; success leaves header, payload and zero pad and nothing else |
| `Recording.Perform` | rt1170/prepared_stream.cpp:43-246 | Each append, commit or read on the objects, with any fault, has the outcome and leaves the payload that the tape says |
| `Recording.Record` | rt1170/prepared_stream.cpp:22-270 | Over every interleaving of appends, commits and reads with any faults: every outcome is the tape's, the payload survives, and finishing is refused exactly for a recording that is not sound or a fault of its own operations, never for the committed range |
| `Recording.SoundExactly` | rt1170/prepared_stream.cpp:254-262 | A recording is sound exactly until the first operation that breaks it: a fault of the file, or an append the writer cannot take; a refused range breaks nothing |
| `Recording.RecordedIsAppended` | common/pcm24_artifact.cpp:92-134 | What is recorded is exactly the appends reported done, in their order |
| `Recording.ReadsBack` | rt1170/prepared_stream.cpp:169-246 | A read that succeeds gives those frames of all that is ever recorded, and changes nothing |
| `Recording.TapeGrows` | rt1170/prepared_stream.cpp:43-167 | Bytes once recorded stay, whatever comes after |
| `Recording.CommittedIsRecorded` | rt1170/prepared_stream.cpp:130-167 | The committed bytes are a prefix of the concatenated appends |
| `Riff.ReadChunk` | common/wav.hpp:135-174 | The chunk reader's 32-bit sums and differences never wrap; a chunk lies inside the file with its pad |
| `Riff.ParseRiff` | common/wav.hpp:205-246 | The walk over the chunks ends on any bytes and finds what the recursive walk finds |
| `Riff.WalkFindsInside` | common/wav.hpp:205-246 | A payload found lies inside the file |
| `Riff.WalkTakesOnlyChunks` | common/wav.hpp:135-246 | Whatever bytes the walk accepts are the encoding of a list of RIFF chunks |
| `Riff.ReaderAcceptsTheLayout` | common/wav.hpp:114-246 | With working reads a file parses if and only if it is the RIFF encoding of chunks that the rules accept, and with the same result |
| `Riff.ValidatePcmWav` | common/wav.hpp:248-279 | On any bytes and faults the checks in their order give the verdict; success comes with a non-empty payload inside the file, of whole frames |
| `Riff.ArtifactOpens` | common/pcm24_artifact.cpp:203-221 | The reader opens a file the writer finished if and only if it is mono at 48 kHz, not empty and at most 2^32 - 1 bytes in all, with the payload at 44 |
| `RiffPcm.VerdictMeans` | common/wav.hpp:248-279 | For any bytes read without a fault the verdict is none if and only if the file encodes chunks of which the one format begins with exactly the sixteen bytes of tag 1, the channels, 48000, the byte rate, the frame size and the bits, for 16 or 24 bits mono or 24 bits stereo, and the one data chunk is non-empty whole frames; it is a missing format, or missing data, if and only if the file encodes a sound list without it |
| `RiffPcm.AcceptedIsPcm` | common/wav.hpp:248-279 | With whatever read faults, a file taken encodes such chunks, and the payload found is its data chunk's body in place |
| `RiffPcm.VerdictOfSound` | common/wav.hpp:248-279 | On the encoding of any sound list the verdict names what is missing first: format, data, or the right format |
| `RiffPcm.FieldsAreBytes` | common/wav.hpp:176-203 | The six fields are the required ones if and only if the chunk's first sixteen bytes are |
| `RiffPcm.JudgedFinds` | common/wav.hpp:205-246 | A good walk found the one format chunk and the one data chunk, where they stand |
| `RiffPcm.SoundIsJudged` | common/wav.hpp:205-246 | Every sound list of chunks is walked to its end |
| `Riff.LongestArtifactDoesNotOpen` | common/pcm24_artifact.cpp:92-134 | The longest artifact the writer accepts is one that the reader cannot open |
| `ResultRings.ResultRing.Push` | common/playlist.hpp:989-1002 | A block becomes the newest under the next number, which wraps in 32 bits; a full ring changes nothing |
| `ResultRings.ResultRing.Acknowledge` | common/playlist.hpp:1006-1023 | Frees exactly the leading blocks numbered up to the one named; a number not given yet frees nothing |
| `ResultRings.LeadingIsCovered` | common/playlist.hpp:1004-1023 | With numbers that have no gap those are the blocks numbered up to the one named |
| `ResultRings.OneMoreNumbered` | common/playlist.hpp:996-1000 | The numbers held stay consecutive in 32 bits, across a wrap too |
| `ResultRings.AcknowledgeableIffUnwrapped` | common/playlist.hpp:1004-1023 | A ring that holds blocks can be acknowledged at all if and only if its next number has not wrapped past them |
| `ResultRings.ResultRing.CopyOldest` | common/playlist.hpp:1026-1036 | The oldest blocks in their order, as many as there is room for |
| `ResultRings.ResultRing.OldestSeq` | common/playlist.hpp:1039 | The number of the oldest block held, 0 when there is none |
| `ResultDrain.Board.Snapshot` | rt1170/player.cpp:4351-4364 | A reply is one consistent page of the ring (how many it holds, the oldest number, the next one and the two oldest blocks) and passes the host's checks |
| `ResultDrain.Board.Acknowledge` | rt1170/player.cpp:2163-2184 | Acknowledging the last block of a page frees exactly that page |
| `ResultDrain.PagesAreWellFormed` | host/live_control.py:1103-1126 | Every page a board can send passes the host's checks |
| `DrainFile.SavedOnce` | host/live_control.py:1343-1354 | Saving never puts a block into the file twice |
| `DrainFile.SaveOverlapping` | host/live_control.py:1343-1354 | Pages that overlap what is saved extend the file as one stretch of the blocks made |
| `DrainFile.PageKeepsExact` | host/live_control.py:1343-1354 | Without a reset the file stays the old one followed by every block shown, in order |
| `DrainFile.EmptyPageIsTheWholeFile` | host/live_control.py:1284-1312 | An empty page means that the file ends with every block made |
| `DrainFile.LostExactly` | host/live_control.py:1229-1237 | For a fresh file the numbers reported lost are exactly the blocks made by the last reply and never saved |
| `DrainFile.AckKeepsSafe` | host/live_control.py:1314-1329 | Acknowledging blocks that are in the file keeps the file safe |
| `DrainFile.AckKeepsExact` | host/live_control.py:1314-1329 | Without a reset it also stays the old file followed by every block shown |
| `ResultDrain.NoFalseAlarm` | host/live_control.py:1200-1221 | Two replies whose ticks differ by the host's time within the margin, whose runs and numbers did not go back and of which the later is not idle anew break no rule, a wrap of the tick included |
| `ResultDrain.RestartIsSeen` | host/live_control.py:1200-1221 | A restart is seen by the tick alone if and only if the tick went back, or the ticks lost and the time down pass the margin together |
| `ResultDrain.RestartMissed` | host/live_control.py:1200-1221 | A restart that the tick does not show: two seconds after the start, with the host gone for two seconds |
| `PlaylistDrains.SavedLines` | host/live_control.py:1343-1354 | The new lines hold just the blocks that were not there, each once, under the name of its own run only |
| `PlaylistDrains.PlaylistDrain.Save` | host/live_control.py:1343-1354 | A page goes into the file block by block as that says, old lines untouched |
| `PlaylistDrains.PlaylistDrain.AcknowledgePage` | host/live_control.py:1314-1329 | Only BUSY is tried again, at most eight times, and an acknowledgement whose fate is unknown is never sent again |
| `PlaylistDrains.PlaylistDrain.Relink` | host/live_control.py:1356-1385 | A new session comes only to a drain that reconnects, the board having worked on or started again meanwhile |
| `PlaylistDrains.PlaylistDrain.Turn` | host/live_control.py:1284-1312 | One poll and what follows from it, on the objects of the drain and the board |
| `PlaylistDrains.PlaylistDrain.Run` | host/live_control.py:1284-1312 | The loop over a script of what happens, on those objects |
| `DrainRuns.AckKeeps` | host/live_control.py:1314-1329 | Only blocks already saved are ever acknowledged, retries and lost replies included |
| `DrainRuns.RelinkKeeps` | host/live_control.py:1356-1385 | A new session, with or without a reset of the board meanwhile, keeps every fact about the file |
| `DrainRuns.TurnTells` | host/live_control.py:1284-1312 | One poll and what follows from it keep every fact about the file, and an ending tells the truth of it |
| `DrainRuns.RunStays` | host/live_control.py:1284-1412 | A script without a reset leaves the board's number of starts as it was |
| `DrainRuns.DrainIsSafe` | host/live_control.py:1240-1412 | Over every script of pushes, lost requests and replies, reconnections and resets: every block freed is in the file, none is saved twice; without a reset in the script the file is every block shown, in order; an until-done drain that ends inactive has saved every block made, and the blocks named lost at a reset are exactly those |
| `DrainRuns.NoResetIsSeen` | host/live_control.py:1200-1221 | A drain whose script holds no reset and no other image, whose board reports in order and whose clocks keep step, never ends for a reset, across any lost links and any wrap of the tick |
| `DrainRuns.ResetIsSeen` | host/live_control.py:1200-1221 | Whatever came before: when the link came back and the next poll is answered, the reply ends the drain for a reset if and only if, against the last reply before, its run is lower, or its next number in the same run, or it is idle where the board was not, or the image is another, or the two clocks differ by more than two seconds and a hundredth; and the drain reports whether the board was running, in a gap or paused then |
| `DrainRuns.ShownIsSeen` | host/live_control.py:1200-1227 | The same of any drain and board at any round, not only of one begun on a fresh board |
| `DrainRuns.TurnsRemember` | host/live_control.py:1284-1312 | After any rounds what the drain remembers of the board is its last reply and the time of it, how many polls were answered and how many of them were empty, and whether the link came back since with another image |
| `DrainRuns.RoundEnds` | host/live_control.py:1284-1312 | A refused or broken poll ends the drain as refused, a lost one as link lost unless a new session comes; after an empty page it ends as asked: at once, or in idle, done, aborted or failed only, or after so many empty polls |
| `DrainRuns.AckIsTriedNineTimes` | host/live_control.py:1314-1329 | An acknowledgement is sent again after up to eight BUSY refusals, the ninth is given up; anything else settles it at once, and the page is freed exactly if it was answered, or taken and the answer lost |
| `DrainRuns.PageIsFreed` | host/live_control.py:1284-1329 | A page shown is saved and then freed and counted exactly if its acknowledgement was answered, whatever number of BUSY refusals up to eight came first |
| `DrainRuns.UndisturbedDrain` | host/live_control.py:1284-1329 | A drain that nothing disturbs completes: of a board at rest with every request answered it saves all that is held, frees it two blocks a poll and ends at the first empty page |
| `DrainRuns.DrainPlaylist` | host/live_control.py:1284-1412 | The objects of drain and board, run over a script, end and leave the file as the drain's function says |
| `Crc.TableStep` | common/crc32.hpp:29-68 | For every state and byte, the table step is eight bitwise reflected-division steps |
| `Crc.TakeInParts` | common/crc32.hpp:52-68 | Any split of the input leaves the same state |
| `Crc.BurstIsSeen` | host/dd008.py:62-72 | Two messages that differ only inside four consecutive bytes never have the same check value, for either polynomial |
| `Crc.CorruptionIsSeen` | host/dd008.py:125-161 | Changing a message and its appended check value only inside four consecutive bytes never gives a matching pair |
| `Crc.Residue` | common/crc32.hpp:78-83 | A message followed by its check value always leaves the same state |
| `Crc.StandardChecks` | common/crc32.hpp:85-92 | The CRC-32 of the nine ASCII digits is 0xCBF43926 and of nothing 0, as the board asserts; the CRC-32C of the same digits is 0xE3069283 |
| `Crc.MakeTable` | common/crc32.hpp:29-49 | Every entry is the remainder of its byte |
| `Crc.Crc32.Update` | common/crc32.hpp:56-68 | The running update is the bitwise division of the bytes |
| `Crc.Crc32OfPieces` | common/crc32.hpp:52-83 | The running CRC over any pieces is the check value of the whole |
| `Crc.Crc32c` | host/dd008.py:62-72 | The masked bit loop computes CRC-32C |
| `Cobs.RoundTrip` | host/dd008.py:75-122 | Decoding undoes encoding for every byte string |
| `Cobs.NoZero` | host/dd008.py:75-97 | An encoding holds no zero byte |
| `Cobs.Length` | host/dd008.py:75-97 | An encoding is n + 1 to n + 1 + n/254 bytes long |
| `Cobs.EncodingIsUnique` | host/dd008.py:75-122 | A packet is a payload's encoding if and only if it decodes to it, holds no zero and lets no block of 254 bytes come last |
| `Cobs.CobsEncode` | host/dd008.py:75-97 | The encoder that patches code bytes in afterwards writes the block-wise encoding |
| `Cobs.CobsDecode` | host/dd008.py:100-122 | The decoding loop refuses a zero code and a truncated block and otherwise gives the block-wise decoding |
| `Dd008.FrameRoundTrip` | host/dd008.py:125-161 | A packet decodes to a frame if and only if it stands for that frame's header, payload and CRC |
| `Dd008.FrameIsLaidOut` | host/dd008.py:125-161 | A packet is a frame if and only if it unstuffs to "M1", version 1, type, channel, no flags, the length and the sequence number lowest byte first, the payload, and the CRC-32C of all before it, lowest byte first |
| `Dd008.RefusalIsNamed` | host/dd008.py:137-161 | A packet that is no frame is refused for the first of these: fewer than 16 bytes, another magic, another version, flags, a length that is too large or not the payload's, another check value |
| `Dd008.EncodedFrame` | host/dd008.py:125-161 | Every legal frame encodes without a zero, fits the decoder's 1045 bytes and decodes to itself |
| `Dd008.CorruptFrameRefused` | host/dd008.py:137-161 | A frame corrupted inside four consecutive bytes is never taken for a frame |
| `FrameStream.FeedInParts` | host/dd008.py:173-199 | Any split of the bytes does the same |
| `FrameStream.FeedFrames` | host/dd008.py:173-199 | Concatenated encoded frames give exactly those frames and leave the line clean |
| `FrameStream.Resynchronises` | host/dd008.py:173-199 | From any line, an overlong run without a zero and then a zero lose nothing of the frames that follow |
| `FrameStream.RecoversExactly` | host/dd008.py:173-199 | After bytes without a zero and then a zero, the frames that follow are found if and only if what was collected is dropped or empty; no fault is raised if and only if it is that or a frame itself; otherwise the fault ends the call and the packet stays |
| `FrameStream.FaultSwallowsTheNextFrame` | host/dd008.py:173-199 | A packet that does not recover: one byte, whose fault costs whichever frame comes next |
| `FrameStream.StreamDecoder.Feed` | host/dd008.py:173-199 | A call leaves the line the bytes make of it and gives their frames, or the first fault and none |
| `FrameStream.Receive` | host/dd008.py:164-199 | Any chunking of concatenated frames gives those frames |
| `Attenuation.RoundIsHalfEven` | common/attenuation.hpp:105-116 | The shift-and-correct form and the host's floor form both round every product half to even |
| `Attenuation.HalfEvenIsUnique` | common/attenuation.hpp:105-116 | There is only one half-even quotient |
| `Attenuation.ScaledShrinks` | common/attenuation.hpp:119-125 | An attenuated sample never grows, keeps its side of zero and stays PCM24; the product fits 64 bits |
| `Attenuation.ScaledIsOdd` | common/attenuation.hpp:119-125 | Attenuation is symmetric about zero |
| `Attenuation.ScaledIsNearest` | common/attenuation.hpp:119-125 | The sample times the gain over 2^31 to the nearest, at a half to the even one |
| `Attenuation.ScaledIsMonotone` | host/attenuation.py:68-73 | Attenuation never reorders two samples |
| `Attenuation.MoreIsQuieter` | common/attenuation.hpp:91-94 | With any falling table, more tenths never leave a sample louder |
| `Attenuation.ParseIsPattern` | host/attenuation.py:76-86 | A text parses to a level if and only if the pattern matches it in some way that is worth that level |
| `Attenuation.SpellingParses` | host/attenuation.py:89-94 | Every level's spelling parses back to it and has at most five characters |
| `Attenuation.WholeDecibels` | common/attenuation.hpp:148-172 | The digit loop takes exactly one or two canonical digits |
| `Attenuation.ParseLevel` | common/attenuation.hpp:177-200 | The board's parser is the host's |
| `PredictStream.Attenuated` | host/make_playlist.py:447-456 | Every whole sample of the data becomes its attenuated encoding in place; 0 dB changes nothing |
| `PredictStream.Runs` | host/make_playlist.py:472-479 | The runs stay inside one pass and one copy and cover the looped output exactly, in order |
| `PredictStream.OutputReader.Read` | host/make_playlist.py:482-503 | Held or read as needed, attenuated before or after slicing, the bytes are the attenuated looped frames |
| `PredictStream.StreamChunks` | host/make_playlist.py:506-519 | For every prefix of a cut stream, the chunks joined are its attenuated PCM24 |
| `PredictStream.AttenuationCommutesWithCuts` | host/make_playlist.py:506-519 | Attenuating a cut stream is cutting the attenuated output, for every prefix |
| `PredictStream.PredictStream` | host/make_playlist.py:551-573 | For every schedule, loop, gain and prefix, the bytes predicted are the cut of the attenuated looped card, with their CRC and their tally |
| `PredictStream.SampleRoundTrip` | host/make_playlist.py:447-456 | A sample's three bytes, lowest first, are its 24-bit two's complement, and decode to it |
| `Seconds.ParseIsPattern` | host/make_playlist.py:226-243 | A time parses if and only if the pattern matches it with that many milliseconds |
| `Seconds.GapRoundTrip` | host/make_playlist.py:226-250 | Every gap's spelling parses back to it and has at most eight characters |
| `Seconds.DurationRoundTrip` | host/make_playlist.py:237-250 | Every duration's spelling parses back to it |
| `Seconds.ParsedTimes` | host/make_playlist.py:226-243 | Every time a parser gives is one that can be spelt |
| `Seconds.ReadMilliseconds` | common/playlist.hpp:327-346 | The board's parser, place by place in 32 bits, is the host's pattern |
| `Seconds.ReadGap` | common/playlist.hpp:367-377 | The board and the host take the same gaps |
| `Seconds.ReadDuration` | common/playlist.hpp:380-390 | The board and the host take the same durations |
| `PlaylistLine.NamesAgree` | common/playlist.hpp:253-264 | Splitting a name at its first point is matching the 8.3 pattern |
| `PlaylistLine.TokenReader.Next` | common/playlist.hpp:416-440 | Token by token the reader gives the host's list of words up to a comment |
| `PlaylistLine.OptionByKey` | host/make_playlist.py:296-322 | Looking an option up by its key before the first = is recognising the key as a prefix |
| `PlaylistLine.ReadOption` | common/playlist.hpp:571-584 | The board's option, found by prefix and filled into the item in place, is the host's |
| `PlaylistLine.ReadFields` | common/playlist.hpp:588-614 | File, gap and route are refused with the same first code |
| `PlaylistLine.ReadLine` | common/playlist.hpp:619-667 | For every line the board gives the item, nothing or the first refusal that the host gives |
| `PlaylistText.SpellingReadsBack` | host/make_playlist.py:203-218 | Parsing a valid item's spelling returns the item |
| `PlaylistText.SpellingFits` | host/make_playlist.py:203-218 | A spelling has at most 455 characters, so it fits the line buffer of 511 |
| `PlaylistText.ParsedReadsBack` | host/make_playlist.py:203-218 | Whatever line gave an item, the item's own spelling gives the same item |
| `PlaylistFile.ItemTable.Push` | common/playlist.hpp:679-696 | An item is added unless there are 256 or its label is taken; a refusal changes nothing |
| `PlaylistFile.FileParser.Append` | common/playlist.hpp:764-774 | The fixed line buffer remembers exactly the line so far, or that it overflowed |
| `PlaylistFile.FileParser.EndLine` | common/playlist.hpp:789-800 | A line taken goes into the table; a line refused leaves the line number at it |
| `PlaylistFile.FileParser.Feed` | common/playlist.hpp:716-736 | A stretch fed without a refusal leaves the table as the lines completed so far make it; a refusal is the first of the whole text |
| `PlaylistFile.FileParser.Finish` | common/playlist.hpp:739-759 | The end of the file gives the host's items or its first refusal and line |
| `PlaylistFile.ReadFile` | host/make_playlist.py:352-377 | For files up to 262144 bytes, any split of the bytes gives what the host gives for the whole file |
| `PlaylistRules.FileMeans` | host/make_playlist.py:352-377 | A file is taken if and only if it has at most 262144 characters, each of its lines is at most 511 long and not refused alone, the lines give 1 to 256 items and no label twice, and then for just those items; otherwise it is refused as too large or empty, or at its first line that cannot be kept and for what that line is refused |
| `PlaylistRules.RefusalIsTheFirst` | host/make_playlist.py:352-377 | Lines are refused at a line if and only if all before it can be kept and it cannot: too long, refused alone, one item too many, or a label given before |
| `PlaylistRules.LinesMean` | host/make_playlist.py:352-377 | Lines are kept exactly if each can be read and their items are few enough with distinct labels |
| `PlaylistRules.WordsInParts` | common/playlist.hpp:416-440 | A separator parts a line: its words are the words before it and then the words after it |
| `PlaylistRules.CommentIsIgnored` | common/playlist.hpp:416-440 | From a # that would begin a word on, nothing of a line counts |
| `PlaylistRules.FieldsAreNamed` | common/playlist.hpp:588-614 | Which of file, gap and route is named: the first that is wrong, and USB only where there is none |
| `PlaylistRules.OptionsAreNamed` | host/make_playlist.py:296-322 | Under each of the six keys a value is refused with that key's code exactly if it is not of its form, and as a fault of syntax if the key was given before |
| `PlaylistRules.CutsAreNamed` | common/playlist.hpp:499-518 | A cut list of the right form is refused for the rule it breaks first, and for no other |
| `PlaylistRules.LineIsTaken` | host/make_playlist.py:325-349 | A line gives an item only of three words and options that are all fine, and the item takes just what they say; an unprintable character is a fault of syntax |
| `ItemStarts.SamePackets` | common/playlist.hpp:1166-1170 | The board's rounding to packets is the host's modulo 2^32, and equal exactly while it fits |
| `ItemStarts.WholePackets` | host/make_playlist.py:671-673 | The host's rounding is the least number of whole packets that holds the frames |
| `ItemStarts.StartPredictions` | host/make_playlist.py:676-725 | The loop gives each item its run's first item and its offset |
| `ItemStarts.StartSays` | host/make_playlist.py:676-725 | An item is scheduled if the one before it on the route sends anything; it is on time after a gap of a second, late after less than a millisecond, and in between that is not said; after such a gap it starts whole packets of what was sent and the gap past the start before it, else a new run |
| `ItemStarts.StartsAsPredicted` | common/playlist.hpp:1176-1179 | Over a run of any length, wrapping at each item on the board or once on the host gives the same start |
| `PrepareJobs.VerifiedHeaderIsCanonical` | rt1170/prepare_job.cpp:1306-1339 | A header that passes field by field is byte for byte the writer's |
| `PrepareJobs.CanonicalHeaderPasses` | rt1170/prepare_job.cpp:1306-1339 | The writer's header of whole frames passes, as long as its sizes fit 32 bits |
| `PrepareSteps.AdvancesOn` | rt1170/prepare_job.cpp:426-451 | Every state's step, whatever it is answered, keeps the invariant and goes on to what follows it, nearer its end; or it fails, and the job cleans up and never completes |
| `PrepareSteps.StagesInOrder` | rt1170/prepare_job.cpp:663-911 | What follows a state is a later one or more of the same, and the end comes last |
| `PrepareSteps.SummaryAddsUp` | rt1170/prepare_job.cpp:1271-1290 | The summary's frames are always those counted and its bytes at least a header: neither of its refusals can occur |
| `PrepareSteps.PcmPartGrows` | rt1170/prepare_job.cpp:1341-1399 | The overlap of a chunk with the PCM is what the longer read-back has more of it |
| `PrepareSteps.ReadOn` | rt1170/prepare_job.cpp:1341-1399 | A chunk whose pad is right leaves the PCM digested exactly that of the bytes read so far |
| `PrepareSteps.AllPcmRead` | rt1170/prepare_job.cpp:1341-1399 | Once the whole file is read its PCM is as long as the writer's: only the digest can still refuse it |
| `PrepareSteps.OwnFile` | rt1170/prepare_job.cpp:785-911 | A file made under a temporary name touches none that was there before the job |
| `PrepareSteps.OwnManifest` | rt1170/prepare_job.cpp:1459-1482 | The manifest under its own name speaks of a WAV verified and under its own |
| `PrepareSteps.PublishManifestStepsOn` | rt1170/prepare_job.cpp:1459-1482 | The manifest is renamed last, and its name is always free then |
| `PrepareSteps.CleansOn` | rt1170/prepare_job.cpp:1587-1644 | One clean-up step ends the job exactly when nothing is open, and otherwise closes one thing or makes the refusal the job's failure |
| `PrepareSteps.WithdrawnKeeps` | rt1170/prepare_job.cpp:426-451 | A cancellation leads into the clean-up and touches no file |
| `PrepareSteps.StepKeeps` | rt1170/prepare_job.cpp:426-451 | Any step keeps the invariant; once a job is given up it changes no file and never publishes |
| `PrepareSteps.BeginKeeps` | rt1170/prepare_job.cpp:280-404 | Admitting or refusing a job keeps the invariant and touches no file; a refused job is not complete |
| `PrepareSteps.CancelKeeps` | rt1170/prepare_job.cpp:532-547 | A cancellation changes neither files nor whether the job is published |
| `PrepareSteps.ProduceKeeps` | rt1170/prepare_job.cpp:453-491 | A managed block keeps the invariant, and a cancelled job produces nothing |
| `PrepareSteps.AppendProducedKeeps` | rt1170/prepare_job.cpp:493-513 | Its append keeps the invariant too, and a cancelled job appends nothing |
| `PrepareSteps.FinishManagedKeeps` | rt1170/prepare_job.cpp:515-530 | And the end of a managed render, which touches no file |
| `PrepareSteps.PrefixKeeps` | rt1170/prepare_job.cpp:639-661 | And a commit, any refusal of which ends the job, and a read, where only a latched failure does; a cancelled job takes neither |
| `PrepareSteps.WhatAManifestSays` | rt1170/prepare_job.cpp:1341-1437 | A published manifest's digests are those of a file with the writer's header, the appended PCM and a zero pad |
| `PrepareRuns.ObeyedKeeps` | rt1170/prepare_job.cpp:280-661 | Every call keeps the invariant, and one that admits no job leaves a job given up as it was, and every file |
| `PrepareRuns.RunKeeps` | rt1170/prepare_job.cpp:270-1644 | Every state that any run reaches keeps the invariant, so what is said of a job that keeps it holds of every job |
| `PrepareRuns.RunIsSafe` | rt1170/prepare_job.cpp:270-1644 | Over any owner's calls, file outcomes and cancellations, against the files given: none that was there is changed, renamed or removed; every new manifest stands beside its WAV for a file read back whole with both digests, under a stem of which no name was taken; a job at rest holds nothing; one at its end is complete exactly when it reports no failure, and then its manifest is there and is new |
| `PrepareRuns.CancelledForGood` | rt1170/prepare_job.cpp:426-547 | After a cancellation taken before publication, unless another job is admitted, not one file changes and the job never completes |
| `PrepareRuns.RunInHand` | rt1170/prepare_job.cpp:453-530 | In every run a managed job has rendered as many frames as it read, and its one open block is the one asked for |
| `PrepareRuns.FinishingIsComplete` | rt1170/prepare_job.cpp:515-530 | In any run a managed render may be finished exactly when no block is open and the source is read to its end, and then hands over as many frames as the source has |
| `PrepareRuns.AppendingIsWhole` | rt1170/prepare_job.cpp:493-513 | In any run a block produced is appended whole, unless the writer or its file fails |
| `PrepareRuns.Ends` | rt1170/prepare_job.cpp:426-451 | Whatever it is answered, an unmanaged job left to itself ends, unless more of its steps wait for a measurement or a refused close than any number given |
| `PrepareRuns.LeftAlone` | rt1170/prepare_job.cpp:426-451 | Such a job completes if and only if not one of its steps reported a failure |
| `PrepareRuns.CleansUp` | rt1170/prepare_job.cpp:1587-1644 | Once closes succeed, cleaning up takes one step more than there are things open, and not one less |
| `PrepareRuns.PublicationEnds` | rt1170/prepare_job.cpp:1459-1644 | The manifest is under its name if and only if its rename was done, reported or not; the job ends complete if and only if the rename was reported done and so was every close while anything was open, and failed otherwise |
| `PrepareRuns.PublishedYetFailed` | rt1170/prepare_job.cpp:1587-1644 | A whole run on an empty card that publishes both files and ends failed, because one close is refused |
| `PrepareRuns.Obey` | rt1170/prepare_job.cpp:280-661 | Each call on the object does what the job's function says |
| `PrepareRuns.Run` | rt1170/prepare_job.cpp:270-1644 | Any calls on a new object leave it as the run of those calls says |
| `PrepareRuns.LaterIsARun` | rt1170/prepare_job.cpp:426-451 | A job left to itself is the run of its steps |
| `PrepareAccounts.ManifestsTellTheTruth` | rt1170/prepare_job.cpp:913-1482 | Over any owner's calls and any answers: what the job has appended is the concatenation, in order, of the whole frames the engine answered to exactly the process steps whose block was then appended; a manifest that appears tells the digest of just those bytes and of the bytes read back, with the frames and the keep asked for, once source, scenario and secondary source had been read whole |
| `PrepareAccounts.RunsReport` | rt1170/prepare_job.cpp:270-1644 | In any run a job at work holds open and shows exactly what its state says, and its next step reports exactly what its answers call for and leads where that says: no other check on its own counts can fail |
| `PrepareAccounts.StepReports` | rt1170/prepare_job.cpp:426-451 | State by state, which answer is reported as which failure, and which state follows |
| `PrepareAccounts.BeginReports` | rt1170/prepare_job.cpp:280-404 | A job is admitted exactly at rest with its names given and distinct, and each refusal is named |
| `PrepareAccounts.CancelReports` | rt1170/prepare_job.cpp:532-547 | A cancellation is taken exactly of a job not at rest, which goes on where it stands |
| `PrepareAccounts.ProduceReports` | rt1170/prepare_job.cpp:453-491 | What a managed block is answered, by the job's state and the frames asked for |
| `PrepareAccounts.AppendReports` | rt1170/prepare_job.cpp:493-513 | What its append is answered |
| `PrepareAccounts.FinishReports` | rt1170/prepare_job.cpp:515-530 | What the end of a managed render is answered |
| `PrepareAccounts.PrefixReports` | rt1170/prepare_job.cpp:639-661 | A prefix is committed and read only while rendering; a refused commit or a latched read ends the job, a refused read does not |
| `PrepareAccounts.FailureHolds` | rt1170/prepare_job.cpp:1587-1644 | Nothing that was open, or that the failing step itself got open, is forgotten by a failure |
| `PrepareAccounts.ClosesInOrder` | rt1170/prepare_job.cpp:1587-1644 | The clean-up closes the first thing open: secondary source, manifest, output, work file, source, and the volume last; a refused close keeps it open |
| `PrepareAccounts.EndsWithTheFirstFailure` | rt1170/prepare_job.cpp:426-451 | A job left to itself that fails ends with the failure its first failing step reported, whatever fails after it |
| `OperationTiming.SaturatingAdd` | common/operation_timing.hpp:59-68 | The sum is capped at 2^64 - 1 and the flag tells exactly whether it ever was |
| `OperationTiming.AcceptedIffUnambiguous` | common/operation_timing.hpp:129-145 | A tick count is accepted if and only if no span it allows is a whole turn of the cycle counter |
| `OperationTiming.ValidIffUnambiguous` | common/operation_timing.hpp:129-145 | A pair of samples is taken exactly if both were made at the accumulator's clocks and no span of a whole turn or more is possible between their ticks |
| `OperationTiming.AcceptedSpanIsExact` | common/operation_timing.hpp:88-116 | The wrapping difference recorded for an accepted span is its true length |
| `OperationTiming.Accumulator.Record` | common/operation_timing.hpp:88-116 | Every call is counted in its own phase, or as a rejected call of the first |
| `OperationTiming.RecordedPasses` | host/summarize_prepare_play.py:83-122 | One more call keeps a snapshot passing the host's checks and following every earlier one |
| `OperationTiming.Observe` | host/live_control.py:306-331 | Over any calls every snapshot passes the host's checks, and every later one follows every earlier one |
| `OperationTiming.TotalIsTheSum` | host/summarize_prepare_play.py:164-190 | Until it saturates, a phase's total is the sum of its accepted spans |
| `OperationTiming.CallsAreTheEvents` | common/operation_timing.hpp:88-116 | Until it saturates, a phase's calls are the events it counts (an event of no phase counts to the first) and its rejected calls the refused ones among them |
| `OperationTiming.MaximumIsTheGreatest` | common/operation_timing.hpp:88-116 | A phase's maximum, saturated or not, is the greatest span it took |
| `WatermarkChecks.SnapshotsPass` | host/live_control.py:334-368 | The host accepts the watermarks of every configured state of every run of the coordinator |
| `WatermarkChecks.StatesFollow` | host/summarize_prepare_play.py:83-100 | The host accepts every later state of a run after every earlier one |
| `PlaybackRuns.TokensGrow` | common/finite_playback.cpp:430-451 | Tokens only grow over a run |
| `ResultRings.ResultRing.Clear` | common/playlist.hpp:980-985 | An empty ring numbers from 1 again |
| `PreparedFile.PreparedStream.Unbind` | rt1170/prepared_stream.cpp:248-252 | Afterwards nothing is bound |
| `PreparedFile.PreparedStream.Latch` | rt1170/prepared_stream.cpp:254-262 | The first failure is recorded |
| `Artifact.ArtifactWriter.Cancel` | common/pcm24_artifact.cpp:185-193 | Invalidates the writer and keeps none of its bytes |
| `Artifact.Put16` | common/pcm24_artifact.cpp:25-29 | Writes two bytes in place and changes no other |
| `Artifact.Put32` | common/pcm24_artifact.cpp:31-37 | Writes four bytes in place and changes no other |
| `Artifact.PutTag` | common/pcm24_artifact.cpp:39-45 | Writes a tag in place and changes no other byte |
| `Riff.ReadExact` | common/wav.hpp:68-84 | Nothing past the end of the file is asked for |
| `Riff.ReadRiffHeader` | common/wav.hpp:114-133 | The header must name the file's own size |
| `Riff.ReadFormat` | common/wav.hpp:176-203 | The format is taken once, from at least sixteen bytes |
| `FinitePlayback.Scheduler.Begin` | common/finite_playback.cpp:430-445 | A ticket has the next token; without tokens, or with one outstanding, nothing changes |
| `FinitePlayback.Scheduler.Latch` | common/finite_playback.cpp:458-467 | Only the first failure is kept |
| `FinitePlayback.Scheduler.ResetRun` | common/finite_playback.cpp:469-484 | A new run starts from zero but for the tokens |
| `FinitePlayback.Scheduler.Advance` | common/finite_playback.cpp:283-327 | The watermark of the action moves by its frames, from where it stood when the ticket was issued |
| `DrainFile.FreshFile` | host/live_control.py:1343-1354 | Into an empty file blocks with distinct numbers go exactly as they are |
| `DrainFile.EmptyPageMeansAllSaved` | host/live_control.py:1284-1312 | After any number of resets an empty page means that every block of the present run of the board is saved |
| `Crc.Crc32.UpdateByte` | common/crc32.hpp:56-68 | One lookup is eight steps |
| `Crc.WindowsApart` | common/crc32.hpp:29-68 | Two different windows of at most four bytes leave different states |
| `FrameStream.StreamDecoder.Reset` | host/dd008.py:169-171 | Afterwards the line is clean |
| `FrameStream.StreamDecoder.FeedByte` | host/dd008.py:173-199 | One byte does to the line what the line's rules say |
| `Attenuation.RoundIsOdd` | common/attenuation.hpp:105-116 | Rounding is symmetric about zero |
| `Attenuation.RoundIsMonotone` | common/attenuation.hpp:105-116 | Rounding never reorders two products |
| `Attenuation.ScaledKeeps` | common/attenuation.hpp:119-125 | Zero stays zero, and 0 dB changes nothing |
| `PredictStream.PcmSlice` | host/make_playlist.py:506-519 | Frames in the middle of the data are those frames' bytes |
| `Seconds.FractionMilliseconds` | common/playlist.hpp:300-321 | Three places, zero past those given, are the thousandths of the decimals |
| `PlaylistLine.ReadValue` | common/playlist.hpp:461-547 | Each option's value fills the item as the host records it, or is refused with its code |
| `PlaylistLine.ReadCuts` | common/playlist.hpp:499-518 | The list, then its rules: the same code as the host's |
| `PlaylistLine.ReadOptions` | common/playlist.hpp:619-667 | The options in their order, up to the same first refusal |
| `PlaylistFile.FileParser.Text` | common/playlist.hpp:777-786 | The line without the carriage return that may end it |
| `PlaylistFile.RefusalStays` | host/make_playlist.py:352-377 | A refusal is the last word on every longer file |
| `OperationTiming.Accumulator.Reset` | common/operation_timing.hpp:83 | Afterwards nothing is recorded, at the new clocks |
| `OperationTiming.RejectKeeps` | host/summarize_prepare_play.py:83-122 | A rejected call keeps a phase passing and following every earlier state of it |
| `OperationTiming.AcceptKeeps` | host/summarize_prepare_play.py:83-122 | An accepted call keeps a phase passing and following every earlier state of it |
| `CutStages.EndOutput` | common/cut_schedule.hpp:501-517 | At the output's end the log has the clipped DROP and the entries rejected |
| `CutStages.ReadingIsMidRun` | common/cut_schedule.hpp:708-761 | A log read at any step is part of the final one, and its later cuts lie ahead |
| `CutText.KindRoundTrip` | common/cut_schedule.hpp:305-317 | A kind parses from its own word only |
| `CutGenerate.SortedIsAscending` | host/cut_schedule.py:242 | The gaps are put in ascending order and none is lost |

## Left out

- ResultDrain.Board.Make: stops making blocks at the last sequence number, so that no drain meets a wrap; what a wrap does to the ring is `ResultRings.AcknowledgeableIffUnwrapped`.
- CutStages.Play: takes the output's frames and the stream's length to fit 32 bits together, as the board's counters do; `CutStages.CutStage.Offer` models the refusal past that.
- ItemStarts.StartsAsPredicted: takes an item prepared in its gap to go out at its scheduled index; the USB stream that sends it there is not modelled.
- DrainRuns.NoResetIsSeen: takes the two clocks to keep step within the margin of the check itself; how a timer drifts is not modelled.
- PlaybackRuns.FirstRunCompletes: leaves out totals near 2^64 / 10, whose actions 64-bit tokens may not be able to number; `PlaybackRuns.PlayOut` covers those too.
- PrepareRuns.RunIsSafe: a file under one of the job's names is its content only up to "audio" or "manifest text"; what the read-back reads is what the file system answers.
- PrepareRuns.Ends: counts each wait for the secondary source's measurement against the patience given, because the measurement is not modelled.
- Serial, USB, FatFs, Win32 and audio input and output are outcomes passed to the methods.
- The signal engine, scenario parser and secondary source of a preparation are answers; only the branches on them are modelled.
- SHA-256 and FNV digests are any function of the bytes; the source and scenario digests and the identity fields of a manifest are not recorded.
- The gain table's closed form: any table that falls from 2^31 is taken.
- `generate`'s random generator and its float share of ZEROs: the draws are arbitrary.
- Reconnection attempts, deadlines, intervals and sleeps of the drain: each lost link has one outcome.
- JSON, journals, session records, argument parsing and the name tables of states and errors.
- The members of a result block other than its number and run are one opaque value, and their own checks are not modelled.
- The rest of the live-control command grammar and its ranges.
- `seam_positions`: a DROP followed at once by a ZERO makes a seam's place ambiguous, and the stream proofs do not need it.
- A card that is cut short while it is read, and the card's own size check on the board.
- The DD-008 session, its handshake and channels above the frames.
- `player.cpp` beyond the ring and its replies, `prepared_playback.cpp` and the USB interrupt.
- Comparing captures with predictions, correlation and onset search.
