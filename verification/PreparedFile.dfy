/**
 A PCM24 file that is read while it is written (rt1170/prepared_stream.cpp): one
 file cursor shared by the writer and by playback reads, and a committed range
 that nothing may overwrite. The file's own operations may fail or come up short.
 */
module PreparedFile {
  import opened Words

  const HEADER_BYTES: nat := 44
  const RIFF_OVERHEAD: nat := 36
  const MAX_FILE_BYTES: nat := UINT32_MAX + 8

  /** What one read or write of the file does: all of it, part of it with no error, or an error after part of it. */
  datatype Io = Whole | Short(moved: nat) | Broken(moved: nat)

  /** What one move of the file's cursor does: it arrives, or it fails and leaves the cursor anywhere. */
  datatype Move = There | Astray(at: nat)

  function Moved(io: Io, requested: nat): (n: nat)
    ensures n <= requested
  {
    match io
    case Whole => requested
    case Short(moved) => if moved < requested then moved else requested
    case Broken(moved) => if moved < requested then moved else requested
  }

  /** How an operation that asked for so many bytes is reported. */
  function Reported(io: Io, requested: nat): StreamStatus {
    if io.Broken? then IoError else if Moved(io, requested) != requested then ShortIo else Success
  }

  /** The operation reports no error and every byte. */
  predicate Clean(io: Io, requested: nat) {
    Reported(io, requested).Success?
  }

  /** `content` with `bytes` written over it from `at` on. */
  function Overwrite(content: Bytes, at: nat, bytes: Bytes): (r: Bytes)
    requires at <= |content|
    ensures |r| == if at + |bytes| <= |content| then |content| else at + |bytes|
  {
    content[..at] + bytes + if at + |bytes| <= |content| then content[at + |bytes|..] else []
  }

  /** Bytes wholly before or wholly after what is written keep their values. */
  lemma OverwriteKeeps(content: Bytes, at: nat, bytes: Bytes, lo: nat, hi: nat)
    requires at <= |content| && lo <= hi <= |content|
    requires hi <= at || at + |bytes| <= lo
    ensures Overwrite(content, at, bytes)[lo..hi] == content[lo..hi]
  {
  }

  lemma SliceOfSlice(content: Bytes, lo: nat, hi: nat, first: nat, count: nat)
    requires lo <= hi <= |content| && first + count <= hi - lo
    ensures content[lo..hi][first..first + count] == content[lo + first..lo + first + count]
  {
    var part := content[lo..hi];
    assert forall i :: 0 <= i < hi - lo ==> part[i] == content[lo + i];
  }

  /** The file system's file: its bytes and its one cursor. */
  class File {
    var content: Bytes
    var cursor: nat

    ghost predicate Valid()
      reads this
    {
      cursor <= |content|
    }

    constructor ()
      ensures content == [] && cursor == 0
    {
      content, cursor := [], 0;
    }

    method Write(bytes: Bytes, io: Io) returns (ok: bool, actual: nat)
      requires Valid()
      modifies this
      ensures Valid() && ok == !io.Broken? && actual == Moved(io, |bytes|)
      ensures content == Overwrite(old(content), old(cursor), bytes[..actual]) && cursor == old(cursor) + actual
    {
      actual := Moved(io, |bytes|);
      content := Overwrite(content, cursor, bytes[..actual]);
      cursor := cursor + actual;
      ok := !io.Broken?;
    }

    /** Moves the cursor; a failed move may leave it anywhere in the file. */
    method Seek(offset: nat, move: Move) returns (ok: bool)
      requires Valid() && offset <= |content|
      modifies `cursor
      ensures Valid() && ok == move.There?
      ensures cursor == if move.There? then offset else Min(move.at, |content|)
    {
      ok := move.There?;
      cursor := if ok then offset else Min(move.at, |content|);
    }

    method Read(count: nat, io: Io) returns (ok: bool, bytes: Bytes)
      requires Valid()
      modifies `cursor
      ensures Valid() && ok == !io.Broken?
      ensures bytes == content[old(cursor)..old(cursor) + Moved(io, Min(count, |content| - old(cursor)))]
    {
      var actual := Moved(io, Min(count, |content| - cursor));
      bytes := content[cursor..cursor + actual];
      cursor := cursor + actual;
      ok := !io.Broken?;
    }
  }

  datatype StreamStatus = Success | NotBound | BadBinding | BadRange | IoError | ShortIo | TooSmall | StillBound

  /** The three file operations of one read: to the frames, the read itself, back to the writer. */
  datatype ReadIo = ReadIo(there: Move, io: Io, back: Move)

  /** How a read of committed frames is reported: its first fault, the move back last. */
  function ReadStatus(io: ReadIo, count: nat): StreamStatus {
    var read := if io.there.There? then Reported(io.io, count) else IoError;
    if read.Success? && !io.back.There? then IoError else read
  }

  /** A read goes well exactly if all three operations do; else its first fault is named, and only a read without an error that came up short is short. */
  lemma FirstFaultIsNamed(io: ReadIo, count: nat)
    ensures ReadStatus(io, count).Success? <==>
              io.there.There? && io.back.There? && (io.io.Whole? || (io.io.Short? && io.io.moved >= count))
    ensures ReadStatus(io, count).ShortIo? <==> io.there.There? && io.io.Short? && io.io.moved < count
    ensures ReadStatus(io, count) in {Success, ShortIo, IoError}
  {
  }

  class PreparedStream {
    const file: File
    var bound: bool
    var scratch: nat
    var writerCursor: nat
    var writtenExtent: nat
    var committedFrames: nat
    var failure: StreamStatus

    ghost predicate Valid()
      reads this, file
    {
      && file.Valid()
      && (bound ==>
            && writerCursor <= writtenExtent <= |file.content| && writtenExtent <= MAX_FILE_BYTES
            && (committedFrames > 0 ==> CommittedEnd() <= writtenExtent)
            && (failure.Success? ==> file.cursor == writerCursor))
    }

    /** Where the committed payload ends: never below the header. */
    function CommittedEnd(): nat
      reads this
    {
      HEADER_BYTES + committedFrames * 3
    }

    /** The committed payload's bytes. */
    ghost function Committed(): Bytes
      requires Valid() && bound
      reads this, file
    {
      if committedFrames == 0 then [] else file.content[HEADER_BYTES..CommittedEnd()]
    }

    predicate Open()
      reads this
    {
      bound && failure.Success?
    }

    constructor (file: File)
      requires file.Valid()
      ensures Valid() && this.file == file && !bound
    {
      this.file := file;
      bound, scratch, writerCursor, writtenExtent, committedFrames, failure := false, 0, 0, 0, 0, Success;
    }

    method Bind(scratch: nat, aligned: bool) returns (status: StreamStatus)
      requires Valid()
      modifies this
      ensures Valid()
      ensures status == if old(bound) then StillBound
                        else if scratch < 4 || !aligned || file.content != [] || file.cursor != 0 then BadBinding
                        else Success
      ensures status.Success? ==>
                bound && this.scratch == scratch && writerCursor == writtenExtent == committedFrames == 0 && failure.Success?
      ensures !status.Success? ==> unchanged(this)
    {
      if bound {
        return StillBound;
      }
      if scratch < 4 || !aligned || |file.content| != 0 || file.cursor != 0 {
        return BadBinding;
      }
      bound, this.scratch := true, scratch;
      writerCursor, writtenExtent, committedFrames, failure := 0, 0, 0, Success;
      return Success;
    }

    /** Records the first failure. */
    method Latch(reason: StreamStatus) returns (status: StreamStatus)
      requires failure.Success? && !reason.Success?
      modifies `failure
      ensures failure == status == reason
    {
      failure := reason;
      return failure;
    }

    /** The range checks of write_exact(): within the largest file, and not over committed payload. */
    predicate MayWrite(count: nat)
      reads this
    {
      && writerCursor + count <= MAX_FILE_BYTES
      && !(writerCursor < CommittedEnd() && writerCursor + count > HEADER_BYTES)
    }

    /**
     Writes every byte at the writer's cursor or reports why not. Whatever the file does,
     the committed payload keeps its bytes.
     */
    method WriteExact(bytes: Bytes, io: Io) returns (status: StreamStatus)
      requires Valid() && |bytes| <= UINT32_MAX
      modifies this`writerCursor, this`writtenExtent, this`failure, file
      ensures Valid()
      ensures old(bound) ==> committedFrames == old(committedFrames) && Committed() == old(Committed())
      ensures !old(bound) ==> status == NotBound
      ensures old(bound) && !old(failure).Success? ==> status == old(failure)
      ensures !old(Open()) || |bytes| == 0 || !old(MayWrite(|bytes|)) ==> unchanged(this) && unchanged(file)
      ensures old(Open()) && |bytes| == 0 ==> status.Success?
      ensures old(Open()) && |bytes| > 0 ==>
                if !old(MayWrite(|bytes|)) then status == BadRange
                else
                  && status == failure == Reported(io, |bytes|)
                  && (status.Success? ==>
                  && writerCursor == old(writerCursor) + |bytes|
                  && writtenExtent == Max(old(writtenExtent), writerCursor))
      // Even a write that breaks off puts down a part of the bytes in their place and nothing else.
      ensures old(Open()) && |bytes| > 0 && old(MayWrite(|bytes|)) ==>
                file.content == Overwrite(old(file.content), old(writerCursor), bytes[..Moved(io, |bytes|)])
    {
      if !bound {
        return NotBound;
      }
      if !failure.Success? {
        return failure;
      }
      if |bytes| == 0 {
        return Success;
      }
      var newCursor := writerCursor + |bytes|;
      if newCursor > MAX_FILE_BYTES {
        return BadRange;
      }
      if writerCursor < CommittedEnd() && newCursor > HEADER_BYTES {
        return BadRange;
      }
      hide Overwrite;
      if committedFrames > 0 {
        OverwriteKeeps(file.content, writerCursor, bytes[..Moved(io, |bytes|)], HEADER_BYTES, CommittedEnd());
      }
      var ok, actual := file.Write(bytes, io);
      if !ok {
        status := Latch(IoError);
        return;
      }
      if actual != |bytes| {
        status := Latch(ShortIo);
        return;
      }
      writerCursor := newCursor;
      if writtenExtent < newCursor {
        writtenExtent := newCursor;
      }
      return Success;
    }

    method Seek(offset: nat, move: Move) returns (status: StreamStatus)
      requires Valid()
      modifies this`writerCursor, this`failure, file`cursor
      ensures Valid()
      ensures old(bound) ==> Committed() == old(Committed())
      ensures !old(bound) ==> status == NotBound
      ensures old(bound) && !old(failure).Success? ==> status == old(failure)
      ensures !old(Open()) ==> unchanged(this) && unchanged(file)
      ensures old(Open()) ==>
                if offset > writtenExtent then status == BadRange && failure.Success?
                else if !move.There? then status == failure == IoError
                else status.Success? && failure.Success?
      ensures writerCursor == if old(Open()) && status.Success? then offset else old(writerCursor)
    {
      if !bound {
        return NotBound;
      }
      if !failure.Success? {
        return failure;
      }
      if offset > writtenExtent {
        return BadRange;
      }
      var moved := file.Seek(offset, move);
      if !moved {
        status := Latch(IoError);
        return;
      }
      writerCursor := offset;
      return Success;
    }

    /** The whole file that holds `dataBytes` of payload has a 32-bit RIFF size. */
    static predicate ValidFileEnd(dataBytes: nat) {
      RIFF_OVERHEAD + dataBytes + dataBytes % 2 <= UINT32_MAX
    }

    /** Moves the committed mark forward over bytes already written; a failed sync leaves it. */
    method CommitFrames(frames: nat, synced: bool) returns (status: StreamStatus)
      requires Valid()
      modifies this`committedFrames, this`failure
      ensures Valid()
      ensures !old(bound) ==> status == NotBound
      ensures old(bound) && !old(failure).Success? ==> status == old(failure)
      ensures !old(Open()) ==> unchanged(this)
      ensures old(Open()) ==>
                if frames < old(committedFrames) || !ValidFileEnd(frames * 3) || HEADER_BYTES + frames * 3 > writtenExtent then
                  status == BadRange && failure.Success?
                else if !synced then status == failure == IoError
                else status.Success? && failure.Success?
      ensures committedFrames == if old(Open()) && status.Success? then frames else old(committedFrames)
      ensures old(bound) ==> old(Committed()) <= Committed()
    {
      if !bound {
        return NotBound;
      }
      if !failure.Success? {
        return failure;
      }
      if frames < committedFrames {
        return BadRange;
      }
      var payloadEnd := HEADER_BYTES + frames * 3;
      if !ValidFileEnd(frames * 3) || payloadEnd > writtenExtent {
        return BadRange;
      }
      if |file.content| < payloadEnd {
        assert false;
      }
      if !synced {
        status := Latch(IoError);
        return;
      }
      committedFrames := frames;
      return Success;
    }

    /** The refusals of read_frames() that leave the stream as it was. */
    function ReadRefusal(firstFrame: nat, bytes: nat): (refusal: StreamStatus)
      reads this
      ensures refusal.BadRange? <==> !(0 < bytes && bytes % 3 == 0 && 3 * firstFrame + bytes <= 3 * committedFrames)
      // From the last word boundary in the file on, the bytes fit the scratch.
      ensures refusal.Success? ==> 44 + 3 * firstFrame + bytes - (44 + 3 * firstFrame) / 4 * 4 <= scratch
      ensures refusal.TooSmall? ==> 44 + 3 * firstFrame + bytes - (44 + 3 * firstFrame) / 4 * 4 > scratch
    {
      if bytes == 0 || bytes % 3 != 0 || firstFrame + bytes / 3 > committedFrames then BadRange
      else if bytes + (HEADER_BYTES + firstFrame * 3) % 4 > scratch then TooSmall
      else Success
    }

    /** Moves to `offset` and reads, by way of the aligned scratch; only a whole read gives bytes. */
    method ReadAt(offset: nat, count: nat, there: Move, io: Io) returns (result: StreamStatus, output: Bytes)
      requires file.Valid() && offset + count <= |file.content|
      modifies file`cursor
      ensures file.Valid()
      ensures result == if there.There? then Reported(io, count) else IoError
      ensures output == if result.Success? then file.content[offset..offset + count] else []
    {
      var arrived := file.Seek(offset, there);
      if !arrived {
        return IoError, [];
      }
      var ok, bytes := file.Read(count, io);
      if !ok {
        return IoError, [];
      } else if |bytes| != count {
        return ShortIo, [];
      }
      return Success, bytes;
    }

    /**
     Reads committed frames and puts the cursor back. A successful read returns exactly the
     committed bytes, and the stream is then as it was: later writes land where they would have.
     */
    method ReadFrames(firstFrame: nat, count: nat, io: ReadIo) returns (status: StreamStatus, output: Bytes)
      requires Valid() && count <= UINT32_MAX
      modifies this`failure, file`cursor
      ensures Valid()
      ensures old(bound) ==> Committed() == old(Committed())
      ensures !old(bound) ==> status == NotBound
      ensures old(bound) && !old(failure).Success? ==> status == old(failure)
      ensures !old(Open()) || !ReadRefusal(firstFrame, count).Success? ==> unchanged(this) && unchanged(file)
      ensures old(Open()) && !ReadRefusal(firstFrame, count).Success? ==> status == ReadRefusal(firstFrame, count)
      ensures old(Open()) && ReadRefusal(firstFrame, count).Success? ==>
                && status == failure == ReadStatus(io, count)
                && (status.Success? ==>
                      && unchanged(this) && unchanged(file)
                      && |output| == count && output == Committed()[firstFrame * 3..firstFrame * 3 + count])
      ensures !status.Success? ==> output == []
    {
      output := [];
      if !bound {
        return NotBound, [];
      }
      if !failure.Success? {
        return failure, [];
      }
      if count == 0 || count % 3 != 0 {
        return BadRange, [];
      }
      var frames := count / 3;
      if firstFrame > committedFrames || frames > committedFrames - firstFrame {
        return BadRange, [];
      }
      var offset := HEADER_BYTES + firstFrame * 3;
      var prefix := offset % 4;
      if count > scratch || prefix > scratch - count {
        return TooSmall, [];
      }
      var savedCursor := writerCursor;
      SliceOfSlice(file.content, HEADER_BYTES, CommittedEnd(), firstFrame * 3, count);
      var result;
      result, output := ReadAt(offset, count, io.there, io.io);
      var returned := file.Seek(savedCursor, io.back);
      if !returned {
        status := Latch(if result.Success? then IoError else result);
        return status, [];
      }
      if !result.Success? {
        status := Latch(result);
        return status, [];
      }
      return Success, output;
    }

    method Unbind()
      requires Valid()
      modifies this`bound, this`scratch
      ensures Valid() && !bound && scratch == 0
    {
      bound, scratch := false, 0;
    }
  }
}
