/** The buffered CSV file sink (src/buffered_file_sink.cpp) over a file whose writes may be
    short, interrupted or failing in any pattern. */
module FileSink {
  import opened CsvFormat

  const BUFFER_BYTES: nat := 256 * 1024

  /** The bytes of records, one after the other. */
  function Concat(records: seq<string>): string {
    if records == [] then [] else Concat(records[..|records| - 1]) + records[|records| - 1]
  }

  lemma ConcatAppend(records: seq<string>, r: string)
    ensures Concat(records + [r]) == Concat(records) + r
  {
    assert (records + [r])[..|records|] == records;
  }

  lemma {:induction false} ConcatSplit(records: seq<string>, n: nat)
    requires n <= |records|
    ensures Concat(records) == Concat(records[..n]) + Concat(records[n..])
    decreases |records|
  {
    if n == |records| {
      assert records[..n] == records && records[n..] == [];
    } else {
      var front, last := records[..|records| - 1], records[|records| - 1];
      ConcatSplit(front, n);
      assert front[..n] == records[..n] && front[n..] + [last] == records[n..];
      ConcatAppend(front[n..], last);
      assert Concat(front[..n]) + Concat(front[n..]) + last == Concat(front[..n]) + (Concat(front[n..]) + last);
    }
  }

  /** What the operating system answers to a write: a byte count, EINTR, or another error. */
  datatype WriteAnswer = Wrote(n: nat) | Interrupted | WriteFailed(errno: int)

  predicate BadAnswer(answer: WriteAnswer, size: nat) {
    answer.WriteFailed? || (answer.Wrote? && (answer.n == 0 || answer.n > size))
  }

  /** A file open for writing.  The answers are arbitrary, except that a write is not
      interrupted forever: interruptions bounds how often it still can be. */
  class File {
    var contents: string
    var interruptions: nat
    /** How many writes were answered with an error, with no progress, or with too much. */
    ghost var faults: nat

    constructor (interruptions: nat)
      ensures contents == "" && this.interruptions == interruptions && faults == 0
    {
      contents, this.interruptions, faults := "", interruptions, 0;
    }

    /** An answer beyond the size of the data is possible; the file then gains no more
        than the data. */
    method Write(data: string) returns (answer: WriteAnswer)
      modifies this
      ensures answer.Wrote? ==> contents == old(contents) + data[..if answer.n <= |data| then answer.n else |data|]
      ensures !answer.Wrote? ==> contents == old(contents)
      ensures interruptions + (if answer.Interrupted? then 1 else 0) == old(interruptions)
      ensures faults == old(faults) + if BadAnswer(answer, |data|) then 1 else 0
    {
      var n: int := *;
      var errno: int := *;
      var failed: bool, interrupted: bool := *, *;
      if interrupted && interruptions > 0 {
        interruptions := interruptions - 1;
        answer := Interrupted;
      } else if failed || n < 0 {
        answer := WriteFailed(errno);
      } else {
        contents := contents + data[..if n <= |data| then n else |data|];
        answer := Wrote(n);
      }
      faults := faults + if BadAnswer(answer, |data|) then 1 else 0;
    }
  }

  datatype SinkError = NoError | InvalidRecord | WriteError(errno: int) | CloseFailed

  const EIO: int := 5
  const EBADF: int := 9

  /** One line, not larger than a record may be. */
  predicate GoodRecord(record: string) {
    1 <= |record| <= MAX_RECORD && record[|record| - 1] == '\n'
  }

  class Sink {
    const file: File
    const buffer: array<char>
    const header: string
    var bufferedBytes: nat
    var bufferedRows: nat
    var rowsWritten: nat
    var isOpen: bool
    var error: SinkError
    /** Every record passed to Append so far. */
    ghost var offered: seq<string>

    ghost const Repr: set<object> := {this, file, buffer}

    /** The file is at any time a prefix of the header and the offered records that holds
        every row counted as written.  Without an error the rest is in the buffer. */
    ghost predicate Valid()
      reads this, file, buffer
    {
      && buffer.Length == BUFFER_BYTES && bufferedBytes <= BUFFER_BYTES
      && rowsWritten + bufferedRows <= |offered|
      && header + Concat(offered[..rowsWritten]) <= file.contents <= header + Concat(offered)
      && (error.NoError? ==> && rowsWritten + bufferedRows == |offered|
                             && file.contents == header + Concat(offered[..rowsWritten])
                             && buffer[..bufferedBytes] == Concat(offered[rowsWritten..])
                             && (bufferedBytes == 0 ==> bufferedRows == 0))
      && (error.NoError? && !isOpen ==> bufferedBytes == 0)
    }

    constructor (file: File, header: string)
      requires file.contents == ""
      ensures this.file == file && this.header == header && fresh(buffer)
      ensures isOpen && error.NoError? && offered == [] && rowsWritten == 0 && bufferedRows == 0 && bufferedBytes == 0
      ensures buffer.Length == BUFFER_BYTES && file.contents == ""
    {
      this.file, this.header := file, header;
      buffer := new char[BUFFER_BYTES];
      bufferedBytes, bufferedRows, rowsWritten := 0, 0, 0;
      isOpen, error, offered := true, NoError, [];
    }

    /** open_exclusive: write the header to a new file; without success there is no sink. */
    static method Open(file: File, header: string) returns (sink: Sink?)
      requires file.contents == ""
      modifies file
      ensures sink != null ==> && fresh(sink) && fresh(sink.buffer) && sink.file == file && sink.header == header
                               && sink.Valid() && sink.isOpen && sink.error.NoError?
                               && sink.offered == [] && sink.rowsWritten == 0 && sink.bufferedRows == 0
      ensures sink != null <==> file.faults == old(file.faults)
    {
      var s := new Sink(file, header);
      var ok := s.WriteAll(header);
      if ok {
        assert s.offered[..0] == [] && s.offered[0..] == [] && s.buffer[..0] == [];
        sink := s;
      } else {
        sink := null;
      }
    }

    /** write_all: try again after short and interrupted writes, stop at any other answer.
        What reaches the file is a prefix of the bytes, and all of them on success.  It fails
        exactly when the system answers badly, and stops at the first such answer. */
    method WriteAll(bytes: string) returns (ok: bool)
      requires error.NoError?
      modifies this`error, file
      ensures ok <==> error.NoError?
      ensures ok ==> file.contents == old(file.contents) + bytes
      ensures old(file.contents) <= file.contents <= old(file.contents) + bytes
      ensures file.faults == old(file.faults) + (if ok then 0 else 1) && (!ok ==> error.WriteError?)
    {
      var offset := 0;
      while offset < |bytes|
        invariant offset <= |bytes| && error.NoError? && file.faults == old(file.faults)
        invariant file.contents == old(file.contents) + bytes[..offset]
        decreases file.interruptions + |bytes| - offset
      {
        ghost var before := file.contents;
        var answer := file.Write(bytes[offset..]);
        match answer
        case Interrupted =>
        case WriteFailed(errno) =>
          error := WriteError(errno);
          return false;
        case Wrote(n) =>
          if n == 0 {
            assert bytes[offset..][..0] == [];
            error := WriteError(EIO);
            return false;
          }
          if n > |bytes| - offset {
            assert bytes[offset..][..|bytes| - offset] == bytes[offset..];
            assert bytes[..offset] + bytes[offset..] == bytes;
            assert file.contents == old(file.contents) + bytes;
            error := WriteError(EIO);
            return false;
          }
          assert bytes[..offset] + bytes[offset..][..n] == bytes[..offset + n];
          offset := offset + n;
      }
      assert bytes[..|bytes|] == bytes;
      ok := true;
    }

    /** flush_buffer: on success the buffer is in the file and its rows are counted. */
    method FlushBuffer() returns (ok: bool)
      requires Valid() && error.NoError?
      modifies this`error, this`bufferedBytes, this`bufferedRows, this`rowsWritten, file
      ensures Valid() && (ok <==> error.NoError?)
      ensures ok ==> bufferedBytes == 0 && bufferedRows == 0
      ensures rowsWritten + bufferedRows == old(rowsWritten + bufferedRows) && rowsWritten >= old(rowsWritten)
      ensures old(file.contents) <= file.contents
      ensures file.faults == old(file.faults) + (if ok then 0 else 1) && (!ok ==> error.WriteError?)
    {
      ConcatSplit(offered, rowsWritten);
      if bufferedBytes == 0 {
        return true;
      }
      var pending := buffer[..bufferedBytes];
      ok := WriteAll(pending);
      assert old(file.contents) + pending == header + Concat(offered) by {
        assert header + Concat(offered[..rowsWritten]) + Concat(offered[rowsWritten..])
            == header + (Concat(offered[..rowsWritten]) + Concat(offered[rowsWritten..]));
      }
      if ok {
        rowsWritten := rowsWritten + bufferedRows;
        bufferedBytes, bufferedRows := 0, 0;
        assert offered[..rowsWritten] == offered && offered[rowsWritten..] == [] && buffer[..0] == [];
      }
    }

    /** Another record is offered: the file stays a prefix. */
    ghost method Offer(record: string)
      requires Valid() && !error.NoError?
      modifies this`offered
      ensures Valid() && offered == old(offered) + [record]
    {
      ConcatAppend(offered, record);
      assert (offered + [record])[..rowsWritten] == offered[..rowsWritten];
      assert header + Concat(offered) <= header + Concat(offered + [record]);
      offered := offered + [record];
    }

    /** A record larger than the buffer goes to the file directly. */
    method AppendLarge(record: string) returns (ok: bool)
      requires Valid() && error.NoError? && isOpen && bufferedBytes == 0
      modifies this`error, this`rowsWritten, this`offered, file
      ensures Valid() && offered == old(offered) + [record] && (ok <==> error.NoError?)
      ensures rowsWritten == old(rowsWritten) + if ok then 1 else 0
      ensures old(file.contents) <= file.contents
      ensures file.faults == old(file.faults) + (if ok then 0 else 1) && (!ok ==> error.WriteError?)
    {
      assert offered[..rowsWritten] == offered;
      ConcatAppend(offered, record);
      ok := WriteAll(record);
      assert header + Concat(offered) + record == header + (Concat(offered) + record);
      assert (offered + [record])[..rowsWritten] == offered;
      offered := offered + [record];
      if ok {
        rowsWritten := rowsWritten + 1;
        assert offered[..rowsWritten] == offered && offered[rowsWritten..] == [];
      }
    }

    /** memcpy behind the buffered bytes. */
    method Copy(record: string)
      requires buffer.Length == BUFFER_BYTES && bufferedBytes + |record| <= BUFFER_BYTES
      modifies buffer
      ensures buffer[..bufferedBytes + |record|] == old(buffer[..bufferedBytes]) + record
    {
      forall i | 0 <= i < |record| {
        buffer[bufferedBytes + i] := record[i];
      }
    }

    /** Put a record behind the buffered bytes. */
    method Stage(record: string)
      requires Valid() && error.NoError? && isOpen && record != "" && |record| <= BUFFER_BYTES - bufferedBytes
      modifies this`bufferedBytes, this`bufferedRows, this`offered, buffer
      ensures Valid() && offered == old(offered) + [record] && bufferedRows == old(bufferedRows) + 1
    {
      Copy(record);
      ConcatAppend(offered, record);
      ConcatAppend(offered[rowsWritten..], record);
      assert (offered + [record])[..rowsWritten] == offered[..rowsWritten];
      assert (offered + [record])[rowsWritten..] == offered[rowsWritten..] + [record];
      offered := offered + [record];
      bufferedBytes := bufferedBytes + |record|;
      bufferedRows := bufferedRows + 1;
    }

    /** append_record: the record is counted exactly when it is accepted.  It is refused as
        invalid exactly when it is, and otherwise fails exactly when the system answers a write
        badly.  After the first error nothing more reaches the file. */
    method Append(record: string) returns (ok: bool)
      requires Valid()
      modifies this`error, this`bufferedBytes, this`bufferedRows, this`rowsWritten, this`offered, file, buffer
      ensures Valid() && offered == old(offered) + [record]
      ensures ok <==> error.NoError?
      ensures ok ==> old(error).NoError? && old(isOpen) && GoodRecord(record)
      ensures !old(error).NoError? ==> error == old(error) && file.contents == old(file.contents)
      ensures rowsWritten + bufferedRows == old(rowsWritten + bufferedRows) + if ok then 1 else 0
      ensures old(rowsWritten) <= rowsWritten && old(file.contents) <= file.contents
      ensures old(error).NoError? && !(old(isOpen) && GoodRecord(record)) ==>
                error == InvalidRecord && file.contents == old(file.contents)
      ensures old(error).NoError? && old(isOpen) && GoodRecord(record) ==>
                && file.faults == old(file.faults) + (if ok then 0 else 1) && (!ok ==> error.WriteError?)
    {
      if !error.NoError? {
        Offer(record);
        return false;
      }
      if !isOpen || record == "" || |record| > MAX_RECORD || record[|record| - 1] != '\n' {
        error := InvalidRecord;
        Offer(record);
        return false;
      }
      if |record| > BUFFER_BYTES || |record| > BUFFER_BYTES - bufferedBytes {
        ok := FlushBuffer();
        if !ok {
          Offer(record);
          return;
        }
      }
      if |record| > BUFFER_BYTES {
        ok := AppendLarge(record);
      } else {
        Stage(record);
        ok := true;
      }
    }

    method Flush() returns (ok: bool)
      requires Valid()
      modifies this`error, this`bufferedBytes, this`bufferedRows, this`rowsWritten, file
      ensures Valid() && (ok <==> error.NoError?)
      ensures ok ==> old(error).NoError? && isOpen && file.contents == header + Concat(offered) && bufferedRows == 0
      ensures !old(error).NoError? ==> error == old(error) && file.contents == old(file.contents)
      ensures rowsWritten + bufferedRows == old(rowsWritten + bufferedRows) && old(rowsWritten) <= rowsWritten
      ensures old(file.contents) <= file.contents
      ensures old(error).NoError? && isOpen ==> file.faults == old(file.faults) + if ok then 0 else 1
    {
      if !error.NoError? {
        return false;
      }
      if !isOpen {
        error := WriteError(EBADF);
        return false;
      }
      ok := FlushBuffer();
      assert ok ==> offered[..rowsWritten] == offered;
    }

    /** close: after a close without an error the file is the header and all records. */
    method Close() returns (ok: bool)
      requires Valid()
      modifies this`error, this`bufferedBytes, this`bufferedRows, this`rowsWritten, this`isOpen, file
      ensures Valid() && !isOpen && (ok <==> error.NoError?)
      ensures ok ==> file.contents == header + Concat(offered) && rowsWritten == |offered| && bufferedRows == 0
      ensures !old(error).NoError? ==> error == old(error) && file.contents == old(file.contents)
      ensures rowsWritten + bufferedRows == old(rowsWritten + bufferedRows) && old(rowsWritten) <= rowsWritten
      ensures old(file.contents) <= file.contents
      ensures old(error).NoError? && !ok ==> error == CloseFailed || file.faults == old(file.faults) + 1
    {
      if !isOpen {
        assert error.NoError? ==> offered[..rowsWritten] == offered;
        return error.NoError?;
      }
      if error.NoError? {
        var flushed := FlushBuffer();
      }
      isOpen := false;
      var closed: bool := *;
      if !closed && error.NoError? {
        error := CloseFailed;
      }
      assert error.NoError? ==> offered[..rowsWritten] == offered;
      ok := error.NoError?;
    }
  }
}
