/** The replay reader as an object: chunked reads, the framing loop, the decoding loops and
    the file identity (src/market_data_replay.cpp), proved against Frame, Decode and
    ReadFile. */
module ReplayReader {
  import opened CsvFormat
  import opened CsvDecode
  import opened AuditFile

  const READ_BUFFER_BYTES: nat := 64 * 1024

  datatype ReadAnswer = Chunk(n: nat) | Interrupted | ReadRefused

  /** A file open for reading.  A read returns any number of the bytes asked for, at least
      one before the end; it may fail, and it is not interrupted forever. */
  class InputFile {
    const bytes: string
    var position: nat
    var interruptions: nat

    ghost predicate Valid()
      reads this
    {
      position <= |bytes|
    }

    constructor (bytes: string, interruptions: nat)
      ensures Valid() && this.bytes == bytes && position == 0
    {
      this.bytes, position, this.interruptions := bytes, 0, interruptions;
    }

    method Read(buffer: array<char>) returns (answer: ReadAnswer)
      requires Valid() && buffer.Length > 0
      modifies this, buffer
      ensures Valid() && answer.Chunk? ==> && answer.n <= buffer.Length && position == old(position) + answer.n
                                           && buffer[..answer.n] == bytes[old(position)..position]
                                           && (answer.n == 0 <==> old(position) == |bytes|)
      ensures Valid() && (!answer.Chunk? ==> position == old(position))
      ensures interruptions + (if answer.Interrupted? then 1 else 0) == old(interruptions)
    {
      var size: int := *;
      var failed: bool, interrupted: bool := *, *;
      if interrupted && interruptions > 0 {
        interruptions := interruptions - 1;
        return Interrupted;
      }
      if failed {
        return ReadRefused;
      }
      var limit := if buffer.Length <= |bytes| - position then buffer.Length else |bytes| - position;
      var n := if 1 <= size <= limit then size else limit;
      forall i | 0 <= i < n {
        buffer[i] := bytes[position + i];
      }
      position := position + n;
      answer := Chunk(n);
    }
  }

  datatype ByteRead = Byte(c: char) | NoMoreBytes | ByteFailed

  datatype Latch = NoError | FirstError(error: ReadError)

  datatype NextRow = NextRow(row: AuditRow) | AtEnd | ReadStopped(error: ReadError)

  // ------------------------------------------------------------- decoding loops

  /** The inner loop: the next comma or forbidden byte. */
  method FindComma(row: string, begin: nat) returns (comma: nat)
    requires begin <= |row|
    ensures comma == begin + Scan(row[begin..])
  {
    comma := begin;
    while comma < |row| && row[comma] != ',' && !Forbidden(row[comma])
      invariant begin <= comma <= |row|
      invariant forall j :: begin <= j < comma ==> row[j] != ',' && !Forbidden(row[j])
    {
      comma := comma + 1;
    }
    ghost var s := row[begin..];
    assert forall j :: 0 <= j < comma - begin ==> s[j] == row[begin + j];
    ScanStops(s, comma - begin);
  }

  /** The loop over the columns stays on the way to the same result. */
  lemma SplitMoves(goal: SplitRow, fields: seq<string>, row: string, begin: nat, column: nat, comma: nat)
    requires begin <= |row| && column < 8 && comma == begin + Scan(row[begin..])
    requires goal == Prepend(fields, Split(row[begin..], column))
    ensures comma == |row| ==> goal == SplitFailed(WrongColumnCount, column)
    ensures comma < |row| && row[comma] != ',' ==> goal == SplitFailed(InvalidCsv, column)
    ensures comma < |row| && row[comma] == ',' ==>
              goal == Prepend(fields + [row[begin..comma]], Split(row[comma + 1..], column + 1))
  {
    var s, i := row[begin..], comma - begin;
    if comma < |row| && row[comma] == ',' {
      assert s[..i] == row[begin..comma] && s[i + 1..] == row[comma + 1..];
      PrependMore(fields, row[begin..comma], Split(row[comma + 1..], column + 1));
    }
  }

  lemma SplitEnds(goal: SplitRow, fields: seq<string>, rest: string)
    requires goal == Prepend(fields, Split(rest, 8))
    ensures goal == SplitOk(fields, rest)
  {
    assert fields + [] == fields;
  }

  /** The eight unquoted fields of a row. */
  method SplitFields(row: string) returns (r: SplitRow)
    ensures r == Split(row, 0)
  {
    ghost var goal := Split(row, 0);
    PrependNothing(goal);
    assert row[0..] == row;
    r := SplitLoop(row, goal);
  }

  method SplitLoop(row: string, ghost goal: SplitRow) returns (r: SplitRow)
    requires goal == Prepend([], Split(row[0..], 0))
    ensures r == goal
  {
    var fields: seq<string> := [];
    var begin, index := 0, 0;
    while index < 8
      invariant index <= 8 && begin <= |row|
      invariant goal == Prepend(fields, Split(row[begin..], index))
    {
      var comma := FindComma(row, begin);
      SplitMoves(goal, fields, row, begin, index, comma);
      if comma == |row| {
        return SplitFailed(WrongColumnCount, index);
      }
      if row[comma] != ',' {
        return SplitFailed(InvalidCsv, index);
      }
      fields := fields + [row[begin..comma]];
      begin, index := comma + 1, index + 1;
    }
    SplitEnds(goal, fields, row[begin..]);
    r := SplitOk(fields, row[begin..]);
  }

  lemma PrependNothing(s: SplitRow)
    ensures Prepend([], s) == s
  {
    assert s.SplitOk? ==> [] + s.fields == s.fields;
  }

  lemma PrependMore(fields: seq<string>, field: string, s: SplitRow)
    ensures Prepend(fields, Prepend([field], s)) == Prepend(fields + [field], s)
  {
    assert s.SplitOk? ==> fields + ([field] + s.fields) == (fields + [field]) + s.fields;
  }

  /** The payload loop: undo the doubling of quotes into the record's payload buffer. */
  method UnescapeInto(inside: string, payload: array<char>) returns (r: Unescaped)
    requires payload.Length == MAX_PAYLOAD
    modifies payload
    ensures r == Unescape(inside, "")
    ensures r.Payload? ==> |r.bytes| <= MAX_PAYLOAD && payload[..|r.bytes|] == r.bytes
  {
    var size, offset := 0, 0;
    assert inside[0..] == inside && payload[..0] == "";
    while offset < |inside|
      invariant offset <= |inside| && size <= MAX_PAYLOAD
      invariant Unescape(inside, "") == Unescape(inside[offset..], payload[..size])
    {
      var s := inside[offset..];
      var byte := inside[offset];
      if byte == '"' && (offset + 1 >= |inside| || inside[offset + 1] != '"') {
        return UnescapeFailed(InvalidCsv);
      }
      if size == MAX_PAYLOAD {
        return UnescapeFailed(PayloadTooLarge);
      }
      ghost var done := payload[..size];
      payload[size] := byte;
      assert payload[..size + 1] == done + [byte];
      size := size + 1;
      if byte == '"' {
        assert s[2..] == inside[offset + 2..];
        offset := offset + 2;
      } else {
        assert s[1..] == inside[offset + 1..];
        offset := offset + 1;
      }
    }
    r := Payload(payload[..size]);
  }

  /** One byte of what is left after position n. */
  lemma TakenFrom(all: string, n: nat, c: char, rest: string)
    requires n <= |all| && all[n..] == [c] + rest
    ensures n < |all| && all[n] == c && rest == all[n + 1..] && all[..n] + [c] == all[..n + 1]
  {
    assert all[n..][0] == c && all[n..][1..] == rest;
  }

  // ------------------------------------------------------------------- the reader

  datatype ByteStep = GoOn(state: FrameState) | Stop(r: Framed)

  class Reader {
    const input: InputFile
    const readBuffer: array<char>
    const recordBuffer: array<char>
    const payload: array<char>
    var readBegin: nat
    var readSize: nat
    var recordSize: nat
    var id: FileId
    var error: Latch
    var endOfFile: bool
    /** The bytes not yet taken: the unread part of the chunk and the rest of the file. */
    ghost var rest: string

    constructor (input: InputFile)
      requires input.Valid() && input.position == 0
      ensures Valid() && this.input == input && rest == input.bytes && id == NoRows && error.NoError? && !endOfFile
      ensures fresh(readBuffer) && fresh(recordBuffer) && fresh(payload)
    {
      this.input := input;
      readBuffer, recordBuffer, payload := new char[READ_BUFFER_BYTES], new char[MAX_RECORD], new char[MAX_PAYLOAD];
      readBegin, readSize, recordSize, id, error, endOfFile := 0, 0, 0, NoRows, NoError, false;
      rest := input.bytes;
    }

    ghost predicate Valid()
      reads this, input, readBuffer
    {
      && input.Valid() && readBuffer.Length == READ_BUFFER_BYTES && recordBuffer.Length == MAX_RECORD
      && payload.Length == MAX_PAYLOAD && readBuffer != recordBuffer && readBuffer != payload && recordBuffer != payload
      && readBegin <= readSize <= READ_BUFFER_BYTES && recordSize <= MAX_RECORD
      && rest == readBuffer[readBegin..readSize] + input.bytes[input.position..]
    }

    /** read_byte: the next byte of the file, whatever the size of the chunks. */
    method ReadByte() returns (r: ByteRead)
      requires Valid()
      modifies this`readBegin, this`readSize, this`rest, input, readBuffer
      ensures Valid()
      ensures r.Byte? ==> old(rest) == [r.c] + rest
      ensures r.NoMoreBytes? ==> old(rest) == rest == []
      ensures r.ByteFailed? ==> rest == old(rest)
    {
      if readBegin == readSize {
        var filled := false;
        while !filled
          invariant Valid() && rest == old(rest) && (filled ==> readBegin < readSize)
          invariant !filled ==> readBegin == readSize
          decreases !filled, input.interruptions
        {
          ghost var at := input.position;
          var answer := input.Read(readBuffer);
          match answer
          case Interrupted =>
            assert readBuffer[readBegin..readSize] == "";
          case ReadRefused =>
            assert readBuffer[readBegin..readSize] == "";
            return ByteFailed;
          case Chunk(n) =>
            if n == 0 {
              assert readBuffer[readBegin..readSize] == "";
              return NoMoreBytes;
            }
            readBegin, readSize, filled := 0, n, true;
            assert input.bytes[at..] == input.bytes[at..input.position] + input.bytes[input.position..];
        }
      }
      var c := readBuffer[readBegin];
      assert readBuffer[readBegin..readSize] == [c] + readBuffer[readBegin + 1..readSize];
      readBegin := readBegin + 1;
      rest := readBuffer[readBegin..readSize] + input.bytes[input.position..];
      r := Byte(c);
    }

    method KeepByte(c: char)
      requires recordSize < recordBuffer.Length
      modifies this`recordSize, recordBuffer
      ensures recordSize == old(recordSize) + 1 && recordBuffer[..recordSize] == old(recordBuffer[..recordSize]) + [c]
    {
      recordBuffer[recordSize] := c;
      recordSize := recordSize + 1;
    }

    /** recordSize bytes of all have been taken into the record. */
    ghost predicate Taken(all: string)
      reads this, input, readBuffer, recordBuffer
    {
      && Valid() && recordSize <= |all| && rest == all[recordSize..]
      && recordBuffer[..recordSize] == all[..recordSize]
    }

    /** One byte of a record: the framing goes on or stops. */
    method TakeByte(state: FrameState, ghost all: string) returns (step: ByteStep)
      requires Taken(all)
      modifies this`readBegin, this`readSize, this`rest, this`recordSize, input, readBuffer, recordBuffer
      ensures Valid()
      ensures step.GoOn? ==> && Taken(all) && recordSize == old(recordSize) + 1
                             && Frame(all, old(recordSize), state) == Frame(all, recordSize, step.state)
      ensures step.Stop? && step.r != FrameError(ReadFailed) ==> step.r == Frame(all, old(recordSize), state)
      ensures step.Stop? && step.r.Record? ==> Taken(all) && step.r.size == recordSize
    {
      var byte := ReadByte();
      if byte.ByteFailed? {
        return Stop(FrameError(ReadFailed));
      }
      if byte.NoMoreBytes? {
        return Stop(if recordSize == 0 then EndOfFile else FrameError(TruncatedRecord));
      }
      TakenFrom(all, recordSize, byte.c, rest);
      FrameStep(all, recordSize, state);
      if recordSize == MAX_RECORD {
        return Stop(FrameError(RecordLimit));
      }
      KeepByte(byte.c);
      match FrameNext(state, byte.c)
      case Continue(next) => step := GoOn(next);
      case Complete => step := Stop(Record(recordSize));
      case Malformed => step := Stop(FrameError(InvalidCsv));
    }

    /** read_logical_record: the record that Frame finds at the start of the rest. */
    method ReadLogicalRecord() returns (r: Framed)
      requires Valid()
      modifies this`readBegin, this`readSize, this`rest, this`recordSize, input, readBuffer, recordBuffer
      ensures Valid()
      ensures r != FrameError(ReadFailed) ==> r == Frame(old(rest), 0, FieldStart)
      ensures r.Record? ==>
                && r.size == recordSize <= |old(rest)| && recordBuffer[..recordSize] == old(rest)[..recordSize]
                && rest == old(rest)[recordSize..]
    {
      recordSize := 0;
      ghost var all := rest;
      assert all[0..] == all && recordBuffer[..0] == all[..0];
      var step := GoOn(FieldStart);
      while step.GoOn?
        invariant Valid()
        invariant step.GoOn? ==> Taken(all) && Frame(all, 0, FieldStart) == Frame(all, recordSize, step.state)
        invariant step.Stop? && step.r != FrameError(ReadFailed) ==> step.r == Frame(all, 0, FieldStart)
        invariant step.Stop? && step.r.Record? ==> Taken(all) && step.r.size == recordSize
        decreases step.GoOn?, |all| - recordSize
      {
        step := TakeByte(step.state, all);
      }
      r := step.r;
    }

    /** next: one row, the end, or the first error, which stays. */
    method Next() returns (r: NextRow)
      requires Valid()
      modifies this, input, readBuffer, recordBuffer, payload
      ensures Valid()
      ensures !old(error).NoError? ==> r == ReadStopped(old(error).error) && error == old(error)
      ensures old(error.NoError? && endOfFile) ==> r == AtEnd && endOfFile && error.NoError?
      ensures old(error.NoError? && !endOfFile) ==> Advanced(old(rest), old(id), r, rest, id)
      ensures r.NextRow? ==> error.NoError? && !endOfFile
      ensures r.ReadStopped? ==> error == FirstError(r.error)
    {
      if !error.NoError? {
        return ReadStopped(error.error);
      }
      if endOfFile {
        return AtEnd;
      }
      ghost var all := rest;
      var framed := ReadLogicalRecord();
      if framed.EndOfFile? {
        endOfFile := true;
        return AtEnd;
      }
      if framed.FrameError? {
        error := FirstError(framed.error);
        return ReadStopped(framed.error);
      }
      r := Accept(all);
    }

    /** A framed record: decode it and check it against the file's identity. */
    method Accept(ghost all: string) returns (r: NextRow)
      requires Valid() && Frame(all, 0, FieldStart) == Record(recordSize) && rest == all[recordSize..]
      requires recordBuffer[..recordSize] == all[..recordSize] && error.NoError? && !endOfFile
      modifies this`id, this`error, payload
      ensures Valid() && Advanced(all, old(id), r, rest, id) && !r.AtEnd?
      ensures (r.NextRow? ==> error.NoError?) && (r.ReadStopped? ==> error == FirstError(r.error))
    {
      var record := recordBuffer[..recordSize];
      var decoded := DecodeRecord(record, payload);
      ReadRowsStep(all, id);
      if decoded.DecodeFailed? {
        error := FirstError(decoded.error);
        return ReadStopped(decoded.error);
      }
      var checked := CheckSequence(id, decoded.row);
      if checked.OutOfSequence? {
        error := FirstError(checked.error);
        return ReadStopped(checked.error);
      }
      id := IdOf(decoded.row);
      r := NextRow(decoded.row);
    }
  }

  lemma FrameStep(all: string, n: nat, state: FrameState)
    requires n < |all|
    ensures Frame(all, n, state)
         == if n == MAX_RECORD then FrameError(RecordLimit)
            else match FrameNext(state, all[n])
                 case Continue(next) => Frame(all, n + 1, next)
                 case Complete => Record(n + 1)
                 case Malformed => FrameError(InvalidCsv)
  {
  }

  /** What one call of next says about the rest of the file. */
  ghost predicate Advanced(all: string, id: FileId, r: NextRow, rest: string, id': FileId) {
    match r
    case NextRow(row) =>
      |rest| < |all| && ReadRows(all, id) == FileContents([row] + ReadRows(rest, id').rows, ReadRows(rest, id').ending)
    case AtEnd => ReadRows(all, id) == FileContents([], CleanEnd)
    case ReadStopped(error) => error == ReadFailed || ReadRows(all, id) == FileContents([], ErrorEnd(error))
  }

  /** ReadRows over a framed record. */
  lemma ReadRowsStep(all: string, id: FileId)
    requires Frame(all, 0, FieldStart).Record?
    ensures var size := Frame(all, 0, FieldStart).size;
            var decoded := Decode(all[..size]);
            if decoded.DecodeFailed? then ReadRows(all, id) == FileContents([], ErrorEnd(decoded.error))
            else if CheckSequence(id, decoded.row).OutOfSequence?
              then ReadRows(all, id) == FileContents([], ErrorEnd(CheckSequence(id, decoded.row).error))
            else
              var rest := ReadRows(all[size..], IdOf(decoded.row));
              ReadRows(all, id) == FileContents([decoded.row] + rest.rows, rest.ending)
  {
  }

  predicate QuotedField(encoded: string) {
    |encoded| >= 2 && encoded[0] == '"' && encoded[|encoded| - 1] == '"'
  }

  /** decode_record in terms of what its three parts return. */
  lemma DecodeParts(record: string)
    requires record != [] && record[|record| - 1] == '\n'
    ensures var split := Split(record[..|record| - 1], 0);
            && (split.SplitFailed? ==> Decode(record) == DecodeFailed(split.error, split.column))
            && (split.SplitOk? ==> |split.fields| == 8)
            && (split.SplitOk? && !QuotedField(split.rest) ==> Decode(record) == DecodeFailed(InvalidCsv, 8))
            && (split.SplitOk? && QuotedField(split.rest) ==>
                  Decode(record)
                    == Assembled(DecodeFields(split.fields), Unescape(split.rest[1..|split.rest| - 1], "")))
  {
    EightFields(record[..|record| - 1], 0);
  }

  function Assembled(fields: Decoded, u: Unescaped): Decoded {
    if fields.DecodeFailed? then fields
    else if u.UnescapeFailed? then DecodeFailed(u.error, 8)
    else Row(fields.row.(payload := u.bytes))
  }

  /** The end of decode_record: the converted fields, then the payload. */
  method Assemble(fields: Decoded, encoded: string, payload: array<char>) returns (r: Decoded)
    requires QuotedField(encoded) && payload.Length == MAX_PAYLOAD
    modifies payload
    ensures r == Assembled(fields, Unescape(encoded[1..|encoded| - 1], ""))
    ensures r.Row? ==> |r.row.payload| <= MAX_PAYLOAD && payload[..|r.row.payload|] == r.row.payload
  {
    if fields.DecodeFailed? {
      return fields;
    }
    var u := UnescapeInto(encoded[1..|encoded| - 1], payload);
    r := Assembled(fields, u);
  }

  /** decode_record. */
  method DecodeRecord(record: string, payload: array<char>) returns (r: Decoded)
    requires record != [] && record[|record| - 1] == '\n' && payload.Length == MAX_PAYLOAD
    modifies payload
    ensures r == Decode(record)
    ensures r.Row? ==> |r.row.payload| <= MAX_PAYLOAD && payload[..|r.row.payload|] == r.row.payload
  {
    DecodeParts(record);
    var split := SplitFields(record[..|record| - 1]);
    if split.SplitFailed? {
      return DecodeFailed(split.error, split.column);
    }
    if !QuotedField(split.rest) {
      return DecodeFailed(InvalidCsv, 8);
    }
    r := Assemble(DecodeFields(split.fields), split.rest, payload);
  }

  lemma {:induction false} EightFields(s: string, column: nat)
    requires column <= 8
    ensures Split(s, column).SplitOk? ==> |Split(s, column).fields| == 8 - column
    decreases 8 - column
  {
    if column < 8 && Scan(s) < |s| {
      EightFields(s[Scan(s) + 1..], column + 1);
    }
  }

  /** open: the first record must be the header. */
  method Open(input: InputFile) returns (reader: Reader?, error: ReadError)
    requires input.Valid() && input.position == 0
    modifies input
    ensures reader != null ==>
              && fresh(reader) && fresh(reader.readBuffer) && fresh(reader.recordBuffer) && fresh(reader.payload)
                               && reader.Valid() && reader.input == input && reader.error.NoError? && !reader.endOfFile
                               && reader.id == NoRows && ReadFile(input.bytes) == ReadRows(reader.rest, NoRows)
    ensures reader == null ==> error == ReadFailed || ReadFile(input.bytes) == FileContents([], ErrorEnd(error))
  {
    var r := new Reader(input);
    var framed := r.ReadLogicalRecord();
    if framed.FrameError? {
      return null, framed.error;
    }
    if framed.EndOfFile? || r.recordBuffer[..r.recordSize] != AUDIT_HEADER {
      return null, InvalidHeader;
    }
    reader, error := r, InvalidHeader;
  }

  /** Reading a whole file in chunks of any size gives its contents, unless a read fails. */
  method ReadAll(input: InputFile) returns (rows: seq<AuditRow>, ending: Ending)
    requires input.Valid() && input.position == 0
    modifies input
    ensures ending != ErrorEnd(ReadFailed) ==> FileContents(rows, ending) == ReadFile(input.bytes)
  {
    var reader, error := Open(input);
    if reader == null {
      return [], ErrorEnd(error);
    }
    rows, ending := [], CleanEnd;
    ghost var all := ReadRows(reader.rest, NoRows);
    while true
      invariant fresh(reader) && fresh(reader.readBuffer) && fresh(reader.recordBuffer) && fresh(reader.payload)
      invariant reader.Valid() && reader.input == input && reader.error.NoError? && !reader.endOfFile
      invariant all == After(rows, ReadRows(reader.rest, reader.id))
      decreases |reader.rest|
    {
      var r := reader.Next();
      match r
      case NextRow(row) =>
        AfterMore(rows, row, ReadRows(reader.rest, reader.id));
        rows := rows + [row];
      case AtEnd =>
        assert rows + [] == rows;
        return rows, CleanEnd;
      case ReadStopped(e) =>
        assert rows + [] == rows;
        return rows, ErrorEnd(e);
    }
  }

  /** What was written is read back, whatever the size of the chunks. */
  method ReadBack(input: InputFile, ghost written: seq<AuditRow>) returns (rows: seq<AuditRow>, ending: Ending)
    requires input.Valid() && input.position == 0 && WritableRows(NoRows, written) && input.bytes == FileText(written)
    modifies input
    ensures ending == ErrorEnd(ReadFailed) || (rows == written && ending == CleanEnd)
  {
    FileRoundTrip(written);
    rows, ending := ReadAll(input);
  }

  function After(rows: seq<AuditRow>, c: FileContents): FileContents {
    FileContents(rows + c.rows, c.ending)
  }

  lemma AfterMore(rows: seq<AuditRow>, row: AuditRow, c: FileContents)
    ensures After(rows, FileContents([row] + c.rows, c.ending)) == After(rows + [row], c)
  {
    assert rows + ([row] + c.rows) == (rows + [row]) + c.rows;
  }
}
