/** A whole audit file: what the writer puts into it and what replay reads out of it. */
module AuditFile {
  import opened Types
  import opened Decimal
  import opened CsvFormat
  import opened CsvDecode

  // ------------------------------------------------------------ file identity

  /** What validate_file_sequence remembers of the rows so far. */
  datatype FileId = NoRows | LastRow(venue: Venue, symbol: string, epoch: U64, connSeq: U64)

  datatype Checked = InSequence | OutOfSequence(error: ReadError)

  function CheckSequence(id: FileId, row: AuditRow): Checked {
    if id.NoRows? then InSequence
    else if row.venue != id.venue then OutOfSequence(ChangingVenue)
    else if row.symbol != id.symbol then OutOfSequence(ChangingSymbol)
    else if row.epoch < id.epoch then OutOfSequence(DecreasingEpoch)
    else if row.epoch == id.epoch && row.connSeq <= id.connSeq then OutOfSequence(NonIncreasingSequence)
    else InSequence
  }

  function IdOf(row: AuditRow): FileId {
    LastRow(row.venue, row.symbol, row.epoch, row.connSeq)
  }

  // ------------------------------------------------------------ reading a file

  datatype Ending = CleanEnd | ErrorEnd(error: ReadError)

  /** The rows read until the end of the file or the first error. */
  datatype FileContents = FileContents(rows: seq<AuditRow>, ending: Ending)

  function ReadRows(bytes: string, id: FileId): FileContents
    decreases |bytes|
  {
    match Frame(bytes, 0, FieldStart)
    case EndOfFile => FileContents([], CleanEnd)
    case FrameError(error) => FileContents([], ErrorEnd(error))
    case Record(size) =>
      match Decode(bytes[..size])
      case DecodeFailed(error, _) => FileContents([], ErrorEnd(error))
      case Row(row) =>
        match CheckSequence(id, row)
        case OutOfSequence(error) => FileContents([], ErrorEnd(error))
        case InSequence =>
          var rest := ReadRows(bytes[size..], IdOf(row));
          FileContents([row] + rest.rows, rest.ending)
  }

  /** Open and read a file: the first record must be the header. */
  function ReadFile(bytes: string): FileContents {
    match Frame(bytes, 0, FieldStart)
    case EndOfFile => FileContents([], ErrorEnd(InvalidHeader))
    case FrameError(error) => FileContents([], ErrorEnd(error))
    case Record(size) =>
      if bytes[..size] != AUDIT_HEADER then FileContents([], ErrorEnd(InvalidHeader))
      else ReadRows(bytes[size..], NoRows)
  }

  // ------------------------------------------------------------ writing a file

  function RowsText(rows: seq<AuditRow>): string {
    if rows == [] then [] else AuditText(rows[0]) + RowsText(rows[1..])
  }

  function FileText(rows: seq<AuditRow>): string {
    AUDIT_HEADER + RowsText(rows)
  }

  /** Valid rows of one shard, venue and symbol with increasing (epoch, sequence). */
  predicate WritableRows(id: FileId, rows: seq<AuditRow>)
    decreases |rows|
  {
    rows == [] ||
    (&& ValidAuditRow(rows[0]) && rows[0].shard == 0 && CheckSequence(id, rows[0]).InSequence?
     && WritableRows(IdOf(rows[0]), rows[1..]))
  }

  // --------------------------------------------------------------- round trip

  /** One row is read off the front of a file. */
  lemma ReadRowOff(row: AuditRow, text: string, rest: string, id: FileId)
    requires ValidAuditRow(row) && row.shard == 0 && CheckSequence(id, row).InSequence? && text == AuditText(row)
    ensures ReadRows(text + rest, id)
            == FileContents([row] + ReadRows(rest, IdOf(row)).rows, ReadRows(rest, IdOf(row)).ending)
  {
    FrameFindsRow(row, rest);
    DecodeFindsRow(row);
    assert (text + rest)[..|text|] == text && (text + rest)[|text|..] == rest;
  }

  lemma {:induction false} ReadRowsBack(rows: seq<AuditRow>, id: FileId)
    requires WritableRows(id, rows)
    ensures ReadRows(RowsText(rows), id) == FileContents(rows, CleanEnd)
  {
    if rows != [] {
      ReadRowOff(rows[0], AuditText(rows[0]), RowsText(rows[1..]), id);
      ReadRowsBack(rows[1..], IdOf(rows[0]));
      assert [rows[0]] + rows[1..] == rows;
    }
  }

  /** A record of plain fields is framed as itself. */
  lemma FrameFindsPlain(fields: seq<string>, last: string, rest: string)
    requires forall i :: 0 <= i < |fields| ==> Plain(fields[i]) && fields[i] != [] && |fields[i]| <= 32
    requires Plain(last) && last != [] && |last| <= 32 && |fields| <= 8
    ensures Frame(Joined(fields) + last + "\n" + rest, 0, FieldStart) == Record(|Joined(fields) + last| + 1)
  {
    var body := Joined(fields) + last;
    JoinedWalks(fields);
    PlainWalks(last[1..]);
    WalksTogether(Joined(fields), last, FieldStart, FieldStart, Unquoted);
    JoinedSize(fields, 32);
    var bytes, m := body + "\n" + rest, |body|;
    assert bytes[0..m] == body;
    FrameSkips(bytes, 0, m, FieldStart, Unquoted);
    assert bytes[m] == '\n';
  }

  lemma ColumnNamesArePlain()
    ensures forall i :: 0 <= i < |AUDIT_COLUMNS| ==>
              Plain(AUDIT_COLUMNS[i]) && AUDIT_COLUMNS[i] != [] && |AUDIT_COLUMNS[i]| <= 32
    ensures Plain("payload_json")
  {
  }

  lemma FrameFindsHeader(rest: string)
    ensures Frame(AUDIT_HEADER + rest, 0, FieldStart) == Record(|AUDIT_HEADER|)
  {
    ColumnNamesArePlain();
    FrameFindsPlain(AUDIT_COLUMNS, "payload_json", rest);
  }

  /** The audit file round trip: the header and every row, whatever bytes the payloads
      hold, are read back exactly, followed by a clean end of file. */
  lemma FileRoundTrip(rows: seq<AuditRow>)
    requires WritableRows(NoRows, rows)
    ensures ReadFile(FileText(rows)) == FileContents(rows, CleanEnd)
  {
    var rest := RowsText(rows);
    FrameFindsHeader(rest);
    assert FileText(rows)[..|AUDIT_HEADER|] == AUDIT_HEADER && FileText(rows)[|AUDIT_HEADER|..] == rest;
    ReadRowsBack(rows, NoRows);
  }
}
