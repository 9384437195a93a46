/** The two CSV row formats (src/csv_formatter.cpp). */
module CsvFormat {
  import opened Types
  import opened Decimal
  import opened Sequencer
  import opened TopFive

  const MAX_RECORD: nat := 3 * 1024 * 1024
  const MAX_PAYLOAD: nat := 1024 * 1024
  const NANOSECONDS: int := 1_000_000_000

  const AUDIT_COLUMNS: seq<string> :=
    ["recv_tsec", "recv_tnsec", "venue", "stream_kind", "shard_id", "conn_epoch", "conn_seq", "symbol"]

  const AUDIT_HEADER: string := Joined(AUDIT_COLUMNS) + "payload_json" + "\n"

  datatype AuditRow = AuditRow(ts: Timestamp, venue: Venue, kind: Kind, shard: U32,
                               epoch: U64, connSeq: U64, symbol: string, payload: string)

  datatype RowType = DifferentialRow | RefreshRow

  datatype BookRow = BookRow(ts: Timestamp, seqNo: U64, instrument: I32, rowType: RowType,
                             side: RowSide, bids: seq<Level>, asks: seq<Level>)

  datatype FormatError =
    | InvalidTimestamp | InvalidSequence | InvalidSymbol | InvalidInstrumentId | InvalidBook | RecordTooLarge

  datatype Formatted = Text(text: string) | FormatFailed(error: FormatError)

  predicate ValidTimestamp(ts: Timestamp) {
    0 <= ts.nanoseconds < NANOSECONDS
  }

  /** [A-Z0-9]{1,32} */
  predicate NormalizedSymbol(s: string) {
    1 <= |s| <= 32 && forall i :: 0 <= i < |s| ==> 'A' <= s[i] <= 'Z' || IsDigit(s[i])
  }

  function VenueText(v: Venue): string {
    if v.Spot? then "spot" else "usdm"
  }

  function KindText(k: Kind): string {
    match k
    case DepthDiff => "depth_diff"
    case Depth5 => "depth5"
    case Trade => "trade"
  }

  // ------------------------------------------------------------- audit rows

  /** Double every quote, as section 2 of RFC 4180 asks. */
  function Escaped(s: string): string {
    if s == [] then []
    else (if s[0] == '"' then "\"\"" else [s[0]]) + Escaped(s[1..])
  }

  function AuditFields(row: AuditRow): seq<string> {
    [IntText(row.ts.seconds), IntText(row.ts.nanoseconds), VenueText(row.venue), KindText(row.kind),
     IntText(row.shard), IntText(row.epoch), IntText(row.connSeq), row.symbol]
  }

  /** Every field followed by a comma. */
  function Joined(fields: seq<string>): string {
    if fields == [] then [] else fields[0] + "," + Joined(fields[1..])
  }

  function AuditText(row: AuditRow): string {
    Joined(AuditFields(row)) + "\"" + Escaped(row.payload) + "\"" + "\n"
  }

  function FormatAudit(row: AuditRow): Formatted {
    if !ValidTimestamp(row.ts) then FormatFailed(InvalidTimestamp)
    else if row.connSeq == 0 then FormatFailed(InvalidSequence)
    else if !NormalizedSymbol(row.symbol) then FormatFailed(InvalidSymbol)
    else if |AuditText(row)| > MAX_RECORD then FormatFailed(RecordTooLarge)
    else Text(AuditText(row))
  }

  predicate ValidAuditRow(row: AuditRow) {
    ValidTimestamp(row.ts) && row.connSeq != 0 && NormalizedSymbol(row.symbol) && |row.payload| <= MAX_PAYLOAD
  }

  lemma {:induction false} EscapedSize(s: string)
    ensures |s| <= |Escaped(s)| <= 2 * |s|
  {
    if s != [] {
      EscapedSize(s[1..]);
    }
  }

  lemma AuditFieldSizes(row: AuditRow)
    ensures var f := AuditFields(row);
            forall i :: 0 <= i < 7 ==> 1 <= |f[i]| <= 20
  {
    IntTextSize(row.ts.seconds);
    IntTextSize(row.ts.nanoseconds);
    IntTextSize(row.shard);
    IntTextSize(row.epoch);
    IntTextSize(row.connSeq);
  }

  lemma {:induction false} JoinedSize(fields: seq<string>, n: nat)
    requires forall i :: 0 <= i < |fields| ==> |fields[i]| <= n
    ensures |Joined(fields)| <= |fields| * (n + 1)
  {
    if fields != [] {
      JoinedSize(fields[1..], n);
    }
  }

  /** A payload of at most 1 MiB always fits the record limit. */
  lemma AuditRowFits(row: AuditRow)
    requires ValidAuditRow(row)
    ensures FormatAudit(row) == Text(AuditText(row)) && 1 <= |AuditText(row)| <= MAX_RECORD
  {
    EscapedSize(row.payload);
    AuditFieldSizes(row);
    JoinedSize(AuditFields(row), 32);
  }

  // -------------------------------------------------------------- book rows

  function RowTypeText(t: RowType): string {
    if t.DifferentialRow? then "D" else "P"
  }

  function SideText(s: RowSide): string {
    match s
    case BidRow => "B"
    case AskRow => "S"
    case NeutralRow => "N"
  }

  /** Prices or quantities of the first n of five levels, missing ones as zero. */
  function Column(levels: seq<Level>, quantity: bool, n: nat): string {
    if n == 0 then []
    else Column(levels, quantity, n - 1) + ","
         + IntText(if n > |levels| then 0 else if quantity then levels[n - 1].quantity else levels[n - 1].price)
  }

  function BookText(row: BookRow): string {
    IntText(row.ts.seconds) + "," + IntText(row.ts.nanoseconds) + "," + IntText(row.seqNo) + ","
    + IntText(row.instrument) + "," + RowTypeText(row.rowType) + "," + SideText(row.side)
    + Column(row.bids, false, DEPTH) + Column(row.bids, true, DEPTH)
    + Column(row.asks, false, DEPTH) + Column(row.asks, true, DEPTH) + "\n"
  }

  /** The formatter's own check of the book. */
  predicate PrintableBook(bids: seq<Level>, asks: seq<Level>) {
    GoodSide(Bid, bids) && GoodSide(Ask, asks) && !Crossed(bids, asks)
  }

  function FormatBook(row: BookRow): Formatted {
    if !ValidTimestamp(row.ts) then FormatFailed(InvalidTimestamp)
    else if row.seqNo == 0 then FormatFailed(InvalidSequence)
    else if row.instrument <= 0 then FormatFailed(InvalidInstrumentId)
    else if !PrintableBook(row.bids, row.asks) then FormatFailed(InvalidBook)
    else if |BookText(row)| > MAX_RECORD then FormatFailed(RecordTooLarge)
    else Text(BookText(row))
  }

  lemma {:induction false} ColumnSize(levels: seq<Level>, quantity: bool, n: nat)
    ensures |Column(levels, quantity, n)| <= 21 * n
  {
    if n != 0 {
      ColumnSize(levels, quantity, n - 1);
      IntTextSize(if n > |levels| then 0 else if quantity then levels[n - 1].quantity else levels[n - 1].price);
    }
  }

  /** A book row is never too large. */
  lemma BookRowFits(row: BookRow)
    ensures 1 <= |BookText(row)| <= MAX_RECORD
  {
    IntTextSize(row.ts.seconds);
    IntTextSize(row.ts.nanoseconds);
    IntTextSize(row.seqNo);
    IntTextSize(row.instrument);
    ColumnSize(row.bids, false, DEPTH);
    ColumnSize(row.bids, true, DEPTH);
    ColumnSize(row.asks, false, DEPTH);
    ColumnSize(row.asks, true, DEPTH);
  }

  /** When the formatters succeed. */
  lemma FormatsExactly(audit: AuditRow, book: BookRow)
    requires |audit.payload| <= MAX_PAYLOAD
    ensures FormatAudit(audit).Text?
            <==> 0 <= audit.ts.nanoseconds <= 999_999_999 && audit.connSeq > 0 && NormalizedSymbol(audit.symbol)
    ensures FormatBook(book).Text?
            <==> && 0 <= book.ts.nanoseconds <= 999_999_999 && book.seqNo > 0 && book.instrument > 0
                 && GoodSide(Bid, book.bids) && GoodSide(Ask, book.asks) && !Crossed(book.bids, book.asks)
  {
    BookRowFits(book);
    if ValidAuditRow(audit) {
      AuditRowFits(audit);
    }
  }
}
