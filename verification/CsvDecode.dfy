/** Framing and decoding of the audit file (read_logical_record, decode_record and
    validate_file_sequence in src/market_data_replay.cpp), and its round trip with the
    formatter. */
module CsvDecode {
  import opened Types
  import opened Decimal
  import opened CsvFormat

  // ------------------------------------------------------------------ framing

  datatype FrameState = FieldStart | Unquoted | Quoted | QuoteClosed

  datatype FrameMove = Continue(state: FrameState) | Complete | Malformed

  function FrameNext(state: FrameState, byte: char): FrameMove {
    match state
    case FieldStart =>
      if byte == '"' then Continue(Quoted)
      else if byte == ',' then Continue(FieldStart)
      else if byte == '\n' then Complete
      else Continue(Unquoted)
    case Unquoted =>
      if byte == '"' then Malformed
      else if byte == ',' then Continue(FieldStart)
      else if byte == '\n' then Complete
      else Continue(Unquoted)
    case Quoted => Continue(if byte == '"' then QuoteClosed else Quoted)
    case QuoteClosed =>
      if byte == '"' then Continue(Quoted)
      else if byte == ',' then Continue(FieldStart)
      else if byte == '\n' then Complete
      else Malformed
  }

  datatype ReadError =
    | ReadFailed | TruncatedRecord | RecordLimit | InvalidCsv | WrongColumnCount | InvalidInteger
    | InvalidRange | InvalidEnum | BadSymbol | PayloadTooLarge
    | ChangingVenue | ChangingSymbol | DecreasingEpoch | NonIncreasingSequence | InvalidHeader

  datatype Framed = EndOfFile | Record(size: nat) | FrameError(error: ReadError)

  /** Frame the record at the start of bytes, of which n bytes have led to state. */
  function Frame(bytes: string, n: nat, state: FrameState): (r: Framed)
    requires n <= |bytes|
    ensures r.Record? ==> n < r.size <= |bytes| && bytes[r.size - 1] == '\n'
    ensures r.Record? && n <= MAX_RECORD ==> r.size <= MAX_RECORD
    decreases |bytes| - n
  {
    if n == |bytes| then (if n == 0 then EndOfFile else FrameError(TruncatedRecord))
    else if n == MAX_RECORD then FrameError(RecordLimit)
    else match FrameNext(state, bytes[n])
      case Continue(next) => Frame(bytes, n + 1, next)
      case Complete => Record(n + 1)
      case Malformed => FrameError(InvalidCsv)
  }

  /** state --s--> state' without ending the record. */
  predicate Walks(s: string, state: FrameState, state': FrameState)
  {
    if s == [] then state == state'
    else FrameNext(state, s[0]).Continue? && Walks(s[1..], FrameNext(state, s[0]).state, state')
  }

  lemma {:induction false} WalksTogether(s: string, t: string, a: FrameState, b: FrameState, c: FrameState)
    requires Walks(s, a, b) && Walks(t, b, c)
    ensures Walks(s + t, a, c)
  {
    if s == [] {
      assert s + t == t;
    } else {
      assert (s + t)[1..] == s[1..] + t;
      WalksTogether(s[1..], t, FrameNext(a, s[0]).state, b, c);
    }
  }

  /** Framing skips over what it walks through. */
  lemma {:induction false} FrameSkips(bytes: string, n: nat, m: nat, a: FrameState, b: FrameState)
    requires n <= m <= |bytes| && m <= MAX_RECORD && Walks(bytes[n..m], a, b)
    ensures Frame(bytes, n, a) == Frame(bytes, m, b)
    decreases m - n
  {
    if n < m {
      assert bytes[n..m][1..] == bytes[n + 1..m];
      FrameSkips(bytes, n + 1, m, FrameNext(a, bytes[n]).state, b);
    }
  }

  lemma {:induction false} PlainWalks(s: string)
    requires Plain(s)
    ensures Walks(s, Unquoted, Unquoted)
  {
    if s != [] {
      PlainWalks(s[1..]);
    }
  }

  lemma FieldWalks(s: string)
    requires Plain(s) && s != []
    ensures Walks(s + ",", FieldStart, FieldStart)
  {
    PlainWalks(s[1..]);
    assert Walks(",", Unquoted, FieldStart);
    WalksTogether(s[1..], ",", Unquoted, Unquoted, FieldStart);
    assert (s + ",")[1..] == s[1..] + ",";
  }

  lemma {:induction false} JoinedWalks(fields: seq<string>)
    requires forall i :: 0 <= i < |fields| ==> Plain(fields[i]) && fields[i] != []
    ensures Walks(Joined(fields), FieldStart, FieldStart)
  {
    if fields != [] {
      FieldWalks(fields[0]);
      JoinedWalks(fields[1..]);
      WalksTogether(fields[0] + ",", Joined(fields[1..]), FieldStart, FieldStart, FieldStart);
    }
  }

  lemma {:induction false} EscapedWalks(s: string)
    ensures Walks(Escaped(s), Quoted, Quoted)
  {
    if s != [] {
      EscapedWalks(s[1..]);
      var first := if s[0] == '"' then "\"\"" else [s[0]];
      assert Walks(first[1..], FrameNext(Quoted, first[0]).state, Quoted);
      WalksTogether(first, Escaped(s[1..]), Quoted, Quoted, Quoted);
    }
  }

  lemma PlainFields(row: AuditRow)
    requires NormalizedSymbol(row.symbol)
    ensures forall i :: 0 <= i < 8 ==> Plain(AuditFields(row)[i]) && AuditFields(row)[i] != []
  {
    IntTextIsPlain(row.ts.seconds);
    IntTextIsPlain(row.ts.nanoseconds);
    IntTextIsPlain(row.shard);
    IntTextIsPlain(row.epoch);
    IntTextIsPlain(row.connSeq);
  }

  /** The text of a row without its line end. */
  function AuditBody(row: AuditRow): string {
    Joined(AuditFields(row)) + "\"" + Escaped(row.payload) + "\""
  }

  lemma AuditBodyWalks(row: AuditRow)
    requires NormalizedSymbol(row.symbol)
    ensures Walks(AuditBody(row), FieldStart, QuoteClosed)
  {
    var j, e := Joined(AuditFields(row)), Escaped(row.payload);
    PlainFields(row);
    JoinedWalks(AuditFields(row));
    EscapedWalks(row.payload);
    assert Walks("\"", FieldStart, Quoted) && Walks("\"", Quoted, QuoteClosed);
    WalksTogether(j, "\"", FieldStart, FieldStart, Quoted);
    WalksTogether(j + "\"", e, FieldStart, Quoted, Quoted);
    WalksTogether(j + "\"" + e, "\"", FieldStart, Quoted, QuoteClosed);
  }

  /** A formatted row is framed as itself, whatever follows it in the file. */
  lemma FrameFindsRow(row: AuditRow, rest: string)
    requires ValidAuditRow(row)
    ensures Frame(AuditText(row) + rest, 0, FieldStart) == Record(|AuditText(row)|)
  {
    AuditRowFits(row);
    AuditBodyWalks(row);
    var bytes, m := AuditText(row) + rest, |AuditBody(row)|;
    assert bytes[0..m] == AuditBody(row);
    FrameSkips(bytes, 0, m, FieldStart, QuoteClosed);
    assert bytes[m] == '\n';
  }

  // ------------------------------------------------------------------ decoding

  predicate Forbidden(c: char) {
    c == '"' || c == '\r' || c == '\n'
  }

  /** The first comma or forbidden byte, or the end. */
  function Scan(s: string): (i: nat)
    ensures i <= |s|
  {
    if s == [] || s[0] == ',' || Forbidden(s[0]) then 0 else 1 + Scan(s[1..])
  }

  /** i is the first position of a comma or a forbidden byte, or the end. */
  predicate StopsAt(s: string, i: nat) {
    && i <= |s| && (forall j :: 0 <= j < i ==> s[j] != ',' && !Forbidden(s[j]))
    && (i < |s| ==> s[i] == ',' || Forbidden(s[i]))
  }

  lemma {:induction false} ScanStops(s: string, i: nat)
    requires StopsAt(s, i)
    ensures Scan(s) == i
  {
    if i != 0 {
      assert forall j :: 0 <= j < |s| - 1 ==> s[1..][j] == s[j + 1];
      ScanStops(s[1..], i - 1);
    }
  }

  datatype SplitRow = SplitOk(fields: seq<string>, rest: string) | SplitFailed(error: ReadError, column: nat)

  /** Split off the unquoted fields from the given column up to column 8. */
  function Split(s: string, column: nat): SplitRow
    requires column <= 8
    decreases 8 - column
  {
    if column == 8 then SplitOk([], s)
    else
      var i := Scan(s);
      if i == |s| then SplitFailed(WrongColumnCount, column)
      else if s[i] != ',' then SplitFailed(InvalidCsv, column)
      else Prepend([s[..i]], Split(s[i + 1..], column + 1))
  }

  /** Put fields in front of those split off the rest. */
  function Prepend(fields: seq<string>, s: SplitRow): SplitRow {
    if s.SplitOk? then SplitOk(fields + s.fields, s.rest) else s
  }

  datatype Unescaped = Payload(bytes: string) | UnescapeFailed(error: ReadError)

  /** Undo the doubling of quotes in the inside of a quoted field. */
  function Unescape(s: string, done: string): Unescaped
    decreases |s|
  {
    if s == [] then Payload(done)
    else if s[0] == '"' && (|s| == 1 || s[1] != '"') then UnescapeFailed(InvalidCsv)
    else if |done| == MAX_PAYLOAD then UnescapeFailed(PayloadTooLarge)
    else if s[0] == '"' then Unescape(s[2..], done + "\"")
    else Unescape(s[1..], done + [s[0]])
  }

  function ParseVenue(s: string): (r: seq<Venue>) {
    if s == "spot" then [Spot] else if s == "usdm" then [UsdM] else []
  }

  function ParseKind(s: string): (r: seq<Kind>) {
    if s == "depth_diff" then [DepthDiff] else if s == "depth5" then [Depth5]
    else if s == "trade" then [Trade] else []
  }

  datatype Decoded = Row(row: AuditRow) | DecodeFailed(error: ReadError, column: nat)

  const NO_COLUMN: nat := 9

  function ParseI64(s: string): ParsedInt { ParseInteger(s, -0x8000_0000_0000_0000, 0x7FFF_FFFF_FFFF_FFFF) }
  function ParseI32(s: string): ParsedInt { ParseInteger(s, -0x8000_0000, 0x7FFF_FFFF) }
  function ParseU32(s: string): ParsedInt { ParseInteger(s, 0, 0xFFFF_FFFF) }
  function ParseU64(s: string): ParsedInt { ParseInteger(s, 0, U64_MAX) }

  /** Check and convert the eight unquoted fields; the row still lacks its payload. */
  function DecodeFields(f: seq<string>): Decoded
    requires |f| == 8
  {
    var seconds := ParseI64(f[0]);
    var nanoseconds := ParseI32(f[1]);
    var shard := ParseU32(f[4]);
    var epoch := ParseU64(f[5]);
    var connSeq := ParseU64(f[6]);
    if seconds.NoInt? then DecodeFailed(InvalidInteger, 0)
    else if nanoseconds.NoInt? then DecodeFailed(InvalidInteger, 1)
    else if !(0 <= nanoseconds.value < NANOSECONDS) then DecodeFailed(InvalidRange, 1)
    else if ParseVenue(f[2]) == [] then DecodeFailed(InvalidEnum, 2)
    else if ParseKind(f[3]) == [] then DecodeFailed(InvalidEnum, 3)
    else if shard.NoInt? then DecodeFailed(InvalidInteger, 4)
    else if shard.value != 0 then DecodeFailed(InvalidRange, 4)
    else if epoch.NoInt? then DecodeFailed(InvalidInteger, 5)
    else if connSeq.NoInt? then DecodeFailed(InvalidInteger, 6)
    else if connSeq.value == 0 then DecodeFailed(InvalidRange, 6)
    else if !NormalizedSymbol(f[7]) then DecodeFailed(BadSymbol, 7)
    else Row(AuditRow(Timestamp(seconds.value, nanoseconds.value), ParseVenue(f[2])[0], ParseKind(f[3])[0],
                      shard.value, epoch.value, connSeq.value, f[7], ""))
  }

  function Decode(record: string): Decoded {
    if record == [] || record[|record| - 1] != '\n' then DecodeFailed(TruncatedRecord, NO_COLUMN)
    else match Split(record[..|record| - 1], 0)
      case SplitFailed(error, column) => DecodeFailed(error, column)
      case SplitOk(fields, encoded) =>
        if |encoded| < 2 || encoded[0] != '"' || encoded[|encoded| - 1] != '"' then DecodeFailed(InvalidCsv, 8)
        else if |fields| != 8 then DecodeFailed(WrongColumnCount, NO_COLUMN)
        else match DecodeFields(fields)
          case DecodeFailed(error, column) => DecodeFailed(error, column)
          case Row(row) =>
            match Unescape(encoded[1..|encoded| - 1], "")
            case UnescapeFailed(error) => DecodeFailed(error, 8)
            case Payload(bytes) => Row(row.(payload := bytes))
  }

  /** A plain field with its comma is split off. */
  lemma SplitOne(field: string, rest: string, column: nat)
    requires column < 8 && Plain(field)
    ensures Split(field + "," + rest, column) == Prepend([field], Split(rest, column + 1))
  {
    var s, i := field + "," + rest, |field|;
    assert s[..i] == field && s[i] == ',' && s[i + 1..] == rest;
    assert forall j :: 0 <= j < i ==> s[j] == field[j];
    ScanStops(s, i);
  }

  lemma SplitCons(head: string, tail: seq<string>, rest: string, column: nat)
    requires column < 8 && Plain(head) && Split(Joined(tail) + rest, column + 1) == SplitOk(tail, rest)
    ensures Split(head + "," + Joined(tail) + rest, column) == SplitOk([head] + tail, rest)
  {
    SplitOne(head, Joined(tail) + rest, column);
    assert head + "," + Joined(tail) + rest == head + "," + (Joined(tail) + rest);
  }

  lemma {:induction false} SplitJoined(fields: seq<string>, rest: string, column: nat)
    requires column <= 8 && |fields| == 8 - column
    requires forall i :: 0 <= i < |fields| ==> Plain(fields[i])
    ensures Split(Joined(fields) + rest, column) == SplitOk(fields, rest)
    decreases 8 - column
  {
    if fields == [] {
      assert Joined(fields) + rest == rest;
    } else {
      SplitJoined(fields[1..], rest, column + 1);
      SplitCons(fields[0], fields[1..], rest, column);
      assert [fields[0]] + fields[1..] == fields;
    }
  }

  lemma {:induction false} UnescapeEscaped(s: string, done: string)
    requires |done| + |s| <= MAX_PAYLOAD
    ensures Unescape(Escaped(s), done) == Payload(done + s)
    decreases |s|
  {
    if s != [] {
      var e := Escaped(s);
      assert done + s == done + [s[0]] + s[1..];
      if s[0] == '"' {
        assert e[2..] == Escaped(s[1..]);
      } else {
        assert e[1..] == Escaped(s[1..]);
      }
      UnescapeEscaped(s[1..], done + [s[0]]);
    } else {
      assert done + s == done;
    }
  }

  /** f holds, field by field, texts that parse to the values of row. */
  predicate FieldsOf(f: seq<string>, row: AuditRow) {
    && |f| == 8
    && ParseI64(f[0]) == AnInt(row.ts.seconds) && ParseI32(f[1]) == AnInt(row.ts.nanoseconds)
    && ParseVenue(f[2]) == [row.venue] && ParseKind(f[3]) == [row.kind]
    && ParseU32(f[4]) == AnInt(row.shard) && ParseU64(f[5]) == AnInt(row.epoch)
    && ParseU64(f[6]) == AnInt(row.connSeq) && f[7] == row.symbol
  }

  lemma SecondsTextParses(n: I64)
    ensures ParseI64(IntText(n)) == AnInt(n)
  {
    IntTextRoundTrip(n, -0x8000_0000_0000_0000, 0x7FFF_FFFF_FFFF_FFFF);
  }

  lemma NanosecondsTextParses(n: I32)
    ensures ParseI32(IntText(n)) == AnInt(n)
  {
    IntTextRoundTrip(n, -0x8000_0000, 0x7FFF_FFFF);
  }

  lemma U64TextParses(n: U64)
    ensures ParseU64(IntText(n)) == AnInt(n)
    ensures n <= 0xFFFF_FFFF ==> ParseU32(IntText(n)) == AnInt(n)
  {
    IntTextRoundTrip(n, 0, U64_MAX);
    if n <= 0xFFFF_FFFF {
      IntTextRoundTrip(n, 0, 0xFFFF_FFFF);
    }
  }

  lemma EnumTextParses(v: Venue, k: Kind)
    ensures ParseVenue(VenueText(v)) == [v] && ParseKind(KindText(k)) == [k]
  {
    assert "spot"[0] != "usdm"[0];
    assert |"depth_diff"| == 10 && |"depth5"| == 6 && |"trade"| == 5;
  }

  lemma SecondsFieldParses(row: AuditRow, f: seq<string>)
    requires f == AuditFields(row)
    ensures ParseI64(f[0]) == AnInt(row.ts.seconds)
  {
    SecondsTextParses(row.ts.seconds);
  }

  lemma NanosecondsFieldParses(row: AuditRow, f: seq<string>)
    requires f == AuditFields(row)
    ensures ParseI32(f[1]) == AnInt(row.ts.nanoseconds)
  {
    NanosecondsTextParses(row.ts.nanoseconds);
  }

  lemma NameFieldsParse(row: AuditRow, f: seq<string>)
    requires f == AuditFields(row)
    ensures ParseVenue(f[2]) == [row.venue] && ParseKind(f[3]) == [row.kind] && f[7] == row.symbol
  {
    EnumTextParses(row.venue, row.kind);
  }

  lemma NumberFieldsParse(row: AuditRow, f: seq<string>)
    requires f == AuditFields(row)
    ensures ParseU32(f[4]) == AnInt(row.shard) && ParseU64(f[5]) == AnInt(row.epoch)
            && ParseU64(f[6]) == AnInt(row.connSeq)
  {
    U64TextParses(row.shard);
    U64TextParses(row.epoch);
    U64TextParses(row.connSeq);
  }

  lemma AuditFieldsParse(row: AuditRow, f: seq<string>)
    requires f == AuditFields(row)
    ensures FieldsOf(f, row)
  {
    SecondsFieldParses(row, f);
    NanosecondsFieldParses(row, f);
    NameFieldsParse(row, f);
    NumberFieldsParse(row, f);
  }

  lemma DecodeFieldsOf(f: seq<string>, row: AuditRow)
    requires ValidAuditRow(row) && row.shard == 0 && FieldsOf(f, row)
    ensures DecodeFields(f) == Row(row.(payload := ""))
  {
  }

  /** The parts of a formatted row. */
  lemma SplitFindsFields(row: AuditRow, f: seq<string>, encoded: string)
    requires NormalizedSymbol(row.symbol) && f == AuditFields(row) && encoded == "\"" + Escaped(row.payload) + "\""
    ensures AuditText(row) != [] && AuditText(row)[|AuditText(row)| - 1] == '\n'
    ensures Split(AuditText(row)[..|AuditText(row)| - 1], 0) == SplitOk(f, encoded)
  {
    var text := AuditText(row);
    assert text[..|text| - 1] == Joined(f) + encoded;
    PlainFields(row);
    SplitJoined(f, encoded, 0);
  }

  lemma DecodeOfParts(text: string, f: seq<string>, encoded: string, row: AuditRow)
    requires text != [] && text[|text| - 1] == '\n' && Split(text[..|text| - 1], 0) == SplitOk(f, encoded)
    requires |f| == 8 && DecodeFields(f) == Row(row.(payload := ""))
    requires |encoded| >= 2 && encoded[0] == '"' && encoded[|encoded| - 1] == '"'
    requires Unescape(encoded[1..|encoded| - 1], "") == Payload(row.payload)
    ensures Decode(text) == Row(row)
  {
  }

  /** Decoding a formatted row gives back the row, payload bytes included. */
  lemma DecodeFindsRow(row: AuditRow)
    requires ValidAuditRow(row) && row.shard == 0
    ensures Decode(AuditText(row)) == Row(row)
  {
    var f, encoded := AuditFields(row), "\"" + Escaped(row.payload) + "\"";
    SplitFindsFields(row, f, encoded);
    AuditFieldsParse(row, f);
    DecodeFieldsOf(f, row);
    assert encoded[1..|encoded| - 1] == Escaped(row.payload);
    UnescapeEscaped(row.payload, "");
    assert "" + row.payload == row.payload;
    DecodeOfParts(AuditText(row), f, encoded, row);
  }
}
