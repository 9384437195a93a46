/** What a reader finds in an order-book row: the columns of its CSV header, in order, with the
    values of the event and of the committed book (src/csv_formatter.cpp, README.md). */
module BookColumns {
  import opened Types
  import opened Decimal
  import opened Sequencer
  import opened TopFive
  import opened CsvFormat
  import opened EventProcessor

  // ------------------------------------------------------------ splitting at commas

  function SplitCommas(s: string): (fields: seq<string>)
    ensures fields != []
  {
    if s == "" then [""]
    else
      var rest := SplitCommas(s[1..]);
      if s[0] == ',' then [""] + rest else [[s[0]] + rest[0]] + rest[1..]
  }

  predicate NoComma(s: string) {
    forall i :: 0 <= i < |s| ==> s[i] != ','
  }

  lemma {:induction false} SplitField(field: string, rest: string)
    requires NoComma(field)
    ensures SplitCommas(field + "," + rest) == [field] + SplitCommas(rest)
    ensures SplitCommas(field) == [field]
  {
    if field == "" {
      assert field + "," + rest == "," + rest && ("," + rest)[1..] == rest;
    } else {
      var s := field + "," + rest;
      assert s[1..] == field[1..] + "," + rest;
      SplitField(field[1..], rest);
      assert [field[0]] + field[1..] == field;
    }
  }

  /** The fields with a comma in front of each. */
  function Listed(fields: seq<string>): string {
    if fields == [] then "" else "," + fields[0] + Listed(fields[1..])
  }

  lemma {:induction false} ListedAppends(a: seq<string>, b: seq<string>)
    ensures Listed(a + b) == Listed(a) + Listed(b)
  {
    if a == [] {
      assert a + b == b;
    } else {
      assert (a + b)[1..] == a[1..] + b;
      ListedAppends(a[1..], b);
    }
  }

  lemma {:induction false} SplitListed(first: string, fields: seq<string>)
    requires NoComma(first) && forall i :: 0 <= i < |fields| ==> NoComma(fields[i])
    ensures SplitCommas(first + Listed(fields)) == [first] + fields
    decreases |fields|
  {
    if fields == [] {
      assert first + Listed(fields) == first;
      SplitField(first, "");
    } else {
      SplitListed(fields[0], fields[1..]);
      SplitField(first, fields[0] + Listed(fields[1..]));
      assert first + Listed(fields) == first + "," + (fields[0] + Listed(fields[1..]));
      assert [fields[0]] + fields[1..] == fields;
    }
  }

  // ----------------------------------------------------------------- the row's fields

  /** The price or quantity of level i, zero past the last level. */
  function ValueAt(levels: seq<Level>, quantity: bool, i: nat): I64 {
    if i >= |levels| then 0 else if quantity then levels[i].quantity else levels[i].price
  }

  function ColumnFields(levels: seq<Level>, quantity: bool, n: nat): (f: seq<string>)
    ensures |f| == n && forall i :: 0 <= i < n ==> f[i] == IntText(ValueAt(levels, quantity, i))
  {
    if n == 0 then [] else ColumnFields(levels, quantity, n - 1) + [IntText(ValueAt(levels, quantity, n - 1))]
  }

  lemma {:induction false} ColumnIsListed(levels: seq<Level>, quantity: bool, n: nat)
    ensures Column(levels, quantity, n) == Listed(ColumnFields(levels, quantity, n))
  {
    if n != 0 {
      ColumnIsListed(levels, quantity, n - 1);
      var last := IntText(ValueAt(levels, quantity, n - 1));
      ListedAppends(ColumnFields(levels, quantity, n - 1), [last]);
      assert [last][1..] == [];
    }
  }

  function HeadFields(row: BookRow): seq<string> {
    [IntText(row.ts.nanoseconds), IntText(row.seqNo), IntText(row.instrument), RowTypeText(row.rowType),
     SideText(row.side)]
  }

  function LevelFields(bids: seq<Level>, asks: seq<Level>): seq<string> {
    ColumnFields(bids, false, DEPTH) + ColumnFields(bids, true, DEPTH)
    + ColumnFields(asks, false, DEPTH) + ColumnFields(asks, true, DEPTH)
  }

  lemma ListGrows(first: string, fields: seq<string>, x: string)
    ensures first + Listed(fields) + "," + x == first + Listed(fields + [x])
  {
    ListedAppends(fields, [x]);
    assert [x][1..] == [];
  }

  lemma HeadIsListed(row: BookRow)
    ensures IntText(row.ts.seconds) + "," + IntText(row.ts.nanoseconds) + "," + IntText(row.seqNo) + ","
            + IntText(row.instrument) + "," + RowTypeText(row.rowType) + "," + SideText(row.side)
         == IntText(row.ts.seconds) + Listed(HeadFields(row))
  {
    var first := IntText(row.ts.seconds);
    var a, b, c := IntText(row.ts.nanoseconds), IntText(row.seqNo), IntText(row.instrument);
    var d, e := RowTypeText(row.rowType), SideText(row.side);
    assert first + Listed([]) == first;
    ListGrows(first, [], a);
    ListGrows(first, [] + [a], b);
    ListGrows(first, [] + [a] + [b], c);
    ListGrows(first, [] + [a] + [b] + [c], d);
    ListGrows(first, [] + [a] + [b] + [c] + [d], e);
    assert [] + [a] + [b] + [c] + [d] + [e] == HeadFields(row);
  }

  lemma ListsGather(first: string, head: seq<string>, a: seq<string>, b: seq<string>, c: seq<string>, d: seq<string>)
    ensures first + Listed(head) + Listed(a) + Listed(b) + Listed(c) + Listed(d)
         == first + Listed(head + (a + b + c + d))
  {
    ListedAppends(a, b);
    ListedAppends(a + b, c);
    ListedAppends(a + b + c, d);
    ListedAppends(head, a + b + c + d);
    FourParts(first + Listed(head), Listed(a), Listed(b), Listed(c), Listed(d));
  }

  lemma FourParts(p: string, a: string, b: string, c: string, d: string)
    ensures p + a + b + c + d == p + (a + b + c + d)
  {
  }

  lemma RowIsListed(row: BookRow)
    ensures BookText(row)
         == IntText(row.ts.seconds) + Listed(HeadFields(row) + LevelFields(row.bids, row.asks)) + "\n"
  {
    HeadIsListed(row);
    ColumnIsListed(row.bids, false, DEPTH);
    ColumnIsListed(row.bids, true, DEPTH);
    ColumnIsListed(row.asks, false, DEPTH);
    ColumnIsListed(row.asks, true, DEPTH);
    ListsGather(IntText(row.ts.seconds), HeadFields(row), ColumnFields(row.bids, false, DEPTH),
                ColumnFields(row.bids, true, DEPTH), ColumnFields(row.asks, false, DEPTH),
                ColumnFields(row.asks, true, DEPTH));
  }

  lemma IntTextHasNoComma(n: int)
    ensures NoComma(IntText(n))
  {
    NatTextIsDigits(if n < 0 then -n else n);
  }

  // ----------------------------------------------------------------- what is read back

  /** The field reads back as n. */
  predicate Reads(field: string, n: int) {
    ParseInteger(field, -0x8000_0000_0000_0000, U64_MAX) == AnInt(n)
  }

  /** Five fields from position at on read as prices or quantities of the levels. */
  predicate ReadsColumn(f: seq<string>, at: nat, levels: seq<Level>, quantity: bool) {
    && at + DEPTH <= |f|
    && forall i :: 0 <= i < DEPTH ==> Reads(f[at + i], ValueAt(levels, quantity, i))
  }

  /** The 26 columns tsec, tnsec, seqNo, id, type, side, bid0 to bid4, bid_size0 to bid_size4,
      ask0 to ask4, ask_size0 to ask_size4. */
  predicate ReadsAs(f: seq<string>, ts: Timestamp, seqNo: int, instrument: int, rowType: char, side: char,
                    bids: seq<Level>, asks: seq<Level>) {
    && |f| == 26
    && Reads(f[0], ts.seconds) && Reads(f[1], ts.nanoseconds) && Reads(f[2], seqNo) && Reads(f[3], instrument)
    && f[4] == [rowType] && f[5] == [side]
    && ReadsColumn(f, 6, bids, false) && ReadsColumn(f, 11, bids, true)
    && ReadsColumn(f, 16, asks, false) && ReadsColumn(f, 21, asks, true)
  }

  function TypeLetter(t: RowType): char {
    if t.DifferentialRow? then 'D' else 'P'
  }

  function SideLetter(side: RowSide): char {
    match side
    case BidRow => 'B'
    case AskRow => 'S'
    case NeutralRow => 'N'
  }

  /** The fields of a line without its line break. */
  function FieldsOf(text: string): seq<string> {
    if text != "" && text[|text| - 1] == '\n' then SplitCommas(text[..|text| - 1]) else []
  }

  lemma RowFields(row: BookRow)
    ensures FieldsOf(BookText(row))
         == [IntText(row.ts.seconds)] + (HeadFields(row) + LevelFields(row.bids, row.asks))
  {
    var first, rest := IntText(row.ts.seconds), HeadFields(row) + LevelFields(row.bids, row.asks);
    RowIsListed(row);
    IntTextHasNoComma(row.ts.seconds);
    forall i | 0 <= i < |rest| ensures NoComma(rest[i]) {
      IntTextHasNoComma(row.ts.nanoseconds);
      IntTextHasNoComma(row.seqNo);
      IntTextHasNoComma(row.instrument);
      LevelFieldHasNoComma(row.bids, row.asks);
    }
    SplitListed(first, rest);
    assert BookText(row)[..|BookText(row)| - 1] == first + Listed(rest);
  }

  lemma LevelFieldHasNoComma(bids: seq<Level>, asks: seq<Level>)
    ensures forall i :: 0 <= i < |LevelFields(bids, asks)| ==> NoComma(LevelFields(bids, asks)[i])
  {
    var f := LevelFields(bids, asks);
    forall i | 0 <= i < |f| ensures NoComma(f[i]) {
      var j := i % DEPTH;
      IntTextHasNoComma(ValueAt(bids, false, j));
      IntTextHasNoComma(ValueAt(bids, true, j));
      IntTextHasNoComma(ValueAt(asks, false, j));
      IntTextHasNoComma(ValueAt(asks, true, j));
    }
  }

  lemma ColumnReads(f: seq<string>, at: nat, levels: seq<Level>, quantity: bool)
    requires at + DEPTH <= |f| && f[at..at + DEPTH] == ColumnFields(levels, quantity, DEPTH)
    ensures ReadsColumn(f, at, levels, quantity)
  {
    forall i | 0 <= i < DEPTH ensures Reads(f[at + i], ValueAt(levels, quantity, i)) {
      assert f[at + i] == f[at..at + DEPTH][i];
      IntTextRoundTrip(ValueAt(levels, quantity, i), -0x8000_0000_0000_0000, U64_MAX);
    }
  }

  lemma FieldPlaces(first: string, head: seq<string>, a: seq<string>, b: seq<string>, c: seq<string>, d: seq<string>)
    requires |head| == 5 && |a| == |b| == |c| == |d| == DEPTH
    ensures var f := [first] + (head + (a + b + c + d));
            && |f| == 26 && f[0] == first && f[1..6] == head
            && f[6..11] == a && f[11..16] == b && f[16..21] == c && f[21..26] == d
  {
  }

  lemma LevelsRead(f: seq<string>, bids: seq<Level>, asks: seq<Level>)
    requires |f| == 26
    requires f[6..11] == ColumnFields(bids, false, DEPTH) && f[11..16] == ColumnFields(bids, true, DEPTH)
    requires f[16..21] == ColumnFields(asks, false, DEPTH) && f[21..26] == ColumnFields(asks, true, DEPTH)
    ensures ReadsColumn(f, 6, bids, false) && ReadsColumn(f, 11, bids, true)
    ensures ReadsColumn(f, 16, asks, false) && ReadsColumn(f, 21, asks, true)
  {
    ColumnReads(f, 6, bids, false);
    ColumnReads(f, 11, bids, true);
    ColumnReads(f, 16, asks, false);
    ColumnReads(f, 21, asks, true);
  }

  /** The text reads as the row. */
  predicate ShowsRow(text: string, row: BookRow) {
    ReadsAs(FieldsOf(text), row.ts, row.seqNo, row.instrument, TypeLetter(row.rowType), SideLetter(row.side),
            row.bids, row.asks)
  }

  lemma HeadReads(f: seq<string>, row: BookRow)
    requires |f| == 26 && f[0] == IntText(row.ts.seconds) && f[1..6] == HeadFields(row)
    ensures Reads(f[0], row.ts.seconds) && Reads(f[1], row.ts.nanoseconds) && Reads(f[2], row.seqNo)
    ensures Reads(f[3], row.instrument) && f[4] == [TypeLetter(row.rowType)] && f[5] == [SideLetter(row.side)]
  {
    IntTextRoundTrip(row.ts.seconds, -0x8000_0000_0000_0000, U64_MAX);
    IntTextRoundTrip(row.ts.nanoseconds, -0x8000_0000_0000_0000, U64_MAX);
    IntTextRoundTrip(row.seqNo, -0x8000_0000_0000_0000, U64_MAX);
    IntTextRoundTrip(row.instrument, -0x8000_0000_0000_0000, U64_MAX);
    var head := f[1..6];
    assert head[0] == f[1] && head[1] == f[2] && head[2] == f[3] && head[3] == f[4] && head[4] == f[5];
  }

  /** A formatted row, split at its commas, reads as the row: every column in its place, and
      zero past the last level. */
  lemma BookRowReads(row: BookRow)
    ensures ShowsRow(BookText(row), row)
  {
    RowFields(row);
    FieldPlaces(IntText(row.ts.seconds), HeadFields(row), ColumnFields(row.bids, false, DEPTH),
                ColumnFields(row.bids, true, DEPTH), ColumnFields(row.asks, false, DEPTH),
                ColumnFields(row.asks, true, DEPTH));
    HeadReads(FieldsOf(BookText(row)), row);
    LevelsRead(FieldsOf(BookText(row)), row.bids, row.asks);
  }

  // ---------------------------------------------------------------- an emitted row

  /** The side a depth message updates: both or none is neutral, and so is a refresh. */
  function SideUpdated(kind: Kind, e: DepthEvent): RowSide {
    if kind.DepthDiff? && e.bids != [] && e.asks == [] then BidRow
    else if kind.DepthDiff? && e.bids == [] && e.asks != [] then AskRow else NeutralRow
  }

  /** An emitted row reads as the event's timestamp, the next sequence number, the symbol's
      instrument, the kind of message, the side it updates and the committed book. */
  lemma EmittedRowShowsBook(parse: Parser, st: SymbolState, ctx: Context, payload: string, mode: Mode)
    requires Process(parse, st, ctx, payload, mode).batch.hasBook
    ensures var o, e := Process(parse, st, ctx, payload, mode), parse(ctx.venue, ctx.kind, st.symbol, payload).depth;
            && o.state.seqNo == st.seqNo + 1
            && ReadsAs(FieldsOf(o.batch.book), ctx.ts, st.seqNo + 1, st.instrument,
                       if ctx.kind.DepthDiff? then 'D' else 'P', SideLetter(SideUpdated(ctx.kind, e)),
                       o.state.book.bids, o.state.book.asks)
  {
    var row := EmittedRow(parse, st, ctx, payload, mode);
    BookRowReads(row);
  }

  /** A batch with a book row is the effect of a depth event. */
  lemma RowComesFromDepth(parse: Parser, st: SymbolState, ctx: Context, payload: string, mode: Mode)
    requires Process(parse, st, ctx, payload, mode).batch.hasBook
    ensures var o, d := Process(parse, st, ctx, payload, mode),
                        DepthOf(st, ctx, parse(ctx.venue, ctx.kind, st.symbol, payload).depth);
            !ctx.kind.Trade? && d.hasBook && o.batch.book == d.book && o.state == d.state
  {
  }

  /** The row of a depth event that emits one. */
  lemma DepthRow(st: SymbolState, ctx: Context, e: DepthEvent) returns (row: BookRow)
    requires !ctx.kind.Trade? && ProcessDepth(st, ctx, e).hasBook
    ensures var d := ProcessDepth(st, ctx, e);
            && d.book == BookText(row) && row.ts == ctx.ts && row.instrument == st.instrument
            && row.seqNo == d.state.seqNo == st.seqNo + 1
            && (row.rowType.DifferentialRow? <==> ctx.kind.DepthDiff?) && row.side == SideUpdated(ctx.kind, e)
            && row.bids == d.state.book.bids && row.asks == d.state.book.asks
  {
    var (b, status) := ApplyEvent(st.venue, ctx.kind, StartBook(st, ctx), e);
    StatusFitsKind(st.venue, ctx.kind, StartBook(st, ctx), e);
    row := BookRowOf(st, ctx, b, e, status);
  }

  lemma StatusFitsKind(venue: Venue, kind: Kind, b: Book, e: DepthEvent)
    requires !kind.Trade?
    ensures var status := ApplyEvent(venue, kind, b, e).1;
            EmitsSnapshot(status) ==> (status.AppliedRefresh? <==> kind.Depth5?)
  {
  }

  lemma EmittedRow(parse: Parser, st: SymbolState, ctx: Context, payload: string, mode: Mode) returns (row: BookRow)
    requires Process(parse, st, ctx, payload, mode).batch.hasBook
    ensures var o, e := Process(parse, st, ctx, payload, mode), parse(ctx.venue, ctx.kind, st.symbol, payload).depth;
            && o.batch.book == BookText(row) && row.ts == ctx.ts && row.instrument == st.instrument
            && row.seqNo == o.state.seqNo == st.seqNo + 1
            && (row.rowType.DifferentialRow? <==> ctx.kind.DepthDiff?) && row.side == SideUpdated(ctx.kind, e)
            && row.bids == o.state.book.bids && row.asks == o.state.book.asks
  {
    RowComesFromDepth(parse, st, ctx, payload, mode);
    row := DepthRow(st, ctx, parse(ctx.venue, ctx.kind, st.symbol, payload).depth);
  }
}
