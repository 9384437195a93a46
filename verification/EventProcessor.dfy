/** One event of one symbol (src/event_processor.cpp). */
module EventProcessor {
  import opened Types
  import opened Sequencer
  import opened CsvFormat

  // ------------------------------------------------------- the payload parser

  datatype ParseError =
    | NoParseError | InvalidInputBuffer | PayloadTooLargeError | NestingTooDeep | MalformedJson | RootNotObject
    | MissingField | DuplicateField | WrongType | UnexpectedEventType | SymbolMismatch | InvalidDecimal
    | NonPositivePrice | InvalidQuantity | InvalidUpdateRange | TooManyLevels | InvalidLevelShape
    | DuplicatePrice | InvalidLevelOrder | CrossedPayload | InternalCapacityError

  datatype Parsed = Parsed(error: ParseError, depth: DepthEvent, tradeMismatch: bool)

  /** The JSON parser as a function of venue, stream kind, expected symbol and bytes. */
  type Parser = (Venue, Kind, string, string) -> Parsed

  /** What the parser establishes of an event it accepts. */
  ghost predicate ParserContract(parse: Parser) {
    forall v, k, s, p :: parse(v, k, s, p).error.NoParseError? ==> GoodEvent(v, k, parse(v, k, s, p).depth)
  }

  predicate AuditEligible(e: ParseError) {
    !(e.InvalidInputBuffer? || e.PayloadTooLargeError? || e.NestingTooDeep? || e.MalformedJson?
      || e.RootNotObject? || e.InternalCapacityError?)
  }

  // -------------------------------------------------------------------- state

  datatype SymbolState = SymbolState(
    venue: Venue, symbol: string, instrument: I32, seqNo: U64,
    observed: bool, epoch: U64, connSeq: U64, book: Book)

  function FreshState(venue: Venue, symbol: string, instrument: I32): SymbolState {
    SymbolState(venue, symbol, instrument, 0, false, 0, 0, EMPTY_BOOK)
  }

  datatype Context = Context(ts: Timestamp, venue: Venue, kind: Kind, shard: U32,
                             epoch: U64, connSeq: U64, symbol: string)

  datatype Mode = LiveCapture | ReplayMode

  datatype EventStatus =
    | NotProcessed | BookEvent(status: Status) | TradeAudited | SchemaRejected | PreAuditRejected

  datatype EventError = NoError | InvalidContext | SequenceOverflow | CsvError(error: FormatError)

  datatype Outcome = Outcome(state: SymbolState, status: EventStatus, error: EventError, batch: Batch)

  predicate ContextIsValid(st: SymbolState, ctx: Context) {
    && ctx.venue == st.venue && ctx.symbol == st.symbol && ctx.shard == 0
    && ValidTimestamp(ctx.ts) && ctx.connSeq != 0
    && (st.observed ==> ctx.epoch > st.epoch || (ctx.epoch == st.epoch && ctx.connSeq > st.connSeq))
  }

  function AuditRowOf(ctx: Context, payload: string): AuditRow {
    AuditRow(ctx.ts, ctx.venue, ctx.kind, ctx.shard, ctx.epoch, ctx.connSeq, ctx.symbol, payload)
  }

  function Commit(st: SymbolState, ctx: Context): SymbolState {
    st.(observed := true, epoch := ctx.epoch, connSeq := ctx.connSeq)
  }

  function InvalidatedState(st: SymbolState): SymbolState {
    st.(book := Invalidated(st.book))
  }

  /** Does this event belong to a later connection than the last one seen? */
  predicate EpochChanged(st: SymbolState, ctx: Context) {
    st.observed && ctx.epoch > st.epoch
  }

  function BookRowOf(st: SymbolState, ctx: Context, b: Book, e: DepthEvent, status: Status): BookRow {
    BookRow(ctx.ts, if st.seqNo < U64_MAX then st.seqNo + 1 else 0, st.instrument,
            if ctx.kind.DepthDiff? then DifferentialRow else RefreshRow,
            if status.AppliedRefresh? then NeutralRow else RowSideOf(e), b.bids, b.asks)
  }

  /** The effect of a depth event: the new state and the book row, if there is one. */
  datatype DepthResult = DepthResult(state: SymbolState, status: EventStatus, error: EventError,
                                     hasBook: bool, book: string)

  /** Commit the candidate book only if its row can be numbered and formatted. */
  function FinishDepth(st: SymbolState, ctx: Context, b: Book, status: Status, row: Formatted): DepthResult {
    var done := Commit(st.(book := b), ctx);
    if !EmitsSnapshot(status) then DepthResult(done, BookEvent(status), NoError, false, "")
    else if st.seqNo == U64_MAX then DepthResult(st, NotProcessed, SequenceOverflow, false, "")
    else if row.FormatFailed? then DepthResult(st, NotProcessed, CsvError(row.error), false, "")
    else DepthResult(done.(seqNo := st.seqNo + 1), BookEvent(status), NoError, true, row.text)
  }

  /** The book an event starts from: a later connection starts from an invalid one. */
  function StartBook(st: SymbolState, ctx: Context): Book {
    if EpochChanged(st, ctx) then Invalidated(st.book) else st.book
  }

  function ProcessDepth(st: SymbolState, ctx: Context, e: DepthEvent): DepthResult
    requires !ctx.kind.Trade?
  {
    var (b, status) := ApplyEvent(st.venue, ctx.kind, StartBook(st, ctx), e);
    FinishDepth(st, ctx, b, status, FormatBook(BookRowOf(st, ctx, b, e, status)))
  }

  /** What becomes of an event in a valid context, given what the parser said of it, the
      formatted audit row and the effect it would have on the book. */
  function Decide(st: SymbolState, ctx: Context, error: ParseError, audit: Formatted, mode: Mode,
                  d: DepthResult): Outcome {
    var rejected := if EpochChanged(st, ctx) || ctx.kind.DepthDiff? then InvalidatedState(st) else st;
    var live := mode.LiveCapture?;
    if !AuditEligible(error) then Outcome(Commit(rejected, ctx), PreAuditRejected, NoError, EMPTY_BATCH)
    else if live && audit.FormatFailed? then Outcome(st, NotProcessed, CsvError(audit.error), EMPTY_BATCH)
    else
      var text := if live then audit.text else "";
      if !error.NoParseError? then
        Outcome(Commit(rejected, ctx), SchemaRejected, NoError, Batch(live, text, false, ""))
      else if ctx.kind.Trade? then
        Outcome(Commit(st.(book := StartBook(st, ctx)), ctx), TradeAudited, NoError, Batch(live, text, false, ""))
      else if d.error != NoError then Outcome(d.state, NotProcessed, d.error, EMPTY_BATCH)
      else Outcome(d.state, d.status, NoError, Batch(live, text, d.hasBook, d.book))
  }

  function Process(parse: Parser, st: SymbolState, ctx: Context, payload: string, mode: Mode): Outcome {
    if !ContextIsValid(st, ctx) then Outcome(st, NotProcessed, InvalidContext, EMPTY_BATCH)
    else
      var parsed := parse(ctx.venue, ctx.kind, st.symbol, payload);
      Decide(st, ctx, parsed.error, FormatAudit(AuditRowOf(ctx, payload)), mode, DepthOf(st, ctx, parsed.depth))
  }

  function DepthOf(st: SymbolState, ctx: Context, e: DepthEvent): DepthResult {
    if ctx.kind.Trade? then DepthResult(st, TradeAudited, NoError, false, "") else ProcessDepth(st, ctx, e)
  }

  // ---------------------------------------------------------------- properties

  /** What every state of a run keeps. */
  predicate GoodState(st: SymbolState) {
    GoodBook(st.venue, st.book) && st.instrument > 0 && NormalizedSymbol(st.symbol)
  }

  predicate SameSymbol(a: SymbolState, b: SymbolState) {
    a.venue == b.venue && a.symbol == b.symbol && a.instrument == b.instrument
  }

  /** A processing error leaves the state as it was and the batch empty. */
  lemma ErrorChangesNothing(parse: Parser, st: SymbolState, ctx: Context, payload: string, mode: Mode)
    ensures var o := Process(parse, st, ctx, payload, mode);
            o.error != NoError ==> o.state == st && o.batch == EMPTY_BATCH && o.status == NotProcessed
  {
  }

  lemma InvalidationKeepsBook(venue: Venue, b: Book)
    requires GoodBook(venue, b)
    ensures GoodBook(venue, Invalidated(b))
  {
  }

  /** A row of a good book has nothing the formatter objects to. */
  lemma GoodBookFormats(st: SymbolState, ctx: Context, b: Book, e: DepthEvent, status: Status)
    requires GoodBook(st.venue, b) && st.instrument > 0 && ValidTimestamp(ctx.ts) && st.seqNo < U64_MAX
    ensures FormatBook(BookRowOf(st, ctx, b, e, status)) == Text(BookText(BookRowOf(st, ctx, b, e, status)))
    ensures 1 <= |BookText(BookRowOf(st, ctx, b, e, status))| <= MAX_RECORD
  {
    BookRowFits(BookRowOf(st, ctx, b, e, status));
  }

  /** The effect of a depth event keeps the state good, and the only error it can meet is
      the exhaustion of the sequence numbers. */
  ghost predicate GoodDepth(st: SymbolState, d: DepthResult) {
    && GoodState(d.state) && SameSymbol(st, d.state)
    && (d.error == NoError || (d.error == SequenceOverflow && st.seqNo == U64_MAX && d.state == st))
    && d.state.seqNo == st.seqNo + (if d.hasBook then 1 else 0)
    && d.hasBook == (d.book != "") && |d.book| <= MAX_RECORD
    && (d.hasBook ==> d.state.book.valid)
  }

  lemma DepthKeepsState(st: SymbolState, ctx: Context, e: DepthEvent)
    requires GoodState(st) && ContextIsValid(st, ctx) && (!ctx.kind.Trade? ==> GoodEvent(st.venue, ctx.kind, e))
    ensures GoodDepth(st, DepthOf(st, ctx, e))
  {
    if !ctx.kind.Trade? {
      InvalidationKeepsBook(st.venue, st.book);
      EventKeepsBook(st.venue, ctx.kind, StartBook(st, ctx), e);
      var (b, status) := ApplyEvent(st.venue, ctx.kind, StartBook(st, ctx), e);
      if st.seqNo != U64_MAX {
        GoodBookFormats(st, ctx, b, e, status);
      }
    }
  }

  /** What every processed event keeps. */
  ghost predicate GoodOutcome(st: SymbolState, o: Outcome, mode: Mode) {
    && GoodState(o.state) && SameSymbol(st, o.state)
    && (o.error == NoError || (o.error == SequenceOverflow && st.seqNo == U64_MAX))
    && (o.error != NoError ==> o.state == st && o.batch == EMPTY_BATCH && o.status == NotProcessed)
    && (o.error == NoError ==> o.status != NotProcessed)
    && o.state.seqNo == st.seqNo + (if o.batch.hasBook then 1 else 0)
    && (o.batch.hasBook ==> o.state.book.valid && o.status.BookEvent?)
    && o.batch.hasBook == (o.batch.book != "") && |o.batch.book| <= MAX_RECORD
    && o.batch.hasAudit == (mode.LiveCapture? && o.error == NoError && o.status != PreAuditRejected)
    && o.batch.hasAudit == (o.batch.audit != "")
  }

  lemma DecideKeepsState(st: SymbolState, ctx: Context, error: ParseError, audit: Formatted, mode: Mode, d: DepthResult)
    requires GoodState(st) && audit.Text? && audit.text != ""
    requires error.NoParseError? && !ctx.kind.Trade? ==>
               GoodDepth(st, d) && (d.error == NoError ==> d.status.BookEvent?)
    ensures GoodOutcome(st, Decide(st, ctx, error, audit, mode, d), mode)
    ensures var o := Decide(st, ctx, error, audit, mode, d); o.batch.hasAudit ==> o.batch.audit == audit.text
  {
    InvalidationKeepsBook(st.venue, st.book);
  }

  /** Over every event in a valid context with a payload within the limit: the state stays
      good, no formatting error occurs, a book row is emitted exactly when the sequence
      number advances, and an audit row exactly when a live event is not rejected. */
  lemma ProcessKeepsState(parse: Parser, st: SymbolState, ctx: Context, payload: string, mode: Mode)
    requires ParserContract(parse) && GoodState(st) && ContextIsValid(st, ctx) && |payload| <= MAX_PAYLOAD
    ensures GoodOutcome(st, Process(parse, st, ctx, payload, mode), mode)
    ensures var o := Process(parse, st, ctx, payload, mode);
            o.batch.hasAudit ==> o.batch.audit == AuditText(AuditRowOf(ctx, payload))
  {
    var parsed := parse(ctx.venue, ctx.kind, st.symbol, payload);
    AuditRowFits(AuditRowOf(ctx, payload));
    if parsed.error.NoParseError? {
      DepthKeepsState(st, ctx, parsed.depth);
    }
    DecideKeepsState(st, ctx, parsed.error, FormatAudit(AuditRowOf(ctx, payload)), mode,
                     DepthOf(st, ctx, parsed.depth));
  }

  /** The context check refuses exactly the events of another venue, symbol or shard, with
      invalid nanoseconds, without a sequence number, or not later than the last one. */
  lemma ContextDecides(parse: Parser, st: SymbolState, ctx: Context, payload: string, mode: Mode)
    ensures Process(parse, st, ctx, payload, mode).error == InvalidContext
            <==> || ctx.venue != st.venue || ctx.symbol != st.symbol || ctx.shard != 0
                 || ctx.ts.nanoseconds < 0 || ctx.ts.nanoseconds > 999_999_999 || ctx.connSeq == 0
                 || (st.observed && (ctx.epoch < st.epoch || (ctx.epoch == st.epoch && ctx.connSeq <= st.connSeq)))
  {
  }

  /** What becomes of a live event in a valid context: it is audited unless the payload is not
      a JSON object within the limits; an audited event that the parser rejects for any other
      reason is a schema rejection; and an accepted one is a trade or a book event. */
  lemma AuditedExactly(parse: Parser, st: SymbolState, ctx: Context, payload: string)
    requires ParserContract(parse) && GoodState(st) && ContextIsValid(st, ctx) && |payload| <= MAX_PAYLOAD
    requires Process(parse, st, ctx, payload, LiveCapture).error == NoError
    ensures var o, error := Process(parse, st, ctx, payload, LiveCapture),
                            parse(ctx.venue, ctx.kind, st.symbol, payload).error;
            var unreadable := error in {InvalidInputBuffer, PayloadTooLargeError, NestingTooDeep, MalformedJson,
                                        RootNotObject, InternalCapacityError};
            && o.batch.hasAudit == !unreadable && (o.status.PreAuditRejected? <==> unreadable)
            && (o.status.SchemaRejected? <==> !unreadable && !error.NoParseError?)
            && (o.status.TradeAudited? <==> error.NoParseError? && ctx.kind.Trade?)
            && (o.status.BookEvent? <==> error.NoParseError? && !ctx.kind.Trade?)
            && (o.batch.hasAudit ==> o.batch.audit == AuditText(AuditRow(ctx.ts, ctx.venue, ctx.kind, ctx.shard,
                                                                         ctx.epoch, ctx.connSeq, ctx.symbol, payload)))
  {
    ProcessKeepsState(parse, st, ctx, payload, LiveCapture);
  }

}
