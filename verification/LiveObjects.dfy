/** The symbol state and the live pipeline as the objects that process events in place
    (src/event_processor.cpp, src/live_event_pipeline.cpp), proved against Process and
    ProcessMessage.  A candidate book is a copy, so the book itself is a value here. */
module LiveObjects {
  import opened Types
  import opened Sequencer
  import opened CsvFormat
  import opened EventProcessor
  import opened LivePipeline

  datatype ProcessResult = ProcessResult(status: EventStatus, error: EventError)

  /** The batch the pipeline writes into. */
  class RowBatch {
    var batch: Batch

    constructor ()
      ensures batch == EMPTY_BATCH
    {
      batch := EMPTY_BATCH;
    }

    method Clear()
      modifies this
      ensures batch == EMPTY_BATCH
    {
      batch := EMPTY_BATCH;
    }
  }

  class SymbolCell {
    const venue: Venue
    const symbol: string
    const instrument: I32
    var seqNo: U64
    var observed: bool
    var epoch: U64
    var connSeq: U64
    var book: Book

    ghost function View(): SymbolState
      reads this
    {
      SymbolState(venue, symbol, instrument, seqNo, observed, epoch, connSeq, book)
    }

    constructor (venue: Venue, symbol: string, instrument: I32)
      ensures View() == FreshState(venue, symbol, instrument)
    {
      this.venue, this.symbol, this.instrument := venue, symbol, instrument;
      seqNo, observed, epoch, connSeq, book := 0, false, 0, 0, EMPTY_BOOK;
    }

    method Invalidate()
      modifies this`book
      ensures View() == InvalidatedState(old(View()))
    {
      book := Invalidated(book);
    }

    /** commit_context. */
    method CommitContext(ctx: Context)
      modifies this`observed, this`epoch, this`connSeq
      ensures View() == Commit(old(View()), ctx)
    {
      observed, epoch, connSeq := true, ctx.epoch, ctx.connSeq;
    }

    /** An event that is rejected, before or after its audit row. */
    method Reject(ctx: Context, epochChanged: bool)
      modifies this
      ensures var invalidates := epochChanged || ctx.kind.DepthDiff?;
              View() == Commit(if invalidates then InvalidatedState(old(View())) else old(View()), ctx)
    {
      if epochChanged || ctx.kind.DepthDiff? {
        Invalidate();
      }
      CommitContext(ctx);
    }

    /** A depth event: the candidate book replaces the book only when its row, if it emits
        one, has been numbered and formatted. */
    method ProcessDepthEvent(ctx: Context, e: DepthEvent, epochChanged: bool, out: RowBatch) returns (r: ProcessResult)
      requires !ctx.kind.Trade? && epochChanged == EpochChanged(View(), ctx)
      requires !out.batch.hasBook && out.batch.book == ""
      modifies this, out
      ensures var d := ProcessDepth(old(View()), ctx, e);
              && View() == d.state && r == ProcessResult(d.status, d.error)
              && out.batch == if d.error != NoError then EMPTY_BATCH
                              else old(out.batch).(hasBook := d.hasBook, book := d.book)
    {
      var candidate := if epochChanged then Invalidated(book) else book;
      var (after, status) := ApplyEvent(venue, ctx.kind, candidate, e);
      var next := seqNo;
      if EmitsSnapshot(status) {
        if seqNo == U64_MAX {
          out.Clear();
          return ProcessResult(NotProcessed, SequenceOverflow);
        }
        next := seqNo + 1;
        var rowKind := if ctx.kind.DepthDiff? then DifferentialRow else RefreshRow;
        var side := if status.AppliedRefresh? then NeutralRow else RowSideOf(e);
        var row := FormatBook(BookRow(ctx.ts, next, instrument, rowKind, side, after.bids, after.asks));
        if row.FormatFailed? {
          out.Clear();
          return ProcessResult(NotProcessed, CsvError(row.error));
        }
        out.batch := out.batch.(hasBook := true, book := row.text);
      }
      book := after;
      CommitContext(ctx);
      if EmitsSnapshot(status) {
        seqNo := next;
      }
      r := ProcessResult(BookEvent(status), NoError);
    }

    /** EventProcessor::process. */
    method ProcessEvent(parse: Parser, ctx: Context, payload: string, mode: Mode,
                        out: RowBatch) returns (r: ProcessResult)
      modifies this, out
      ensures var o := Process(parse, old(View()), ctx, payload, mode);
              View() == o.state && r == ProcessResult(o.status, o.error) && out.batch == o.batch
    {
      out.Clear();
      if !(&& ctx.venue == venue && ctx.symbol == symbol && ctx.shard == 0 && ValidTimestamp(ctx.ts) && ctx.connSeq != 0
           && (observed ==> ctx.epoch > epoch || (ctx.epoch == epoch && ctx.connSeq > connSeq))) {
        return ProcessResult(NotProcessed, InvalidContext);
      }
      var parsed := parse(ctx.venue, ctx.kind, symbol, payload);
      r := ProcessParsed(ctx, parsed, FormatAudit(AuditRowOf(ctx, payload)), mode, out);
    }

    /** process after the parser has answered. */
    method ProcessParsed(ctx: Context, parsed: Parsed, audit: Formatted, mode: Mode,
                         out: RowBatch) returns (r: ProcessResult)
      requires out.batch == EMPTY_BATCH
      modifies this, out
      ensures var st := old(View());
              var o := Decide(st, ctx, parsed.error, audit, mode, DepthOf(st, ctx, parsed.depth));
              View() == o.state && r == ProcessResult(o.status, o.error) && out.batch == o.batch
    {
      var epochChanged := observed && ctx.epoch > epoch;
      if !AuditEligible(parsed.error) {
        Reject(ctx, epochChanged);
        return ProcessResult(PreAuditRejected, NoError);
      }
      if mode.LiveCapture? {
        if audit.FormatFailed? {
          return ProcessResult(NotProcessed, CsvError(audit.error));
        }
        out.batch := Batch(true, audit.text, false, "");
      }
      if !parsed.error.NoParseError? {
        Reject(ctx, epochChanged);
        return ProcessResult(SchemaRejected, NoError);
      }
      if ctx.kind.Trade? {
        if epochChanged {
          Invalidate();
        }
        CommitContext(ctx);
        return ProcessResult(TradeAudited, NoError);
      }
      r := ProcessDepthEvent(ctx, parsed.depth, epochChanged, out);
    }
  }

  datatype PipelineAnswer = PipelineAnswer(disposition: Disposition, target: nat, status: EventStatus)

  class PipelineObject {
    const env: Env
    const cells: seq<SymbolCell>
    var observed: bool
    var epoch: U64
    var connSeq: U64
    /** The states of the cells, as values. */
    ghost var states: seq<SymbolState>

    constructor (env: Env, cells: seq<SymbolCell>)
      requires |cells| == |env.symbols| && (forall i, j :: 0 <= i < j < |cells| ==> cells[i] != cells[j])
      requires forall i :: 0 <= i < |cells| ==>
                 cells[i].View() == FreshState(env.venue, env.symbols[i], env.instrument(env.symbols[i]))
      ensures this.env == env && this.cells == cells && Valid() && View() == InitialPipeline(env)
    {
      this.env, this.cells := env, cells;
      observed, epoch, connSeq := false, 0, 0;
      states := InitialPipeline(env).states;
    }

    ghost predicate Valid()
      reads this, cells
    {
      && (forall i, j :: 0 <= i < j < |cells| ==> cells[i] != cells[j])
      && |states| == |cells| && (forall i :: 0 <= i < |cells| ==> cells[i].View() == states[i])
    }

    ghost function View(): Pipeline
      reads this
    {
      Pipeline(states, observed, epoch, connSeq)
    }

    /** invalidate_all. */
    method InvalidateEvery()
      requires Valid()
      modifies this`states, cells
      ensures Valid() && View() == InvalidateAll(old(View()))
    {
      var i := 0;
      while i < |cells|
        invariant i <= |cells| && |states| == |cells| && states == old(states)
        invariant forall j :: 0 <= j < i ==> cells[j].View() == InvalidatedState(states[j])
        invariant forall j :: i <= j < |cells| ==> cells[j].View() == states[j]
      {
        cells[i].Invalidate();
        i := i + 1;
      }
      states := InvalidateStates(states);
    }

    /** The metadata of an accepted message; a later connection invalidates every book. */
    method EnterMessage(msg: Message)
      requires Valid()
      modifies this, cells
      ensures Valid() && View() == Enter(old(View()), msg)
    {
      if observed && msg.epoch > epoch {
        InvalidateEvery();
      }
      observed, epoch, connSeq := true, msg.epoch, msg.connSeq;
    }

    method InvalidateOne(k: nat)
      requires Valid() && k < |cells|
      modifies this`states, cells[k]
      ensures Valid() && states == old(states)[k := InvalidatedState(old(states)[k])]
    {
      cells[k].Invalidate();
      states := states[k := InvalidatedState(states[k])];
    }

    /** The event processor on one cell. */
    method ProcessOne(k: nat, ctx: Context, payload: string, out: RowBatch) returns (r: ProcessResult)
      requires Valid() && k < |cells|
      modifies this`states, cells[k], out
      ensures var o := Process(env.parse, old(states)[k], ctx, payload, LiveCapture);
              Valid() && states == old(states)[k := o.state] && r == ProcessResult(o.status, o.error)
              && out.batch == o.batch
    {
      ghost var o := Process(env.parse, states[k], ctx, payload, LiveCapture);
      r := cells[k].ProcessEvent(env.parse, ctx, payload, LiveCapture, out);
      states := states[k := o.state];
    }

    /** What process returns once the event processor has answered. */
    method Conclusion(k: nat, r: ProcessResult, out: RowBatch, ghost pl: Pipeline, ghost ctx: Context,
                      ghost payload: string,
                      ghost st: SymbolState) returns (a: PipelineAnswer)
      requires k < |pl.states|
      modifies out
      ensures var c := Conclude(pl, k, Outcome(st, r.status, r.error, old(out.batch)), ctx, payload);
              a == PipelineAnswer(c.disposition, c.target, c.status) && out.batch == c.batch
    {
      if r.error != NoError {
        out.Clear();
        return PipelineAnswer(Fatal(EventFailed), k, r.status);
      }
      if r.status.PreAuditRejected? {
        out.Clear();
        return PipelineAnswer(PreAudit, k, r.status);
      }
      if !out.batch.hasAudit || out.batch.audit == "" || out.batch.hasBook == (out.batch.book == "") {
        out.Clear();
        return PipelineAnswer(Fatal(BatchContract), k, r.status);
      }
      a := PipelineAnswer(BatchReady, k, r.status);
    }

    /** A message whose envelope is valid. */
    method ProcessRouted(e: Envelope, msg: Message, out: RowBatch) returns (a: PipelineAnswer)
      requires Valid() && e.symbolIndex < |cells|
      modifies this`states, cells, out
      ensures var k := e.symbolIndex;
              var ctx := ContextOf(env, msg, e.kind, old(states)[k].symbol);
              var o := Process(env.parse, old(states)[k], ctx, e.payload, LiveCapture);
              var c := Conclude(old(View()), k, o, ctx, e.payload);
              Valid() && View() == c.pl && a == PipelineAnswer(c.disposition, c.target, c.status)
              && out.batch == c.batch
    {
      var k := e.symbolIndex;
      assert cells[k].View() == states[k];
      var ctx := ContextOf(env, msg, e.kind, cells[k].symbol);
      var r := ProcessOne(k, ctx, e.payload, out);
      a := Conclusion(k, r, out, old(View()), ctx, e.payload, states[k]);
    }

    /** Impl::process. */
    method ProcessText(msg: Message, out: RowBatch) returns (a: PipelineAnswer)
      requires Valid()
      modifies this, cells, out
      ensures var r := ProcessMessage(env, old(View()), msg);
              Valid() && View() == r.pl && a == PipelineAnswer(r.disposition, r.target, r.status)
              && out.batch == r.batch
    {
      out.Clear();
      if !(&& ValidTimestamp(msg.ts) && msg.connSeq != 0
           && (observed ==> msg.epoch > epoch || (msg.epoch == epoch && msg.connSeq > connSeq))) {
        return PipelineAnswer(Fatal(InvalidMetadata), 0, NotProcessed);
      }
      if |msg.payload| > MAX_PAYLOAD {
        return PipelineAnswer(Fatal(MessageTooLarge), 0, NotProcessed);
      }
      EnterMessage(msg);
      var e := env.envelope(msg.payload);
      if !e.ok {
        if e.routed && e.kind.DepthDiff? && e.symbolIndex < |cells| {
          InvalidateOne(e.symbolIndex);
        }
        return PipelineAnswer(PreAudit, if e.routed then e.symbolIndex else |cells|, NotProcessed);
      }
      if e.symbolIndex >= |cells| {
        return PipelineAnswer(Fatal(RouteStateMismatch), 0, NotProcessed);
      }
      a := ProcessRouted(e, msg, out);
    }
  }
}
