/** The replay loop of src/market_data_replay.cpp against the live runs of
    src/live_event_pipeline.cpp, one message at a time: replaying an audit row regenerates
    its order-book row while live and replay are in step. */
module LiveReplay {
  import opened Types
  import opened Sequencer
  import opened CsvFormat
  import opened EventProcessor
  import opened LivePipeline
  import opened CsvDecode
  import opened AuditFile

  // ------------------------------------------------------------------ live runs

  /** The pipeline receives messages, and is told when a session has ended. */
  datatype LiveInput = Deliver(msg: Message) | Teardown

  /** The rows a run writes for one symbol, in order. */
  datatype Rows = Rows(audits: seq<AuditRow>, books: seq<string>)

  /** What one message adds to the files of symbol k. */
  function RowsOf(r: PipelineResult, k: nat): Rows {
    if r.disposition.BatchReady? && r.target == k then
      Rows([AuditRowOf(r.ctx, r.payload)], if r.batch.hasBook then [r.batch.book] else [])
    else Rows([], [])
  }

  function Plus(a: Rows, b: Rows): Rows {
    Rows(a.audits + b.audits, a.books + b.books)
  }

  /** The rows of symbol k; a fatal result ends the run. */
  function RunLive(env: Env, pl: Pipeline, inputs: seq<LiveInput>, k: nat): Rows
    decreases |inputs|
  {
    if inputs == [] then Rows([], [])
    else match inputs[0]
      case Teardown => RunLive(env, InvalidateAll(pl), inputs[1..], k)
      case Deliver(msg) =>
        var r := ProcessMessage(env, pl, msg);
        if r.disposition.Fatal? then Rows([], [])
        else Plus(RowsOf(r, k), RunLive(env, r.pl, inputs[1..], k))
  }

  /** After a teardown the next message comes from a later connection. */
  predicate NewEpochs(env: Env, pl: Pipeline, torn: bool, inputs: seq<LiveInput>)
    decreases |inputs|
  {
    inputs == [] ||
    match inputs[0]
    case Teardown => NewEpochs(env, InvalidateAll(pl), true, inputs[1..])
    case Deliver(msg) =>
      && (torn && pl.observed ==> msg.epoch > pl.epoch)
      && NewEpochs(env, ProcessMessage(env, pl, msg).pl, false, inputs[1..])
  }

  /** Is this message a depth_diff of symbol k that is rejected before its audit row while
      the live book is valid?  Live then invalidates a book and no row records it. */
  predicate RejectsDiff(env: Env, pl: Pipeline, msg: Message, k: nat) {
    var r := ProcessMessage(env, pl, msg);
    && r.disposition.PreAudit? && env.envelope(msg.payload).routed
    && env.envelope(msg.payload).symbolIndex == k && env.envelope(msg.payload).kind.DepthDiff?
    && k < |pl.states| && Enter(pl, msg).states[k].book.valid
  }

  // --------------------------------------------------------------------- replay

  datatype ReplayEnd = ReplayOk | EmptyInput | InputError(error: ReadError) | EventProcessFailed | PayloadRejected

  datatype Replay = Replay(books: seq<string>, end: ReplayEnd)

  function ContextOfRow(row: AuditRow): Context {
    Context(row.ts, row.venue, row.kind, row.shard, row.epoch, row.connSeq, row.symbol)
  }

  /** The replay loop from a given state. */
  function ReplayFrom(env: Env, st: SymbolState, rows: seq<AuditRow>): Replay
    decreases |rows|
  {
    if rows == [] then Replay([], ReplayOk)
    else
      var o := Process(env.parse, st, ContextOfRow(rows[0]), rows[0].payload, ReplayMode);
      if o.error != NoError then Replay([], EventProcessFailed)
      else if o.status.PreAuditRejected? then Replay([], PayloadRejected)
      else
        var rest := ReplayFrom(env, o.state, rows[1..]);
        Replay((if o.batch.hasBook then [o.batch.book] else []) + rest.books, rest.end)
  }

  /** The replay loop over what is left of a file: the rows, and then the end or an error. */
  function ReplayContents(env: Env, st: SymbolState, contents: FileContents): Replay {
    var r := ReplayFrom(env, st, contents.rows);
    if r.end.ReplayOk? && contents.ending.ErrorEnd? then Replay(r.books, InputError(contents.ending.error)) else r
  }

  /** Replay of the bytes of an audit file.  The state is created from the first row; a file
      without rows is an error. */
  function ReplayBytes(env: Env, bytes: string): Replay {
    var contents := ReadFile(bytes);
    if contents.rows == [] then
      Replay([], if contents.ending.ErrorEnd? then InputError(contents.ending.error) else EmptyInput)
    else ReplayContents(env, StateOfRow(env, contents.rows[0]), contents)
  }

  function StateOfRow(env: Env, row: AuditRow): SymbolState {
    FreshState(row.venue, row.symbol, env.instrument(row.symbol))
  }

  /** How the replay of a file ends: it succeeds only on a file read to a clean end with at least
      one row; without a row it reports the read error or an empty input. */
  lemma ReplayEndDecides(env: Env, bytes: string)
    ensures var r, contents := ReplayBytes(env, bytes), ReadFile(bytes);
            && (r.end.ReplayOk? ==> contents.rows != [] && contents.ending.CleanEnd?)
            && (r.end.EmptyInput? <==> contents.rows == [] && contents.ending.CleanEnd?)
            && (r.end.InputError? ==> contents.ending == ErrorEnd(r.end.error))
            && (contents.rows == [] ==> r.books == [])
  {
    if ReadFile(bytes).rows != [] {
      ReplayEndsByRow(env, StateOfRow(env, ReadFile(bytes).rows[0]), ReadFile(bytes).rows);
    }
  }

  lemma {:induction false} ReplayEndsByRow(env: Env, st: SymbolState, rows: seq<AuditRow>)
    ensures var end := ReplayFrom(env, st, rows).end; end.ReplayOk? || end.EventProcessFailed? || end.PayloadRejected?
    decreases |rows|
  {
    if rows != [] {
      var o := Process(env.parse, st, ContextOfRow(rows[0]), rows[0].payload, ReplayMode);
      ReplayEndsByRow(env, o.state, rows[1..]);
    }
  }

  /** Replay goes on after a row exactly when its event is processed without an error and is
      not rejected before audit; then it emits the event's row, if it has one. */
  lemma ReplayOfRow(env: Env, st: SymbolState, row: AuditRow)
    ensures var o, r := Process(env.parse, st, ContextOfRow(row), row.payload, ReplayMode), ReplayFrom(env, st, [row]);
            && (r.end.ReplayOk? <==> o.error == NoError && !o.status.PreAuditRejected?)
            && (r.end.EventProcessFailed? <==> o.error != NoError)
            && r.books == if r.end.ReplayOk? && o.batch.hasBook then [o.batch.book] else []
  {
    assert [row][1..] == [];
  }

  /** The state after a replay that goes on to its end. */
  function StateAfter(env: Env, st: SymbolState, rows: seq<AuditRow>): SymbolState
    decreases |rows|
  {
    if rows == [] then st
    else StateAfter(env, Process(env.parse, st, ContextOfRow(rows[0]), rows[0].payload, ReplayMode).state, rows[1..])
  }

  /** What follows a first part of the rows. */
  ghost predicate Continued(first: Replay, more: Replay, all: Replay) {
    all == if first.end.ReplayOk? then Replay(first.books + more.books, more.end) else first
  }

  lemma ContinuedCons(book: seq<string>, first: Replay, more: Replay, all: Replay)
    requires Continued(first, more, all)
    ensures Continued(Replay(book + first.books, first.end), more, Replay(book + all.books, all.end))
  {
    assert book + (first.books + more.books) == book + first.books + more.books;
  }

  /** Replay emits what it has up to the first row it cannot process, and nothing after it. */
  lemma {:induction false} ReplayStopsAtFirst(env: Env, st: SymbolState, front: seq<AuditRow>, rest: seq<AuditRow>)
    ensures Continued(ReplayFrom(env, st, front), ReplayFrom(env, StateAfter(env, st, front), rest),
                      ReplayFrom(env, st, front + rest))
    decreases |front|
  {
    if front == [] {
      assert front + rest == rest;
    } else {
      assert (front + rest)[1..] == front[1..] + rest;
      var o := Process(env.parse, st, ContextOfRow(front[0]), front[0].payload, ReplayMode);
      ReplayStopsAtFirst(env, o.state, front[1..], rest);
      ContinuedCons(if o.batch.hasBook then [o.batch.book] else [], ReplayFrom(env, o.state, front[1..]),
                    ReplayFrom(env, StateAfter(env, o.state, front[1..]), rest),
                    ReplayFrom(env, o.state, front[1..] + rest));
    }
  }

  // -------------------------------------------------------- simulation relation

  /** Live state l of a pipeline against replay state r.  Replay sees only the audited
      events, so it may still hold a book that live has already invalidated; but then its
      epoch is behind that of every message to come. */
  ghost predicate Sim(pl: Pipeline, torn: bool, l: SymbolState, r: SymbolState) {
    && SameSymbol(l, r) && l.seqNo == r.seqNo && GoodState(l) && GoodState(r)
    && (r.observed ==> l.observed && LexAtMost(r.epoch, r.connSeq, l.epoch, l.connSeq))
    && (l.observed ==> pl.observed && LexAtMost(l.epoch, l.connSeq, pl.epoch, pl.connSeq))
    && (torn ==> !l.book.valid)
    && (if l.book.valid then l.book == r.book && r.observed && r.epoch == pl.epoch
        else !r.book.valid || (r.observed && (r.epoch < pl.epoch || torn)))
  }

  /** Entering a message: afterwards either both books agree and the epochs too, or live
      is invalid and replay will invalidate on seeing this epoch. */
  ghost predicate SimEntered(msg: Message, l: SymbolState, r: SymbolState) {
    && SameSymbol(l, r) && l.seqNo == r.seqNo && GoodState(l) && GoodState(r)
    && (r.observed ==> l.observed && LexAtMost(r.epoch, r.connSeq, l.epoch, l.connSeq))
    && (l.observed ==> l.epoch < msg.epoch || (l.epoch == msg.epoch && l.connSeq < msg.connSeq))
    && (if l.book.valid then l.book == r.book && r.observed && r.epoch == msg.epoch
        else !r.book.valid || (r.observed && r.epoch < msg.epoch))
  }

  lemma EnterSimulates(pl: Pipeline, torn: bool, msg: Message, k: nat, r: SymbolState)
    requires k < |pl.states| && Sim(pl, torn, pl.states[k], r)
    requires ValidMetadata(pl, msg) && (torn && pl.observed ==> msg.epoch > pl.epoch)
    ensures SimEntered(msg, Enter(pl, msg).states[k], r)
  {
    InvalidationKeepsBook(pl.states[k].venue, pl.states[k].book);
  }

  // -------------------------------------------------------------- one event

  /** The same valid book, or both invalid. */
  predicate BooksAgree(a: Book, b: Book) {
    if a.valid then a == b else !b.valid
  }

  lemma StartBooksAgree(msg: Message, l: SymbolState, r: SymbolState, ctx: Context)
    requires SimEntered(msg, l, r) && ctx.epoch == msg.epoch
    ensures BooksAgree(StartBook(l, ctx), StartBook(r, ctx))
  {
  }

  /** Agreeing books react alike, and show the same when they emit. */
  lemma ApplyAgrees(venue: Venue, kind: Kind, a: Book, b: Book, e: DepthEvent)
    requires BooksAgree(a, b) && !kind.Trade?
    ensures var (a', s) := ApplyEvent(venue, kind, a, e);
            var (b', t) := ApplyEvent(venue, kind, b, e);
            s == t && BooksAgree(a', b') && (EmitsSnapshot(s) ==> a' == b')
  {
  }

  /** States that agree in all that an event can observe of them. */
  ghost predicate Agree(l: SymbolState, r: SymbolState) {
    SameSymbol(l, r) && l.seqNo == r.seqNo && BooksAgree(l.book, r.book)
    && l.observed && r.observed && l.epoch == r.epoch && l.connSeq == r.connSeq
  }

  ghost predicate ResultsAgree(x: DepthResult, y: DepthResult) {
    && x.error == y.error && x.status == y.status && x.hasBook == y.hasBook && x.book == y.book
    && (x.error == NoError ==> Agree(x.state, y.state))
  }

  lemma FinishAgrees(l: SymbolState, r: SymbolState, ctx: Context, a: Book, b: Book, status: Status, s: Formatted,
                     t: Formatted)
    requires SameSymbol(l, r) && l.seqNo == r.seqNo && BooksAgree(a, b) && (EmitsSnapshot(status) ==> s == t)
    ensures ResultsAgree(FinishDepth(l, ctx, a, status, s), FinishDepth(r, ctx, b, status, t))
  {
  }

  lemma DepthAgrees(msg: Message, l: SymbolState, r: SymbolState, ctx: Context, e: DepthEvent)
    requires SimEntered(msg, l, r) && ctx.epoch == msg.epoch && !ctx.kind.Trade?
    ensures ResultsAgree(DepthOf(l, ctx, e), DepthOf(r, ctx, e))
  {
    StartBooksAgree(msg, l, r, ctx);
    ApplyAgrees(l.venue, ctx.kind, StartBook(l, ctx), StartBook(r, ctx), e);
    var (a, s) := ApplyEvent(l.venue, ctx.kind, StartBook(l, ctx), e);
    var (b, t) := ApplyEvent(r.venue, ctx.kind, StartBook(r, ctx), e);
    assert EmitsSnapshot(s) ==> BookRowOf(l, ctx, a, e, s) == BookRowOf(r, ctx, b, e, t);
    FinishAgrees(l, r, ctx, a, b, s, FormatBook(BookRowOf(l, ctx, a, e, s)), FormatBook(BookRowOf(r, ctx, b, e, t)));
  }

  lemma DecideAgrees(msg: Message, l: SymbolState, r: SymbolState, ctx: Context, error: ParseError,
                     audit: Formatted, x: DepthResult, y: DepthResult)
    requires SimEntered(msg, l, r) && ctx.epoch == msg.epoch
    requires ctx.kind.Trade? || ResultsAgree(x, y)
    ensures var a := Decide(l, ctx, error, audit, LiveCapture, x);
            var b := Decide(r, ctx, error, audit, ReplayMode, y);
            a.error == NoError && !a.status.PreAuditRejected? ==>
              && b.error == NoError && b.status == a.status && !b.status.PreAuditRejected?
              && b.batch.hasBook == a.batch.hasBook && b.batch.book == a.batch.book
              && Agree(a.state, b.state)
  {
    StartBooksAgree(msg, l, r, ctx);
  }

  /** An audited event has the same effect on both sides. */
  lemma ProcessSimulates(env: Env, msg: Message, l: SymbolState, r: SymbolState, ctx: Context, payload: string)
    requires SimEntered(msg, l, r) && ctx.epoch == msg.epoch && ctx.connSeq == msg.connSeq
    requires ContextIsValid(l, ctx)
    ensures var a := Process(env.parse, l, ctx, payload, LiveCapture);
            var b := Process(env.parse, r, ctx, payload, ReplayMode);
            a.error == NoError && !a.status.PreAuditRejected? ==>
              && b.error == NoError && !b.status.PreAuditRejected?
              && b.batch.hasBook == a.batch.hasBook && b.batch.book == a.batch.book
              && Agree(a.state, b.state)
  {
    var parsed := env.parse(ctx.venue, ctx.kind, l.symbol, payload);
    if !ctx.kind.Trade? {
      DepthAgrees(msg, l, r, ctx, parsed.depth);
    }
    DecideAgrees(msg, l, r, ctx, parsed.error, FormatAudit(AuditRowOf(ctx, payload)),
                 DepthOf(l, ctx, parsed.depth), DepthOf(r, ctx, parsed.depth));
  }

  // ------------------------------------------------------------ one message

  /** What a message that is not audited for symbol k does to the live state: replay does
      not see it, and need not. */
  lemma UnseenEventSimulates(p: Pipeline, msg: Message, l: SymbolState, r: SymbolState, after: SymbolState)
    requires SimEntered(msg, l, r) && GoodState(after) && SameSymbol(l, after) && after.seqNo == l.seqNo
    requires p.observed && p.epoch == msg.epoch && p.connSeq == msg.connSeq
    requires after.book == l.book || (!l.book.valid && !after.book.valid)
    requires (after.observed, after.epoch, after.connSeq)
             in {(l.observed, l.epoch, l.connSeq), (true, msg.epoch, msg.connSeq)}
    ensures Sim(p, false, after, r)
  {
  }

  /** A pre-audit rejection changes a book only when it rejects a diff. */
  lemma PreAuditEffect(parse: Parser, st: SymbolState, ctx: Context, payload: string)
    requires ContextIsValid(st, ctx) && Process(parse, st, ctx, payload, LiveCapture).status.PreAuditRejected?
    requires st.book.valid ==> !EpochChanged(st, ctx) && !ctx.kind.DepthDiff?
    ensures var o := Process(parse, st, ctx, payload, LiveCapture);
            && (o.state.book == st.book || (!st.book.valid && !o.state.book.valid))
            && o.state.seqNo == st.seqNo && o.state.observed
            && o.state.epoch == ctx.epoch && o.state.connSeq == ctx.connSeq
  {
  }

  /** The replay side of one message: nothing if the message was not audited for k. */
  ghost predicate MessageMatched(env: Env, res: PipelineResult, k: nat, r: SymbolState)
    requires k < |res.pl.states|
  {
    var rows := RowsOf(res, k);
    if rows.audits == [] then Sim(res.pl, false, res.pl.states[k], r)
    else
      var o := Process(env.parse, r, ContextOfRow(rows.audits[0]), rows.audits[0].payload, ReplayMode);
      && o.error == NoError && !o.status.PreAuditRejected?
      && (if o.batch.hasBook then [o.batch.book] else []) == rows.books
      && Sim(res.pl, false, res.pl.states[k], o.state)
  }

  lemma PreAuditMatches(env: Env, p: Pipeline, msg: Message, k: nat, r: SymbolState, ctx: Context, payload: string,
                        o: Outcome)
    requires k < |p.states| && SimEntered(msg, p.states[k], r)
    requires p.observed && p.epoch == msg.epoch && p.connSeq == msg.connSeq
    requires o.error == NoError && o.status.PreAuditRejected?
    requires GoodState(o.state) && SameSymbol(p.states[k], o.state) && o.state.seqNo == p.states[k].seqNo
    requires o.state.book == p.states[k].book || (!p.states[k].book.valid && !o.state.book.valid)
    requires o.state.observed && o.state.epoch == msg.epoch && o.state.connSeq == msg.connSeq
    ensures MessageMatched(env, Conclude(p, k, o, ctx, payload), k, r)
  {
    UnseenEventSimulates(Conclude(p, k, o, ctx, payload).pl, msg, p.states[k], r, o.state);
  }

  lemma ReadyMatches(env: Env, p: Pipeline, msg: Message, k: nat, r: SymbolState, ctx: Context, payload: string,
                     o: Outcome, q: Outcome)
    requires k < |p.states| && p.observed && p.epoch == msg.epoch && p.connSeq == msg.connSeq
    requires q == Process(env.parse, r, ctx, payload, ReplayMode)
    requires q.error == NoError && !q.status.PreAuditRejected?
    requires q.batch.hasBook == o.batch.hasBook && q.batch.book == o.batch.book
    requires Agree(o.state, q.state) && GoodState(o.state) && GoodState(q.state)
    requires o.state.epoch == msg.epoch && o.state.connSeq == msg.connSeq
    ensures var res := Conclude(p, k, o, ctx, payload);
            res.disposition.BatchReady? ==> MessageMatched(env, res, k, r)
  {
    var res := Conclude(p, k, o, ctx, payload);
    AgreeingStatesSimulate(res.pl, msg, o.state, q.state);
    assert ContextOfRow(AuditRowOf(ctx, payload)) == ctx;
  }

  lemma ConcludeMatches(env: Env, p: Pipeline, msg: Message, k: nat, r: SymbolState, ctx: Context, payload: string,
                        o: Outcome)
    requires EnvContract(env) && k < |p.states| && SimEntered(msg, p.states[k], r)
    requires p.observed && p.epoch == msg.epoch && p.connSeq == msg.connSeq && |payload| <= MAX_PAYLOAD
    requires ctx == ContextOf(env, msg, ctx.kind, p.states[k].symbol) && ContextIsValid(p.states[k], ctx)
    requires o == Process(env.parse, p.states[k], ctx, payload, LiveCapture)
    requires o.status.PreAuditRejected? && p.states[k].book.valid ==> !ctx.kind.DepthDiff?
    ensures var res := Conclude(p, k, o, ctx, payload);
            res.disposition.Fatal? || MessageMatched(env, res, k, r)
  {
    var l := p.states[k];
    ProcessKeepsState(env.parse, l, ctx, payload, LiveCapture);
    if o.error == NoError {
      if o.status.PreAuditRejected? {
        PreAuditEffect(env.parse, l, ctx, payload);
        PreAuditMatches(env, p, msg, k, r, ctx, payload, o);
      } else {
        var q := Process(env.parse, r, ctx, payload, ReplayMode);
        ProcessSimulates(env, msg, l, r, ctx, payload);
        ReplayContextValid(msg, l, r, ctx);
        ProcessKeepsState(env.parse, r, ctx, payload, ReplayMode);
        CommitsUnlessError(env.parse, l, ctx, payload, LiveCapture);
        ReadyMatches(env, p, msg, k, r, ctx, payload, o, q);
      }
    }
  }

  lemma CommitsUnlessError(parse: Parser, st: SymbolState, ctx: Context, payload: string, mode: Mode)
    requires Process(parse, st, ctx, payload, mode).error == NoError
    ensures var o := Process(parse, st, ctx, payload, mode);
            o.state.epoch == ctx.epoch && o.state.connSeq == ctx.connSeq
  {
  }

  lemma ReplayContextValid(msg: Message, l: SymbolState, r: SymbolState, ctx: Context)
    requires SimEntered(msg, l, r) && ContextIsValid(l, ctx)
    ensures ContextIsValid(r, ctx)
  {
  }

  lemma AgreeingStatesSimulate(p: Pipeline, msg: Message, l: SymbolState, r: SymbolState)
    requires Agree(l, r) && GoodState(l) && GoodState(r) && l.epoch == msg.epoch && l.connSeq == msg.connSeq
    requires p.observed && p.epoch == msg.epoch && p.connSeq == msg.connSeq
    ensures Sim(p, false, l, r)
  {
  }

  /** One message: live and replay stay related, and write the same book row or none. */
  lemma MessageSimulates(env: Env, pl: Pipeline, torn: bool, msg: Message, k: nat, r: SymbolState)
    requires EnvContract(env) && GoodPipeline(env, pl) && k < |pl.states| && Sim(pl, torn, pl.states[k], r)
    requires torn && pl.observed ==> msg.epoch > pl.epoch
    requires !RejectsDiff(env, pl, msg, k) && !ProcessMessage(env, pl, msg).disposition.Fatal?
    ensures MessageMatched(env, ProcessMessage(env, pl, msg), k, r)
  {
    var e := env.envelope(msg.payload);
    var p := Enter(pl, msg);
    EnterKeeps(env, pl, msg);
    EnterSimulates(pl, torn, msg, k, r);
    var res := ProcessMessage(env, pl, msg);
    if e.ok && e.symbolIndex == k {
      ContextNeverRejected(env, p, msg, k, e.kind);
      assert p.states[k].symbol == pl.states[k].symbol;
      var ctx := ContextOf(env, msg, e.kind, p.states[k].symbol);
      ConcludeMatches(env, p, msg, k, r, ctx, e.payload, Process(env.parse, p.states[k], ctx, e.payload, LiveCapture));
    } else {
      UntouchedOrInvalidated(env, pl, msg, k);
      InvalidationKeepsBook(env.venue, p.states[k].book);
      UnseenEventSimulates(res.pl, msg, p.states[k], r, res.pl.states[k]);
    }
  }

  lemma ConcludeElsewhere(p: Pipeline, j: nat, o: Outcome, ctx: Context, payload: string, k: nat)
    requires j < |p.states| && k < |p.states| && j != k
    ensures var res := Conclude(p, j, o, ctx, payload);
            && RowsOf(res, k).audits == [] && |res.pl.states| == |p.states| && res.pl.states[k] == p.states[k]
            && res.pl.observed == p.observed && res.pl.epoch == p.epoch && res.pl.connSeq == p.connSeq
  {
  }

  lemma UntouchedOrInvalidated(env: Env, pl: Pipeline, msg: Message, k: nat)
    requires EnvContract(env) && k < |pl.states| == |env.symbols|
    requires !RejectsDiff(env, pl, msg, k) && !ProcessMessage(env, pl, msg).disposition.Fatal?
    requires !env.envelope(msg.payload).ok || env.envelope(msg.payload).symbolIndex != k
    ensures var p, res := Enter(pl, msg), ProcessMessage(env, pl, msg);
            && RowsOf(res, k).audits == [] && |res.pl.states| == |p.states| == |pl.states|
            && res.pl.observed && res.pl.epoch == msg.epoch && res.pl.connSeq == msg.connSeq
            && (res.pl.states[k] == p.states[k]
                || (res.pl.states[k] == InvalidatedState(p.states[k]) && !p.states[k].book.valid))
  {
    var e := env.envelope(msg.payload);
    if e.ok {
      var p := Enter(pl, msg);
      var ctx := ContextOf(env, msg, e.kind, pl.states[e.symbolIndex].symbol);
      var o := Process(env.parse, p.states[e.symbolIndex], ctx, e.payload, LiveCapture);
      ConcludeElsewhere(p, e.symbolIndex, o, ctx, e.payload, k);
    }
  }

  // ----------------------------------------------------- the audit file of a run

  /** The last row written for symbol k is behind the connection metadata. */
  ghost predicate Behind(env: Env, pl: Pipeline, k: nat, id: FileId)
    requires k < |env.symbols|
  {
    id.LastRow? ==> && id.venue == env.venue && id.symbol == env.symbols[k]
                    && pl.observed && LexAtMost(id.epoch, id.connSeq, pl.epoch, pl.connSeq)
  }

  lemma {:induction false} RunIsWritable(env: Env, pl: Pipeline, inputs: seq<LiveInput>, k: nat, id: FileId)
    requires EnvContract(env) && GoodPipeline(env, pl) && k < |env.symbols| && Behind(env, pl, k, id)
    ensures var audits := RunLive(env, pl, inputs, k).audits;
            && WritableRows(id, audits)
            && (audits != [] ==> audits[0].venue == env.venue && audits[0].symbol == env.symbols[k])
    decreases |inputs|
  {
    if inputs == [] {
    } else if inputs[0].Teardown? {
      InvalidateKeeps(env, pl);
      RunIsWritable(env, InvalidateAll(pl), inputs[1..], k, id);
    } else {
      var msg := inputs[0].msg;
      var res := ProcessMessage(env, pl, msg);
      if !res.disposition.Fatal? {
        MessageIsGood(env, pl, msg);
        MessageRowFollows(env, pl, msg, k, id);
        var rows, rest := RowsOf(res, k), RunLive(env, res.pl, inputs[1..], k);
        if rows.audits == [] {
          RunIsWritable(env, res.pl, inputs[1..], k, id);
          assert [] + rest.audits == rest.audits;
        } else {
          RunIsWritable(env, res.pl, inputs[1..], k, IdOf(rows.audits[0]));
          assert (rows.audits + rest.audits)[1..] == rest.audits;
        }
      }
    }
  }

  /** The audit row of a message can follow the earlier rows of its file. */
  lemma MessageRowFollows(env: Env, pl: Pipeline, msg: Message, k: nat, id: FileId)
    requires EnvContract(env) && GoodPipeline(env, pl) && k < |env.symbols| && Behind(env, pl, k, id)
    requires ValidMetadata(pl, msg) && |msg.payload| <= MAX_PAYLOAD
    ensures var res := ProcessMessage(env, pl, msg);
            var audits := RowsOf(res, k).audits;
            if audits == [] then Behind(env, res.pl, k, id)
            else && |audits| == 1 && ValidAuditRow(audits[0]) && audits[0].shard == 0
                 && CheckSequence(id, audits[0]).InSequence? && Behind(env, res.pl, k, IdOf(audits[0]))
                 && audits[0].venue == env.venue && audits[0].symbol == env.symbols[k]
  {
    MessageIsGood(env, pl, msg);
  }

  // ------------------------------------------------------------------ the start

  lemma InitialSim(env: Env, k: nat)
    requires EnvContract(env) && k < |env.symbols|
    ensures var pl := InitialPipeline(env);
            Sim(pl, false, pl.states[k], FreshState(env.venue, env.symbols[k], env.instrument(env.symbols[k])))
  {
  }
}
