/** Exactly when replaying the audit rows of a live run regenerates its order-book rows.

    A depth_diff of a symbol that is rejected before its audit row invalidates the live book
    and leaves no trace in the audit file: replay goes on holding the book that live has
    dropped.  The two stay in step as long as no audited event tells the held book from an
    invalid one; the events that do are those the held book accepts as a diff, and those it
    rejects as an old refresh. */
module ReplayAgreement {
  import opened Types
  import opened Sequencer
  import opened Continuity
  import opened CsvFormat
  import opened EventProcessor
  import opened LivePipeline
  import opened AuditFile
  import opened LiveReplay

  // ------------------------------------------------------------------ the held book

  /** The valid book that replay still has and live has dropped. */
  datatype Held = NothingHeld | Held(book: Book)

  /** Does this audited event tell the held book from an invalid one? */
  predicate BreaksOn(venue: Venue, kind: Kind, parsed: Parsed, b: Book) {
    && parsed.error.NoParseError? && !kind.Trade?
    && var status := ApplyEvent(venue, kind, b, parsed.depth).1;
       status.AppliedDiff? || status.StaleRefresh?
  }

  /** The condition in terms of identifiers and levels. */
  lemma BreaksOnExactly(venue: Venue, kind: Kind, parsed: Parsed, b: Book)
    requires GoodBook(venue, b) && b.valid && (parsed.error.NoParseError? ==> GoodEvent(venue, kind, parsed.depth))
    ensures BreaksOn(venue, kind, parsed, b) <==>
              && parsed.error.NoParseError?
              && match kind
                 case Depth5 => parsed.depth.finalId < b.lastId
                 case DepthDiff => Continues(venue, b, parsed.depth) && !Crosses(b, parsed.depth)
                 case Trade => false
  {
    if parsed.error.NoParseError? && kind.DepthDiff? {
      CrossedMeansCrosses(b, parsed.depth);
    }
  }

  /** What is held after an audited event that does not: an event that replay drops as stale
      or has no effect on the book leaves it, any other event brings the books together. */
  function HeldAfterEvent(venue: Venue, kind: Kind, parsed: Parsed, b: Book): Held {
    if !parsed.error.NoParseError? then if kind.DepthDiff? then NothingHeld else Held(b)
    else if kind.Trade? || ApplyEvent(venue, kind, b, parsed.depth).1.StaleDiff? then Held(b)
    else NothingHeld
  }

  /** A later connection invalidates the held book too. */
  function HeldOnEntry(pl: Pipeline, msg: Message, held: Held): Held {
    if pl.observed && msg.epoch > pl.epoch then NothingHeld else held
  }

  predicate Audited(env: Env, pl: Pipeline, msg: Message, k: nat) {
    RowsOf(ProcessMessage(env, pl, msg), k).audits != []
  }

  /** What the payload parser makes of a message for symbol k. */
  function ParsedFor(env: Env, msg: Message, k: nat): Parsed
    requires k < |env.symbols|
  {
    var e := env.envelope(msg.payload);
    env.parse(env.venue, e.kind, env.symbols[k], e.payload)
  }

  function KindOf(env: Env, msg: Message): Kind {
    env.envelope(msg.payload).kind
  }

  /** The message after which live and replay have written different rows. */
  predicate Breaks(env: Env, pl: Pipeline, held: Held, msg: Message, k: nat)
    requires k < |env.symbols|
  {
    var h := HeldOnEntry(pl, msg, held);
    h.Held? && Audited(env, pl, msg, k) && BreaksOn(env.venue, KindOf(env, msg), ParsedFor(env, msg, k), h.book)
  }

  /** What is held after a message: a diff rejected before audit opens the window. */
  function HeldNext(env: Env, pl: Pipeline, held: Held, msg: Message, k: nat): Held
    requires k < |env.symbols|
  {
    if RejectsDiff(env, pl, msg, k) then Held(Enter(pl, msg).states[k].book)
    else
      var h := HeldOnEntry(pl, msg, held);
      if h.NothingHeld? || !Audited(env, pl, msg, k) then h
      else HeldAfterEvent(env.venue, KindOf(env, msg), ParsedFor(env, msg, k), h.book)
  }

  /** No audited event of an open window is a diff that continues the held book or a refresh
      older than it.  A fatal result ends the run. */
  predicate NeverBreaks(env: Env, pl: Pipeline, held: Held, inputs: seq<LiveInput>, k: nat)
    requires k < |env.symbols|
    decreases |inputs|
  {
    inputs == [] ||
    match inputs[0]
    case Teardown => NeverBreaks(env, InvalidateAll(pl), NothingHeld, inputs[1..], k)
    case Deliver(msg) =>
      var r := ProcessMessage(env, pl, msg);
      r.disposition.Fatal? ||
      (&& !Breaks(env, pl, held, msg, k)
       && NeverBreaks(env, r.pl, HeldNext(env, pl, held, msg, k), inputs[1..], k))
  }

  // ------------------------------------------------------------ simulation relation

  /** Live and replay are related but for the book that replay still holds. */
  ghost predicate SimHeld(pl: Pipeline, b: Book, l: SymbolState, r: SymbolState) {
    && Sim(pl, false, l, InvalidatedState(r)) && GoodState(r)
    && !l.book.valid && b.valid && r.book == b && r.observed && r.epoch == pl.epoch
  }

  ghost predicate SimWith(pl: Pipeline, torn: bool, held: Held, l: SymbolState, r: SymbolState) {
    match held
    case NothingHeld => Sim(pl, torn, l, r)
    case Held(b) => !torn && SimHeld(pl, b, l, r)
  }

  /** The same once a message of the same connection has entered. */
  ghost predicate HeldEntered(msg: Message, b: Book, l: SymbolState, r: SymbolState) {
    && SimEntered(msg, l, InvalidatedState(r)) && GoodState(r)
    && !l.book.valid && b.valid && r.book == b && r.observed && r.epoch == msg.epoch
  }

  lemma EnterHolds(pl: Pipeline, msg: Message, k: nat, b: Book, r: SymbolState)
    requires k < |pl.states| && SimHeld(pl, b, pl.states[k], r) && ValidMetadata(pl, msg)
    ensures if msg.epoch > pl.epoch then SimEntered(msg, Enter(pl, msg).states[k], r)
            else HeldEntered(msg, b, Enter(pl, msg).states[k], r)
  {
    InvalidationKeepsBook(pl.states[k].venue, pl.states[k].book);
  }

  lemma TeardownCloses(pl: Pipeline, torn: bool, held: Held, k: nat, r: SymbolState)
    requires k < |pl.states| && SimWith(pl, torn, held, pl.states[k], r)
    ensures Sim(InvalidateAll(pl), true, InvalidateAll(pl).states[k], r)
  {
    InvalidationKeepsBook(pl.states[k].venue, pl.states[k].book);
  }

  // -------------------------------------------------------------- one audited event

  /** What a depth event does to a book that is not valid. */
  lemma InvalidBookReacts(venue: Venue, kind: Kind, a: Book, e: DepthEvent)
    requires !a.valid && !kind.Trade?
    ensures var (a', s) := ApplyEvent(venue, kind, a, e);
            if kind.Depth5? then s == AppliedRefresh && a' == Book(e.bids, e.asks, e.finalId, true, false, 0)
            else s == IgnoredWhileInvalid && a' == a
  {
  }

  /** What it does to the held book: the two verdicts that break, and what the others leave. */
  lemma HeldBookReacts(venue: Venue, kind: Kind, b: Book, e: DepthEvent)
    requires b.valid && !kind.Trade?
    ensures var (b', t) := ApplyEvent(venue, kind, b, e);
            match t
            case AppliedDiff => kind.DepthDiff?
            case StaleRefresh => kind.Depth5?
            case AppliedRefresh => kind.Depth5? && b' == Book(e.bids, e.asks, e.finalId, true, false, 0)
            case StaleDiff => kind.DepthDiff? && b' == b
            case _ => kind.DepthDiff? && !b'.valid
  {
  }

  /** A depth event while replay holds b: the rows differ exactly when b accepts the event as
      a diff or rejects it as an old refresh; otherwise the books agree afterwards, or the
      event was stale and b is still held. */
  ghost predicate DepthMatched(venue: Venue, kind: Kind, b: Book, e: DepthEvent, x: DepthResult, y: DepthResult)
    requires !kind.Trade?
  {
    var t := ApplyEvent(venue, kind, b, e).1;
    if t.AppliedDiff? || t.StaleRefresh? then y.error != NoError || y.hasBook != x.hasBook
    else && y.error == NoError && y.hasBook == x.hasBook && y.book == x.book
         && (if t.StaleDiff? then !x.state.book.valid && y.state.book == b else BooksAgree(x.state.book, y.state.book))
  }

  lemma HeldDepthExact(msg: Message, b: Book, l: SymbolState, r: SymbolState, ctx: Context, e: DepthEvent)
    requires HeldEntered(msg, b, l, r) && ctx.epoch == msg.epoch && !ctx.kind.Trade?
    requires DepthOf(l, ctx, e).error == NoError
    ensures DepthMatched(l.venue, ctx.kind, b, e, DepthOf(l, ctx, e), DepthOf(r, ctx, e))
  {
    InvalidBookReacts(l.venue, ctx.kind, StartBook(l, ctx), e);
    HeldBookReacts(r.venue, ctx.kind, b, e);
    var (a', s) := ApplyEvent(l.venue, ctx.kind, StartBook(l, ctx), e);
    var (b', t) := ApplyEvent(r.venue, ctx.kind, b, e);
    assert StartBook(r, ctx) == b;
    assert t.AppliedRefresh? ==> BookRowOf(l, ctx, a', e, s) == BookRowOf(r, ctx, b', e, t);
    FinishHeld(l, r, ctx, a', s, FormatBook(BookRowOf(l, ctx, a', e, s)), b', t,
               FormatBook(BookRowOf(r, ctx, b', e, t)));
  }

  lemma FinishHeld(l: SymbolState, r: SymbolState, ctx: Context, a: Book, s: Status, f: Formatted,
                   b: Book, t: Status, g: Formatted)
    requires SameSymbol(l, r) && l.seqNo == r.seqNo
    ensures var x, y := FinishDepth(l, ctx, a, s, f), FinishDepth(r, ctx, b, t, g);
            x.error == NoError ==>
              && x.hasBook == EmitsSnapshot(s) && (y.error == NoError ==> y.hasBook == EmitsSnapshot(t))
              && x.state.book == a && (y.error == NoError ==> y.state.book == b)
              && (!EmitsSnapshot(t) ==> y.error == NoError && y.book == "")
              && (!EmitsSnapshot(s) ==> x.book == "")
              && (EmitsSnapshot(s) && EmitsSnapshot(t) && f == g ==> y.error == NoError && x.book == y.book)
  {
  }

  /** The states after an audited event that does not break. */
  ghost predicate StatesMatched(held: Held, l: SymbolState, r: SymbolState) {
    && SameSymbol(l, r) && l.seqNo == r.seqNo
    && l.observed && r.observed && l.epoch == r.epoch && l.connSeq == r.connSeq
    && match held
       case NothingHeld => BooksAgree(l.book, r.book)
       case Held(b) => !l.book.valid && b.valid && r.book == b
  }

  /** Live outcome a and replay outcome b of one audited event: different rows exactly when
      the event breaks. */
  ghost predicate EventMatched(venue: Venue, kind: Kind, parsed: Parsed, held: Book, a: Outcome, b: Outcome) {
    if BreaksOn(venue, kind, parsed, held) then b.error != NoError || b.batch.hasBook != a.batch.hasBook
    else && b.error == NoError && !b.status.PreAuditRejected?
         && b.batch.hasBook == a.batch.hasBook && b.batch.book == a.batch.book
         && StatesMatched(HeldAfterEvent(venue, kind, parsed, held), a.state, b.state)
  }

  lemma DecideHeld(msg: Message, b: Book, l: SymbolState, r: SymbolState, ctx: Context, parsed: Parsed,
                   audit: Formatted, x: DepthResult, y: DepthResult)
    requires HeldEntered(msg, b, l, r) && ctx.epoch == msg.epoch
    requires !ctx.kind.Trade? ==>
               x.error == NoError ==>
                 && DepthMatched(l.venue, ctx.kind, b, parsed.depth, x, y)
                 && SeqMatched(l, ctx, x) && SeqMatched(r, ctx, y)
    ensures var a := Decide(l, ctx, parsed.error, audit, LiveCapture, x);
            a.error == NoError && !a.status.PreAuditRejected? ==>
              EventMatched(l.venue, ctx.kind, parsed, b, a, Decide(r, ctx, parsed.error, audit, ReplayMode, y))
  {
  }

  /** A depth event commits its context and numbers the row it emits. */
  ghost predicate SeqMatched(st: SymbolState, ctx: Context, d: DepthResult) {
    d.error == NoError ==>
      && SameSymbol(st, d.state) && d.state.seqNo == st.seqNo + (if d.hasBook then 1 else 0)
      && d.state.observed && d.state.epoch == ctx.epoch && d.state.connSeq == ctx.connSeq && d.status.BookEvent?
  }

  lemma DepthCommits(st: SymbolState, ctx: Context, e: DepthEvent)
    requires !ctx.kind.Trade?
    ensures SeqMatched(st, ctx, DepthOf(st, ctx, e))
  {
  }

  lemma HeldEventExact(env: Env, msg: Message, b: Book, l: SymbolState, r: SymbolState, ctx: Context, payload: string)
    requires HeldEntered(msg, b, l, r) && ctx.epoch == msg.epoch && ContextIsValid(l, ctx)
    ensures var a := Process(env.parse, l, ctx, payload, LiveCapture);
            a.error == NoError && !a.status.PreAuditRejected? ==>
              EventMatched(l.venue, ctx.kind, env.parse(ctx.venue, ctx.kind, l.symbol, payload), b, a,
                           Process(env.parse, r, ctx, payload, ReplayMode))
  {
    var parsed := env.parse(ctx.venue, ctx.kind, l.symbol, payload);
    var x, y := DepthOf(l, ctx, parsed.depth), DepthOf(r, ctx, parsed.depth);
    if !ctx.kind.Trade? {
      DepthCommits(l, ctx, parsed.depth);
      DepthCommits(r, ctx, parsed.depth);
      if x.error == NoError {
        HeldDepthExact(msg, b, l, r, ctx, parsed.depth);
      }
    }
    ReplayContextValid(msg, l, InvalidatedState(r), ctx);
    DecideHeld(msg, b, l, r, ctx, parsed, FormatAudit(AuditRowOf(ctx, payload)), x, y);
  }

  // ----------------------------------------------------------------- one message

  /** The replay side of one message, and what is held after it. */
  ghost predicate MatchedWith(env: Env, res: PipelineResult, k: nat, held: Held, r: SymbolState)
    requires k < |res.pl.states|
  {
    var rows := RowsOf(res, k);
    if rows.audits == [] then rows.books == [] && SimWith(res.pl, false, held, res.pl.states[k], r)
    else
      var o := Process(env.parse, r, ContextOfRow(rows.audits[0]), rows.audits[0].payload, ReplayMode);
      && o.error == NoError && !o.status.PreAuditRejected?
      && (if o.batch.hasBook then [o.batch.book] else []) == rows.books
      && SimWith(res.pl, false, held, res.pl.states[k], o.state)
  }

  /** Replay of the row of one message writes something else than live did. */
  ghost predicate Mismatched(env: Env, res: PipelineResult, k: nat, r: SymbolState) {
    var rows := RowsOf(res, k);
    && |rows.audits| == 1
    && var o := Process(env.parse, r, ContextOfRow(rows.audits[0]), rows.audits[0].payload, ReplayMode);
       o.error != NoError || (if o.batch.hasBook then 1 else 0) != |rows.books|
  }

  lemma MatchedStatesSimulate(p: Pipeline, msg: Message, held: Held, l: SymbolState, r: SymbolState)
    requires StatesMatched(held, l, r) && GoodState(l) && GoodState(r)
    requires l.epoch == msg.epoch && l.connSeq == msg.connSeq
    requires p.observed && p.epoch == msg.epoch && p.connSeq == msg.connSeq
    ensures SimWith(p, false, held, l, r)
  {
    InvalidationKeepsBook(r.venue, r.book);
  }

  /** What a message without an audit row for k does in an open window. */
  lemma UnseenEventHolds(p: Pipeline, msg: Message, b: Book, l: SymbolState, r: SymbolState, after: SymbolState)
    requires HeldEntered(msg, b, l, r) && GoodState(after) && SameSymbol(l, after) && after.seqNo == l.seqNo
    requires p.observed && p.epoch == msg.epoch && p.connSeq == msg.connSeq && !after.book.valid
    requires (after.observed, after.epoch, after.connSeq)
             in {(l.observed, l.epoch, l.connSeq), (true, msg.epoch, msg.connSeq)}
    ensures SimHeld(p, b, after, r)
  {
  }

  /** The row of a batch and the outcome of replaying it. */
  lemma ReadyRow(p: Pipeline, k: nat, ctx: Context, payload: string, o: Outcome)
    requires k < |p.states| && Conclude(p, k, o, ctx, payload).disposition.BatchReady?
    ensures var res := Conclude(p, k, o, ctx, payload);
            && RowsOf(res, k)
               == LiveReplay.Rows([AuditRowOf(ctx, payload)], if o.batch.hasBook then [o.batch.book] else [])
            && res.pl == p.(states := p.states[k := o.state])
            && ContextOfRow(AuditRowOf(ctx, payload)) == ctx && AuditRowOf(ctx, payload).payload == payload
  {
  }

  /** The audited event of a message in an open window, given both outcomes. */
  lemma ReadyHeld(env: Env, p: Pipeline, msg: Message, k: nat, b: Book, r: SymbolState, ctx: Context, payload: string,
                  parsed: Parsed, o: Outcome, q: Outcome)
    requires k < |p.states| && p.observed && p.epoch == msg.epoch && p.connSeq == msg.connSeq
    requires q == Process(env.parse, r, ctx, payload, ReplayMode) && EventMatched(env.venue, ctx.kind, parsed, b, o, q)
    requires GoodState(o.state) && GoodState(q.state) && o.state.epoch == msg.epoch && o.state.connSeq == msg.connSeq
    requires Conclude(p, k, o, ctx, payload).disposition.BatchReady?
    ensures var res := Conclude(p, k, o, ctx, payload);
            if BreaksOn(env.venue, ctx.kind, parsed, b) then Mismatched(env, res, k, r)
            else MatchedWith(env, res, k, HeldAfterEvent(env.venue, ctx.kind, parsed, b), r)
  {
    ReadyRow(p, k, ctx, payload, o);
    if !BreaksOn(env.venue, ctx.kind, parsed, b) {
      var res := Conclude(p, k, o, ctx, payload);
      MatchedStatesSimulate(res.pl, msg, HeldAfterEvent(env.venue, ctx.kind, parsed, b), o.state, q.state);
    }
  }

  /** A rejection before audit leaves an invalid book invalid. */
  lemma PreAuditHolds(parse: Parser, st: SymbolState, ctx: Context, payload: string)
    requires ContextIsValid(st, ctx) && Process(parse, st, ctx, payload, LiveCapture).status.PreAuditRejected?
    requires !st.book.valid
    ensures var o := Process(parse, st, ctx, payload, LiveCapture);
            && !o.state.book.valid && o.state.seqNo == st.seqNo && o.state.observed
            && o.state.epoch == ctx.epoch && o.state.connSeq == ctx.connSeq
  {
  }

  /** A message for symbol k in an open window, once it has entered. */
  lemma ConcludeHeld(env: Env, p: Pipeline, msg: Message, k: nat, b: Book, r: SymbolState, ctx: Context,
                     payload: string, o: Outcome)
    requires EnvContract(env) && k < |p.states| && HeldEntered(msg, b, p.states[k], r) && p.states[k].venue == env.venue
    requires p.observed && p.epoch == msg.epoch && p.connSeq == msg.connSeq && |payload| <= MAX_PAYLOAD
    requires ctx == ContextOf(env, msg, ctx.kind, p.states[k].symbol) && ContextIsValid(p.states[k], ctx)
    requires o == Process(env.parse, p.states[k], ctx, payload, LiveCapture)
    ensures OwnMatched(env, ctx.kind, env.parse(env.venue, ctx.kind, p.states[k].symbol, payload), b,
                       Conclude(p, k, o, ctx, payload), k, r)
  {
    var l := p.states[k];
    ProcessKeepsState(env.parse, l, ctx, payload, LiveCapture);
    if o.error == NoError {
      if o.status.PreAuditRejected? {
        PreAuditHolds(env.parse, l, ctx, payload);
        UnseenEventHolds(Conclude(p, k, o, ctx, payload).pl, msg, b, l, r, o.state);
      } else {
        var parsed := env.parse(env.venue, ctx.kind, l.symbol, payload);
        var q := Process(env.parse, r, ctx, payload, ReplayMode);
        HeldEventExact(env, msg, b, l, r, ctx, payload);
        ReplayContextValid(msg, l, InvalidatedState(r), ctx);
        ProcessKeepsState(env.parse, r, ctx, payload, ReplayMode);
        CommitsUnlessError(env.parse, l, ctx, payload, LiveCapture);
        if Conclude(p, k, o, ctx, payload).disposition.BatchReady? {
          ReadyHeld(env, p, msg, k, b, r, ctx, payload, parsed, o, q);
        }
      }
    }
  }

  /** What a message does in an open window, and what is held after it. */
  ghost predicate HeldMatched(env: Env, pl: Pipeline, b: Book, msg: Message, res: PipelineResult, k: nat,
                              r: SymbolState)
    requires k < |env.symbols|
  {
    && k < |res.pl.states| && !RejectsDiff(env, pl, msg, k)
    && if Breaks(env, pl, Held(b), msg, k) then Mismatched(env, res, k, r)
       else MatchedWith(env, res, k, HeldNext(env, pl, Held(b), msg, k), r)
  }

  /** The same of a message for symbol k, case by case. */
  ghost predicate OwnMatched(env: Env, kind: Kind, parsed: Parsed, b: Book, res: PipelineResult, k: nat,
                             r: SymbolState) {
    && k < |res.pl.states|
    && match res.disposition
       case Fatal(_) => true
       case PreAudit => MatchedWith(env, res, k, Held(b), r) && RowsOf(res, k).audits == []
       case BatchReady =>
         && RowsOf(res, k).audits != []
         && if BreaksOn(env.venue, kind, parsed, b) then Mismatched(env, res, k, r)
            else MatchedWith(env, res, k, HeldAfterEvent(env.venue, kind, parsed, b), r)
  }

  lemma OwnMessageConcludes(env: Env, pl: Pipeline, msg: Message, k: nat, b: Book, r: SymbolState)
    requires EnvContract(env) && GoodPipeline(env, pl) && k < |pl.states|
    requires !ProcessMessage(env, pl, msg).disposition.Fatal?
    requires HeldEntered(msg, b, Enter(pl, msg).states[k], r)
    requires env.envelope(msg.payload).ok && env.envelope(msg.payload).symbolIndex == k
    ensures OwnMatched(env, KindOf(env, msg), ParsedFor(env, msg, k), b, ProcessMessage(env, pl, msg), k, r)
  {
    var e, p := env.envelope(msg.payload), Enter(pl, msg);
    EnterKeeps(env, pl, msg);
    ContextNeverRejected(env, p, msg, k, e.kind);
    assert p.states[k].symbol == pl.states[k].symbol == env.symbols[k];
    var ctx := ContextOf(env, msg, e.kind, p.states[k].symbol);
    var o := Process(env.parse, p.states[k], ctx, e.payload, LiveCapture);
    assert ProcessMessage(env, pl, msg) == Conclude(p, k, o, ctx, e.payload);
    ConcludeHeld(env, p, msg, k, b, r, ctx, e.payload, o);
  }

  lemma HeldOwnMessage(env: Env, pl: Pipeline, msg: Message, k: nat, b: Book, r: SymbolState)
    requires EnvContract(env) && GoodPipeline(env, pl) && k < |pl.states|
    requires !ProcessMessage(env, pl, msg).disposition.Fatal? && !(pl.observed && msg.epoch > pl.epoch)
    requires HeldEntered(msg, b, Enter(pl, msg).states[k], r)
    requires env.envelope(msg.payload).ok && env.envelope(msg.payload).symbolIndex == k
    ensures HeldMatched(env, pl, b, msg, ProcessMessage(env, pl, msg), k, r)
  {
    OwnMessageConcludes(env, pl, msg, k, b, r);
  }

  lemma HeldOtherMessage(env: Env, pl: Pipeline, msg: Message, k: nat, b: Book, r: SymbolState)
    requires EnvContract(env) && GoodPipeline(env, pl) && k < |pl.states|
    requires !ProcessMessage(env, pl, msg).disposition.Fatal? && !(pl.observed && msg.epoch > pl.epoch)
    requires HeldEntered(msg, b, Enter(pl, msg).states[k], r)
    requires !env.envelope(msg.payload).ok || env.envelope(msg.payload).symbolIndex != k
    ensures HeldMatched(env, pl, b, msg, ProcessMessage(env, pl, msg), k, r)
  {
    var p, res := Enter(pl, msg), ProcessMessage(env, pl, msg);
    UntouchedOrInvalidated(env, pl, msg, k);
    InvalidationKeepsBook(env.venue, p.states[k].book);
    UnseenEventHolds(res.pl, msg, b, p.states[k], r, res.pl.states[k]);
  }

  /** A message in an open window: its row is written alike exactly when it does not break,
      and then HeldNext is held. */
  lemma HeldMessageExact(env: Env, pl: Pipeline, msg: Message, k: nat, b: Book, r: SymbolState)
    requires EnvContract(env) && GoodPipeline(env, pl) && k < |pl.states| && SimHeld(pl, b, pl.states[k], r)
    requires !ProcessMessage(env, pl, msg).disposition.Fatal? && !(pl.observed && msg.epoch > pl.epoch)
    ensures HeldMatched(env, pl, b, msg, ProcessMessage(env, pl, msg), k, r)
  {
    EnterHolds(pl, msg, k, b, r);
    if env.envelope(msg.payload).ok && env.envelope(msg.payload).symbolIndex == k {
      HeldOwnMessage(env, pl, msg, k, b, r);
    } else {
      HeldOtherMessage(env, pl, msg, k, b, r);
    }
  }

  /** What a diff rejected before audit does to the pipeline. */
  lemma RejectedDiffEffect(env: Env, pl: Pipeline, msg: Message, k: nat)
    requires EnvContract(env) && GoodPipeline(env, pl) && k < |pl.states| && RejectsDiff(env, pl, msg, k)
    ensures var p, res := Enter(pl, msg), ProcessMessage(env, pl, msg);
            && RowsOf(res, k) == LiveReplay.Rows([], []) && |res.pl.states| == |pl.states|
            && res.pl.observed && res.pl.epoch == msg.epoch && res.pl.connSeq == msg.connSeq
            && var l, after := p.states[k], res.pl.states[k];
               && SameSymbol(l, after) && after.seqNo == l.seqNo && after.book == Invalidated(l.book)
               && (after.observed, after.epoch, after.connSeq)
                  in {(l.observed, l.epoch, l.connSeq), (true, msg.epoch, msg.connSeq)}
  {
  }

  /** A diff rejected before audit opens the window, with the book live had. */
  lemma RejectedDiffOpens(env: Env, pl: Pipeline, torn: bool, msg: Message, k: nat, r: SymbolState)
    requires EnvContract(env) && GoodPipeline(env, pl) && k < |pl.states| && Sim(pl, torn, pl.states[k], r)
    requires torn && pl.observed ==> msg.epoch > pl.epoch
    requires RejectsDiff(env, pl, msg, k)
    ensures k < |ProcessMessage(env, pl, msg).pl.states|
    ensures MatchedWith(env, ProcessMessage(env, pl, msg), k, Held(Enter(pl, msg).states[k].book), r)
  {
    RejectedDiffEffect(env, pl, msg, k);
    EnterSimulates(pl, torn, msg, k, r);
    InvalidationKeepsBook(r.venue, r.book);
  }

  lemma MatchedWithoutWindow(env: Env, res: PipelineResult, k: nat, r: SymbolState)
    requires k < |res.pl.states| && MessageMatched(env, res, k, r)
    ensures MatchedWith(env, res, k, NothingHeld, r)
  {
  }

  /** Outside a window, or when a later connection closes it. */
  lemma UnheldMessageExact(env: Env, pl: Pipeline, torn: bool, msg: Message, k: nat, r: SymbolState)
    requires EnvContract(env) && GoodPipeline(env, pl) && k < |pl.states| && Sim(pl, torn, pl.states[k], r)
    requires !ProcessMessage(env, pl, msg).disposition.Fatal? && (torn && pl.observed ==> msg.epoch > pl.epoch)
    ensures k < |ProcessMessage(env, pl, msg).pl.states|
    ensures MatchedWith(env, ProcessMessage(env, pl, msg), k, HeldNext(env, pl, NothingHeld, msg, k), r)
  {
    MessageIsGood(env, pl, msg);
    if RejectsDiff(env, pl, msg, k) {
      RejectedDiffOpens(env, pl, torn, msg, k, r);
    } else {
      MessageSimulates(env, pl, torn, msg, k, r);
      MatchedWithoutWindow(env, ProcessMessage(env, pl, msg), k, r);
    }
  }

  /** One message: live and replay write the same row or none exactly when the message does
      not break, and stay related. */
  lemma MessageExact(env: Env, pl: Pipeline, torn: bool, held: Held, msg: Message, k: nat, r: SymbolState)
    requires EnvContract(env) && GoodPipeline(env, pl) && k < |pl.states| && SimWith(pl, torn, held, pl.states[k], r)
    requires !ProcessMessage(env, pl, msg).disposition.Fatal? && (torn && pl.observed ==> msg.epoch > pl.epoch)
    ensures var res := ProcessMessage(env, pl, msg);
            && k < |res.pl.states|
            && if Breaks(env, pl, held, msg, k) then Mismatched(env, res, k, r)
               else MatchedWith(env, res, k, HeldNext(env, pl, held, msg, k), r)
  {
    if held.NothingHeld? {
      UnheldMessageExact(env, pl, torn, msg, k, r);
    } else if pl.observed && msg.epoch > pl.epoch {
      UnheldMessageExact(env, pl, true, msg, k, r);
    } else {
      HeldMessageExact(env, pl, msg, k, held.book, r);
    }
  }

  // ------------------------------------------------------------------- whole runs

  /** The replay state after the row of a message, if it has one. */
  ghost function ReplayAfter(env: Env, res: PipelineResult, k: nat, r: SymbolState): SymbolState {
    var rows := RowsOf(res, k);
    if rows.audits == [] then r
    else Process(env.parse, r, ContextOfRow(rows.audits[0]), rows.audits[0].payload, ReplayMode).state
  }

  /** After a message that matched, the replay of the whole equals the live rows exactly when
      the replay of the rest does. */
  lemma ReplayCons(env: Env, r: SymbolState, res: PipelineResult, k: nat, held: Held, rest: Rows)
    requires k < |res.pl.states| && MatchedWith(env, res, k, held, r)
    ensures var all := Plus(RowsOf(res, k), rest);
            ReplayFrom(env, r, all.audits) == Replay(all.books, ReplayOk)
            <==> ReplayFrom(env, ReplayAfter(env, res, k, r), rest.audits) == Replay(rest.books, ReplayOk)
  {
    var rows := RowsOf(res, k);
    var after := ReplayFrom(env, ReplayAfter(env, res, k, r), rest.audits);
    if rows.audits == [] {
      assert [] + rest.audits == rest.audits && [] + rest.books == rest.books;
    } else {
      assert (rows.audits + rest.audits)[1..] == rest.audits;
      CancelFront(rows.books, after.books, rest.books);
    }
  }

  lemma CancelFront(front: seq<string>, a: seq<string>, b: seq<string>)
    ensures front + a == front + b <==> a == b
  {
    if front + a == front + b {
      assert a == (front + a)[|front|..] && b == (front + b)[|front|..];
    }
  }

  /** A message that breaks: its row alone is replayed differently. */
  lemma MismatchDiverges(env: Env, r: SymbolState, res: PipelineResult, k: nat)
    requires Mismatched(env, res, k, r)
    ensures ReplayFrom(env, r, RowsOf(res, k).audits) != Replay(RowsOf(res, k).books, ReplayOk)
  {
    var audits := RowsOf(res, k).audits;
    assert ReplayFrom(env, r, audits[1..]) == Replay([], ReplayOk);
  }

  /** Live pipeline and replay state are related, and the inputs to come are a live run. */
  ghost predicate InStep(env: Env, pl: Pipeline, torn: bool, held: Held, inputs: seq<LiveInput>, k: nat,
                         r: SymbolState) {
    && EnvContract(env) && GoodPipeline(env, pl) && k < |pl.states| && k < |env.symbols|
    && SimWith(pl, torn, held, pl.states[k], r) && NewEpochs(env, pl, torn, inputs)
  }

  lemma TeardownKeepsStep(env: Env, pl: Pipeline, torn: bool, held: Held, inputs: seq<LiveInput>, k: nat,
                          r: SymbolState)
    requires InStep(env, pl, torn, held, inputs, k, r) && inputs != [] && inputs[0].Teardown?
    ensures InStep(env, InvalidateAll(pl), true, NothingHeld, inputs[1..], k, r)
  {
    TeardownCloses(pl, torn, held, k, r);
    InvalidateKeeps(env, pl);
  }

  lemma MessageKeepsStep(env: Env, pl: Pipeline, torn: bool, held: Held, inputs: seq<LiveInput>, k: nat, r: SymbolState)
    requires InStep(env, pl, torn, held, inputs, k, r) && inputs != [] && inputs[0].Deliver?
    requires !ProcessMessage(env, pl, inputs[0].msg).disposition.Fatal?
    ensures var msg := inputs[0].msg;
            var res := ProcessMessage(env, pl, msg);
            && k < |res.pl.states|
            && if Breaks(env, pl, held, msg, k) then Mismatched(env, res, k, r)
               else
                 var next := HeldNext(env, pl, held, msg, k);
                 && MatchedWith(env, res, k, next, r)
                 && InStep(env, res.pl, false, next, inputs[1..], k, ReplayAfter(env, res, k, r))
  {
    MessageExact(env, pl, torn, held, inputs[0].msg, k, r);
    MessageIsGood(env, pl, inputs[0].msg);
  }

  /** Live and replay in step over a whole run that never breaks. */
  lemma {:induction false} RunSimulates(env: Env, pl: Pipeline, torn: bool, held: Held, inputs: seq<LiveInput>, k: nat,
                                        r: SymbolState)
    requires InStep(env, pl, torn, held, inputs, k, r) && NeverBreaks(env, pl, held, inputs, k)
    ensures var rows := RunLive(env, pl, inputs, k); ReplayFrom(env, r, rows.audits) == Replay(rows.books, ReplayOk)
    decreases |inputs|
  {
    if inputs == [] {
    } else if inputs[0].Teardown? {
      TeardownKeepsStep(env, pl, torn, held, inputs, k, r);
      RunSimulates(env, InvalidateAll(pl), true, NothingHeld, inputs[1..], k, r);
    } else {
      var msg := inputs[0].msg;
      var res := ProcessMessage(env, pl, msg);
      if !res.disposition.Fatal? {
        MessageKeepsStep(env, pl, torn, held, inputs, k, r);
        var next := HeldNext(env, pl, held, msg, k);
        RunSimulates(env, res.pl, false, next, inputs[1..], k, ReplayAfter(env, res, k, r));
        ReplayCons(env, r, res, k, next, RunLive(env, res.pl, inputs[1..], k));
      }
    }
  }

  /** Replay of the rows of a run from state r writes something else. */
  ghost predicate Diverges(env: Env, pl: Pipeline, inputs: seq<LiveInput>, k: nat, r: SymbolState) {
    var rows := RunLive(env, pl, inputs, k);
    rows.audits != [] && ReplayFrom(env, r, rows.audits) != Replay(rows.books, ReplayOk)
  }

  lemma DivergesAtOnce(env: Env, pl: Pipeline, msg: Message, k: nat, r: SymbolState)
    requires !ProcessMessage(env, pl, msg).disposition.Fatal? && Mismatched(env, ProcessMessage(env, pl, msg), k, r)
    ensures Diverges(env, pl, [Deliver(msg)], k, r)
  {
    var rows := RowsOf(ProcessMessage(env, pl, msg), k);
    assert [Deliver(msg)][1..] == [];
    assert rows.audits + [] == rows.audits && rows.books + [] == rows.books;
    MismatchDiverges(env, r, ProcessMessage(env, pl, msg), k);
  }

  lemma DivergesLater(env: Env, pl: Pipeline, msg: Message, rest: seq<LiveInput>, k: nat, held: Held, r: SymbolState)
    requires var res := ProcessMessage(env, pl, msg);
             && !res.disposition.Fatal? && k < |res.pl.states| && MatchedWith(env, res, k, held, r)
             && Diverges(env, res.pl, rest, k, ReplayAfter(env, res, k, r))
    ensures Diverges(env, pl, [Deliver(msg)] + rest, k, r)
  {
    var res := ProcessMessage(env, pl, msg);
    assert ([Deliver(msg)] + rest)[1..] == rest;
    ReplayCons(env, r, res, k, held, RunLive(env, res.pl, rest, k));
  }

  lemma DivergesAfterTeardown(env: Env, pl: Pipeline, rest: seq<LiveInput>, k: nat, r: SymbolState)
    requires Diverges(env, InvalidateAll(pl), rest, k, r)
    ensures Diverges(env, pl, [Teardown] + rest, k, r)
  {
    assert ([Teardown] + rest)[1..] == rest;
  }

  lemma PrefixCons(x: LiveInput, done: seq<LiveInput>, inputs: seq<LiveInput>)
    requires inputs != [] && inputs[0] == x && done <= inputs[1..]
    ensures [x] + done <= inputs
  {
  }

  /** A run that breaks has a prefix whose rows are replayed differently. */
  lemma {:induction false} BrokenRunDiverges(env: Env, pl: Pipeline, torn: bool, held: Held, inputs: seq<LiveInput>,
                                             k: nat, r: SymbolState) returns (done: seq<LiveInput>)
    requires InStep(env, pl, torn, held, inputs, k, r) && !NeverBreaks(env, pl, held, inputs, k)
    ensures done <= inputs && Diverges(env, pl, done, k, r)
    decreases |inputs|, 1
  {
    if inputs[0].Teardown? {
      TeardownKeepsStep(env, pl, torn, held, inputs, k, r);
      var rest := BrokenRunDiverges(env, InvalidateAll(pl), true, NothingHeld, inputs[1..], k, r);
      DivergesAfterTeardown(env, pl, rest, k, r);
      PrefixCons(Teardown, rest, inputs);
      done := [Teardown] + rest;
    } else {
      done := BrokenMessageDiverges(env, pl, torn, held, inputs, k, r);
    }
  }

  lemma {:induction false} BrokenMessageDiverges(env: Env, pl: Pipeline, torn: bool, held: Held, inputs: seq<LiveInput>,
                                                 k: nat, r: SymbolState) returns (done: seq<LiveInput>)
    requires InStep(env, pl, torn, held, inputs, k, r) && !NeverBreaks(env, pl, held, inputs, k)
    requires inputs != [] && inputs[0].Deliver?
    ensures done <= inputs && Diverges(env, pl, done, k, r)
    decreases |inputs|, 0
  {
    var msg := inputs[0].msg;
    MessageKeepsStep(env, pl, torn, held, inputs, k, r);
    if Breaks(env, pl, held, msg, k) {
      DivergesAtOnce(env, pl, msg, k, r);
      done := [Deliver(msg)];
    } else {
      var res, next := ProcessMessage(env, pl, msg), HeldNext(env, pl, held, msg, k);
      var rest := BrokenRunDiverges(env, res.pl, false, next, inputs[1..], k, ReplayAfter(env, res, k, r));
      DivergesLater(env, pl, msg, rest, k, next, r);
      PrefixCons(Deliver(msg), rest, inputs);
      done := [Deliver(msg)] + rest;
    }
  }

  // -------------------------------------------------------------- files of a run

  /** Replaying the bytes of the audit file of a run emits its order-book rows. */
  predicate ReplaysExactly(env: Env, inputs: seq<LiveInput>, k: nat) {
    var rows := RunLive(env, InitialPipeline(env), inputs, k);
    ReplayBytes(env, FileText(rows.audits))
    == if rows.audits == [] then Replay([], EmptyInput) else Replay(rows.books, ReplayOk)
  }

  ghost predicate FairStart(env: Env, inputs: seq<LiveInput>, k: nat) {
    EnvContract(env) && k < |env.symbols| && NewEpochs(env, InitialPipeline(env), false, inputs)
  }

  /** The audit file of any run is read back exactly, and replay starts from a new state. */
  lemma ReplayOfFile(env: Env, inputs: seq<LiveInput>, k: nat)
    requires EnvContract(env) && k < |env.symbols|
    ensures var audits := RunLive(env, InitialPipeline(env), inputs, k).audits;
            && ReadFile(FileText(audits)) == FileContents(audits, CleanEnd)
            && ReplayBytes(env, FileText(audits))
               == if audits == [] then Replay([], EmptyInput)
                  else ReplayFrom(env, FreshState(env.venue, env.symbols[k], env.instrument(env.symbols[k])), audits)
  {
    var audits := RunLive(env, InitialPipeline(env), inputs, k).audits;
    InitialIsGood(env);
    RunIsWritable(env, InitialPipeline(env), inputs, k, NoRows);
    FileRoundTrip(audits);
  }

  /** For every live run that never breaks for symbol k: the audit file written for the
      symbol is read back exactly, and replaying it emits exactly the live sequence of
      order-book rows. */
  lemma LiveAndReplayAgree(env: Env, inputs: seq<LiveInput>, k: nat)
    requires FairStart(env, inputs, k) && NeverBreaks(env, InitialPipeline(env), NothingHeld, inputs, k)
    ensures var audits := RunLive(env, InitialPipeline(env), inputs, k).audits;
            ReadFile(FileText(audits)) == FileContents(audits, CleanEnd)
    ensures ReplaysExactly(env, inputs, k)
  {
    var start := FreshState(env.venue, env.symbols[k], env.instrument(env.symbols[k]));
    InitialIsGood(env);
    InitialSim(env, k);
    ReplayOfFile(env, inputs, k);
    RunSimulates(env, InitialPipeline(env), false, NothingHeld, inputs, k, start);
  }

  lemma {:induction false} PrefixIsFair(env: Env, pl: Pipeline, torn: bool, done: seq<LiveInput>,
                                        inputs: seq<LiveInput>)
    requires done <= inputs && NewEpochs(env, pl, torn, inputs)
    ensures NewEpochs(env, pl, torn, done)
    decreases |done|
  {
    if done == [] {
    } else if done[0].Teardown? {
      PrefixIsFair(env, InvalidateAll(pl), true, done[1..], inputs[1..]);
    } else {
      PrefixIsFair(env, ProcessMessage(env, pl, done[0].msg).pl, false, done[1..], inputs[1..]);
    }
  }

  lemma {:induction false} PrefixNeverBreaks(env: Env, pl: Pipeline, held: Held, done: seq<LiveInput>,
                                             inputs: seq<LiveInput>, k: nat)
    requires k < |env.symbols| && done <= inputs && NeverBreaks(env, pl, held, inputs, k)
    ensures NeverBreaks(env, pl, held, done, k)
    decreases |done|
  {
    if done == [] {
    } else if done[0].Teardown? {
      PrefixNeverBreaks(env, InvalidateAll(pl), NothingHeld, done[1..], inputs[1..], k);
    } else {
      var msg := done[0].msg;
      var res := ProcessMessage(env, pl, msg);
      if !res.disposition.Fatal? {
        PrefixNeverBreaks(env, res.pl, HeldNext(env, pl, held, msg, k), done[1..], inputs[1..], k);
      }
    }
  }

  lemma PrefixReplays(env: Env, done: seq<LiveInput>, inputs: seq<LiveInput>, k: nat)
    requires FairStart(env, inputs, k) && done <= inputs
    requires NeverBreaks(env, InitialPipeline(env), NothingHeld, inputs, k)
    ensures ReplaysExactly(env, done, k)
  {
    PrefixIsFair(env, InitialPipeline(env), false, done, inputs);
    PrefixNeverBreaks(env, InitialPipeline(env), NothingHeld, done, inputs, k);
    LiveAndReplayAgree(env, done, k);
  }

  lemma PrefixDiverges(env: Env, inputs: seq<LiveInput>, k: nat) returns (done: seq<LiveInput>)
    requires FairStart(env, inputs, k) && !NeverBreaks(env, InitialPipeline(env), NothingHeld, inputs, k)
    ensures done <= inputs && !ReplaysExactly(env, done, k)
  {
    var start := FreshState(env.venue, env.symbols[k], env.instrument(env.symbols[k]));
    InitialIsGood(env);
    InitialSim(env, k);
    done := BrokenRunDiverges(env, InitialPipeline(env), false, NothingHeld, inputs, k, start);
    ReplayOfFile(env, done, k);
  }

  /** The exact condition: the file that every prefix of a run writes for symbol k is
      replayed to its live rows if and only if the run never breaks. */
  lemma AgreementIsExact(env: Env, inputs: seq<LiveInput>, k: nat)
    requires FairStart(env, inputs, k)
    ensures (forall done :: done <= inputs ==> ReplaysExactly(env, done, k))
            <==> NeverBreaks(env, InitialPipeline(env), NothingHeld, inputs, k)
  {
    if NeverBreaks(env, InitialPipeline(env), NothingHeld, inputs, k) {
      forall done | done <= inputs ensures ReplaysExactly(env, done, k) {
        PrefixReplays(env, done, inputs, k);
      }
    } else {
      var done := PrefixDiverges(env, inputs, k);
    }
  }

  /** The first break shows at once: if all but the last input of a run never break and the
      run does, the file of the whole run is replayed to something else. */
  lemma FirstBreakShows(env: Env, front: seq<LiveInput>, inputs: seq<LiveInput>, k: nat)
    requires FairStart(env, inputs, k) && front <= inputs && |front| + 1 == |inputs|
    requires NeverBreaks(env, InitialPipeline(env), NothingHeld, front, k)
    requires !NeverBreaks(env, InitialPipeline(env), NothingHeld, inputs, k)
    ensures !ReplaysExactly(env, inputs, k)
  {
    PrefixIsFair(env, InitialPipeline(env), false, front, inputs);
    var done := PrefixDiverges(env, inputs, k);
    if |done| <= |front| {
      PrefixReplays(env, done, front, k);
    } else {
      assert done == inputs;
    }
  }

  /** No diff of symbol k is rejected before its audit row while the live book is valid. */
  predicate NoDiffRejected(env: Env, pl: Pipeline, inputs: seq<LiveInput>, k: nat)
    decreases |inputs|
  {
    inputs == [] ||
    match inputs[0]
    case Teardown => NoDiffRejected(env, InvalidateAll(pl), inputs[1..], k)
    case Deliver(msg) =>
      !RejectsDiff(env, pl, msg, k) && NoDiffRejected(env, ProcessMessage(env, pl, msg).pl, inputs[1..], k)
  }

  /** Without a rejected diff nothing is ever held, and the run never breaks. */
  lemma {:induction false} NoRejectionNoBreak(env: Env, pl: Pipeline, inputs: seq<LiveInput>, k: nat)
    requires k < |env.symbols| && NoDiffRejected(env, pl, inputs, k)
    ensures NeverBreaks(env, pl, NothingHeld, inputs, k)
    decreases |inputs|
  {
    if inputs == [] {
    } else if inputs[0].Teardown? {
      NoRejectionNoBreak(env, InvalidateAll(pl), inputs[1..], k);
    } else {
      NoRejectionNoBreak(env, ProcessMessage(env, pl, inputs[0].msg).pl, inputs[1..], k);
    }
  }
}
