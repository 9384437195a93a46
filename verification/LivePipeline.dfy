/** Live messages of all symbols (src/live_event_pipeline.cpp). */
module LivePipeline {
  import opened Types
  import opened CsvFormat
  import opened EventProcessor

  /** A complete text message with its connection metadata. */
  datatype Message = Message(ts: Timestamp, epoch: U64, connSeq: U64, payload: string)

  /** What the envelope parser makes of a message: the route of a recognized stream name,
      and the minified inner object when the envelope is valid. */
  datatype Envelope = Envelope(ok: bool, routed: bool, symbolIndex: nat, kind: Kind, payload: string)

  /** The configuration and the foreign parsers, as functions of the bytes. */
  datatype Env = Env(venue: Venue, symbols: seq<string>, instrument: string -> I32,
                     parse: Parser, envelope: string -> Envelope)

  ghost predicate EnvContract(env: Env) {
    && ParserContract(env.parse)
    && (forall m :: && (env.envelope(m).ok ==> env.envelope(m).routed)
                    && (env.envelope(m).routed ==> env.envelope(m).symbolIndex < |env.symbols|)
                    && (env.envelope(m).ok && |m| <= MAX_PAYLOAD ==> |env.envelope(m).payload| <= MAX_PAYLOAD))
    && (forall i :: 0 <= i < |env.symbols| ==>
          NormalizedSymbol(env.symbols[i]) && env.instrument(env.symbols[i]) > 0)
  }

  datatype Pipeline = Pipeline(states: seq<SymbolState>, observed: bool, epoch: U64, connSeq: U64)

  datatype FatalCode = InvalidMetadata | MessageTooLarge | RouteStateMismatch | EventFailed | BatchContract

  datatype Disposition = BatchReady | PreAudit | Fatal(code: FatalCode)

  /** ctx and payload describe the event when the message reached the event processor. */
  datatype PipelineResult = PipelineResult(
    pl: Pipeline, disposition: Disposition, target: nat, status: EventStatus, batch: Batch,
    ctx: Context, payload: string)

  predicate ValidMetadata(pl: Pipeline, msg: Message) {
    && ValidTimestamp(msg.ts) && msg.connSeq != 0
    && (pl.observed ==> msg.epoch > pl.epoch || (msg.epoch == pl.epoch && msg.connSeq > pl.connSeq))
  }

  function InvalidateStates(states: seq<SymbolState>): (r: seq<SymbolState>)
    ensures |r| == |states| && forall i :: 0 <= i < |r| ==> r[i] == InvalidatedState(states[i])
  {
    if states == [] then [] else [InvalidatedState(states[0])] + InvalidateStates(states[1..])
  }

  function InvalidateAll(pl: Pipeline): Pipeline {
    pl.(states := InvalidateStates(pl.states))
  }

  function InitialPipeline(env: Env): Pipeline {
    Pipeline(seq(|env.symbols|, i requires 0 <= i < |env.symbols| =>
                   FreshState(env.venue, env.symbols[i], env.instrument(env.symbols[i]))), false, 0, 0)
  }

  /** A message enters: a later connection invalidates every book at once. */
  function Enter(pl: Pipeline, msg: Message): Pipeline {
    var p := if pl.observed && msg.epoch > pl.epoch then InvalidateAll(pl) else pl;
    p.(observed := true, epoch := msg.epoch, connSeq := msg.connSeq)
  }

  function ContextOf(env: Env, msg: Message, kind: Kind, symbol: string): Context {
    Context(msg.ts, env.venue, kind, 0, msg.epoch, msg.connSeq, symbol)
  }

  /** The end of process, given the outcome of the event processor. */
  function Conclude(pl: Pipeline, k: nat, o: Outcome, ctx: Context, payload: string): PipelineResult
    requires k < |pl.states|
  {
    var p := pl.(states := pl.states[k := o.state]);
    if o.error != NoError then PipelineResult(p, Fatal(EventFailed), k, o.status, EMPTY_BATCH, ctx, payload)
    else if o.status.PreAuditRejected? then PipelineResult(p, PreAudit, k, o.status, EMPTY_BATCH, ctx, payload)
    else if !o.batch.hasAudit || o.batch.audit == "" || o.batch.hasBook == (o.batch.book == "") then
      PipelineResult(p, Fatal(BatchContract), k, o.status, EMPTY_BATCH, ctx, payload)
    else PipelineResult(p, BatchReady, k, o.status, o.batch, ctx, payload)
  }

  function ProcessMessage(env: Env, pl: Pipeline, msg: Message): PipelineResult {
    var e := env.envelope(msg.payload);
    var symbol := if e.symbolIndex < |pl.states| then pl.states[e.symbolIndex].symbol else "";
    var ctx := ContextOf(env, msg, e.kind, symbol);
    if !ValidMetadata(pl, msg) then
      PipelineResult(pl, Fatal(InvalidMetadata), 0, NotProcessed, EMPTY_BATCH, ctx, "")
    else if |msg.payload| > MAX_PAYLOAD then
      PipelineResult(pl, Fatal(MessageTooLarge), 0, NotProcessed, EMPTY_BATCH, ctx, "")
    else
      var p := Enter(pl, msg);
      var k := e.symbolIndex;
      if !e.ok then
        var hit := e.routed && e.kind.DepthDiff? && k < |p.states|;
        PipelineResult(if hit then p.(states := p.states[k := InvalidatedState(p.states[k])]) else p,
                       PreAudit, if e.routed then k else |p.states|, NotProcessed, EMPTY_BATCH, ctx, "")
      else if k >= |p.states| then
        PipelineResult(p, Fatal(RouteStateMismatch), 0, NotProcessed, EMPTY_BATCH, ctx, "")
      else Conclude(p, k, Process(env.parse, p.states[k], ctx, e.payload, LiveCapture), ctx, e.payload)
  }

  // ---------------------------------------------------------------- invariant

  predicate LexAtMost(e1: nat, s1: nat, e2: nat, s2: nat) {
    e1 < e2 || (e1 == e2 && s1 <= s2)
  }

  /** The state of symbol i fits the configuration and lags the connection metadata. */
  ghost predicate GoodMember(env: Env, pl: Pipeline, i: nat)
    requires i < |pl.states| && i < |env.symbols|
  {
    var st := pl.states[i];
    && GoodState(st) && st.venue == env.venue && st.symbol == env.symbols[i]
    && st.instrument == env.instrument(env.symbols[i])
    && (st.observed ==> pl.observed && LexAtMost(st.epoch, st.connSeq, pl.epoch, pl.connSeq))
  }

  ghost predicate GoodPipeline(env: Env, pl: Pipeline) {
    |pl.states| == |env.symbols| && forall i :: 0 <= i < |pl.states| ==> GoodMember(env, pl, i)
  }

  lemma InitialIsGood(env: Env)
    requires EnvContract(env)
    ensures GoodPipeline(env, InitialPipeline(env))
  {
  }

  lemma InvalidateKeeps(env: Env, pl: Pipeline)
    requires GoodPipeline(env, pl)
    ensures GoodPipeline(env, InvalidateAll(pl))
  {
    forall i | 0 <= i < |pl.states| ensures GoodMember(env, InvalidateAll(pl), i) {
      assert GoodMember(env, pl, i);
    }
  }

  /** After Enter every symbol is strictly behind the message. */
  ghost predicate Entered(env: Env, p: Pipeline, msg: Message) {
    && |p.states| == |env.symbols| && p.observed && p.epoch == msg.epoch && p.connSeq == msg.connSeq
    && (forall i :: 0 <= i < |p.states| ==>
          var st := p.states[i];
          && GoodState(st) && st.venue == env.venue && st.symbol == env.symbols[i]
          && st.instrument == env.instrument(env.symbols[i])
          && (st.observed ==> msg.epoch > st.epoch || (msg.epoch == st.epoch && msg.connSeq > st.connSeq)))
  }

  lemma EnterKeeps(env: Env, pl: Pipeline, msg: Message)
    requires GoodPipeline(env, pl) && ValidMetadata(pl, msg)
    ensures Entered(env, Enter(pl, msg), msg)
  {
    InvalidateKeeps(env, pl);
    var p := Enter(pl, msg);
    forall i | 0 <= i < |p.states|
      ensures var st := p.states[i];
              && GoodState(st) && st.venue == env.venue && st.symbol == env.symbols[i]
              && st.instrument == env.instrument(env.symbols[i])
              && (st.observed ==> msg.epoch > st.epoch || (msg.epoch == st.epoch && msg.connSeq > st.connSeq))
    {
      assert GoodMember(env, pl, i) && GoodMember(env, InvalidateAll(pl), i);
    }
  }

  /** The processor's context check never rejects a message the pipeline has let in. */
  lemma ContextNeverRejected(env: Env, p: Pipeline, msg: Message, k: nat, kind: Kind)
    requires Entered(env, p, msg) && ValidTimestamp(msg.ts) && msg.connSeq != 0 && k < |p.states|
    ensures ContextIsValid(p.states[k], ContextOf(env, msg, kind, p.states[k].symbol))
  {
  }

  /** The result of a message with valid metadata and size: the pipeline stays good, and
      only the exhaustion of a symbol's sequence numbers is fatal. */
  ghost predicate GoodResult(env: Env, pl: Pipeline, msg: Message, r: PipelineResult) {
    && GoodPipeline(env, r.pl)
    && r.pl.observed && r.pl.epoch == msg.epoch && r.pl.connSeq == msg.connSeq
    && (r.disposition.BatchReady? ==>
          && r.target < |env.symbols| && r.ctx == ContextOf(env, msg, r.ctx.kind, env.symbols[r.target])
          && |r.payload| <= MAX_PAYLOAD && r.batch.hasAudit && r.batch.audit == AuditText(AuditRowOf(r.ctx, r.payload))
          && r.batch.audit != "" && r.batch.hasBook == (r.batch.book != "")
          && |r.batch.audit| <= MAX_RECORD && |r.batch.book| <= MAX_RECORD
          && r.status != NotProcessed && r.status != PreAuditRejected)
    && (!r.disposition.BatchReady? ==> r.batch == EMPTY_BATCH)
    && (r.disposition.Fatal? ==>
          && r.disposition == Fatal(EventFailed) && r.target < |pl.states|
          && pl.states[r.target].seqNo == U64_MAX)
  }

  lemma SetMemberKeeps(env: Env, p: Pipeline, msg: Message, k: nat, st: SymbolState)
    requires Entered(env, p, msg) && k < |p.states|
    requires GoodState(st) && SameSymbol(p.states[k], st)
    requires st.observed ==> LexAtMost(st.epoch, st.connSeq, msg.epoch, msg.connSeq)
    ensures GoodPipeline(env, p.(states := p.states[k := st]))
  {
    var r := p.(states := p.states[k := st]);
    forall i | 0 <= i < |r.states| ensures GoodMember(env, r, i) {
      assert SameSymbol(p.states[k], st);
    }
  }

  lemma OutcomeCommits(parse: Parser, st: SymbolState, ctx: Context, payload: string, mode: Mode)
    ensures var o := Process(parse, st, ctx, payload, mode);
            o.state == st || (o.state.observed && o.state.epoch == ctx.epoch && o.state.connSeq == ctx.connSeq)
  {
  }

  lemma ProcessedMessageIsGood(env: Env, pl: Pipeline, msg: Message)
    requires EnvContract(env) && GoodPipeline(env, pl) && ValidMetadata(pl, msg) && |msg.payload| <= MAX_PAYLOAD
    requires env.envelope(msg.payload).ok
    ensures GoodResult(env, pl, msg, ProcessMessage(env, pl, msg))
  {
    var e := env.envelope(msg.payload);
    var p, k := Enter(pl, msg), e.symbolIndex;
    EnterKeeps(env, pl, msg);
    var st := p.states[k];
    assert st.symbol == pl.states[k].symbol && st.seqNo == pl.states[k].seqNo;
    var ctx := ContextOf(env, msg, e.kind, st.symbol);
    ContextNeverRejected(env, p, msg, k, e.kind);
    ProcessKeepsState(env.parse, st, ctx, e.payload, LiveCapture);
    OutcomeCommits(env.parse, st, ctx, e.payload, LiveCapture);
    AuditRowFits(AuditRowOf(ctx, e.payload));
    var o := Process(env.parse, st, ctx, e.payload, LiveCapture);
    SetMemberKeeps(env, p, msg, k, o.state);
    assert ProcessMessage(env, pl, msg) == Conclude(p, k, o, ctx, e.payload);
    ConcludeIsGood(env, pl, p, msg, k, o, ctx, e.payload);
  }

  lemma ConcludeIsGood(env: Env, pl: Pipeline, p: Pipeline, msg: Message, k: nat, o: Outcome, ctx: Context,
                       payload: string)
    requires |pl.states| == |p.states| == |env.symbols| && k < |p.states|
    requires p.observed && p.epoch == msg.epoch && p.connSeq == msg.connSeq
    requires GoodPipeline(env, p.(states := p.states[k := o.state]))
    requires GoodOutcome(p.states[k], o, LiveCapture) && p.states[k].seqNo == pl.states[k].seqNo
    requires o.batch.hasAudit ==> o.batch.audit == AuditText(AuditRowOf(ctx, payload))
    requires |AuditText(AuditRowOf(ctx, payload))| <= MAX_RECORD && |payload| <= MAX_PAYLOAD
    requires ctx == ContextOf(env, msg, ctx.kind, env.symbols[k])
    ensures GoodResult(env, pl, msg, Conclude(p, k, o, ctx, payload))
  {
  }

  /** Every message whose metadata follows the last one is processed without an internal
      error, except when a symbol has used up its 2^64 - 1 sequence numbers. */
  lemma MessageIsGood(env: Env, pl: Pipeline, msg: Message)
    requires EnvContract(env) && GoodPipeline(env, pl) && ValidMetadata(pl, msg) && |msg.payload| <= MAX_PAYLOAD
    ensures GoodResult(env, pl, msg, ProcessMessage(env, pl, msg))
  {
    var e := env.envelope(msg.payload);
    if e.ok {
      ProcessedMessageIsGood(env, pl, msg);
    } else {
      RejectedEnvelopeIsGood(env, pl, msg);
    }
  }

  lemma RejectedEnvelopeIsGood(env: Env, pl: Pipeline, msg: Message)
    requires EnvContract(env) && GoodPipeline(env, pl) && ValidMetadata(pl, msg) && |msg.payload| <= MAX_PAYLOAD
    requires !env.envelope(msg.payload).ok
    ensures GoodResult(env, pl, msg, ProcessMessage(env, pl, msg))
  {
    var e := env.envelope(msg.payload);
    var p := Enter(pl, msg);
    EnterKeeps(env, pl, msg);
    if e.routed && e.kind.DepthDiff? {
      InvalidationKeepsBook(env.venue, p.states[e.symbolIndex].book);
      SetMemberKeeps(env, p, msg, e.symbolIndex, InvalidatedState(p.states[e.symbolIndex]));
    } else {
      forall i | 0 <= i < |p.states| ensures GoodMember(env, p, i) {
      }
    }
  }

  /** The checks on a message before it enters: a timestamp with valid nanoseconds, a sequence
      number, later than the last message, and at most 1 MiB.  A refused one changes nothing. */
  lemma MessageIsChecked(env: Env, pl: Pipeline, msg: Message)
    ensures var r := ProcessMessage(env, pl, msg);
            && (r.disposition == Fatal(InvalidMetadata)
                <==> || msg.ts.nanoseconds < 0 || msg.ts.nanoseconds > 999_999_999 || msg.connSeq == 0
                     || (pl.observed && (msg.epoch < pl.epoch || (msg.epoch == pl.epoch && msg.connSeq <= pl.connSeq))))
            && (r.disposition == Fatal(MessageTooLarge) ==> |msg.payload| > 1_048_576)
            && (|msg.payload| > 1_048_576 ==> r.disposition.Fatal?)
            && (r.disposition in {Fatal(InvalidMetadata), Fatal(MessageTooLarge)} ==> r.pl == pl)
  {
  }

}
