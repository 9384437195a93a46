/** Two live runs whose audit files are not replayed to their order-book rows: a refresh, a
    depth_diff rejected with its envelope, and then either a diff that continues the book
    replay still holds or a refresh older than it. */
module DivergingRuns {
  import opened Types
  import opened Sequencer
  import opened CsvFormat
  import opened EventProcessor
  import opened LivePipeline
  import opened LiveReplay
  import opened ReplayAgreement

  // -------------------------------------------------------------- a configuration

  /** One payload per message used here; every other payload is malformed. */
  function ParseSample(venue: Venue, kind: Kind, symbol: string, payload: string): Parsed {
    if payload == "refresh" then Parsed(NoParseError, DepthEvent(0, 0, 10, [], []), false)
    else if payload == "older" then Parsed(NoParseError, DepthEvent(0, 0, 5, [], []), false)
    else if payload == "next" then Parsed(NoParseError, DepthEvent(10, 11, 11, [], []), false)
    else Parsed(MalformedJson, DepthEvent(0, 0, 0, [], []), false)
  }

  /** The envelope of "broken" is recognized as a depth_diff of the symbol and is invalid. */
  function RouteSample(message: string): Envelope {
    if message == "broken" then Envelope(false, true, 0, DepthDiff, "")
    else Envelope(true, true, 0, if message == "next" then DepthDiff else Depth5, message)
  }

  function SampleEnv(venue: Venue): Env {
    Env(venue, ["A"], (_: string) => 1, ParseSample, RouteSample)
  }

  lemma SampleIsFair(venue: Venue)
    ensures EnvContract(SampleEnv(venue))
  {
  }

  function Sample(n: U64, payload: string): LiveInput {
    Deliver(SampleMessage(n, payload))
  }

  function SampleMessage(n: U64, payload: string): Message {
    Message(Timestamp(0, 0), 0, n, payload)
  }

  function RunOf(last: string): seq<LiveInput> {
    [Sample(1, "refresh"), Sample(2, "broken"), Sample(3, last)]
  }

  const BOOK_TEN := Book([], [], 10, true, false, 0)

  // ------------------------------------------------------------------ step by step

  /** A message for symbol k goes to the event processor. */
  lemma OwnMessage(env: Env, pl: Pipeline, msg: Message, k: nat) returns (ctx: Context)
    requires EnvContract(env) && GoodPipeline(env, pl) && ValidMetadata(pl, msg) && |msg.payload| <= MAX_PAYLOAD
    requires k < |pl.states| && env.envelope(msg.payload).ok && env.envelope(msg.payload).symbolIndex == k
    ensures var e, st := env.envelope(msg.payload), Enter(pl, msg).states[k];
            && ctx == ContextOf(env, msg, e.kind, env.symbols[k]) && ContextIsValid(st, ctx)
            && st.venue == env.venue && st.symbol == env.symbols[k] && st.seqNo == pl.states[k].seqNo && GoodState(st)
            && ProcessMessage(env, pl, msg)
               == Conclude(Enter(pl, msg), k, Process(env.parse, st, ctx, e.payload, LiveCapture), ctx, e.payload)
  {
    var p, e := Enter(pl, msg), env.envelope(msg.payload);
    EnterKeeps(env, pl, msg);
    ContextNeverRejected(env, p, msg, k, e.kind);
    ctx := ContextOf(env, msg, e.kind, p.states[k].symbol);
    assert p.states[k].symbol == pl.states[k].symbol;
  }

  /** A depth event for symbol k that the parser accepts is audited, and its verdict on the
      book decides the new one. */
  lemma AcceptedIsAudited(env: Env, pl: Pipeline, msg: Message, k: nat)
    requires EnvContract(env) && GoodPipeline(env, pl) && ValidMetadata(pl, msg) && |msg.payload| <= MAX_PAYLOAD
    requires k < |pl.states| && env.envelope(msg.payload).ok && env.envelope(msg.payload).symbolIndex == k
    requires pl.states[k].seqNo < U64_MAX && !KindOf(env, msg).Trade? && ParsedFor(env, msg, k).error.NoParseError?
    ensures var r := ProcessMessage(env, pl, msg);
            var ctx := ContextOf(env, msg, KindOf(env, msg), env.symbols[k]);
            && r.disposition.BatchReady? && r.target == k && |r.pl.states| == |pl.states|
            && r.pl.states[k].seqNo <= pl.states[k].seqNo + 1
            && r.pl.states[k].book == ApplyEvent(env.venue, ctx.kind, StartBook(Enter(pl, msg).states[k], ctx),
                                                 ParsedFor(env, msg, k).depth).0
  {
    var e, st := env.envelope(msg.payload), Enter(pl, msg).states[k];
    var ctx := OwnMessage(env, pl, msg, k);
    ProcessKeepsState(env.parse, st, ctx, e.payload, LiveCapture);
    AcceptedBook(env.parse, st, ctx, e.payload);
  }

  lemma AcceptedBook(parse: Parser, st: SymbolState, ctx: Context, payload: string)
    requires !ctx.kind.Trade? && Process(parse, st, ctx, payload, LiveCapture).error == NoError
    requires parse(ctx.venue, ctx.kind, st.symbol, payload).error.NoParseError? && ContextIsValid(st, ctx)
    ensures var o := Process(parse, st, ctx, payload, LiveCapture);
            && !o.status.PreAuditRejected? && o.state.seqNo <= st.seqNo + 1
            && o.state.book == ApplyEvent(st.venue, ctx.kind, StartBook(st, ctx),
                                          parse(ctx.venue, ctx.kind, st.symbol, payload).depth).0
  {
  }

  // ------------------------------------------------------------- runs of messages

  /** A message is processed without a break and leaves pipeline next and held book h. */
  ghost predicate Passes(env: Env, pl: Pipeline, held: Held, msg: Message, k: nat, next: Pipeline, h: Held) {
    && k < |env.symbols| && !ProcessMessage(env, pl, msg).disposition.Fatal? && !Breaks(env, pl, held, msg, k)
    && ProcessMessage(env, pl, msg).pl == next && HeldNext(env, pl, held, msg, k) == h
  }

  lemma PassOver(env: Env, pl: Pipeline, held: Held, msg: Message, k: nat, next: Pipeline, h: Held,
                 rest: seq<LiveInput>)
    requires Passes(env, pl, held, msg, k, next, h)
    ensures NeverBreaks(env, pl, held, [Deliver(msg)] + rest, k) <==> NeverBreaks(env, next, h, rest, k)
    ensures NewEpochs(env, pl, false, [Deliver(msg)] + rest) <==> NewEpochs(env, next, false, rest)
  {
    assert ([Deliver(msg)] + rest)[1..] == rest;
  }

  lemma BreakNow(env: Env, pl: Pipeline, held: Held, msg: Message, k: nat)
    requires k < |env.symbols| && !ProcessMessage(env, pl, msg).disposition.Fatal? && Breaks(env, pl, held, msg, k)
    ensures !NeverBreaks(env, pl, held, [Deliver(msg)], k) && NewEpochs(env, pl, false, [Deliver(msg)])
  {
    assert [Deliver(msg)][1..] == [];
  }

  // ------------------------------------------------------------------- three steps

  /** What is known of the pipeline after n messages of a sample run. */
  ghost predicate SampleState(venue: Venue, pl: Pipeline, n: nat) {
    && GoodPipeline(SampleEnv(venue), pl) && pl.observed && pl.epoch == 0 && pl.connSeq == n && pl.states[0].seqNo <= n
  }

  /** An audited message passes while nothing is held. */
  lemma AuditedPasses(env: Env, pl: Pipeline, msg: Message, k: nat)
    requires k < |env.symbols| && ProcessMessage(env, pl, msg).disposition.BatchReady?
    ensures Passes(env, pl, NothingHeld, msg, k, ProcessMessage(env, pl, msg).pl, NothingHeld)
  {
  }

  lemma SampleStart(env: Env, venue: Venue, first: Message)
    requires env == SampleEnv(venue)
    ensures var pl := InitialPipeline(env);
            && |pl.states| == 1 && !pl.observed && pl.states[0] == FreshState(venue, "A", 1)
            && Enter(pl, first).states == pl.states && GoodPipeline(env, pl)
  {
    SampleIsFair(venue);
    InitialIsGood(env);
  }

  /** The first message: a refresh makes the live book valid. */
  lemma FirstPasses(env: Env, venue: Venue, first: Message) returns (pl: Pipeline)
    requires env == SampleEnv(venue) && first == SampleMessage(1, "refresh")
    ensures Passes(env, InitialPipeline(env), NothingHeld, first, 0, pl, NothingHeld)
    ensures SampleState(venue, pl, 1) && pl.states[0].book == BOOK_TEN
  {
    var start := InitialPipeline(env);
    SampleIsFair(venue);
    SampleStart(env, venue, first);
    AcceptedIsAudited(env, start, first, 0);
    MessageIsGood(env, start, first);
    AuditedPasses(env, start, first, 0);
    pl := ProcessMessage(env, start, first).pl;
  }

  /** The second: a diff rejected with its envelope, of which no row is written. */
  lemma SecondOpens(venue: Venue, pl: Pipeline) returns (next: Pipeline)
    requires SampleState(venue, pl, 1) && pl.states[0].book == BOOK_TEN
    ensures Passes(SampleEnv(venue), pl, NothingHeld, SampleMessage(2, "broken"), 0, next, Held(BOOK_TEN))
    ensures SampleState(venue, next, 2)
  {
    var env, second := SampleEnv(venue), SampleMessage(2, "broken");
    SampleIsFair(venue);
    MessageIsGood(env, pl, second);
    next := ProcessMessage(env, pl, second).pl;
  }

  /** The third tells the held book from the one live has dropped. */
  lemma ThirdBreaks(venue: Venue, pl: Pipeline, last: string)
    requires SampleState(venue, pl, 2) && last in {"next", "older"}
    ensures !NeverBreaks(SampleEnv(venue), pl, Held(BOOK_TEN), [Sample(3, last)], 0)
    ensures NewEpochs(SampleEnv(venue), pl, false, [Sample(3, last)])
  {
    SampleIsFair(venue);
    AcceptedIsAudited(SampleEnv(venue), pl, SampleMessage(3, last), 0);
    BreakNow(SampleEnv(venue), pl, Held(BOOK_TEN), SampleMessage(3, last), 0);
  }

  /** The last message of a sample run breaks it, and none before. */
  lemma SampleRunBreaks(env: Env, venue: Venue, last: string)
    requires env == SampleEnv(venue) && last in {"next", "older"}
    ensures FairStart(env, RunOf(last), 0)
    ensures NeverBreaks(env, InitialPipeline(env), NothingHeld, RunOf(last)[..2], 0)
    ensures !NeverBreaks(env, InitialPipeline(env), NothingHeld, RunOf(last), 0)
  {
    var a, b, c := SampleMessage(1, "refresh"), SampleMessage(2, "broken"), SampleMessage(3, last);
    SampleIsFair(venue);
    var one := FirstPasses(env, venue, a);
    var two := SecondOpens(venue, one);
    ThirdBreaks(venue, two, last);
    BreakAfterTwo(env, InitialPipeline(env), one, two, BOOK_TEN, a, b, c);
  }

  lemma BreakAfterTwo(env: Env, start: Pipeline, one: Pipeline, two: Pipeline, b: Book, x: Message, y: Message,
                      z: Message)
    requires Passes(env, start, NothingHeld, x, 0, one, NothingHeld)
    requires Passes(env, one, NothingHeld, y, 0, two, Held(b))
    requires !NeverBreaks(env, two, Held(b), [Deliver(z)], 0) && NewEpochs(env, two, false, [Deliver(z)])
    ensures var run := [Deliver(x), Deliver(y), Deliver(z)];
            && NeverBreaks(env, start, NothingHeld, run[..2], 0) && !NeverBreaks(env, start, NothingHeld, run, 0)
            && NewEpochs(env, start, false, run)
  {
    var run := [Deliver(x), Deliver(y), Deliver(z)];
    PassOver(env, one, NothingHeld, y, 0, two, Held(b), [Deliver(z)]);
    PassOver(env, one, NothingHeld, y, 0, two, Held(b), []);
    PassOver(env, start, NothingHeld, x, 0, one, NothingHeld, [Deliver(y)] + [Deliver(z)]);
    PassOver(env, start, NothingHeld, x, 0, one, NothingHeld, [Deliver(y)] + []);
    assert run == [Deliver(x)] + ([Deliver(y)] + [Deliver(z)]) && run[..2] == [Deliver(x)] + ([Deliver(y)] + []);
  }

  /** A refresh, a rejected diff, and the diff that continues the refresh, on either venue:
      live ignores it while its book is invalid, replay emits a row. */
  lemma ContinuingDiffDiverges(venue: Venue)
    ensures !ReplaysExactly(SampleEnv(venue), RunOf("next"), 0)
  {
    SampleRunBreaks(SampleEnv(venue), venue, "next");
    FirstBreakShows(SampleEnv(venue), RunOf("next")[..2], RunOf("next"), 0);
  }

  /** A refresh, a rejected diff, and a refresh older than the first: live applies it to its
      invalid book, replay drops it as stale. */
  lemma OlderRefreshDiverges(venue: Venue)
    ensures !ReplaysExactly(SampleEnv(venue), RunOf("older"), 0)
  {
    SampleRunBreaks(SampleEnv(venue), venue, "older");
    FirstBreakShows(SampleEnv(venue), RunOf("older")[..2], RunOf("older"), 0);
  }
}
