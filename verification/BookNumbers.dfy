/** Over every live run the order-book rows of a symbol are numbered 1, 2, 3, ... without a
    gap, across connections, and each shows a printable book. */
module BookNumbers {
  import opened CsvFormat
  import opened EventProcessor
  import opened LivePipeline
  import opened LiveReplay
  import opened BookColumns

  /** The text reads as a row of a printable book with sequence number n. */
  ghost predicate RowNumbered(text: string, n: nat) {
    exists row: BookRow :: row.seqNo == n && PrintableBook(row.bids, row.asks) && ShowsRow(text, row)
  }

  ghost predicate RowsNumbered(books: seq<string>, from: nat) {
    forall i :: 0 <= i < |books| ==> RowNumbered(books[i], from + i + 1)
  }

  /** What one result adds to symbol k, whose last row had number n. */
  ghost predicate Numbers(r: PipelineResult, k: nat, n: nat)
    requires k < |r.pl.states|
  {
    RowsNumbered(RowsOf(r, k).books, n) && r.pl.states[k].seqNo == n + |RowsOf(r, k).books|
  }

  lemma TextIsNumbered(row: BookRow)
    requires PrintableBook(row.bids, row.asks)
    ensures RowNumbered(BookText(row), row.seqNo)
  {
    BookRowReads(row);
  }

  lemma EventNumbers(parse: Parser, st: SymbolState, ctx: Context, payload: string)
    requires ParserContract(parse) && GoodState(st) && ContextIsValid(st, ctx) && |payload| <= MAX_PAYLOAD
    ensures var o := Process(parse, st, ctx, payload, LiveCapture);
            && o.state.seqNo == st.seqNo + (if o.batch.hasBook then 1 else 0)
            && (o.batch.hasBook ==> RowNumbered(o.batch.book, st.seqNo + 1))
            && (o.error != NoError || o.status.PreAuditRejected? ==> !o.batch.hasBook)
  {
    ProcessKeepsState(parse, st, ctx, payload, LiveCapture);
    if Process(parse, st, ctx, payload, LiveCapture).batch.hasBook {
      var row := EmittedRow(parse, st, ctx, payload, LiveCapture);
      TextIsNumbered(row);
    }
  }

  lemma ConcludeNumbers(p: Pipeline, j: nat, o: Outcome, ctx: Context, payload: string, k: nat)
    requires j < |p.states| && k < |p.states|
    requires o.state.seqNo == p.states[j].seqNo + (if o.batch.hasBook then 1 else 0)
    requires o.batch.hasBook ==> RowNumbered(o.batch.book, p.states[j].seqNo + 1)
    requires o.error != NoError || o.status.PreAuditRejected? ==> !o.batch.hasBook
    requires !Conclude(p, j, o, ctx, payload).disposition.Fatal?
    ensures Numbers(Conclude(p, j, o, ctx, payload), k, p.states[k].seqNo)
  {
  }

  lemma MessageNumbers(env: Env, pl: Pipeline, msg: Message, k: nat)
    requires EnvContract(env) && GoodPipeline(env, pl) && k < |pl.states|
    requires !ProcessMessage(env, pl, msg).disposition.Fatal?
    ensures k < |ProcessMessage(env, pl, msg).pl.states| && Numbers(ProcessMessage(env, pl, msg), k, pl.states[k].seqNo)
  {
    var e, p := env.envelope(msg.payload), Enter(pl, msg);
    assert p.states[k].seqNo == pl.states[k].seqNo;
    if e.ok {
      var j := e.symbolIndex;
      EnterKeeps(env, pl, msg);
      var ctx := ContextOf(env, msg, e.kind, p.states[j].symbol);
      ContextNeverRejected(env, p, msg, j, e.kind);
      EventNumbers(env.parse, p.states[j], ctx, e.payload);
      ConcludeNumbers(p, j, Process(env.parse, p.states[j], ctx, e.payload, LiveCapture), ctx, e.payload, k);
    }
  }

  lemma NumbersTogether(first: seq<string>, rest: seq<string>, n: nat)
    requires RowsNumbered(first, n) && RowsNumbered(rest, n + |first|)
    ensures RowsNumbered(first + rest, n)
  {
    forall i | 0 <= i < |first + rest| ensures RowNumbered((first + rest)[i], n + i + 1) {
      if i >= |first| {
        assert RowNumbered(rest[i - |first|], n + |first| + (i - |first|) + 1);
      }
    }
  }

  lemma {:induction false} RunNumbers(env: Env, pl: Pipeline, inputs: seq<LiveInput>, k: nat)
    requires EnvContract(env) && GoodPipeline(env, pl) && k < |pl.states|
    ensures RowsNumbered(RunLive(env, pl, inputs, k).books, pl.states[k].seqNo)
    decreases |inputs|
  {
    if inputs == [] {
    } else if inputs[0].Teardown? {
      InvalidateKeeps(env, pl);
      RunNumbers(env, InvalidateAll(pl), inputs[1..], k);
    } else {
      var r := ProcessMessage(env, pl, inputs[0].msg);
      if !r.disposition.Fatal? {
        MessageNumbers(env, pl, inputs[0].msg, k);
        MessageIsGood(env, pl, inputs[0].msg);
        RunNumbers(env, r.pl, inputs[1..], k);
        NumbersTogether(RowsOf(r, k).books, RunLive(env, r.pl, inputs[1..], k).books, pl.states[k].seqNo);
      }
    }
  }

  /** From the start: the i-th row of a symbol carries sequence number i. */
  lemma BookRowsAreNumbered(env: Env, inputs: seq<LiveInput>, k: nat, i: nat)
    requires EnvContract(env) && k < |env.symbols| && i < |RunLive(env, InitialPipeline(env), inputs, k).books|
    ensures RowNumbered(RunLive(env, InitialPipeline(env), inputs, k).books[i], i + 1)
  {
    InitialIsGood(env);
    RunNumbers(env, InitialPipeline(env), inputs, k);
  }
}
