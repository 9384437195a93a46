/** From the events of a successful live capture to the replay of its files. */
module EndToEnd {
  import opened CsvFormat
  import opened CsvDecode
  import opened AuditFile
  import opened EventProcessor
  import opened LivePipeline
  import opened LiveReplay
  import opened ReplayAgreement
  import opened WriterRing
  import opened WriterRingTheorems
  import opened System
  import opened SystemProofs
  import opened SystemTheorems
  import ReplayReader
  import ReplayLoop

  // ------------------------------------------- the history, read from either end

  /** The rows of symbol k among the batches to publish. */
  function SentRows(sent: seq<PipelineResult>, k: nat): LiveReplay.Rows {
    if sent == [] then LiveReplay.Rows([], []) else Plus(SentRows(sent[..|sent| - 1], k), RowsOf(sent[|sent| - 1], k))
  }

  lemma SentRowsAppend(sent: seq<PipelineResult>, r: PipelineResult, k: nat)
    ensures SentRows(sent + [r], k) == Plus(SentRows(sent, k), RowsOf(r, k))
  {
    assert (sent + [r])[..|sent|] == sent;
  }

  lemma PlusAssociates(a: LiveReplay.Rows, b: LiveReplay.Rows, c: LiveReplay.Rows)
    ensures Plus(Plus(a, b), c) == Plus(a, Plus(b, c))
    ensures Plus(a, LiveReplay.Rows([], [])) == a && Plus(LiveReplay.Rows([], []), a) == a
  {
  }

  /** What is left of a run after the trace t. */
  function Remaining(env: Env, t: Trace, inputs: seq<LiveInput>, k: nat): LiveReplay.Rows {
    if t.dead then LiveReplay.Rows([], []) else RunLive(env, t.pl, inputs, k)
  }

  lemma RemainingStep(env: Env, t: Trace, x: LiveInput, rest: seq<LiveInput>, k: nat)
    ensures Plus(SentRows(t.sent, k), Remaining(env, t, [x] + rest, k))
         == Plus(SentRows(Extend(env, t, x).sent, k), Remaining(env, Extend(env, t, x), rest, k))
  {
    assert ([x] + rest)[1..] == rest;
    if x.Deliver? {
      var r := ProcessMessage(env, t.pl, x.msg);
      DeliverStep(env, t, r, rest, k);
    }
  }

  lemma DeliverStep(env: Env, t: Trace, r: PipelineResult, rest: seq<LiveInput>, k: nat)
    ensures var u := Trace(r.pl, false, t.dead || r.disposition.Fatal?,
                           if !t.dead && r.disposition.BatchReady? then t.sent + [r] else t.sent);
            var now := if r.disposition.Fatal? then LiveReplay.Rows([], [])
                       else Plus(RowsOf(r, k), RunLive(env, r.pl, rest, k));
            var all := Plus(SentRows(t.sent, k), if t.dead then LiveReplay.Rows([], []) else now);
            all == Plus(SentRows(u.sent, k), Remaining(env, u, rest, k))
  {
    SentRowsAppend(t.sent, r, k);
    PlusAssociates(SentRows(t.sent, k), RowsOf(r, k), RunLive(env, r.pl, rest, k));
    PlusAssociates(RunLive(env, r.pl, rest, k), RunLive(env, r.pl, rest, k), RunLive(env, r.pl, rest, k));
  }

  /** all is what the trace has sent and what remains. */
  predicate Splits(env: Env, t: Trace, rest: seq<LiveInput>, k: nat, all: LiveReplay.Rows) {
    all == Plus(SentRows(t.sent, k), Remaining(env, t, rest, k))
  }

  lemma SplitMoves(env: Env, front: seq<LiveInput>, x: LiveInput, rest: seq<LiveInput>, k: nat, all: LiveReplay.Rows)
    requires Splits(env, TraceOf(env, front), [x] + rest, k, all)
    ensures Splits(env, TraceOf(env, front + [x]), rest, k, all)
  {
    TraceAppends(env, front, x);
    RemainingStep(env, TraceOf(env, front), x, rest, k);
  }

  lemma {:induction false} RunSplits(env: Env, done: seq<LiveInput>, rest: seq<LiveInput>, k: nat)
    ensures Splits(env, TraceOf(env, done), rest, k, RunLive(env, InitialPipeline(env), done + rest, k))
    decreases |done|
  {
    var all := RunLive(env, InitialPipeline(env), done + rest, k);
    if done == [] {
      assert [] + rest == rest;
      PlusAssociates(all, all, all);
    } else {
      var front, x := done[..|done| - 1], done[|done| - 1];
      assert front + ([x] + rest) == done + rest && front + [x] == done;
      RunSplits(env, front, [x] + rest, k);
      SplitMoves(env, front, x, rest, k, all);
    }
  }

  /** The rows of a whole history are those of the batches to publish. */
  lemma RunIsSent(env: Env, inputs: seq<LiveInput>, k: nat)
    ensures RunLive(env, InitialPipeline(env), inputs, k) == SentRows(TraceOf(env, inputs).sent, k)
  {
    RunSplits(env, inputs, [], k);
    assert inputs + [] == inputs;
    PlusAssociates(SentRows(TraceOf(env, inputs).sent, k), LiveReplay.Rows([], []), LiveReplay.Rows([], []));
  }

  lemma {:induction false} OrderedPrefix(env: Env, done: seq<LiveInput>, rest: seq<LiveInput>)
    requires Ordered(env, done + rest)
    ensures Ordered(env, done)
    decreases |rest|
  {
    if rest == [] {
      assert done + rest == done;
    } else {
      LastFollows(env, done + rest);
      assert (done + rest)[..|done + rest| - 1] == done + rest[..|rest| - 1];
      OrderedPrefix(env, done, rest[..|rest| - 1]);
    }
  }

  /** The epoch condition on the last input of an ordered history. */
  lemma LastIsNewEpoch(env: Env, done: seq<LiveInput>, x: LiveInput)
    requires Ordered(env, done + [x])
    ensures var t := TraceOf(env, done);
            x.Deliver? && t.torn && t.pl.observed ==> x.msg.epoch > t.pl.epoch
  {
    var all := done + [x];
    assert all[..|all| - 1] == done && all[|all| - 1] == x;
  }

  /** The epoch condition at a position of an ordered history. */
  lemma OrderedStep(env: Env, done: seq<LiveInput>, x: LiveInput, tail: seq<LiveInput>)
    requires Ordered(env, done + [x] + tail)
    ensures var t := TraceOf(env, done);
            x.Deliver? && t.torn && t.pl.observed ==> x.msg.epoch > t.pl.epoch
  {
    OrderedPrefix(env, done + [x], tail);
    LastIsNewEpoch(env, done, x);
  }

  lemma {:induction false} OrderedMeansNewEpochs(env: Env, done: seq<LiveInput>, rest: seq<LiveInput>)
    requires Ordered(env, done + rest)
    ensures NewEpochs(env, TraceOf(env, done).pl, TraceOf(env, done).torn, rest)
    decreases |rest|
  {
    if rest != [] {
      var x, tail := rest[0], rest[1..];
      SplitHead(done, rest);
      OrderedMeansNewEpochs(env, done + [x], tail);
      NewEpochsCons(env, done, x, tail);
    }
  }

  lemma SplitHead(done: seq<LiveInput>, rest: seq<LiveInput>)
    requires rest != []
    ensures done + [rest[0]] + rest[1..] == done + rest && [rest[0]] + rest[1..] == rest
  {
  }

  lemma NewEpochsCons(env: Env, done: seq<LiveInput>, x: LiveInput, rest: seq<LiveInput>)
    requires Ordered(env, done + [x] + rest)
    requires var u := TraceOf(env, done + [x]); NewEpochs(env, u.pl, u.torn, rest)
    ensures var t := TraceOf(env, done); NewEpochs(env, t.pl, t.torn, [x] + rest)
  {
    OrderedStep(env, done, x, rest);
    TraceAppends(env, done, x);
    assert ([x] + rest)[1..] == rest;
  }

  // ------------------------------------------------------ the bytes of the files

  /** The audit records handed over for target k, one after the other. */
  function AuditBytes(handed: seq<Slot>, k: nat): string {
    if handed == [] then []
    else
      var last := handed[|handed| - 1];
      AuditBytes(handed[..|handed| - 1], k) + if last.target == k && last.batch.hasAudit then last.batch.audit else []
  }

  /** The order-book records handed over for target k. */
  function BookRecords(handed: seq<Slot>, k: nat): seq<string> {
    if handed == [] then []
    else
      var last := handed[|handed| - 1];
      BookRecords(handed[..|handed| - 1], k) + if last.target == k && last.batch.hasBook then [last.batch.book] else []
  }

  /** A batch whose audit record is the text of its event's row. */
  predicate GoodSent(r: PipelineResult) {
    r.disposition.BatchReady? && r.batch.hasAudit && r.batch.audit == AuditText(AuditRowOf(r.ctx, r.payload))
  }

  lemma SentStep(env: Env, t: Trace, x: LiveInput)
    requires EnvContract(env) && GoodPipeline(env, t.pl) && Follows(t.pl, x)
    ensures var u := Extend(env, t, x);
            && GoodPipeline(env, u.pl)
            && (|| u.sent == t.sent
                || (|u.sent| == |t.sent| + 1 && u.sent[..|t.sent|] == t.sent && GoodSent(u.sent[|t.sent|])))
  {
    match x
    case Teardown => InvalidateKeeps(env, t.pl);
    case Deliver(msg) => MessageIsGood(env, t.pl, msg);
  }

  lemma {:induction false} SentIsGood(env: Env, inputs: seq<LiveInput>)
    requires EnvContract(env) && Ordered(env, inputs)
    ensures GoodPipeline(env, TraceOf(env, inputs).pl)
    ensures forall i :: 0 <= i < |TraceOf(env, inputs).sent| ==> GoodSent(TraceOf(env, inputs).sent[i])
    decreases |inputs|
  {
    if inputs == [] {
      InitialIsGood(env);
    } else {
      var front, last := inputs[..|inputs| - 1], inputs[|inputs| - 1];
      LastFollows(env, inputs);
      SentIsGood(env, front);
      SentStep(env, TraceOf(env, front), last);
    }
  }

  lemma {:induction false} RowsTextAppend(rows: seq<AuditRow>, row: AuditRow)
    ensures RowsText(rows + [row]) == RowsText(rows) + AuditText(row)
  {
    if rows == [] {
      assert [row][1..] == [];
    } else {
      assert (rows + [row])[1..] == rows[1..] + [row];
      RowsTextAppend(rows[1..], row);
    }
  }

  lemma AuditBytesAppend(handed: seq<Slot>, x: Slot, k: nat)
    ensures AuditBytes(handed + [x], k)
         == AuditBytes(handed, k) + if x.target == k && x.batch.hasAudit then x.batch.audit else []
    ensures BookRecords(handed + [x], k)
         == BookRecords(handed, k) + if x.target == k && x.batch.hasBook then [x.batch.book] else []
  {
    assert (handed + [x])[..|handed|] == handed;
  }

  lemma HandedStep(slots: seq<Slot>, rows: LiveReplay.Rows, r: PipelineResult, k: nat)
    requires GoodSent(r) && AuditBytes(slots, k) == RowsText(rows.audits) && BookRecords(slots, k) == rows.books
    ensures AuditBytes(slots + [SlotOf(r)], k) == RowsText(Plus(rows, RowsOf(r, k)).audits)
    ensures BookRecords(slots + [SlotOf(r)], k) == Plus(rows, RowsOf(r, k)).books
  {
    AuditBytesAppend(slots, SlotOf(r), k);
    RowsTextAppend(rows.audits, AuditRowOf(r.ctx, r.payload));
    PlusAssociates(rows, rows, rows);
  }

  /** The records handed over for target k are the rows of symbol k. */
  lemma {:induction false} HandedIsSent(sent: seq<PipelineResult>, k: nat)
    requires forall i :: 0 <= i < |sent| ==> GoodSent(sent[i])
    ensures AuditBytes(SlotsOf(sent), k) == RowsText(SentRows(sent, k).audits)
    ensures BookRecords(SlotsOf(sent), k) == SentRows(sent, k).books
  {
    if sent != [] {
      var front, r := sent[..|sent| - 1], sent[|sent| - 1];
      HandedIsSent(front, k);
      HandedStep(SlotsOf(front), SentRows(front, k), r, k);
    }
  }

  // --------------------------------------------------------------- main theorem

  /** At the end of a successful run the batches handed to the files are those the pipeline
      asked to publish. */
  lemma EverythingIsHanded(env: Env, s: Sys)
    requires Reachable(env, s) && s.c.run.terminal && !s.c.run.error
    ensures s.ring.handed == SlotsOf(TraceOf(env, s.c.feed.inputs).sent) && Ordered(env, s.c.feed.inputs)
  {
    ReachableSystem(env, s);
    AtTheEnd(s.c, s.ring);
    ExitAccounting(s.ring);
  }

  /** The run for symbol k never breaks: no event audited while replay holds a book that live
      has dropped is a diff continuing that book or a refresh older than it. */
  predicate Replayable(env: Env, inputs: seq<LiveInput>, k: nat)
    requires k < |env.symbols|
  {
    NeverBreaks(env, InitialPipeline(env), NothingHeld, inputs, k)
  }

  /** What replay of the records handed over for target k must give. */
  function ExpectedReplay(handed: seq<Slot>, k: nat): Replay {
    if AuditBytes(handed, k) == [] then Replay([], EmptyInput) else Replay(BookRecords(handed, k), ReplayOk)
  }

  /** The replay of a successful capture: for each replayable symbol, reading the audit
      header and the audit records handed to its file and replaying them emits exactly the
      order-book records handed over. */
  lemma CaptureReplays(env: Env, s: Sys, k: nat)
    requires Reachable(env, s) && s.c.run.terminal && !s.c.run.error && k < |env.symbols|
    requires Replayable(env, s.c.feed.inputs, k)
    ensures ReplayBytes(env, AUDIT_HEADER + AuditBytes(s.ring.handed, k)) == ExpectedReplay(s.ring.handed, k)
  {
    EverythingIsHanded(env, s);
    HistoryReplays(env, s.c.feed.inputs, k);
  }

  lemma AuditTextIsNotEmpty(rows: seq<AuditRow>)
    ensures RowsText(rows) == [] <==> rows == []
  {
  }

  lemma HistoryReplays(env: Env, inputs: seq<LiveInput>, k: nat)
    requires EnvContract(env) && Ordered(env, inputs) && k < |env.symbols| && Replayable(env, inputs, k)
    ensures var handed := SlotsOf(TraceOf(env, inputs).sent);
            ReplayBytes(env, AUDIT_HEADER + AuditBytes(handed, k)) == ExpectedReplay(handed, k)
  {
    assert [] + inputs == inputs;
    OrderedMeansNewEpochs(env, [], inputs);
    LiveAndReplayAgree(env, inputs, k);
    RunIsSent(env, inputs, k);
    SentIsGood(env, inputs);
    HandedIsSent(TraceOf(env, inputs).sent, k);
    AuditTextIsNotEmpty(SentRows(TraceOf(env, inputs).sent, k).audits);
  }

  /** The same with the replay program itself: chunked reads and in-place state. */
  method ReplayCapture(env: Env, ghost s: Sys, k: nat, input: ReplayReader.InputFile) returns (r: Replay)
    requires Reachable(env, s) && s.c.run.terminal && !s.c.run.error && k < |env.symbols|
    requires Replayable(env, s.c.feed.inputs, k)
    requires input.Valid() && input.position == 0 && input.bytes == AUDIT_HEADER + AuditBytes(s.ring.handed, k)
    modifies input
    ensures r.end == InputError(ReadFailed) || r == ExpectedReplay(s.ring.handed, k)
  {
    CaptureReplays(env, s, k);
    r := ReplayLoop.ReplayFile(env, input);
  }

  /** A file without audit rows goes with one without order-book rows. */
  lemma {:induction false} NoAuditNoBook(sent: seq<PipelineResult>, k: nat)
    ensures SentRows(sent, k).audits == [] ==> SentRows(sent, k).books == []
  {
    if sent != [] {
      NoAuditNoBook(sent[..|sent| - 1], k);
    }
  }

  /** At a clean end the order-book records handed over are those replay emits. */
  lemma HandedBooks(env: Env, s: Sys, k: nat)
    requires Reachable(env, s) && s.c.run.terminal && !s.c.run.error && k < |env.symbols|
    ensures ExpectedReplay(s.ring.handed, k).books == BookRecords(s.ring.handed, k)
  {
    EverythingIsHanded(env, s);
    ReachableSystem(env, s);
    var sent := TraceOf(env, s.c.feed.inputs).sent;
    SentIsGood(env, s.c.feed.inputs);
    HandedIsSent(sent, k);
    NoAuditNoBook(sent, k);
    AuditTextIsNotEmpty(SentRows(sent, k).audits);
  }
}
