/** A live capture with its files: the writer thread of the ring makes its calls on an output
    set and goes on with the answers it gets (the run function of src/csv_writer.cpp on
    src/csv_output_set.cpp). */
module CaptureFiles {
  import opened Types
  import opened CsvFormat
  import opened LivePipeline
  import opened LiveReplay
  import opened CsvDecode
  import opened WriterRing
  import opened WriterRingInvariants
  import opened WriterRingTheorems
  import opened System
  import opened SystemSteps
  import opened SystemTheorems
  import opened EndToEnd
  import FileSink
  import OutputSet

  // ------------------------------------------------------ the records in the files

  /** The sinks of a set hold the records handed over so far. */
  ghost predicate Holds(audits: seq<OutputSet.SinkView>, books: seq<OutputSet.SinkView>, handed: seq<Slot>) {
    && |audits| == |books|
    && (forall k :: 0 <= k < |audits| ==> FileSink.Concat(audits[k].records) == AuditBytes(handed, k))
    && (forall k :: 0 <= k < |books| ==> books[k].records == BookRecords(handed, k))
  }

  lemma HoldsNext(audits: seq<OutputSet.SinkView>, books: seq<OutputSet.SinkView>,
                  audits': seq<OutputSet.SinkView>, books': seq<OutputSet.SinkView>, handed: seq<Slot>, x: Slot)
    requires Holds(audits, books, handed) && 0 <= x.target < |audits|
    requires if x.batch.hasAudit then OutputSet.Appended(audits, audits', x.target, x.batch.audit, true)
             else audits' == audits
    requires if x.batch.hasBook then OutputSet.Appended(books, books', x.target, x.batch.book, true)
             else books' == books
    ensures Holds(audits', books', handed + [x])
  {
    if x.batch.hasAudit {
      FileSink.ConcatAppend(audits[x.target].records, x.batch.audit);
    }
    forall k | 0 <= k < |audits|
      ensures FileSink.Concat(audits'[k].records) == AuditBytes(handed + [x], k)
              && books'[k].records == BookRecords(handed + [x], k)
    {
      AuditBytesAppend(handed, x, k);
    }
  }

  lemma HoldsSettled(audits: seq<OutputSet.SinkView>, books: seq<OutputSet.SinkView>,
                     audits': seq<OutputSet.SinkView>, books': seq<OutputSet.SinkView>, handed: seq<Slot>, n: nat)
    requires Holds(audits, books, handed)
    requires OutputSet.SettledUpTo(audits, audits', n) && OutputSet.SettledUpTo(books, books', n)
    ensures Holds(audits', books', handed)
  {
  }

  // -------------------------------------------------- the thread and its output set

  /** The thread has made its call of close_all. */
  predicate HasClosed(pc: ConsumerPc) {
    || pc.Finish? || pc.Exited?
    || ((pc.LatchStore? || pc.LatchSent? || pc.LatchSpin?) && pc.l.LatchedInClose?)
  }

  /** What the thread knows of its output set is so, and until the first error the sinks hold
      the records handed over. */
  ghost predicate Attached(out: OutputSet.OutputSet, s: Ring)
    reads out, out.audits, out.books, out.audits.Repr, out.books.Repr
  {
    && out.Valid() && out.Counts() == s.c.out && out.closed == HasClosed(s.c.pc)
    && (out.error.NoSetError? ==> Holds(out.audits.views, out.books.views, s.handed))
  }

  /** An output set with its headers written and nothing else. */
  ghost predicate NewSet(out: OutputSet.OutputSet)
    reads out, out.audits, out.books, out.audits.Repr, out.books.Repr
  {
    && out.Valid() && out.error.NoSetError? && !out.closed && Holds(out.audits.views, out.books.views, [])
    && out.Counts() == Output(0, 0, 0, 0, false)
  }

  lemma {:induction false} NothingTaken(views: seq<OutputSet.SinkView>)
    requires forall i :: 0 <= i < |views| ==> views[i].written == 0 && views[i].buffered == 0
    ensures OutputSet.Taken(views) == 0 && OutputSet.Written(views) == 0
    decreases |views|
  {
    if views != [] {
      NothingTaken(views[..|views| - 1]);
    }
  }

  /** A set of sinks that were opened without an error is new. */
  lemma OpenedIsNew(out: OutputSet.OutputSet)
    requires out.Valid() && out.error.NoSetError? && !out.closed
    requires forall i :: 0 <= i < |out.audits.views| ==> out.audits.views[i] == OutputSet.SinkView(0, 0, [], true, true)
    requires forall i :: 0 <= i < |out.books.views| ==> out.books.views[i] == OutputSet.SinkView(0, 0, [], true, true)
    ensures NewSet(out)
  {
    NothingTaken(out.audits.views);
    NothingTaken(out.books.views);
  }

  /** Only the mutex and the end of the thread hold it up. */
  predicate CanMove(s: Ring) {
    match s.c.pc
    case SleepLock => s.sh.mutex.Nobody?
    case Reacquire(_) => s.sh.mutex.Nobody?
    case Exited => false
    case _ => true
  }

  method Ask(out: OutputSet.OutputSet) returns (o: Output)
    requires out.Valid()
    ensures o == out.Counts()
  {
    var auditWritten, auditBuffered, bookWritten, bookBuffered := out.Metrics();
    o := Output(auditWritten + auditBuffered, auditWritten, bookWritten + bookBuffered, bookWritten,
                !out.error.NoSetError?);
  }

  /** The counters are 64-bit values, and the batch at the head of the queue has a target. */
  predicate Ready(s: Ring) {
    && |s.slots| == SLOT_COUNT && s.sh.released <= U64_MAX && s.sh.bytesReleased <= U64_MAX
    && s.c.seq_ <= U64_MAX && s.c.bytes <= U64_MAX && (s.c.pc.Write? ==> 0 <= NextSlot(s).target)
  }

  lemma InvIsReady(s: Ring)
    requires Inv(s)
    ensures Ready(s)
  {
    InvBoundsCounters(s);
    assert s.c.pc.Write? ==> GoodSlot(s.log[s.c.seq_], s.targets);
  }

  method WriteStep(out: OutputSet.OutputSet, s: Ring, elapsed: bool) returns (ch: Choice)
    requires Attached(out, s) && Ready(s) && s.c.pc.Write?
    modifies out`error, out.audits, out.audits.Repr, out.books, out.books.Repr
    ensures ConsumerEnabled(s, ch) && ch.elapsed == elapsed && Attached(out, Loop(s, ch))
  {
    var slot := NextSlot(s);
    ghost var a, b := out.audits.views, out.books.views;
    var ok := out.WriteBatch(slot.target, slot.batch);
    if ok {
      HoldsNext(a, b, out.audits.views, out.books.views, s.handed, slot);
    }
    var o := Ask(out);
    ch := Choice(o, elapsed);
  }

  method FlushStep(out: OutputSet.OutputSet, s: Ring) returns (ch: Choice)
    requires Attached(out, s) && Ready(s) && s.c.pc.AgeFlush?
    modifies out`error, out.audits, out.audits.Repr, out.books, out.books.Repr
    ensures ConsumerEnabled(s, ch) && ch.elapsed && Attached(out, Loop(s, ch))
  {
    ghost var a, b, healthy := out.audits.views, out.books.views, out.error.NoSetError?;
    var ok := out.FlushAll();
    if healthy {
      HoldsSettled(a, b, out.audits.views, out.books.views, s.handed, |a|);
    }
    var o := Ask(out);
    ch := Choice(o, true);
  }

  method CloseStep(out: OutputSet.OutputSet, s: Ring, elapsed: bool) returns (ch: Choice)
    requires Attached(out, s) && Ready(s) && s.c.pc.CloseAll?
    modifies out, out.audits, out.audits.Repr, out.books, out.books.Repr
    ensures ConsumerEnabled(s, ch) && ch.elapsed == elapsed && Attached(out, Stop(s, ch))
  {
    ghost var a, b, healthy := out.audits.views, out.books.views, out.error.NoSetError?;
    var ok := out.CloseAll();
    if healthy {
      HoldsSettled(a, b, out.audits.views, out.books.views, s.handed, |a|);
    }
    var o := Ask(out);
    ch := Choice(o, elapsed);
  }

  /** What the output set is compared with has not changed. */
  predicate WriterKept(s: Ring, r: Ring) {
    r.c.out == s.c.out && r.handed == s.handed && HasClosed(r.c.pc) == HasClosed(s.c.pc)
  }

  lemma QuietLoop(s: Ring, ch: Choice)
    requires |s.slots| == SLOT_COUNT && InLoop(s.c.pc) && !s.c.pc.Write? && !(s.c.pc.AgeFlush? && ch.elapsed)
    ensures WriterKept(s, Loop(s, ch))
  {
  }

  lemma QuietRelease(s: Ring)
    requires |s.slots| == SLOT_COUNT && s.c.seq_ <= U64_MAX && s.c.bytes <= U64_MAX && InRelease(s.c.pc)
    ensures WriterKept(s, Release(s))
  {
  }

  lemma QuietStop(s: Ring, ch: Choice)
    requires InStop(s.c.pc) && !s.c.pc.CloseAll?
    ensures WriterKept(s, Stop(s, ch))
  {
  }

  lemma QuietSleep(s: Ring, ch: Choice)
    requires InSleep(s.c.pc)
    ensures WriterKept(s, Sleep(s, ch))
  {
  }

  /** The steps between two calls. */
  lemma QuietStep(s: Ring, ch: Choice)
    requires Enabled(s, ConsumerTakes(ch)) && !s.c.pc.Write? && !s.c.pc.CloseAll? && !(s.c.pc.AgeFlush? && ch.elapsed)
    ensures WriterKept(s, ConsumerStep(s, ch))
  {
    if InLoop(s.c.pc) {
      QuietLoop(s, ch);
    } else if InRelease(s.c.pc) {
      QuietRelease(s);
    } else if InStop(s.c.pc) {
      QuietStop(s, ch);
    } else {
      QuietSleep(s, ch);
    }
  }

  /** One step of the writer thread on its output set: it is a step of the ring, with the
      answer the set gives. */
  method WriterStep(out: OutputSet.OutputSet, s: Ring, elapsed: bool) returns (ch: Choice)
    requires Attached(out, s) && Ready(s) && CanMove(s)
    modifies out, out.audits, out.audits.Repr, out.books, out.books.Repr
    ensures Enabled(s, ConsumerTakes(ch)) && Attached(out, ConsumerStep(s, ch))
  {
    if s.c.pc.Write? {
      ch := WriteStep(out, s, elapsed);
    } else if s.c.pc.AgeFlush? && elapsed {
      ch := FlushStep(out, s);
    } else if s.c.pc.CloseAll? {
      ch := CloseStep(out, s, elapsed);
    } else {
      ch := Choice(s.c.out, elapsed);
      QuietStep(s, ch);
    }
  }

  // ------------------------------------------------------------- a whole capture

  lemma PerformKeepsWriter(act: Controller.Act, ring: Ring)
    requires Inv(ring) && (act.cmds == [] || ring.p.pc.Idle?)
    ensures WriterKept(ring, Perform(act, ring).ring)
  {
    if act.cmds != [] {
      IssueKeeps(ring, act.cmds);
    }
  }

  lemma ProducerKeepsWriter(s: Ring)
    requires Enabled(s, ProducerTakes)
    ensures WriterKept(s, ProducerStep(s))
  {
  }

  /** The I/O thread changes nothing the output set is compared with. */
  lemma IoKeepsWriter(env: Env, s: Sys, step: SysStep)
    requires Inv(s.ring) && SysEnabled(s, step) && !step.RingConsumer?
    ensures WriterKept(s.ring, SysApply(env, s, step).ring)
  {
    match step
    case Happens(e) => PerformKeepsWriter(Controller.React(s.c, s.ring, e), s.ring);
    case GoesOn =>
      var act := Controller.Continue(s.c, s.ring.p.pc.ret, Success(s.ring), Controller.Answer(env, s.c));
      PerformKeepsWriter(act, s.ring);
    case RingProducer => ProducerKeepsWriter(s.ring);
  }

  lemma {:induction false} RunAppends(env: Env, s: Sys, steps: seq<SysStep>, last: SysStep)
    requires SysLegal(env, s, steps) && SysEnabled(SysExecute(env, s, steps), last)
    ensures SysLegal(env, s, steps + [last])
    ensures SysExecute(env, s, steps + [last]) == SysApply(env, SysExecute(env, s, steps), last)
    decreases |steps|
  {
    var all := steps + [last];
    if steps == [] {
      assert all[1..] == [];
    } else {
      assert all[1..] == steps[1..] + [last];
      RunAppends(env, SysApply(env, s, steps[0]), steps[1..], last);
    }
  }

  lemma ReachableNext(env: Env, s: Sys, step: SysStep)
    requires Reachable(env, s) && SysEnabled(s, step)
    ensures Reachable(env, SysApply(env, s, step))
  {
    var init, steps :| SysInit(env, init) && SysLegal(env, init, steps) && s == SysExecute(env, init, steps);
    RunAppends(env, init, steps, step);
  }

  lemma ReachableStart(env: Env, s: Sys)
    requires EnvContract(env) && SysInit(env, s)
    ensures Reachable(env, s)
  {
    assert SysLegal(env, s, []) && SysExecute(env, s, []) == s;
  }

  /** The schedule decides who moves: the I/O thread with an event, a handler or a ring
      operation, or the writer thread, for which the flush interval or its wait may be over. */
  datatype Move = IoMove(step: SysStep) | WriterMove(elapsed: bool)

  /** One move, if it is possible. */
  method MoveOn(env: Env, out: OutputSet.OutputSet, s: Sys, move: Move) returns (r: Sys)
    requires Reachable(env, s) && Attached(out, s.ring)
    modifies out, out.audits, out.audits.Repr, out.books, out.books.Repr
    ensures Reachable(env, r) && Attached(out, r.ring)
  {
    ReachableSystem(env, s);
    r := s;
    match move
    case IoMove(step) =>
      if !step.RingConsumer? && SysEnabled(s, step) {
        IoKeepsWriter(env, s, step);
        ReachableNext(env, s, step);
        r := SysApply(env, s, step);
      }
    case WriterMove(elapsed) =>
      if CanMove(s.ring) {
        InvIsReady(s.ring);
        var ch := WriterStep(out, s.ring, elapsed);
        ReachableNext(env, s, RingConsumer(ch));
        r := SysApply(env, s, RingConsumer(ch));
      }
  }

  /** A live capture under any schedule.  Its files and its ring agree at all times. */
  method Capture(env: Env, out: OutputSet.OutputSet, init: Sys, moves: seq<Move>) returns (s: Sys)
    requires EnvContract(env) && SysInit(env, init) && NewSet(out)
    modifies out, out.audits, out.audits.Repr, out.books, out.books.Repr
    ensures Reachable(env, s) && Attached(out, s.ring)
  {
    ReachableStart(env, init);
    s := init;
    for i := 0 to |moves|
      invariant Reachable(env, s) && Attached(out, s.ring)
    {
      s := MoveOn(env, out, s, moves[i]);
    }
  }

  /** At a clean end every file is its header and the records handed over for it. */
  lemma CleanFiles(env: Env, s: Sys, out: OutputSet.OutputSet, k: nat)
    requires Reachable(env, s) && s.c.run.terminal && !s.c.run.error && Attached(out, s.ring) && k < |out.audits.sinks|
    ensures out.audits.sinks[k].file.contents == out.audits.sinks[k].header + AuditBytes(s.ring.handed, k)
    ensures out.books.sinks[k].file.contents
            == out.books.sinks[k].header + FileSink.Concat(BookRecords(s.ring.handed, k))
  {
    ReachableSystem(env, s);
    assert out.error.NoSetError? && out.closed;
    out.audits.ClosedIsComplete(k);
    out.books.ClosedIsComplete(k);
  }

  /** Replay of the audit file of a replayable symbol gives what its order-book file holds. */
  lemma CleanReplay(env: Env, s: Sys, out: OutputSet.OutputSet, k: nat)
    requires Reachable(env, s) && s.c.run.terminal && !s.c.run.error && Attached(out, s.ring)
    requires k < |out.audits.sinks| && out.audits.sinks[k].header == AUDIT_HEADER
    requires k < |env.symbols| && Replayable(env, s.c.feed.inputs, k)
    ensures var audit, r := out.audits.sinks[k].file.contents, ReplayBytes(env, out.audits.sinks[k].file.contents);
            && out.books.sinks[k].file.contents == out.books.sinks[k].header + FileSink.Concat(r.books)
            && r.end == if audit == AUDIT_HEADER then EmptyInput else ReplayOk
  {
    CleanFiles(env, s, out, k);
    HandedBooks(env, s, k);
    CaptureReplays(env, s, k);
  }

  /** The replay program on a file of these bytes. */
  method ReplayNewInput(env: Env, bytes: string, interruptions: nat) returns (r: Replay)
    ensures r == ReplayBytes(env, bytes) || r.end == InputError(ReadFailed)
  {
    var input := new ReplayReader.InputFile(bytes, interruptions);
    r := ReplayLoop.ReplayFile(env, input);
  }

  /** At the end of a capture without an error, in which the run is replayable for symbol k,
      the records r are those that follow the header in its order-book file. */
  ghost predicate Regenerated(env: Env, s: Sys, out: OutputSet.OutputSet, k: nat, r: Replay)
    requires k < |env.symbols| && k < |out.audits.sinks| && k < |out.books.sinks|
    reads out.audits.sinks[k].file, out.books.sinks[k].file
  {
    s.c.run.terminal && !s.c.run.error && Replayable(env, s.c.feed.inputs, k) ==>
      && out.books.sinks[k].file.contents == out.books.sinks[k].header + FileSink.Concat(r.books)
      && r.end == if out.audits.sinks[k].file.contents == AUDIT_HEADER then EmptyInput else ReplayOk
  }

  lemma CaptureRegenerates(env: Env, s: Sys, out: OutputSet.OutputSet, k: nat)
    requires Reachable(env, s) && Attached(out, s.ring) && k < |env.symbols|
    requires k < |out.audits.sinks| && out.audits.sinks[k].header == AUDIT_HEADER
    ensures Regenerated(env, s, out, k, ReplayBytes(env, out.audits.sinks[k].file.contents))
  {
    if s.c.run.terminal && !s.c.run.error && Replayable(env, s.c.feed.inputs, k) {
      CleanReplay(env, s, out, k);
    }
  }

  /** A live capture and then the replay program on the audit file of symbol k: unless a read
      fails, it regenerates the order-book file. */
  method CaptureAndReplay(env: Env, out: OutputSet.OutputSet, init: Sys, moves: seq<Move>, k: nat, interruptions: nat)
    returns (s: Sys, r: Replay)
    requires EnvContract(env) && SysInit(env, init) && NewSet(out) && k < |env.symbols|
    requires k < |out.audits.sinks| && out.audits.sinks[k].header == AUDIT_HEADER
    modifies out, out.audits, out.audits.Repr, out.books, out.books.Repr
    ensures Reachable(env, s)
    ensures r.end == InputError(ReadFailed) || Regenerated(env, s, out, k, r)
  {
    s := Capture(env, out, init, moves);
    CaptureRegenerates(env, s, out, k);
    r := ReplayNewInput(env, out.audits.sinks[k].file.contents, interruptions);
  }
}
