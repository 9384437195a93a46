/** What holds in every reachable state of a live capture: any events, any number of
    reconnects, and any interleaving of the I/O thread with the writer thread. */
module SystemTheorems {
  import opened Types
  import opened CsvFormat
  import opened LivePipeline
  import opened LiveReplay
  import opened WriterRing
  import opened WriterRingInvariants
  import opened WriterRingTheorems
  import opened RingRoom
  import opened Controller
  import opened System
  import opened SystemProofs
  import opened SystemSteps

  /** Each step is enabled in the state the earlier ones lead to. */
  predicate SysLegal(env: Env, s: Sys, steps: seq<SysStep>)
    decreases |steps|
  {
    steps == [] || (SysEnabled(s, steps[0]) && SysLegal(env, SysApply(env, s, steps[0]), steps[1..]))
  }

  function SysExecute(env: Env, s: Sys, steps: seq<SysStep>): Sys
    requires SysLegal(env, s, steps)
    decreases |steps|
  {
    if steps == [] then s else SysExecute(env, SysApply(env, s, steps[0]), steps[1..])
  }

  lemma {:induction false} SysRunKeeps(env: Env, s: Sys, steps: seq<SysStep>)
    requires EnvContract(env) && SysInv(env, s) && SysLegal(env, s, steps)
    ensures SysInv(env, SysExecute(env, s, steps))
    decreases |steps|
  {
    if steps != [] {
      SysStepKeeps(env, s, steps[0]);
      SysRunKeeps(env, SysApply(env, s, steps[0]), steps[1..]);
    }
  }

  /** A state some run of a live capture leads to. */
  ghost predicate Reachable(env: Env, s: Sys) {
    && EnvContract(env)
    && exists init, steps :: SysInit(env, init) && SysLegal(env, init, steps) && s == SysExecute(env, init, steps)
  }

  lemma ReachableSystem(env: Env, s: Sys)
    requires Reachable(env, s)
    ensures SysInv(env, s)
  {
    var init, steps :| SysInit(env, init) && SysLegal(env, init, steps) && s == SysExecute(env, init, steps);
    SysInitEstablishes(env, init);
    SysRunKeeps(env, init, steps);
  }

  // ------------------------------------------------------------------ capacity

  /** The producer is about to report, or has reported, this value. */
  predicate Reports(pc: ProducerPc, ret: Ret) {
    pc == Idle(ret) || pc == PubReject(ret)
  }

  lemma OperationReports(op: Operation, pc: ProducerPc, ret: Ret)
    requires InOperation(op, pc) && Reports(pc, ret)
    ensures Expected(ret)
  {
  }

  /** No acquire or publish of a live capture ever runs out of slots or bytes, and none is
      refused for a misused slot, a bad target or a bad batch. */
  lemma CapacityErrorsNeverOccur(env: Env, s: Sys, ret: Ret)
    requires Reachable(env, s) && Reports(s.ring.p.pc, ret)
    ensures ret != SlotCapacity && ret != ByteCapacity
    ensures ret != AlreadyAcquired && ret != NoAcquiredSlot && ret != InvalidTarget && ret != InvalidBatch
  {
    ReachableSystem(env, s);
    OperationReports(OpOf(s.c.pc), s.ring.p.pc, ret);
  }

  // ---------------------------------------------------------- connection metadata

  predicate LexLess(a: Message, b: Message) {
    a.epoch < b.epoch || (a.epoch == b.epoch && a.connSeq < b.connSeq)
  }

  /** The pipeline remembers the metadata of the last accepted message. */
  lemma MessageIsRemembered(env: Env, pl: Pipeline, msg: Message)
    requires ValidMetadata(pl, msg) && |msg.payload| <= MAX_PAYLOAD
    ensures var r := ProcessMessage(env, pl, msg).pl; r.observed && r.epoch == msg.epoch && r.connSeq == msg.connSeq
  {
  }

  /** Every delivered message is at or before the metadata the pipeline remembers. */
  predicate Remembers(pl: Pipeline, input: LiveInput) {
    input.Deliver? ==> pl.observed && LexAtMost(input.msg.epoch, input.msg.connSeq, pl.epoch, pl.connSeq)
  }

  /** The next input follows everything remembered, and is remembered with it. */
  predicate Follows(pl: Pipeline, input: LiveInput) {
    input.Deliver? ==> ValidMetadata(pl, input.msg) && |input.msg.payload| <= MAX_PAYLOAD
  }

  lemma ExtendRemembers(env: Env, t: Trace, last: LiveInput, x: LiveInput)
    requires Follows(t.pl, last) && (Remembers(t.pl, x) || x == last)
    ensures Remembers(Extend(env, t, last).pl, x)
    ensures Remembers(t.pl, x) && x.Deliver? && last.Deliver? ==> LexLess(x.msg, last.msg)
  {
    if last.Deliver? {
      MessageIsRemembered(env, t.pl, last.msg);
    }
  }

  lemma {:induction false} EverythingIsRemembered(env: Env, inputs: seq<LiveInput>, i: nat)
    requires Ordered(env, inputs) && i < |inputs|
    ensures Remembers(TraceOf(env, inputs).pl, inputs[i])
    decreases |inputs|
  {
    var front, last := inputs[..|inputs| - 1], inputs[|inputs| - 1];
    assert front + [last] == inputs;
    LastFollows(env, inputs);
    if i < |front| {
      EverythingIsRemembered(env, front, i);
      LastIsRemembered(env, front, last, front[i]);
    } else {
      LastIsRemembered(env, front, last, last);
    }
  }

  lemma LastFollows(env: Env, inputs: seq<LiveInput>)
    requires Ordered(env, inputs) && inputs != []
    ensures Ordered(env, inputs[..|inputs| - 1])
    ensures Follows(TraceOf(env, inputs[..|inputs| - 1]).pl, inputs[|inputs| - 1])
  {
  }

  lemma LastIsRemembered(env: Env, front: seq<LiveInput>, last: LiveInput, x: LiveInput)
    requires Follows(TraceOf(env, front).pl, last) && (Remembers(TraceOf(env, front).pl, x) || x == last)
    ensures Remembers(TraceOf(env, front + [last]).pl, x)
  {
    TraceAppends(env, front, last);
    ExtendRemembers(env, TraceOf(env, front), last, x);
  }

  lemma {:induction false} DeliveredIncreases(env: Env, inputs: seq<LiveInput>, i: nat, j: nat)
    requires Ordered(env, inputs) && i < j < |inputs| && inputs[i].Deliver? && inputs[j].Deliver?
    ensures LexLess(inputs[i].msg, inputs[j].msg)
    decreases |inputs|
  {
    var front := inputs[..|inputs| - 1];
    if j < |front| {
      DeliveredIncreases(env, front, i, j);
    } else {
      EverythingIsRemembered(env, front, i);
      ExtendRemembers(env, TraceOf(env, front), inputs[j], inputs[i]);
    }
  }

  /** Messages reach the pipeline with strictly increasing (epoch, sequence), over
      reconnects, failed attempts and stale callbacks. */
  lemma MetadataIncreases(env: Env, s: Sys, i: nat, j: nat)
    requires Reachable(env, s) && i < j < |s.c.feed.inputs|
    requires s.c.feed.inputs[i].Deliver? && s.c.feed.inputs[j].Deliver?
    ensures LexLess(s.c.feed.inputs[i].msg, s.c.feed.inputs[j].msg)
  {
    ReachableSystem(env, s);
    DeliveredIncreases(env, s.c.feed.inputs, i, j);
  }

  /** Neither the pipeline's metadata check nor the processor's context check rejects the
      message in hand, and the only fatal answer is a symbol out of sequence numbers. */
  lemma MetadataIsAccepted(env: Env, s: Sys)
    requires Reachable(env, s) && s.c.pc.Acquiring?
    ensures ValidMetadata(s.c.feed.pl, s.c.pc.msg)
    ensures var res := Answer(env, s.c);
            res.disposition.Fatal? ==> && res.disposition == Fatal(EventFailed) && res.target < |s.c.feed.pl.states|
                                       && s.c.feed.pl.states[res.target].seqNo == U64_MAX
  {
    ReachableSystem(env, s);
    AnswerIsGood(env, s.c);
  }

  /** A session that is open carries the number of successful connections before it. */
  lemma EpochsCountConnections(env: Env, s: Sys)
    requires Reachable(env, s) && PhaseIs(s.c.net.session, Open)
    ensures s.c.net.session.s.epoch == s.c.metrics.connections - 1
  {
    ReachableSystem(env, s);
  }

  /** A capture that has not failed has seen fewer than three message policy failures since
      its last published batch, and it ends without an error only after a stop was
      requested and with a successful writer. */
  lemma OnlyStopEndsCleanly(env: Env, s: Sys)
    requires Reachable(env, s)
    ensures !s.c.run.failureLatched ==> s.c.run.policyFailures < POLICY_LIMIT
    ensures s.c.run.terminal && !s.c.run.error ==> s.c.run.stopRequested && Success(s.ring) && s.ring.c.pc.Exited?
  {
    ReachableSystem(env, s);
  }

  // ------------------------------------------------------------------ accounting

  /** Every complete message is published, rejected before audit, in hand, or the single one
      lost to the latched failure; every processed event is in one of the nine counters. */
  lemma MessagesAreAccounted(env: Env, s: Sys)
    requires Reachable(env, s)
    ensures var m := s.c.metrics;
            && m.complete == m.published + m.preAudit + m.lost + One(InMessage(s.c.pc))
            && m.lost <= 1 && (m.lost == 1 ==> s.c.run.failureLatched)
            && m.processed == SumOf(m.outcomes) && |m.outcomes| == OUTCOME_COUNT
            && m.published + One(s.c.pc.Publishing? || s.c.pc.PublishDenied?) <= m.processed
            && m.processed <= m.published + One(s.c.pc.Publishing? || s.c.pc.PublishDenied?) + m.lost
  {
    ReachableSystem(env, s);
  }

  lemma {:induction false} EveryBatchHasAudit(log: seq<Slot>, targets: nat, k: nat)
    requires GoodLog(log, targets) && k <= |log|
    ensures Total(SlotAudit, log, k) == k
  {
    if k != 0 {
      EveryBatchHasAudit(log, targets, k - 1);
    }
  }

  lemma AuditRowsArePublished(s: Ring)
    requires Core(s) && WriterRingInvariants.Rows(s)
    ensures s.p.auditRows == s.p.seq_
  {
    EveryBatchHasAudit(s.log, s.targets, |s.log|);
  }

  /** The equalities of a successful live run: every complete message became an audit row or
      was rejected before audit, and every row is in its file. */
  lemma SuccessfulRunBalances(env: Env, s: Sys)
    requires Reachable(env, s) && s.c.run.terminal && !s.c.run.error
    ensures s.c.metrics.complete == s.ring.p.auditRows + s.c.metrics.preAudit
    ensures s.ring.p.auditRows == s.ring.c.out.auditWritten && s.ring.p.bookRows == s.ring.c.out.bookWritten
    ensures s.ring.c.auditUnwritten == 0 && s.ring.c.bookUnwritten == 0
    ensures s.c.metrics.processed == s.c.metrics.published == s.ring.p.auditRows
  {
    ReachableSystem(env, s);
    AtTheEnd(s.c, s.ring);
    ExitAccounting(s.ring);
    AuditRowsArePublished(s.ring);
  }

  lemma AtTheEnd(c: Ctl, ring: Ring)
    requires Shape(c) && Account(c) && Counted(c, ring) && c.run.terminal && !c.run.error
    ensures c.metrics.lost == 0 && !InMessage(c.pc) && !c.pc.PublishDenied? && ring.p.seq_ == c.metrics.published
  {
  }

  // -------------------------------------------------------------------- resuming

  /** Both threads have nothing left to do on their own. */
  predicate Quiet(s: Sys) {
    s.c.pc.AtRest? && s.ring.p.pc.Idle? && (s.ring.c.pc == Waiting(false) || s.ring.c.pc.Exited?)
  }

  lemma QuietIsDrained(s: Ring)
    requires Inv(s) && s.p.pc.Idle? && (s.c.pc == Waiting(false) || s.c.pc.Exited?)
    ensures !s.sh.armed && Room(s) && Below(s)
  {
  }

  lemma QuietHears(c: Ctl, ring: Ring)
    requires Waits(c, ring) && c.pc.AtRest? && !ring.sh.armed && !ring.c.pc.LatchSent?
    requires c.run.readsPaused && !c.run.failureLatched
    ensures c.run.handled < Posts(ring)
  {
  }

  lemma CallbackIsPending(env: Env, s: Sys)
    requires Reachable(env, s) && Quiet(s) && s.c.run.readsPaused && !s.c.run.failureLatched
    ensures |s.ring.slots| == SLOT_COUNT && s.c.run.handled < Posts(s.ring)
  {
    ReachableSystem(env, s);
    QuietIsDrained(s.ring);
    QuietHears(s.c, s.ring);
  }

  /** A paused capture is never stuck: when both threads have come to rest, a writer
      callback is waiting for the I/O thread. */
  lemma PausedIsNeverStuck(env: Env, s: Sys)
    requires Reachable(env, s) && Quiet(s) && s.c.run.readsPaused && !s.c.run.failureLatched
    ensures SysEnabled(s, Happens(ResumePosted))
  {
    CallbackIsPending(env, s);
  }

  /** The six steps of the I/O thread that handle a resume callback. */
  const RESUMING := [Happens(ResumePosted), RingProducer, GoesOn, RingProducer, RingProducer, GoesOn]

  predicate Bounded(s: Ring) {
    && |s.slots| == SLOT_COUNT && s.sh.released <= s.p.seq_ && s.sh.bytesReleased <= s.p.bytes
    && s.sh.released <= U64_MAX && s.sh.bytesReleased <= U64_MAX && s.c.seq_ <= U64_MAX && s.c.bytes <= U64_MAX
  }

  /** These steps can be taken, and then the reads go on. */
  ghost predicate LeadsToReads(env: Env, s: Sys, steps: seq<SysStep>) {
    && SysLegal(env, s, steps)
    && var c := SysExecute(env, s, steps).c;
       !c.run.readsPaused && (PhaseIs(s.c.net.session, Open) ==> Reads(c))
  }

  lemma StepLeadsToReads(env: Env, s: Sys, step: SysStep, rest: seq<SysStep>)
    requires SysEnabled(s, step) && var r := SysApply(env, s, step);
             LeadsToReads(env, r, rest) && r.c.net.session == s.c.net.session
    ensures LeadsToReads(env, s, [step] + rest)
  {
    assert ([step] + rest)[1..] == rest;
  }

  /** The controller waits for the answer of this query, in a drained ring. */
  predicate Querying(s: Sys, pc: CtlPc, at: ProducerPc) {
    && s.c.pc == pc && s.c.run.readsPaused && s.ring.p.pc == at
    && Bounded(s.ring) && Below(s.ring) && !s.ring.sh.failed
    && (at.BelowLoadBytes? ==> s.ring.p.seen == s.ring.sh.released)
  }

  /** From every such state these steps can be taken, and then the reads go on. */
  ghost predicate Resumes(env: Env, pc: CtlPc, at: ProducerPc, steps: seq<SysStep>) {
    forall s :: Querying(s, pc, at) ==> LeadsToReads(env, s, steps)
  }

  lemma MeasuredResumes(env: Env)
    ensures Resumes(env, ResumeMeasuring, Idle(Flag(true)), [GoesOn])
  {
    forall s | Querying(s, ResumeMeasuring, Idle(Flag(true))) ensures LeadsToReads(env, s, [GoesOn]) {
      MeasuredReads(env, s);
      assert [GoesOn][1..] == [];
    }
  }

  lemma MeasuredReads(env: Env, s: Sys)
    requires Querying(s, ResumeMeasuring, Idle(Flag(true)))
    ensures SysEnabled(s, GoesOn)
    ensures var c := SysApply(env, s, GoesOn).c; !c.run.readsPaused && (PhaseIs(s.c.net.session, Open) ==> Reads(c))
  {
  }

  lemma LoadsBytes(env: Env, s: Sys)
    requires Querying(s, ResumeMeasuring, BelowLoadBytes)
    ensures SysEnabled(s, RingProducer)
    ensures var r := SysApply(env, s, RingProducer); Querying(r, ResumeMeasuring, Idle(Flag(true))) && r.c == s.c
  {
  }

  lemma SecondLoadResumes(env: Env, rest: seq<SysStep>)
    requires Resumes(env, ResumeMeasuring, Idle(Flag(true)), rest)
    ensures Resumes(env, ResumeMeasuring, BelowLoadBytes, [RingProducer] + rest)
  {
    forall s | Querying(s, ResumeMeasuring, BelowLoadBytes) ensures LeadsToReads(env, s, [RingProducer] + rest) {
      LoadsBytes(env, s);
      StepLeadsToReads(env, s, RingProducer, rest);
    }
  }

  lemma LoadsReleased(env: Env, s: Sys)
    requires Querying(s, ResumeMeasuring, BelowLoadReleased)
    ensures SysEnabled(s, RingProducer)
    ensures var r := SysApply(env, s, RingProducer); Querying(r, ResumeMeasuring, BelowLoadBytes) && r.c == s.c
  {
  }

  lemma FirstLoadResumes(env: Env, rest: seq<SysStep>)
    requires Resumes(env, ResumeMeasuring, BelowLoadBytes, rest)
    ensures Resumes(env, ResumeMeasuring, BelowLoadReleased, [RingProducer] + rest)
  {
    forall s | Querying(s, ResumeMeasuring, BelowLoadReleased) ensures LeadsToReads(env, s, [RingProducer] + rest) {
      LoadsReleased(env, s);
      StepLeadsToReads(env, s, RingProducer, rest);
    }
  }

  lemma GoesOnToMeasure(env: Env, s: Sys)
    requires Querying(s, ResumeChecking, Idle(Flag(false)))
    ensures SysEnabled(s, GoesOn)
    ensures var r := SysApply(env, s, GoesOn);
            Querying(r, ResumeMeasuring, BelowLoadReleased) && r.c.net.session == s.c.net.session
  {
    IssueOne(s.ring, BelowResume);
  }

  lemma NotFailedResumes(env: Env, rest: seq<SysStep>)
    requires Resumes(env, ResumeMeasuring, BelowLoadReleased, rest)
    ensures Resumes(env, ResumeChecking, Idle(Flag(false)), [GoesOn] + rest)
  {
    forall s | Querying(s, ResumeChecking, Idle(Flag(false))) ensures LeadsToReads(env, s, [GoesOn] + rest) {
      GoesOnToMeasure(env, s);
      StepLeadsToReads(env, s, GoesOn, rest);
    }
  }

  lemma QueryAnswers(env: Env, s: Sys)
    requires Querying(s, ResumeChecking, FailedLoad)
    ensures SysEnabled(s, RingProducer)
    ensures var r := SysApply(env, s, RingProducer);
            Querying(r, ResumeChecking, Idle(Flag(false))) && r.c == s.c
  {
  }

  lemma CheckResumes(env: Env, rest: seq<SysStep>)
    requires Resumes(env, ResumeChecking, Idle(Flag(false)), rest)
    ensures Resumes(env, ResumeChecking, FailedLoad, [RingProducer] + rest)
  {
    forall s | Querying(s, ResumeChecking, FailedLoad) ensures LeadsToReads(env, s, [RingProducer] + rest) {
      QueryAnswers(env, s);
      StepLeadsToReads(env, s, RingProducer, rest);
    }
  }

  lemma CallbackChecks(env: Env, s: Sys)
    requires Shape(s.c) && Bounded(s.ring) && Below(s.ring) && !s.ring.sh.failed
    requires s.c.pc.AtRest? && s.ring.p.pc.Idle? && s.c.run.readsPaused && s.c.run.handled < Posts(s.ring)
    ensures SysEnabled(s, Happens(ResumePosted))
    ensures var r := SysApply(env, s, Happens(ResumePosted));
            Querying(r, ResumeChecking, FailedLoad) && r.c.net.session == s.c.net.session
  {
    IssueOne(s.ring, Failed);
  }

  lemma CallbackResumes(env: Env, s: Sys, rest: seq<SysStep>)
    requires Shape(s.c) && Bounded(s.ring) && Below(s.ring) && !s.ring.sh.failed
    requires s.c.pc.AtRest? && s.ring.p.pc.Idle? && s.c.run.readsPaused && s.c.run.handled < Posts(s.ring)
    requires Resumes(env, ResumeChecking, FailedLoad, rest)
    ensures LeadsToReads(env, s, [Happens(ResumePosted)] + rest)
  {
    CallbackChecks(env, s);
    StepLeadsToReads(env, s, Happens(ResumePosted), rest);
  }

  /** The steps after the callback has been taken, last one first. */
  lemma QueriesResume(env: Env)
    ensures Resumes(env, ResumeChecking, FailedLoad, [RingProducer, GoesOn, RingProducer, RingProducer, GoesOn])
  {
    MeasuredResumes(env);
    SecondLoadResumes(env, [GoesOn]);
    FirstLoadResumes(env, [RingProducer] + [GoesOn]);
    NotFailedResumes(env, [RingProducer] + ([RingProducer] + [GoesOn]));
    CheckResumes(env, [GoesOn] + ([RingProducer] + ([RingProducer] + [GoesOn])));
    assert [RingProducer] + ([GoesOn] + ([RingProducer] + ([RingProducer] + [GoesOn])))
        == [RingProducer, GoesOn, RingProducer, RingProducer, GoesOn];
  }

  lemma QuietFacts(env: Env, s: Sys)
    requires Reachable(env, s) && Quiet(s) && s.ring.c.pc.Waiting?
    ensures Shape(s.c) && Bounded(s.ring) && Below(s.ring) && !s.ring.sh.failed
  {
    ReachableSystem(env, s);
    InvBoundsCounters(s.ring);
    QuietIsDrained(s.ring);
  }

  /** Handling that callback when both threads are at rest resumes the reads: the writer has
      not failed and has drained the ring. */
  lemma PausedCaptureResumes(env: Env, s: Sys)
    requires Reachable(env, s) && Quiet(s) && s.ring.c.pc.Waiting? && s.c.run.readsPaused && !s.c.run.failureLatched
    ensures LeadsToReads(env, s, RESUMING)
  {
    CallbackIsPending(env, s);
    QuietFacts(env, s);
    QueriesResume(env);
    CallbackResumes(env, s, [RingProducer, GoesOn, RingProducer, RingProducer, GoesOn]);
    assert RESUMING == [Happens(ResumePosted)] + [RingProducer, GoesOn, RingProducer, RingProducer, GoesOn];
  }
}
