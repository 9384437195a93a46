/** Why a live capture refuses a message, ends or fails: every refusal of the writer, every
    latched failure and every end has a cause, and without one the capture goes on. */
module CaptureHealth {
  import opened Types
  import opened CsvFormat
  import opened LivePipeline
  import opened WriterRing
  import opened WriterRingInvariants
  import opened WriterRingTheorems
  import opened RingRoom
  import opened WriterProgress
  import opened Controller
  import opened System
  import opened SystemSteps
  import opened SystemTheorems

  // ------------------------------------------------------- what the writer refuses

  /** One more batch would overflow a 64-bit counter. */
  predicate Overflows(s: Ring, b: Batch) {
    s.p.seq_ >= U64_MAX || s.p.bytes + BatchBytes(b) > U64_MAX
  }

  /** A refusal that is being reported, or was reported last, has its cause. */
  predicate RefusalHasCause(op: Operation, s: Ring) {
    && (Reports(s.p.pc, AcquireClosed) || Reports(s.p.pc, PublishClosed) ==> s.sh.closeRequested)
    && (Reports(s.p.pc, AcquireFailed) || Reports(s.p.pc, PublishFailed) ==> s.sh.failed)
    && (op.Publication? && Reports(s.p.pc, CounterOverflow) ==> Overflows(s, op.batch))
    && (op.FailedQuery? && s.p.pc == Idle(Flag(true)) ==> s.sh.failed)
    && (s.p.pc.CloseLock? || s.p.pc.CloseNotify? || s.p.pc.JoinWait? ==> s.sh.closeRequested)
  }

  lemma PublishCheckKeepsCause(op: Operation, s: Ring)
    requires OperationOk(op, s) && RefusalHasCause(op, s) && InPublishCheck(s.p.pc)
    ensures RefusalHasCause(op, PublishCheck(s))
  {
  }

  /** At the commit point the only refusal left is an overflow of a counter. */
  lemma VerdictAtCommit(op: Operation, s: Ring)
    requires Counters(s) && Bytes(s) && OperationOk(op, s) && s.p.pc.PubLoadReleased? && s.sh.bytesReleased <= U64_MAX
    ensures op.Publication?
    ensures CommitVerdict(s) == if Overflows(s, op.batch) then CounterOverflow else Published
  {
    RoomMeansNoCapacityError(s);
  }

  lemma PublishCommitKeepsCause(op: Operation, s: Ring)
    requires |s.slots| == SLOT_COUNT && s.p.pc.PubLoadReleased? && s.sh.bytesReleased <= U64_MAX && op.Publication?
    requires CommitVerdict(s) == if Overflows(s, op.batch) then CounterOverflow else Published
    ensures RefusalHasCause(op, PublishCommit(s))
  {
  }

  lemma PublishStoreKeepsCause(op: Operation, s: Ring)
    requires InPublishStore(s.p.pc)
    ensures RefusalHasCause(op, PublishStore(s))
  {
  }

  lemma AcquireOrCloseKeepsCause(op: Operation, s: Ring)
    requires Enabled(s, ProducerTakes) && InAcquireOrClose(s.p.pc) && RefusalHasCause(op, s)
    ensures RefusalHasCause(op, AcquireOrClose(s))
  {
  }

  lemma ObserveKeepsCause(op: Operation, s: Ring)
    requires OperationOk(op, s) && InObserve(s.p.pc)
    ensures RefusalHasCause(op, Observe(s))
  {
  }

  lemma ProducerKeepsCause(op: Operation, s: Ring)
    requires Counters(s) && Bytes(s) && OperationOk(op, s) && RefusalHasCause(op, s) && Enabled(s, ProducerTakes)
    ensures RefusalHasCause(op, ProducerStep(s))
  {
    if InPublishCheck(s.p.pc) {
      PublishCheckKeepsCause(op, s);
    } else if s.p.pc.PubLoadReleased? {
      VerdictAtCommit(op, s);
      PublishCommitKeepsCause(op, s);
    } else if InPublishStore(s.p.pc) {
      PublishStoreKeepsCause(op, s);
    } else if InAcquireOrClose(s.p.pc) {
      AcquireOrCloseKeepsCause(op, s);
    } else {
      ObserveKeepsCause(op, s);
    }
  }

  lemma ConsumerKeepsCause(op: Operation, s: Ring, ch: Choice)
    requires Counters(s) && Bytes(s) && RefusalHasCause(op, s) && Enabled(s, ConsumerTakes(ch))
    ensures RefusalHasCause(op, ConsumerStep(s, ch))
  {
    ConsumerStepLeaves(s, ch);
  }

  /** Commands report nothing of their own but misuse, which does not occur. */
  predicate Repeats(before: ProducerPc, after: ProducerPc) {
    && !after.PubReject? && !after.CloseLock? && !after.CloseNotify? && !after.JoinWait?
    && (after.Idle? ==> after == before || after.ret.Done? || after.ret.AlreadyAcquired? || after.ret.NoAcquiredSlot?)
  }

  lemma {:induction false} IssueRepeats(ring: Ring, cmds: seq<Command>)
    requires |ring.slots| == SLOT_COUNT && ring.p.pc.Idle?
    ensures var r := Issue(ring, cmds);
            Repeats(ring.p.pc, r.p.pc) && r.sh == ring.sh && r.p.seq_ == ring.p.seq_ && r.p.bytes == ring.p.bytes
    decreases |cmds|
  {
    if cmds != [] {
      var next := Start(ring, cmds[0]);
      assert Repeats(ring.p.pc, next.p.pc);
      if next.p.pc.Idle? {
        IssueRepeats(next, cmds[1..]);
      }
    }
  }

  // ------------------------------------------------------------ what the writer answers

  /** should_pause answers whether three quarters of the slots or of the bytes were in use,
      as loaded. */
  lemma PauseAnswer(s: Ring)
    requires Counters(s) && Bytes(s) && NoLostResume(s) && s.p.pc.PauseLoadBytes?
    ensures Observe(s).p.pc == Idle(Flag(|| 4 * (s.p.seq_ - s.p.seen) >= 3 * SLOT_COUNT
                                         || 4 * (s.p.bytes - s.sh.bytesReleased) >= 3 * BYTE_CAPACITY))
  {
    InvBoundsCounters(s);
  }

  /** below_resume_watermark answers whether less than half of both was. */
  lemma ResumeAnswer(s: Ring)
    requires Counters(s) && Bytes(s) && NoLostResume(s) && s.p.pc.BelowLoadBytes?
    ensures Observe(s).p.pc == Idle(Flag(&& 2 * (s.p.seq_ - s.p.seen) < SLOT_COUNT
                                         && 2 * (s.p.bytes - s.sh.bytesReleased) < BYTE_CAPACITY))
  {
    InvBoundsCounters(s);
  }

  // ---------------------------------------------------- sessions and what ends them

  /** A capture whose end has not started has a session or an armed reconnect timer. */
  predicate HasSession(c: Ctl) {
    !c.run.terminalStarted ==> c.net.session.Current? || c.net.reconnectArmed
  }

  /** Does this end of the session fail the capture?  The third message policy failure in a
      row does.  While stopping only an unrecoverable end does; otherwise also a clean close,
      a cancellation or a failed close, and every end when the epochs are used up. */
  predicate BadEnd(c: Ctl, code: EndCode) {
    || c.run.policyFailures + (if code.BinaryMessage? || code.MessageTooBig? then 1 else 0) >= 3
    || code.Unrecoverable?
    || (!c.run.stopRequested
        && (code.CleanClose? || code.Cancelled? || code.CloseStageFailed? || c.net.epochExhausted))
  }

  /** What the end of a session leads to: a bad end latches a failure; a bad end or a stop
      request starts the end of the run; any other end arms the reconnect timer. */
  lemma EndDecides(c: Ctl, code: EndCode)
    ensures var d := SessionEnded(c, code).ctl;
            && d.net.session.NoSession? && !d.run.readsPaused
            && (d.run.failureLatched <==> c.run.failureLatched || BadEnd(c, code))
            && (d.run.error <==> c.run.error || (!c.run.failureLatched && BadEnd(c, code)))
            && (d.net.reconnectArmed <==> !c.run.stopRequested && !d.run.failureLatched)
            && (d.run.terminalStarted <==> c.run.terminalStarted || c.run.stopRequested || d.run.failureLatched)
            && (d.pc.Joining? <==> d.run.terminalStarted && !c.run.terminalStarted)
            && d.run.policyFailures
               == c.run.policyFailures + (if code.BinaryMessage? || code.MessageTooBig? then 1 else 0)
  {
  }

  lemma FailKeepsSession(c: Ctl)
    requires HasSession(c)
    ensures HasSession(Fail(c).ctl)
  {
  }

  lemma ReactKeepsSession(c: Ctl, ring: Ring, e: Event)
    requires Shape(c) && HasSession(c) && EventEnabled(c, ring, e)
    ensures HasSession(React(c, ring, e).ctl)
  {
  }

  lemma AcquiredKeepsSession(c: Ctl, res: PipelineResult)
    requires HasSession(c) && c.pc.Acquiring?
    ensures HasSession(OnAcquired(c, c.pc.msg, res).ctl)
  {
    FailKeepsSession(Losing(Delivered(c, c.pc.msg, res)));
  }

  lemma ContinueKeepsSession(c: Ctl, ret: Ret, writerOk: bool, res: PipelineResult)
    requires HasSession(c) && !c.pc.AtRest?
    ensures HasSession(Continue(c, ret, writerOk, res).ctl)
  {
    match c.pc
    case Acquiring(_) => AcquiredKeepsSession(c, res);
    case AcquireDenied => FailKeepsSession(Losing(c));
    case PublishDenied => FailKeepsSession(Losing(c));
    case ResumeChecking => FailKeepsSession(c);
    case TimeoutChecking => FailKeepsSession(c);
    case Publishing(_) =>
    case OpenChecking =>
    case OpenArming =>
    case MessageChecking =>
    case MessageArming =>
    case ResumeMeasuring =>
    case ResumeArming =>
    case Joining =>
  }

  /** A complete text message of an open session is numbered with the session's epoch and its
      next sequence number and asks for a slot, unless a failure is latched or the run is over;
      the number after the last one ends the session. */
  lemma TextIsNumbered(c: Ctl, ts: Timestamp, payload: string)
    requires PhaseIs(c.net.session, Open)
    ensures var a, s := OnReadText(c, ts, payload), c.net.session.s;
            if s.connSeq == U64_MAX then a == SessionEnded(c, Unrecoverable)
            else && PhaseIs(a.ctl.net.session, Open) && a.ctl.net.session.s.connSeq == s.connSeq + 1
                 && a.ctl.net.session.s.epoch == s.epoch
                 && (if c.run.terminal || c.run.failureLatched then a.cmds == [] && a.ctl.metrics == c.metrics
                     else && a.cmds == [TryAcquire]
                          && a.ctl.pc == Acquiring(Message(ts, s.epoch, s.connSeq + 1, payload))
                          && a.ctl.metrics.complete == c.metrics.complete + 1)
  {
  }

  /** A connection counts, uses up its epoch and is asked to pause when it must; when a stop has
      been requested it is closed at once. */
  lemma OpenDecides(c: Ctl)
    requires PhaseIs(c.net.session, Connecting)
    ensures var a := OnOpen(c);
            && a.ctl.metrics.connections == c.metrics.connections + 1
            && (if c.net.nextEpoch == U64_MAX then a.ctl.net.epochExhausted && a.ctl.net.nextEpoch == U64_MAX
                else a.ctl.net.nextEpoch == c.net.nextEpoch + 1 && a.ctl.net.epochExhausted == c.net.epochExhausted)
            && (if c.run.stopRequested then PhaseIs(a.ctl.net.session, Closing) && a.ctl.pc.AtRest? && a.cmds == []
                else PhaseIs(a.ctl.net.session, Open) && a.ctl.pc.OpenChecking? && a.cmds == [ShouldPause])
  {
  }

  /** What the reconnect timer does: a timer error fails the run; otherwise a stop request ends
      it; otherwise exhausted generations or a failed creation fail it; otherwise it connects. */
  lemma TimerDecides(c: Ctl, failed: bool, created: bool)
    requires !c.run.terminal && !c.run.terminalStarted
    ensures var d := OnReconnect(c, failed, created).ctl;
            var bad := failed || (!c.run.stopRequested && (c.net.generation == U64_MAX || !created));
            && !d.net.reconnectArmed && (d.run.failureLatched <==> c.run.failureLatched || bad)
            && (d.run.error <==> c.run.error || bad) && (d.pc.Joining? <==> bad || c.run.stopRequested || c.pc.Joining?)
            && (!bad && !c.run.stopRequested ==> PhaseIs(d.net.session, Connecting))
  {
  }

  /** What fails a capture that has not failed or ended: a denied message, which is lost with it,
      a backpressure timeout, and a callback that finds the writer failed. */
  lemma DenialFails(c: Ctl, ret: Ret, writerOk: bool, res: PipelineResult)
    requires !c.run.failureLatched && !c.run.terminal
    requires || c.pc.AcquireDenied? || c.pc.PublishDenied? || c.pc.TimeoutChecking?
             || (c.pc.ResumeChecking? && ret == Flag(true))
    ensures var d := Continue(c, ret, writerOk, res).ctl;
            && d.run.failureLatched && d.run.error
            && d.metrics.lost == c.metrics.lost + if c.pc.AcquireDenied? || c.pc.PublishDenied? then 1 else 0
  {
  }

  /** A stop request or a failure ends a session that is still connecting, and the run with it;
      an open session starts its close handshake; without a session the end of the run starts
      at once. */
  ghost predicate Stops(c: Ctl, a: Act) {
    match c.net.session
    case NoSession => a.ctl.run.terminalStarted && a.ctl.pc.Joining? && a.cmds == [Command.Join]
    case Current(s) =>
      if s.phase.Connecting?
      then a.ctl.net.session.NoSession? && a.ctl.run.terminalStarted && a.ctl.pc.Joining? && a.cmds == [Command.Join]
      else PhaseIs(a.ctl.net.session, Closing) && a.cmds == []
  }

  lemma StopTakesEffect(c: Ctl)
    requires c.run.stopRequested && !c.run.terminal && !c.run.terminalStarted
    ensures Stops(c, OnStop(c)) && !OnStop(c).ctl.net.reconnectArmed
  {
  }

  lemma FailTakesEffect(c: Ctl)
    requires !c.run.failureLatched && !c.run.terminal && !c.run.terminalStarted
    ensures Stops(c, Fail(c)) && Fail(c).ctl.run.failureLatched && Fail(c).ctl.run.error
  {
  }

  /** The count of message policy failures in a row: an end with such a code adds one, a
      published batch starts it again, and nothing else changes it. */
  predicate PolicyEnd(c: Ctl, e: Event) {
    match e
    case ConnectFailed(code) => code.BinaryMessage? || code.MessageTooBig?
    case CloseDone(code) => code.BinaryMessage? || code.MessageTooBig?
    case ReadEnded(code) => PhaseIs(c.net.session, Open) && (code.BinaryMessage? || code.MessageTooBig?)
    case _ => false
  }

  lemma EventCountsPolicy(c: Ctl, ring: Ring, e: Event)
    requires EventEnabled(c, ring, e)
    ensures React(c, ring, e).ctl.run.policyFailures == c.run.policyFailures + if PolicyEnd(c, e) then 1 else 0
  {
    match e
    case ConnectFailed(_) =>
    case ReadEnded(_) =>
    case CloseDone(_) =>
    case ReconnectTimer(_, _) =>
    case ReadText(_, _) =>
    case StopOnIo =>
    case OpenEvent =>
    case StaleCallback =>
    case ResumePosted =>
    case BackpressureTimeout =>
    case StopRequest =>
  }

  predicate SamePolicy(c: Ctl, d: Ctl) {
    d.run.policyFailures == c.run.policyFailures && d.metrics.published == c.metrics.published
  }

  lemma FailKeepsPolicyCount(c: Ctl)
    ensures SamePolicy(c, Fail(c).ctl)
  {
  }

  lemma AcquiredKeepsPolicyCount(c: Ctl, res: PipelineResult)
    requires c.pc.Acquiring?
    ensures SamePolicy(c, OnAcquired(c, c.pc.msg, res).ctl)
  {
    FailKeepsPolicyCount(Losing(Delivered(c, c.pc.msg, res)));
  }

  lemma PublishedForgets(c: Ctl, ret: Ret, writerOk: bool, res: PipelineResult)
    requires !c.pc.AtRest?
    ensures var d := Continue(c, ret, writerOk, res).ctl;
            if c.pc.Publishing? && ret == Published
            then d.run.policyFailures == 0 && d.metrics.published == c.metrics.published + 1
            else SamePolicy(c, d)
  {
    match c.pc
    case Acquiring(_) => AcquiredKeepsPolicyCount(c, res);
    case AcquireDenied => FailKeepsPolicyCount(Losing(c));
    case PublishDenied => FailKeepsPolicyCount(Losing(c));
    case ResumeChecking => FailKeepsPolicyCount(c);
    case TimeoutChecking => FailKeepsPolicyCount(c);
    case Publishing(_) =>
    case OpenChecking =>
    case OpenArming =>
    case MessageChecking =>
    case MessageArming =>
    case ResumeMeasuring =>
    case ResumeArming =>
    case Joining =>
  }

  // ------------------------------------------------------------- every reachable state

  /** The counters leave no room for one more batch of two records. */
  predicate NearOverflow(s: Ring) {
    s.p.seq_ >= U64_MAX || s.p.bytes + 2 * MAX_RECORD > U64_MAX
  }

  /** A message was denied a slot, or its publication, only by a failed writer or by counters
      at their end. */
  predicate DenialHasCause(c: Ctl, ring: Ring) {
    && (c.pc.AcquireDenied? ==> ring.sh.failed)
    && (c.pc.PublishDenied? ==> ring.sh.failed || NearOverflow(ring))
  }

  predicate Explained(s: Sys) {
    RefusalHasCause(OpOf(s.c.pc), s.ring) && DenialHasCause(s.c, s.ring) && HasSession(s.c)
  }

  /** Where the controller comes from when it has been denied, or publishes. */
  lemma EventsDenyNothing(c: Ctl, ring: Ring, e: Event)
    requires EventEnabled(c, ring, e) && c.pc.AtRest?
    ensures var pc := React(c, ring, e).ctl.pc; !pc.AcquireDenied? && !pc.PublishDenied? && !pc.Publishing?
  {
  }

  lemma DenialsFollow(c: Ctl, ret: Ret, writerOk: bool, res: PipelineResult)
    requires !c.pc.AtRest?
    ensures var pc := Continue(c, ret, writerOk, res).ctl.pc;
            && (OpOf(pc).FailedQuery? ==> Continue(c, ret, writerOk, res).cmds == [Failed])
            && (pc.AcquireDenied? ==> c.pc.Acquiring? && ret != Acquired)
            && (pc.PublishDenied? ==> c.pc.Publishing? && ret != Published)
            && (pc.Publishing? ==> c.pc.Acquiring? && ret == Acquired)
  {
    match c.pc
    case Acquiring(_) =>
    case AcquireDenied =>
    case PublishDenied =>
    case ResumeChecking =>
    case TimeoutChecking =>
    case Publishing(_) =>
    case OpenChecking =>
    case OpenArming =>
    case MessageChecking =>
    case MessageArming =>
    case ResumeMeasuring =>
    case ResumeArming =>
    case Joining =>
  }

  lemma EventKeepsExplained(env: Env, s: Sys, e: Event)
    requires Shape(s.c) && Explained(s) && SysEnabled(s, Happens(e))
    ensures Explained(SysApply(env, s, Happens(e)))
  {
    var a := React(s.c, s.ring, e);
    ReactKeepsSession(s.c, s.ring, e);
    if !e.StopRequest? {
      EventsDenyNothing(s.c, s.ring, e);
      EventAsksNothingNew(s, a);
      EventPerforms(env, s, e);
    }
  }

  /** What is reported after the commands of a handler was reported before. */
  lemma EventAsksNothingNew(s: Sys, a: Act)
    requires Explained(s) && |s.ring.slots| == SLOT_COUNT && s.ring.p.pc.Idle? && !a.ctl.pc.Publishing?
    requires !a.ctl.pc.AcquireDenied? && !a.ctl.pc.PublishDenied? && HasSession(a.ctl)
    requires OpOf(a.ctl.pc).FailedQuery? ==> a.cmds == [Failed]
    ensures Explained(Sys(a.ctl, Issued(s.ring, a.cmds)))
  {
    IssueRepeats(s.ring, a.cmds);
    if a.cmds == [Failed] {
      IssueOne(s.ring, Failed);
    }
  }

  /** The answer to a denied message names a failed writer or counters at their end: a close
      was not requested while a session is open. */
  lemma AnswerHasCause(c: Ctl, ring: Ring)
    requires Shape(c) && OperationOk(OpOf(c.pc), ring) && RefusalHasCause(OpOf(c.pc), ring) && ring.p.pc.Idle?
    requires ring.sh.closeRequested ==> c.run.terminalStarted
    requires c.pc.Publishing? ==> Fits(c.pc.res.batch, c.pc.res.target, ring.targets)
    ensures c.pc.Acquiring? && ring.p.pc.ret != Acquired ==> ring.sh.failed
    ensures c.pc.Publishing? && ring.p.pc.ret != Published ==> ring.sh.failed || NearOverflow(ring)
  {
  }

  lemma GoingOnKeepsExplained(env: Env, s: Sys)
    requires Shape(s.c) && OperationOk(OpOf(s.c.pc), s.ring) && Explained(s) && SysEnabled(s, GoesOn)
    requires s.ring.sh.closeRequested ==> s.c.run.terminalStarted
    requires s.c.pc.Publishing? ==> Fits(s.c.pc.res.batch, s.c.pc.res.target, s.ring.targets)
    ensures Explained(SysApply(env, s, GoesOn))
  {
    var ret, res := s.ring.p.pc.ret, Answer(env, s.c);
    var a := Continue(s.c, ret, Success(s.ring), res);
    ContinueKeepsSession(s.c, ret, Success(s.ring), res);
    DenialsFollow(s.c, ret, Success(s.ring), res);
    AnswerHasCause(s.c, s.ring);
    AskingKeepsExplained(s, a);
    GoingOnPerforms(env, s);
  }

  lemma AskingKeepsExplained(s: Sys, a: Act)
    requires Explained(s) && |s.ring.slots| == SLOT_COUNT && s.ring.p.pc.Idle? && HasSession(a.ctl)
    requires OpOf(a.ctl.pc).FailedQuery? ==> a.cmds == [Failed]
    requires DenialHasCause(a.ctl, s.ring) && (a.ctl.pc.Publishing? ==> s.ring.p.pc.ret == Acquired)
    ensures Explained(Sys(a.ctl, Issued(s.ring, a.cmds)))
  {
    IssueRepeats(s.ring, a.cmds);
    if a.cmds == [Failed] {
      IssueOne(s.ring, Failed);
    }
  }

  lemma ProducerKeepsExplained(env: Env, s: Sys)
    requires Counters(s.ring) && Bytes(s.ring) && OperationOk(OpOf(s.c.pc), s.ring) && Explained(s)
    requires SysEnabled(s, RingProducer)
    ensures Explained(SysApply(env, s, RingProducer))
  {
    ProducerKeepsCause(OpOf(s.c.pc), s.ring);
    DeniedCountersStay(OpOf(s.c.pc), s.ring);
  }

  /** While the writer is only queried the counters do not move, and no flag is taken back. */
  lemma DeniedCountersStay(op: Operation, s: Ring)
    requires OperationOk(op, s) && Enabled(s, ProducerTakes)
    ensures var r := ProducerStep(s);
            && (s.sh.failed ==> r.sh.failed)
            && (op.FailedQuery? ==> r.p.seq_ == s.p.seq_ && r.p.bytes == s.p.bytes)
  {
  }

  lemma ConsumerKeepsExplained(env: Env, s: Sys, ch: Choice)
    requires Counters(s.ring) && Bytes(s.ring) && Explained(s) && SysEnabled(s, RingConsumer(ch))
    ensures Explained(SysApply(env, s, RingConsumer(ch)))
  {
    ConsumerKeepsCause(OpOf(s.c.pc), s.ring, ch);
    ConsumerStepLeaves(s.ring, ch);
  }

  lemma StepKeepsExplained(env: Env, s: Sys, step: SysStep)
    requires SysInv(env, s) && Explained(s) && SysEnabled(s, step)
    ensures Explained(SysApply(env, s, step))
  {
    match step
    case Happens(e) => EventKeepsExplained(env, s, e);
    case GoesOn => GoingOnKeepsExplained(env, s);
    case RingProducer => ProducerKeepsExplained(env, s);
    case RingConsumer(ch) => ConsumerKeepsExplained(env, s, ch);
  }

  lemma {:induction false} RunKeepsExplained(env: Env, s: Sys, steps: seq<SysStep>)
    requires EnvContract(env) && SysInv(env, s) && Explained(s) && SysLegal(env, s, steps)
    ensures Explained(SysExecute(env, s, steps))
    decreases |steps|
  {
    if steps != [] {
      SysStepKeeps(env, s, steps[0]);
      StepKeepsExplained(env, s, steps[0]);
      RunKeepsExplained(env, SysApply(env, s, steps[0]), steps[1..]);
    }
  }

  lemma ReachableIsExplained(env: Env, s: Sys)
    requires Reachable(env, s)
    ensures Explained(s)
  {
    var init, steps :| SysInit(env, init) && SysLegal(env, init, steps) && s == SysExecute(env, init, steps);
    SysInitEstablishes(env, init);
    InitIsWell(env, init);
    RunKeepsExplained(env, init, steps);
  }

  // ---------------------------------------------------------------- what follows

  /** In every reachable state: a refused acquire or publish means that a close was requested,
      that the writer has failed, or that the batch in hand does not fit the 64-bit counters. */
  lemma RefusalsHaveCauses(env: Env, s: Sys)
    requires Reachable(env, s)
    ensures Reports(s.ring.p.pc, AcquireClosed) || Reports(s.ring.p.pc, PublishClosed) ==> s.ring.sh.closeRequested
    ensures Reports(s.ring.p.pc, AcquireFailed) || Reports(s.ring.p.pc, PublishFailed) ==> s.ring.sh.failed
    ensures s.c.pc.Publishing? && Reports(s.ring.p.pc, CounterOverflow) ==>
              s.ring.p.seq_ == U64_MAX || s.ring.p.bytes + BatchBytes(s.c.pc.res.batch) > U64_MAX
  {
    ReachableIsExplained(env, s);
    ReachableSystem(env, s);
  }

  /** The answer to a message in hand when the writer is neither closed nor failed. */
  lemma AnswerIsSuccess(c: Ctl, ring: Ring, want: seq<Slot>)
    requires Shape(c) && OperationOk(OpOf(c.pc), ring) && RefusalHasCause(OpOf(c.pc), ring) && ring.p.pc.Idle?
    requires (ring.sh.closeRequested ==> c.run.terminalStarted) && !ring.sh.failed && LogIs(want, c, ring)
    requires Account(c)
    ensures c.pc.Acquiring? ==> ring.p.pc.ret == Acquired
    ensures c.pc.Publishing? && !Overflows(ring, c.pc.res.batch) ==> ring.p.pc.ret == Published && ring.log == want
  {
  }

  /** A message in hand is never refused without a cause: while the writer has not failed its
      slot is acquired, and unless the counters are at their end its batch is published, and
      the log is all that the pipeline asked to publish. */
  lemma MessageIsTaken(env: Env, s: Sys)
    requires Reachable(env, s) && s.ring.p.pc.Idle? && !s.ring.sh.failed
    ensures s.c.pc.Acquiring? ==> s.ring.p.pc.ret == Acquired
    ensures s.c.pc.Publishing? && !Overflows(s.ring, s.c.pc.res.batch) ==>
              s.ring.p.pc.ret == Published && s.ring.log == SlotsOf(TraceOf(env, s.c.feed.inputs).sent)
  {
    ReachableIsExplained(env, s);
    ReachableSystem(env, s);
    AnswerIsSuccess(s.c, s.ring, SlotsOf(TraceOf(env, s.c.feed.inputs).sent));
  }

  /** When the I/O thread waits in join the close has been requested; so the writer thread ends
      after a bounded number of its steps (WriterProgress.JoinReturns). */
  lemma JoinIsUnderWay(env: Env, s: Sys)
    requires Reachable(env, s) && s.ring.p.pc.JoinWait?
    ensures s.c.pc.Joining? && Inv(s.ring) && InJoin(s.ring)
  {
    ReachableIsExplained(env, s);
    ReachableSystem(env, s);
    WaitingIsJoining(s.c, s.ring);
  }

  lemma WaitingIsJoining(c: Ctl, ring: Ring)
    requires OperationOk(OpOf(c.pc), ring) && RefusalHasCause(OpOf(c.pc), ring) && ring.p.pc.JoinWait?
    ensures c.pc.Joining? && InJoin(ring)
  {
  }

  /** Until its end starts a capture has a session or a reconnect timer that will make one. */
  lemma CaptureHasSession(env: Env, s: Sys)
    requires Reachable(env, s) && !s.c.run.terminalStarted
    ensures s.c.net.session.Current? || s.c.net.reconnectArmed
  {
    ReachableIsExplained(env, s);
  }

  lemma ReconnectConnects(c: Ctl)
    requires Shape(c) && Epochs(c) && c.net.reconnectArmed && !c.run.stopRequested && c.net.generation < U64_MAX
    ensures var a := OnReconnect(c, false, true);
            && a.cmds == [] && PhaseIs(a.ctl.net.session, Connecting)
            && a.ctl.net.session.s.epoch == c.metrics.connections && a.ctl.net.session.s.connSeq == 0
            && !a.ctl.net.reconnectArmed && a.ctl.metrics.attempts == c.metrics.attempts + 1
            && !a.ctl.run.terminalStarted
  {
  }

  lemma TimerApplies(env: Env, s: Sys)
    requires |s.ring.slots| == SLOT_COUNT && s.c.net.reconnectArmed && s.c.pc.AtRest? && s.ring.p.pc.Idle?
    ensures SysEnabled(s, Happens(ReconnectTimer(false, true)))
    ensures SysApply(env, s, Happens(ReconnectTimer(false, true))).c == OnReconnect(s.c, false, true).ctl
  {
  }

  /** The timer makes a session that connects with the next epoch: the number of successful
      connections so far. */
  lemma TimerReconnects(env: Env, s: Sys)
    requires Reachable(env, s) && s.c.net.reconnectArmed && s.c.pc.AtRest? && s.ring.p.pc.Idle?
    requires !s.c.run.stopRequested && s.c.net.generation < U64_MAX
    ensures SysEnabled(s, Happens(ReconnectTimer(false, true)))
    ensures var c := SysApply(env, s, Happens(ReconnectTimer(false, true))).c;
            && PhaseIs(c.net.session, Connecting) && c.net.session.s.epoch == s.c.metrics.connections
            && c.net.session.s.connSeq == 0 && !c.net.reconnectArmed && !c.run.terminalStarted
            && c.metrics.attempts == s.c.metrics.attempts + 1
  {
    ReachableSystem(env, s);
    TimerApplies(env, s);
    ReconnectConnects(s.c);
  }

  /** The next step of the producer appends the batch to the log and goes on to store it. */
  predicate Appends(ring: Ring, res: PipelineResult) {
    && Enabled(ring, ProducerTakes)
    && var r := ProducerStep(ring);
       r.log == ring.log + [SlotOf(res)] && InPublishStore(r.p.pc)
  }

  lemma CommitPoint(res: PipelineResult, ring: Ring)
    requires Counters(ring) && Bytes(ring) && OperationOk(Publication(res.batch, res.target), ring)
    requires ring.p.pc.PubLoadReleased? && !Overflows(ring, res.batch)
    ensures Appends(ring, res)
  {
    InvBoundsCounters(ring);
    RoomMeansNoCapacityError(ring);
  }

  /** A publication that reaches its commit point, and whose counters do not overflow, appends
      exactly the batch in hand to the log. */
  lemma CommitAppends(env: Env, s: Sys)
    requires Reachable(env, s) && s.c.pc.Publishing? && s.ring.p.pc.PubLoadReleased?
    requires !Overflows(s.ring, s.c.pc.res.batch)
    ensures Appends(s.ring, s.c.pc.res)
  {
    ReachableSystem(env, s);
    CommitInHand(s.c, s.ring);
  }

  lemma CommitInHand(c: Ctl, ring: Ring)
    requires Inv(ring) && OperationOk(OpOf(c.pc), ring) && c.pc.Publishing? && ring.p.pc.PubLoadReleased?
    requires !Overflows(ring, c.pc.res.batch)
    ensures Appends(ring, c.pc.res)
  {
    CommitPoint(c.pc.res, ring);
  }

  // ------------------------------------------------------- captures that do not fail

  /** An event that gives a capture a reason to fail. */
  predicate BadEvent(c: Ctl, e: Event) {
    match e
    case ConnectFailed(code) => BadEnd(c, code)
    case ReadEnded(code) => PhaseIs(c.net.session, Open) && BadEnd(c, code)
    case CloseDone(code) => BadEnd(c, code)
    case ReadText(_, _) => PhaseIs(c.net.session, Open) && c.net.session.s.connSeq == U64_MAX
    case BackpressureTimeout => true
    case ReconnectTimer(failed, created) =>
      failed || (!c.run.stopRequested && (c.net.generation == U64_MAX || !created))
    case _ => false
  }

  /** A call of the output set that reports an error. */
  predicate BadCall(ring: Ring, ch: Choice) {
    (ring.c.pc.Write? || ring.c.pc.AgeFlush? || ring.c.pc.CloseAll?) && ch.out.failed
  }

  predicate Faulty(s: Sys, step: SysStep) {
    match step
    case Happens(e) => BadEvent(s.c, e)
    case RingConsumer(ch) => BadCall(s.ring, ch)
    case _ => false
  }

  /** A 64-bit counter of the writer, or the numbering of a symbol, is at its end. */
  predicate Exhausted(s: Sys) {
    NearOverflow(s.ring) || exists k :: 0 <= k < |s.c.feed.pl.states| && s.c.feed.pl.states[k].seqNo == U64_MAX
  }

  /** Nothing has failed and no backpressure timeout is being handled. */
  predicate Well(s: Sys) {
    !s.c.run.error && !s.ring.c.out.failed && !s.c.pc.TimeoutChecking?
  }

  lemma EventStaysWell(c: Ctl, ring: Ring, e: Event)
    requires Shape(c) && Policy(c) && !c.run.error && EventEnabled(c, ring, e) && !BadEvent(c, e)
    requires e.StopRequest? || c.pc.AtRest?
    ensures var d := React(c, ring, e).ctl; !d.run.error && (d.pc.TimeoutChecking? ==> c.pc.TimeoutChecking?)
  {
    match e
    case ConnectFailed(code) => EndDecides(c, code);
    case ReadEnded(code) => EndDecides(c, code);
    case CloseDone(code) => EndDecides(c, code);
    case StopOnIo => EndDecides(c.(net := c.net.(reconnectArmed := false)), Cancelled);
    case _ =>
  }

  lemma ContinueStaysWell(c: Ctl, ret: Ret, writerOk: bool, res: PipelineResult)
    requires !c.run.error && !c.pc.AtRest? && !c.pc.TimeoutChecking? && !c.pc.AcquireDenied? && !c.pc.PublishDenied?
    requires (c.pc.ResumeChecking? ==> ret != Flag(true)) && (c.pc.Joining? ==> writerOk)
    requires c.pc.Acquiring? ==> !res.disposition.Fatal?
    ensures var d := Continue(c, ret, writerOk, res).ctl; !d.run.error && !d.pc.TimeoutChecking?
  {
  }

  /** What the ring tells the controller while no call of the output set has failed. */
  lemma WellRingAnswers(c: Ctl, ring: Ring)
    requires Inv(ring) && Finished(c, ring) && RefusalHasCause(OpOf(c.pc), ring) && DenialHasCause(c, ring)
    requires !ring.c.out.failed && !NearOverflow(ring) && ring.p.pc.Idle?
    ensures !c.pc.AcquireDenied? && !c.pc.PublishDenied?
    ensures (c.pc.ResumeChecking? ==> ring.p.pc.ret != Flag(true)) && (c.pc.Joining? ==> Success(ring))
  {
    if c.pc.Joining? {
      ExitAccounting(ring);
    }
  }

  lemma IssueKeepsOutput(ring: Ring, cmds: seq<Command>)
    requires Inv(ring) && ring.p.pc.Idle?
    ensures Issued(ring, cmds).c.out == ring.c.out
  {
    IssueKeeps(ring, cmds);
  }

  lemma EventKeepsWell(env: Env, s: Sys, e: Event)
    requires Inv(s.ring) && Shape(s.c) && Policy(s.c) && Well(s) && SysEnabled(s, Happens(e)) && !BadEvent(s.c, e)
    ensures Well(SysApply(env, s, Happens(e)))
  {
    EventStaysWell(s.c, s.ring, e);
    if !e.StopRequest? {
      IssueKeepsOutput(s.ring, React(s.c, s.ring, e).cmds);
      EventPerforms(env, s, e);
    }
  }

  lemma MessageIsNotFatal(env: Env, c: Ctl)
    requires EnvContract(env) && Meta(env, c) && c.pc.Acquiring?
    requires forall k :: 0 <= k < |c.feed.pl.states| ==> c.feed.pl.states[k].seqNo != U64_MAX
    ensures !Answer(env, c).disposition.Fatal?
  {
    MessageIsGood(env, c.feed.pl, c.pc.msg);
  }

  lemma GoingOnKeepsWell(env: Env, s: Sys)
    requires EnvContract(env) && SysInv(env, s) && Explained(s) && Well(s) && SysEnabled(s, GoesOn) && !Exhausted(s)
    ensures Well(SysApply(env, s, GoesOn))
  {
    var ret, res := s.ring.p.pc.ret, Answer(env, s.c);
    WellRingAnswers(s.c, s.ring);
    if s.c.pc.Acquiring? {
      MessageIsNotFatal(env, s.c);
    }
    ContinueStaysWell(s.c, ret, Success(s.ring), res);
    IssueKeepsOutput(s.ring, Continue(s.c, ret, Success(s.ring), res).cmds);
    GoingOnPerforms(env, s);
  }

  lemma ProducerKeepsOutput(s: Ring)
    requires Enabled(s, ProducerTakes)
    ensures ProducerStep(s).c.out == s.c.out
  {
  }

  lemma ConsumerKeepsOutput(s: Ring, ch: Choice)
    requires Enabled(s, ConsumerTakes(ch)) && !s.c.out.failed && !BadCall(s, ch)
    ensures !ConsumerStep(s, ch).c.out.failed
  {
  }

  lemma StepKeepsWell(env: Env, s: Sys, step: SysStep)
    requires EnvContract(env) && SysInv(env, s) && Explained(s) && Well(s) && SysEnabled(s, step)
    requires !Faulty(s, step) && !Exhausted(s)
    ensures Well(SysApply(env, s, step))
  {
    match step
    case Happens(e) => EventKeepsWell(env, s, e);
    case GoesOn => GoingOnKeepsWell(env, s);
    case RingProducer => ProducerKeepsOutput(s.ring);
    case RingConsumer(ch) => ConsumerKeepsOutput(s.ring, ch);
  }

  /** No step of the run is a fault, and no counter comes to its end. */
  predicate Healthy(env: Env, s: Sys, steps: seq<SysStep>)
    requires SysLegal(env, s, steps)
    decreases |steps|
  {
    steps == [] || (&& !Faulty(s, steps[0]) && !Exhausted(s)
                    && Healthy(env, SysApply(env, s, steps[0]), steps[1..]))
  }

  lemma {:induction false} HealthyRunStaysWell(env: Env, s: Sys, steps: seq<SysStep>)
    requires EnvContract(env) && SysInv(env, s) && Explained(s) && Well(s)
    requires SysLegal(env, s, steps) && Healthy(env, s, steps)
    ensures Well(SysExecute(env, s, steps))
    decreases |steps|
  {
    if steps != [] {
      var r := SysApply(env, s, steps[0]);
      SysStepKeeps(env, s, steps[0]);
      StepKeepsExplained(env, s, steps[0]);
      StepKeepsWell(env, s, steps[0]);
      HealthyRunStaysWell(env, r, steps[1..]);
    }
  }

  /** A capture fails only for a reason: in every run without an unexpected end of a session, a
      failed timer, a backpressure timeout, an error of the output set or a counter at its
      end, no error is recorded and no message is lost. */
  lemma HealthyCaptureNeverFails(env: Env, init: Sys, steps: seq<SysStep>)
    requires EnvContract(env) && SysInit(env, init) && SysLegal(env, init, steps) && Healthy(env, init, steps)
    ensures var c := SysExecute(env, init, steps).c; !c.run.error && !c.run.failureLatched && c.metrics.lost == 0
  {
    SysInitEstablishes(env, init);
    InitIsWell(env, init);
    HealthyRunStaysWell(env, init, steps);
    SysRunKeeps(env, init, steps);
    WellLosesNothing(SysExecute(env, init, steps).c);
  }

  lemma InitIsWell(env: Env, s: Sys)
    requires SysInit(env, s)
    ensures Explained(s) && Well(s)
  {
  }

  lemma WellLosesNothing(c: Ctl)
    requires Shape(c) && Account(c) && !c.run.error
    ensures !c.run.failureLatched && c.metrics.lost == 0
  {
  }
}
