/** The I/O thread of a live capture: the controller (src/live_capture_controller.cpp)
    and the read loop of its current WebSocket session
    (src/verified_websocket_session.cpp), driving the writer ring.

    Handlers run one at a time on the I/O thread.  A handler that calls the writer is
    cut at the call: the controller's program counter says what it does with the
    value the ring operation returns, and the writer thread may take any number of
    steps in between. */
module Controller {
  import opened Types
  import opened CsvFormat
  import opened EventProcessor
  import opened LivePipeline
  import opened LiveReplay
  import opened WriterRing

  // --------------------------------------------------------------------- session

  /** Connecting stands for resolving, connecting and both handshakes. */
  datatype SessionPhase = Connecting | Open | Closing

  datatype Session = Session(phase: SessionPhase, epoch: U64, connSeq: U64, reading: bool, paused: bool)

  /** How a session ended, as far as the controller distinguishes it. */
  datatype EndCode =
    | CleanClose | Recoverable | BinaryMessage | MessageTooBig | Cancelled | CloseStageFailed | Unrecoverable

  predicate RecoverableEnd(code: EndCode) {
    code.Recoverable? || code.BinaryMessage? || code.MessageTooBig?
  }

  datatype CurrentSession = NoSession | Current(s: Session)

  /** issue_read, as called when a handler returns to the session. */
  function IssueRead(s: Session): Session {
    if s.phase.Open? && !s.paused then s.(reading := true) else s
  }

  // ------------------------------------------------------------------ controller

  /** Where the running handler continues when the writer's operation returns. */
  datatype CtlPc =
    | AtRest
    | OpenChecking | OpenArming
    | Acquiring(msg: Message) | AcquireDenied
    | Publishing(res: PipelineResult) | PublishDenied
    | MessageChecking | MessageArming
    | ResumeChecking | ResumeMeasuring | ResumeArming
    | TimeoutChecking
    | Joining

  /** complete messages; those whose batch was published; those rejected before audit; and
      those lost to a latched failure.  outcomes has one counter per event status. */
  datatype Metrics = Metrics(complete: nat, published: nat, preAudit: nat, lost: nat,
                             processed: nat, outcomes: seq<nat>, attempts: nat, connections: nat, stale: nat)

  /** The session and what decides about the next one. */
  datatype Net = Net(session: CurrentSession, generation: U64, nextEpoch: U64, epochExhausted: bool,
                     reconnectArmed: bool)

  /** The flags of the run; handled counts the writer callbacks handled so far. */
  datatype Run = Run(readsPaused: bool, failureLatched: bool, terminalStarted: bool, terminal: bool,
                     stopRequested: bool, policyFailures: nat, error: bool, handled: nat)

  /** The pipeline, the history of what it has been given, and whether a session has ended
      since the last message. */
  datatype Feed = Feed(pl: Pipeline, inputs: seq<LiveInput>, torn: bool)

  datatype Ctl = Ctl(pc: CtlPc, net: Net, run: Run, metrics: Metrics, feed: Feed)

  /** A reaction: the new controller state and the ring commands it issues, in order. */
  datatype Act = Act(ctl: Ctl, cmds: seq<Command>)

  const OUTCOME_COUNT: nat := 9

  /** The nine outcome counters of record_event_status. */
  function OutcomeIndex(status: EventStatus): nat {
    match status
    case BookEvent(AppliedRefresh) => 0
    case BookEvent(AppliedDiff) => 1
    case BookEvent(StaleRefresh) => 2
    case BookEvent(StaleDiff) => 3
    case BookEvent(IgnoredWhileInvalid) => 4
    case BookEvent(SequenceGap) => 5
    case BookEvent(CrossedBook) => 6
    case TradeAudited => 7
    case SchemaRejected => 8
    case NotProcessed => OUTCOME_COUNT
    case PreAuditRejected => OUTCOME_COUNT
  }

  function CountOutcome(m: Metrics, status: EventStatus): Metrics {
    var i := OutcomeIndex(status);
    m.(processed := m.processed + 1,
       outcomes := if i < |m.outcomes| then m.outcomes[i := m.outcomes[i] + 1] else m.outcomes)
  }

  // ------------------------------------------------------------- ending a session

  /** finalize_run: join the writer, once. */
  function Finalize(c: Ctl, latch: bool): Act {
    var joins := !c.run.terminalStarted;
    Act(c.(pc := if joins then Joining else AtRest,
           net := c.net.(reconnectArmed := false),
           run := c.run.(terminalStarted := true, failureLatched := c.run.failureLatched || latch,
                         error := c.run.error || latch)),
        if joins then [Join] else [])
  }

  const POLICY_LIMIT: nat := 3

  /** Binary and oversized messages in a row. */
  function PolicyFailures(c: Ctl, code: EndCode): nat {
    c.run.policyFailures + if code.BinaryMessage? || code.MessageTooBig? then 1 else 0
  }

  /** Does the end of the session latch a failure?  The message policy breaker does; so does
      an end that is not expected while stopping, or not recoverable otherwise. */
  predicate EndIsFailure(c: Ctl, code: EndCode) {
    || PolicyFailures(c, code) >= POLICY_LIMIT
    || (if c.run.stopRequested
        then !(code.CleanClose? || code.Cancelled? || code.CloseStageFailed? || RecoverableEnd(code))
        else !RecoverableEnd(code) || c.net.epochExhausted)
  }

  /** A binary message is complete, and rejected before audit. */
  function CountBinary(m: Metrics, code: EndCode): Metrics {
    if code.BinaryMessage? then m.(complete := m.complete + 1, preAudit := m.preAudit + 1) else m
  }

  function TornDown(f: Feed): Feed {
    Feed(InvalidateAll(f.pl), f.inputs + [Teardown], true)
  }

  /** on_session_terminal for the current session: finish the run or schedule a reconnect. */
  function SessionEnded(c: Ctl, code: EndCode): Act {
    var latch := !c.run.failureLatched && EndIsFailure(c, code);
    var ends := c.run.stopRequested || c.run.failureLatched || latch;
    var joins := ends && !c.run.terminalStarted;
    Act(Ctl(if joins then Joining else AtRest,
            c.net.(session := NoSession, reconnectArmed := !ends),
            c.run.(readsPaused := false, failureLatched := c.run.failureLatched || latch,
                   error := c.run.error || latch, terminalStarted := c.run.terminalStarted || ends,
                   policyFailures := PolicyFailures(c, code)),
            CountBinary(c.metrics, code),
            TornDown(c.feed)),
        if joins then [Join] else [])
  }

  /** VerifiedWebSocketSession::stop: an open session starts its close handshake, one that
      is still connecting ends at once. */
  function StopSession(c: Ctl): Act
    requires c.net.session.Current?
  {
    var s := c.net.session.s;
    if s.phase.Connecting? then SessionEnded(c, Cancelled)
    else Act(c.(pc := AtRest, net := c.net.(session := Current(s.(phase := Closing)))), [])
  }

  /** fail: latch the first failure and stop. */
  function Fail(c: Ctl): Act {
    if c.run.failureLatched || c.run.terminal then Act(c.(pc := AtRest), [])
    else if c.net.session.Current? then StopSession(Latched(c))
    else Finalize(c, true)
  }

  /** The failure is latched and the session reads no more. */
  function Latched(c: Ctl): Ctl
    requires c.net.session.Current?
  {
    c.(run := c.run.(failureLatched := true, error := true),
       net := c.net.(reconnectArmed := false, session := Current(c.net.session.s.(paused := true))))
  }

  // ------------------------------------------------------------------- the events

  datatype Event =
    | OpenEvent | ConnectFailed(code: EndCode)
    | ReadText(ts: Timestamp, payload: string) | ReadEnded(code: EndCode)
    | CloseDone(code: EndCode)
    | StaleCallback | ResumePosted | BackpressureTimeout
    | ReconnectTimer(failed: bool, created: bool) | StopRequest | StopOnIo

  /** What the environment can make happen while the I/O thread is at rest. */
  predicate EventEnabled(c: Ctl, ring: Ring, e: Event) {
    var x := c.net.session;
    match e
    case OpenEvent => x.Current? && x.s.phase.Connecting?
    case ConnectFailed(_) => x.Current? && x.s.phase.Connecting?
    case ReadText(ts, payload) => x.Current? && x.s.reading && ValidTimestamp(ts) && |payload| <= MAX_PAYLOAD
    case ReadEnded(_) => x.Current? && x.s.reading
    case CloseDone(_) => x.Current? && x.s.phase.Closing?
    case ResumePosted => c.run.handled < ring.sh.resumes + ring.sh.failures
    case BackpressureTimeout => c.run.readsPaused
    case ReconnectTimer(_, _) => c.net.reconnectArmed
    case StaleCallback => true
    case StopRequest => true
    case StopOnIo => c.run.stopRequested
  }

  /** on_open up to its call of should_pause. */
  function OnOpen(c: Ctl): Act
    requires c.net.session.Current?
  {
    var exhausted := c.net.nextEpoch == U64_MAX;
    var stop := c.run.stopRequested;
    Act(c.(pc := if stop then AtRest else OpenChecking,
           net := c.net.(session := Current(c.net.session.s.(phase := if stop then Closing else Open)),
                         nextEpoch := if exhausted then c.net.nextEpoch else c.net.nextEpoch + 1,
                         epochExhausted := c.net.epochExhausted || exhausted),
           metrics := c.metrics.(connections := c.metrics.connections + 1)),
        if stop then [] else [ShouldPause])
  }

  /** on_read of a complete text message: number it and hand it to on_text_message, which
      begins by acquiring a slot. */
  function OnReadText(c: Ctl, ts: Timestamp, payload: string): Act
    requires c.net.session.Current?
  {
    var s := c.net.session.s;
    if !s.phase.Open? then Act(StopReading(c), [])
    else if s.connSeq == U64_MAX then SessionEnded(c, Unrecoverable)
    else
      var ignored := c.run.terminal || c.run.failureLatched;
      var t := s.(reading := ignored && !s.paused, connSeq := s.connSeq + 1);
      Act(c.(pc := if ignored then AtRest else Acquiring(Message(ts, t.epoch, t.connSeq, payload)),
             net := c.net.(session := Current(t)),
             metrics := if ignored then c.metrics else c.metrics.(complete := c.metrics.complete + 1)),
          if ignored then [] else [TryAcquire])
  }

  function StopReading(c: Ctl): Ctl
    requires c.net.session.Current?
  {
    c.(net := c.net.(session := Current(c.net.session.s.(reading := false))))
  }

  function OnReadEnded(c: Ctl, code: EndCode): Act
    requires c.net.session.Current?
  {
    if c.net.session.s.phase.Open? then SessionEnded(c, code) else Act(StopReading(c), [])
  }

  /** on_reconnect_timer: a timer error is a failure even after a stop request. */
  function OnReconnect(c: Ctl, failed: bool, created: bool): Act {
    if c.run.terminal then Act(c.(net := c.net.(reconnectArmed := false)), [])
    else if failed then Finalize(c, true)
    else if c.run.stopRequested then Finalize(c, false)
    else if c.net.generation == U64_MAX || !created then Finalize(c, true)
    else Act(c.(net := c.net.(reconnectArmed := false, generation := c.net.generation + 1,
                              session := Current(Session(Connecting, c.net.nextEpoch, 0, false, false))),
                metrics := c.metrics.(attempts := c.metrics.attempts + 1)), [])
  }

  /** request_stop_on_io. */
  function OnStop(c: Ctl): Act {
    if c.run.terminal || c.run.terminalStarted then Act(c, [])
    else if c.net.session.Current? then StopSession(c.(net := c.net.(reconnectArmed := false)))
    else Finalize(c, false)
  }

  function React(c: Ctl, ring: Ring, e: Event): Act
    requires EventEnabled(c, ring, e)
  {
    match e
    case OpenEvent => OnOpen(c)
    case ConnectFailed(code) => SessionEnded(c, code)
    case ReadText(ts, payload) => OnReadText(c, ts, payload)
    case ReadEnded(code) => OnReadEnded(c, code)
    case CloseDone(code) => SessionEnded(c, code)
    case StaleCallback => Act(c.(metrics := c.metrics.(stale := c.metrics.stale + 1)), [])
    case ResumePosted =>
      Act(c.(pc := if c.run.terminal then AtRest else ResumeChecking, run := c.run.(handled := c.run.handled + 1)),
          if c.run.terminal then [] else [Failed])
    case BackpressureTimeout => if c.run.terminal then Act(c, []) else Act(c.(pc := TimeoutChecking), [Failed])
    case ReconnectTimer(failed, created) => OnReconnect(c, failed, created)
    case StopRequest => Act(c.(run := c.run.(stopRequested := true)), [])
    case StopOnIo => OnStop(c)
  }

  // ------------------------------------------------ continuing after a ring operation

  /** The handler returns; the session issues the next read unless paused. */
  function Return(c: Ctl): Ctl {
    c.(pc := AtRest,
       net := c.net.(session := if c.net.session.Current? then Current(IssueRead(c.net.session.s)) else NoSession))
  }

  /** pause_for_backpressure, or return to the session when it has nothing to do. */
  function PauseOr(c: Ctl, arming: CtlPc): Act {
    if c.run.readsPaused || c.run.failureLatched || c.net.session.NoSession? then Act(Return(c), [])
    else Act(c.(pc := arming, run := c.run.(readsPaused := true),
                net := c.net.(session := Current(c.net.session.s.(paused := true)))), [Arm])
  }

  function Losing(c: Ctl): Ctl {
    c.(metrics := c.metrics.(lost := c.metrics.lost + 1))
  }

  /** A message is lost: the failure is latched with it. */
  function LoseMessage(c: Ctl): Act {
    Fail(Losing(c))
  }

  function Delivered(c: Ctl, msg: Message, res: PipelineResult): Ctl {
    c.(feed := Feed(res.pl, c.feed.inputs + [Deliver(msg)], false))
  }

  /** on_text_message from the acquired slot on, given what the pipeline made of the
      message. */
  function OnAcquired(c: Ctl, msg: Message, res: PipelineResult): Act {
    var d := Delivered(c, msg, res);
    match res.disposition
    case Fatal(_) => var a := LoseMessage(d); Act(a.ctl, [Cancel] + a.cmds)
    case PreAudit => Act(Return(d.(metrics := d.metrics.(preAudit := d.metrics.preAudit + 1))), [Cancel])
    case BatchReady =>
      Act(d.(pc := Publishing(res), metrics := CountOutcome(d.metrics, res.status)),
          [Fill(res.batch), Publish(res.target)])
  }

  /** on_writer_resume after its measurement: resume the session, or arm again. */
  function OnResumeMeasured(c: Ctl, below: bool): Act {
    if !below then Act(c.(pc := ResumeArming), [Arm])
    else
      var x := c.net.session;
      Act(c.(pc := AtRest, run := c.run.(readsPaused := false),
             net := c.net.(session := if x.Current? then Current(IssueRead(x.s.(paused := false))) else NoSession)), [])
  }

  /** What the pipeline makes of the message in hand. */
  function Answer(env: Env, c: Ctl): PipelineResult {
    if c.pc.Acquiring? then ProcessMessage(env, c.feed.pl, c.pc.msg)
    else PipelineResult(c.feed.pl, PreAudit, 0, NotProcessed, EMPTY_BATCH,
                        Context(Timestamp(0, 0), env.venue, Trade, 0, 0, 0, ""), "")
  }

  function OnPublished(c: Ctl): Act {
    Act(c.(pc := MessageChecking, run := c.run.(policyFailures := 0),
           metrics := c.metrics.(published := c.metrics.published + 1)), [ShouldPause])
  }

  /** Continue the handler with the value returned by the ring; writerOk is the writer's
      final result and res the pipeline's answer for the message in hand. */
  function Continue(c: Ctl, ret: Ret, writerOk: bool, res: PipelineResult): Act
    requires !c.pc.AtRest?
  {
    match c.pc
    case OpenChecking => if ret == Flag(true) then PauseOr(c, OpenArming) else Act(Return(c), [])
    case OpenArming => Act(Return(c), [])
    case Acquiring(msg) =>
      if ret == Acquired then OnAcquired(c, msg, res) else Act(c.(pc := AcquireDenied), [Failed])
    case AcquireDenied => LoseMessage(c)
    case Publishing(_) => if ret == Published then OnPublished(c) else Act(c.(pc := PublishDenied), [Failed])
    case PublishDenied => LoseMessage(c)
    case MessageChecking => if ret == Flag(true) then PauseOr(c, MessageArming) else Act(Return(c), [])
    case MessageArming => Act(Return(c), [])
    case ResumeChecking =>
      if ret == Flag(true) then Fail(c)
      else if !c.run.readsPaused then Act(c.(pc := AtRest), [])
      else Act(c.(pc := ResumeMeasuring), [BelowResume])
    case ResumeMeasuring => OnResumeMeasured(c, ret == Flag(true))
    case ResumeArming => Act(c.(pc := AtRest), [])
    case TimeoutChecking => Fail(c)
    case Joining => Act(c.(pc := AtRest, run := c.run.(terminal := true, error := c.run.error || !writerOk)), [])
  }
}
