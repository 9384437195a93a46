/** The controller, its session and the writer ring as one system. */
module System {
  import opened Types
  import opened CsvFormat
  import opened LivePipeline
  import opened LiveReplay
  import opened WriterRing
  import opened WriterRingInvariants
  import opened WriterRingTheorems
  import opened RingRoom
  import opened Controller

  datatype Sys = Sys(c: Ctl, ring: Ring)

  /** Issue ring commands one after the other; all but the last one finish at once. */
  function Issue(ring: Ring, cmds: seq<Command>): (r: Ring)
    requires |ring.slots| == SLOT_COUNT && ring.p.pc.Idle?
    ensures |r.slots| == SLOT_COUNT
    decreases |cmds|
  {
    if cmds == [] then ring
    else
      var next := Start(ring, cmds[0]);
      if next.p.pc.Idle? then Issue(next, cmds[1..]) else next
  }

  /** An event reaches the I/O thread, a handler goes on after a ring operation, or one of
      the two threads takes an atomic step inside the ring. */
  datatype SysStep = Happens(e: Event) | GoesOn | RingProducer | RingConsumer(ch: Choice)

  predicate SysEnabled(s: Sys, step: SysStep) {
    && |s.ring.slots| == SLOT_COUNT
    && match step
       case Happens(e) => EventEnabled(s.c, s.ring, e) && (e.StopRequest? || (s.c.pc.AtRest? && s.ring.p.pc.Idle?))
       case GoesOn => !s.c.pc.AtRest? && s.ring.p.pc.Idle?
       case RingProducer => Enabled(s.ring, ProducerTakes)
       case RingConsumer(ch) => Enabled(s.ring, ConsumerTakes(ch))
  }

  function Perform(act: Act, ring: Ring): Sys
    requires |ring.slots| == SLOT_COUNT && (act.cmds == [] || ring.p.pc.Idle?)
  {
    Sys(act.ctl, if act.cmds == [] then ring else Issue(ring, act.cmds))
  }

  function SysApply(env: Env, s: Sys, step: SysStep): Sys
    requires SysEnabled(s, step)
  {
    match step
    case Happens(e) => Perform(React(s.c, s.ring, e), s.ring)
    case GoesOn => Perform(Continue(s.c, s.ring.p.pc.ret, Success(s.ring), Answer(env, s.c)), s.ring)
    case RingProducer => s.(ring := ProducerStep(s.ring))
    case RingConsumer(ch) => s.(ring := ConsumerStep(s.ring, ch))
  }

  function InitialCtl(env: Env): Ctl {
    Ctl(AtRest,
        Net(Current(Session(Connecting, 0, 0, false, false)), 1, 0, false, false),
        Run(false, false, false, false, false, 0, false, 0),
        Metrics(0, 0, 0, 0, 0, [0, 0, 0, 0, 0, 0, 0, 0, 0], 1, 0, 0),
        Feed(InitialPipeline(env), [], false))
  }

  ghost predicate SysInit(env: Env, s: Sys) {
    Init(s.ring) && s.ring.targets == |env.symbols| && s.c == InitialCtl(env)
  }

  // ----------------------------------------------------- the controller's shape

  predicate InMessage(pc: CtlPc) {
    pc.Acquiring? || pc.AcquireDenied? || pc.Publishing? || pc.PublishDenied?
  }

  /** A session handler is running. */
  predicate InHandler(pc: CtlPc) {
    InMessage(pc) || pc.OpenChecking? || pc.OpenArming? || pc.MessageChecking? || pc.MessageArming?
  }

  predicate PhaseIs(s: CurrentSession, phase: SessionPhase) {
    s.Current? && s.s.phase == phase
  }

  predicate Shape(c: Ctl) {
    && (c.run.readsPaused ==> c.net.session.Current? && !PhaseIs(c.net.session, Connecting) && c.net.session.s.paused)
    && (PhaseIs(c.net.session, Connecting) ==> !c.net.session.s.reading && !c.net.session.s.paused)
    && (PhaseIs(c.net.session, Open) ==>
          c.net.session.s.paused == c.run.readsPaused && !(c.net.session.s.reading && c.net.session.s.paused))
    && (c.run.failureLatched ==> c.run.error && !PhaseIs(c.net.session, Open) && !PhaseIs(c.net.session, Connecting))
    && (c.run.terminalStarted ==> c.net.session.NoSession? && !c.net.reconnectArmed)
    && (c.run.terminal ==> c.run.terminalStarted)
    && (c.pc.Joining? <==> c.run.terminalStarted && !c.run.terminal)
    && (c.net.reconnectArmed ==> c.net.session.NoSession? && !c.run.failureLatched && !c.net.epochExhausted)
    && (InHandler(c.pc) ==> PhaseIs(c.net.session, Open) && !c.net.session.s.reading)
    && (c.pc.OpenArming? || c.pc.MessageArming? || c.pc.ResumeMeasuring? || c.pc.ResumeArming? ==> c.run.readsPaused)
    && (InMessage(c.pc) || c.pc.OpenChecking? || c.pc.MessageChecking? ==> !c.run.readsPaused)
    && (!InHandler(c.pc) && PhaseIs(c.net.session, Open) ==> c.net.session.s.reading || c.run.readsPaused)
  }

  // ------------------------------------------------------- connection metadata

  /** The next epoch, the session's numbering and the pipeline's last metadata. */
  ghost predicate Meta(env: Env, c: Ctl) {
    && GoodPipeline(env, c.feed.pl)
    && (c.net.session.NoSession? ==> c.feed.pl.observed ==> c.feed.pl.epoch < c.net.nextEpoch || c.net.epochExhausted)
    && (c.net.session.Current? ==>
          var s := c.net.session.s;
          && (if s.phase.Connecting? then s.epoch == c.net.nextEpoch && s.connSeq == 0 && !c.net.epochExhausted
              else s.epoch < c.net.nextEpoch || c.net.epochExhausted)
          && (c.feed.pl.observed ==>
                || c.feed.pl.epoch < s.epoch
                || (&& c.feed.pl.epoch == s.epoch && !s.phase.Connecting?
                    && !c.feed.torn && c.feed.pl.connSeq <= s.connSeq)))
    && (c.pc.Acquiring? ==> c.net.session.Current? && Numbered(c.feed.pl, c.net.session.s, c.feed.torn, c.pc.msg))
    && (c.pc.Publishing? ==> Fits(c.pc.res.batch, c.pc.res.target, |env.symbols|)
                             && OutcomeIndex(c.pc.res.status) < OUTCOME_COUNT)
  }

  /** Only successful connections use up epochs: the n-th one has epoch n - 1. */
  predicate Epochs(c: Ctl) {
    && (if c.net.epochExhausted then c.net.nextEpoch == U64_MAX && c.metrics.connections == U64_MAX + 1
        else c.net.nextEpoch == c.metrics.connections)
    && (c.net.session.Current? && !PhaseIs(c.net.session, Connecting) ==>
          c.net.session.s.epoch + 1 == c.metrics.connections)
    && (PhaseIs(c.net.session, Connecting) ==> c.net.session.s.epoch == c.metrics.connections && !c.net.epochExhausted)
  }

  /** Three message policy failures in a row latch a failure, and a run ends only with a
      latched failure or after a stop was requested. */
  predicate Policy(c: Ctl) {
    && (c.run.policyFailures >= POLICY_LIMIT ==> c.run.failureLatched)
    && (c.run.terminalStarted ==> c.run.failureLatched || c.run.stopRequested)
  }

  /** msg is the session's latest message and follows everything the pipeline has seen. */
  predicate Numbered(pl: Pipeline, s: Session, torn: bool, msg: Message) {
    && msg.epoch == s.epoch && msg.connSeq == s.connSeq && ValidMetadata(pl, msg) && |msg.payload| <= MAX_PAYLOAD
    && (torn && pl.observed ==> msg.epoch > pl.epoch)
  }

  // ------------------------------------------------------------------- history

  /** What a history of inputs leads to: the pipeline, whether a session has ended since
      the last message, whether a fatal result has occurred, and the batches to publish. */
  datatype Trace = Trace(pl: Pipeline, torn: bool, dead: bool, sent: seq<PipelineResult>)

  function Extend(env: Env, t: Trace, input: LiveInput): Trace {
    match input
    case Teardown => t.(pl := InvalidateAll(t.pl), torn := true)
    case Deliver(msg) =>
      var r := ProcessMessage(env, t.pl, msg);
      Trace(r.pl, false, t.dead || r.disposition.Fatal?,
            if !t.dead && r.disposition.BatchReady? then t.sent + [r] else t.sent)
  }

  function TraceOf(env: Env, inputs: seq<LiveInput>): Trace {
    if inputs == [] then Trace(InitialPipeline(env), false, false, [])
    else Extend(env, TraceOf(env, inputs[..|inputs| - 1]), inputs[|inputs| - 1])
  }

  /** Each message after a teardown comes from a later connection. */
  predicate Ordered(env: Env, inputs: seq<LiveInput>) {
    inputs == [] ||
    (&& Ordered(env, inputs[..|inputs| - 1])
     && var t, last := TraceOf(env, inputs[..|inputs| - 1]), inputs[|inputs| - 1];
        last.Deliver? ==> && ValidMetadata(t.pl, last.msg) && |last.msg.payload| <= MAX_PAYLOAD
                          && (t.torn && t.pl.observed ==> last.msg.epoch > t.pl.epoch))
  }

  predicate History(env: Env, c: Ctl) {
    var t := TraceOf(env, c.feed.inputs);
    t.pl == c.feed.pl && t.torn == c.feed.torn && Ordered(env, c.feed.inputs) && (t.dead ==> c.run.failureLatched)
  }

  function SlotOf(r: PipelineResult): Slot {
    Slot(r.batch, r.target, BatchBytes(r.batch))
  }

  function SlotsOf(sent: seq<PipelineResult>): (r: seq<Slot>)
    ensures |r| == |sent| && forall i :: 0 <= i < |r| ==> r[i] == SlotOf(sent[i])
  {
    if sent == [] then [] else SlotsOf(sent[..|sent| - 1]) + [SlotOf(sent[|sent| - 1])]
  }

  predicate Committed(pc: ProducerPc) {
    InPublishStore(pc) || pc == Idle(Published)
  }

  /** The ring's log is what the pipeline asked to publish, up to the batch in hand, and up
      to the one that was lost to a latched failure. */
  predicate LogMatches(env: Env, c: Ctl, ring: Ring) {
    LogIs(SlotsOf(TraceOf(env, c.feed.inputs).sent), c, ring)
  }

  predicate LogIs(want: seq<Slot>, c: Ctl, ring: Ring) {
    if c.pc.Publishing? && !Committed(ring.p.pc) then want == ring.log + [SlotOf(c.pc.res)]
    else if c.pc.PublishDenied? || c.metrics.lost > 0 then ring.log <= want
    else ring.log == want
  }

  // ----------------------------------------------------------------- accounting

  function SumOf(xs: seq<nat>): nat {
    if xs == [] then 0 else xs[0] + SumOf(xs[1..])
  }

  /** Every complete message is published, rejected before audit, in hand, or the one lost
      to the latched failure; every processed event is in one of the nine counters. */
  predicate Account(c: Ctl) {
    var m := c.metrics;
    && m.complete == m.published + m.preAudit + m.lost + One(InMessage(c.pc))
    && m.lost <= 1 && (m.lost == 1 ==> c.run.failureLatched)
    && |m.outcomes| == OUTCOME_COUNT && SumOf(m.outcomes) == m.processed
    && m.published + One(c.pc.Publishing? || c.pc.PublishDenied?) <= m.processed
    && m.processed <= m.published + One(c.pc.Publishing? || c.pc.PublishDenied?) + m.lost
  }

  predicate Counted(c: Ctl, ring: Ring) {
    ring.p.seq_ == c.metrics.published + One(c.pc.Publishing? && Committed(ring.p.pc))
  }

  // -------------------------------------------------------------------- resuming

  function Posts(ring: Ring): nat {
    ring.sh.resumes + ring.sh.failures
  }

  /** A paused controller is armed, has a writer callback to handle, or is about to get
      the failure callback. */
  predicate WillHear(c: Ctl, ring: Ring) {
    ring.sh.armed || c.run.handled < Posts(ring) || ring.c.pc.LatchSent?
  }

  predicate ArmDone(pc: ProducerPc) {
    ProducerChecking(pc) || pc.Idle?
  }

  predicate Waits(c: Ctl, ring: Ring) {
    && c.run.handled <= Posts(ring)
    && (c.run.readsPaused && !c.run.failureLatched && c.pc.AtRest? ==> WillHear(c, ring))
    && ((c.pc.OpenArming? || c.pc.MessageArming? || c.pc.ResumeArming?) && !c.run.failureLatched && ArmDone(ring.p.pc)
        ==> WillHear(c, ring))
    && (ring.sh.failureSent && !c.run.failureLatched && !c.run.terminalStarted ==>
          (c.pc.ResumeChecking? && ring.p.pc != Idle(Flag(false))) || c.run.handled < Posts(ring))
  }

  // ------------------------------------------------------------- the invariant

  /** The ring operation a handler has running. */
  function OpOf(pc: CtlPc): Operation {
    match pc
    case AtRest => NoOperation
    case OpenChecking => Pausing
    case MessageChecking => Pausing
    case OpenArming => Arming
    case MessageArming => Arming
    case ResumeArming => Arming
    case Acquiring(_) => Acquisition
    case Publishing(res) => Publication(res.batch, res.target)
    case AcquireDenied => FailedQuery
    case PublishDenied => FailedQuery
    case ResumeChecking => FailedQuery
    case TimeoutChecking => FailedQuery
    case ResumeMeasuring => Measuring
    case Joining => Operation.Join
  }

  /** A read is only outstanding when there is room for its message. */
  predicate RoomToRead(c: Ctl, ring: Ring) {
    PhaseIs(c.net.session, Open) && c.net.session.s.reading ==> Room(ring)
  }

  ghost predicate CtlInv(env: Env, c: Ctl) {
    Shape(c) && Meta(env, c) && History(env, c) && Account(c) && Epochs(c) && Policy(c)
  }

  /** What the controller knows of the ring. */
  predicate Joint(env: Env, c: Ctl, ring: Ring) {
    && OperationOk(OpOf(c.pc), ring)
    && RoomToRead(c, ring)
    && Counted(c, ring)
    && LogMatches(env, c, ring)
    && Waits(c, ring)
  }

  /** The run is over only when the writer thread has ended, and without an error only if
      the writer's result is a success. */
  predicate Finished(c: Ctl, ring: Ring) {
    && (c.pc.Joining? && ring.p.pc.Idle? ==> ring.c.pc.Exited?)
    && (c.run.terminal ==> ring.c.pc.Exited? && (!c.run.error ==> Success(ring)))
  }

  ghost predicate SysInv(env: Env, s: Sys) {
    && Inv(s.ring) && s.ring.targets == |env.symbols|
    && (s.ring.sh.closeRequested ==> s.c.run.terminalStarted)
    && CtlInv(env, s.c)
    && Joint(env, s.c, s.ring)
    && Finished(s.c, s.ring)
  }
}
