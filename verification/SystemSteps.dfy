/** How the controller and the ring move together: every step of the system keeps the
    invariant that joins the two. */
module SystemSteps {
  import opened Types
  import opened LivePipeline
  import opened WriterRing
  import opened WriterRingInvariants
  import opened WriterRingTheorems
  import opened RingRoom
  import opened Controller
  import opened System
  import opened SystemProofs

  // ------------------------------------------------------- the writer thread steps

  /** What else a step of the writer thread does to its failure callback. */
  lemma ConsumerPosts(s: Ring, ch: Choice)
    requires Enabled(s, ConsumerTakes(ch))
    ensures var r := ConsumerStep(s, ch);
            && (s.c.pc.LatchSent? ==> r.sh.failures == s.sh.failures + One(!s.sh.failureSent))
            && (r.sh.failureSent <==> s.sh.failureSent || s.c.pc.LatchSent?)
  {
  }

  lemma ConsumerKeepsWaits(c: Ctl, s: Ring, ch: Choice)
    requires Shape(c) && Waits(c, s) && Counters(s) && Bytes(s) && Enabled(s, ConsumerTakes(ch))
    ensures Waits(c, ConsumerStep(s, ch))
  {
    ConsumerStepLeaves(s, ch);
    ConsumerPosts(s, ch);
  }

  lemma ConsumerKeepsJoint(env: Env, c: Ctl, s: Ring, ch: Choice)
    requires Inv(s) && Shape(c) && Joint(env, c, s) && Enabled(s, ConsumerTakes(ch))
    ensures var r := ConsumerStep(s, ch);
            Inv(r) && r.targets == s.targets && r.sh.closeRequested == s.sh.closeRequested && Joint(env, c, r)
  {
    ConsumerStepKeeps(s, ch);
    ConsumerStepLeaves(s, ch);
    ConsumerKeepsOperation(OpOf(c.pc), s, ch);
    ConsumerKeepsWaits(c, s, ch);
  }

  lemma ConsumerKeepsFinished(c: Ctl, s: Ring, ch: Choice)
    requires Finished(c, s) && Counters(s) && Bytes(s) && Enabled(s, ConsumerTakes(ch))
    ensures Finished(c, ConsumerStep(s, ch))
  {
    ConsumerStepLeaves(s, ch);
  }

  lemma ConsumerKeepsSystem(env: Env, s: Sys, ch: Choice)
    requires SysInv(env, s) && SysEnabled(s, RingConsumer(ch))
    ensures SysInv(env, SysApply(env, s, RingConsumer(ch)))
  {
    ConsumerKeepsJoint(env, s.c, s.ring, ch);
    ConsumerKeepsFinished(s.c, s.ring, ch);
  }

  // ------------------------------------------------- the running operation steps

  /** What one step of the running operation does to what the two threads share. */
  predicate ProducerLeaves(s: Ring, r: Ring) {
    && r.targets == s.targets && r.sh.released == s.sh.released && r.sh.bytesReleased == s.sh.bytesReleased
    && (r.sh.closeRequested <==> s.sh.closeRequested || s.p.pc.CloseStore?)
    && r.sh.failures == s.sh.failures && r.sh.failureSent == s.sh.failureSent && r.c.pc.LatchSent? == s.c.pc.LatchSent?
    && (!s.p.pc.PubLoadReleased? ==> r.log == s.log && r.p.seq_ == s.p.seq_ && r.p.bytes == s.p.bytes)
    && FlagStep(s, r)
  }

  /** The resume flag and its posts. */
  predicate FlagStep(s: Ring, r: Ring) {
    && (r.sh.armed <==> s.p.pc.ArmStore? || (s.sh.armed && !s.p.pc.ArmExchange?))
    && r.sh.resumes == s.sh.resumes + One(s.p.pc.ArmExchange? && s.sh.armed)
    && (ArmDone(r.p.pc) && InArm(s.p.pc) && !ArmDone(s.p.pc) ==>
          s.p.pc.ArmStore? || (s.p.pc.ArmLoadClose? && s.sh.closeRequested) || (s.p.pc.ArmLoadFailed? && s.sh.failed))
    && (s.p.pc.FailedLoad? ==> r.p.pc == Idle(Flag(s.sh.failed)))
  }

  lemma CheckLeaves(s: Ring)
    requires |s.slots| == SLOT_COUNT && InPublishCheck(s.p.pc)
    ensures ProducerLeaves(s, PublishCheck(s))
  {
  }

  lemma CommitLeaves(s: Ring)
    requires |s.slots| == SLOT_COUNT && s.sh.bytesReleased <= U64_MAX && s.p.pc.PubLoadReleased?
    ensures ProducerLeaves(s, PublishCommit(s))
  {
  }

  lemma StoreLeaves(s: Ring)
    requires InPublishStore(s.p.pc)
    ensures ProducerLeaves(s, PublishStore(s))
  {
  }

  lemma AcquireOrCloseLeaves(s: Ring)
    requires |s.slots| == SLOT_COUNT && s.sh.released <= U64_MAX && InAcquireOrClose(s.p.pc)
    ensures ProducerLeaves(s, AcquireOrClose(s))
  {
  }

  lemma ObserveLeaves(s: Ring)
    requires InObserve(s.p.pc)
    ensures ProducerLeaves(s, Observe(s))
  {
  }

  lemma ProducerStepLeaves(s: Ring)
    requires Enabled(s, ProducerTakes)
    ensures ProducerLeaves(s, ProducerStep(s))
  {
    if InPublishCheck(s.p.pc) {
      CheckLeaves(s);
    } else if s.p.pc.PubLoadReleased? {
      CommitLeaves(s);
    } else if InPublishStore(s.p.pc) {
      StoreLeaves(s);
    } else if InAcquireOrClose(s.p.pc) {
      AcquireOrCloseLeaves(s);
    } else {
      ObserveLeaves(s);
    }
  }

  /** The log grows exactly when a publication commits, by the batch in hand. */
  predicate Grows(op: Operation, s: Ring, r: Ring) {
    && (op.Publication? && Committed(s.p.pc) ==> Committed(r.p.pc))
    && if op.Publication? && !Committed(s.p.pc) && Committed(r.p.pc)
       then r.log == s.log + [Slot(op.batch, op.target, BatchBytes(op.batch))] && r.p.seq_ == s.p.seq_ + 1
       else r.log == s.log && r.p.seq_ == s.p.seq_
  }

  lemma CommitGrows(op: Operation, s: Ring)
    requires OperationOk(op, s) && s.p.pc.PubLoadReleased? && s.sh.bytesReleased <= U64_MAX
    ensures Grows(op, s, PublishCommit(s))
  {
  }

  /** Outside the commit a step neither enters nor leaves the committed points. */
  lemma CommittedStays(op: Operation, s: Ring)
    requires OperationOk(op, s) && op.Publication? && Enabled(s, ProducerTakes) && !s.p.pc.PubLoadReleased?
    ensures Committed(ProducerStep(s).p.pc) == Committed(s.p.pc)
  {
  }

  lemma ProducerGrows(op: Operation, s: Ring)
    requires OperationOk(op, s) && Enabled(s, ProducerTakes)
    ensures Grows(op, s, ProducerStep(s))
  {
    if s.p.pc.PubLoadReleased? {
      CommitGrows(op, s);
    } else {
      ProducerStepLeaves(s);
      if op.Publication? {
        CommittedStays(op, s);
      }
    }
  }

  lemma GrowthKeepsLog(env: Env, c: Ctl, s: Ring, r: Ring)
    requires Shape(c) && Counted(c, s) && LogMatches(env, c, s) && Grows(OpOf(c.pc), s, r)
    ensures Counted(c, r) && LogMatches(env, c, r)
  {
  }

  lemma ProducerKeepsWaits(c: Ctl, s: Ring)
    requires Shape(c) && Waits(c, s) && Enabled(s, ProducerTakes) && Handshake(s)
    requires InOperation(OpOf(c.pc), s.p.pc) && (s.sh.closeRequested ==> c.run.terminalStarted)
    ensures Waits(c, ProducerStep(s))
  {
    ProducerStepLeaves(s);
  }

  lemma ProducerKeepsRoomToRead(c: Ctl, s: Ring)
    requires Shape(c) && RoomToRead(c, s) && InOperation(OpOf(c.pc), s.p.pc) && Enabled(s, ProducerTakes)
    ensures RoomToRead(c, ProducerStep(s))
  {
    ProducerStepLeaves(s);
  }

  lemma ProducerKeepsJoint(env: Env, c: Ctl, s: Ring)
    requires Counters(s) && Bytes(s) && NoLostResume(s) && Handshake(s) && Enabled(s, ProducerTakes)
    requires Shape(c) && (s.sh.closeRequested ==> c.run.terminalStarted) && Joint(env, c, s)
    ensures Joint(env, c, ProducerStep(s))
  {
    ProducerKeepsOperation(OpOf(c.pc), s);
    ProducerKeepsWaits(c, s);
    ProducerGrows(OpOf(c.pc), s);
    GrowthKeepsLog(env, c, s, ProducerStep(s));
    ProducerKeepsRoomToRead(c, s);
  }

  lemma OnlyJoinCloses(c: Ctl, s: Ring)
    requires Shape(c) && InOperation(OpOf(c.pc), s.p.pc) && Enabled(s, ProducerTakes)
    requires s.sh.closeRequested ==> c.run.terminalStarted
    ensures var r := ProducerStep(s);
            r.targets == s.targets && (r.sh.closeRequested ==> c.run.terminalStarted)
  {
    ProducerStepLeaves(s);
  }

  lemma ProducerKeepsFinished(c: Ctl, s: Ring)
    requires Finished(c, s) && InOperation(OpOf(c.pc), s.p.pc) && Enabled(s, ProducerTakes)
    ensures Finished(c, ProducerStep(s))
  {
  }

  lemma ProducerKeepsSystem(env: Env, s: Sys)
    requires SysInv(env, s) && SysEnabled(s, RingProducer)
    ensures SysInv(env, SysApply(env, s, RingProducer))
  {
    ProducerStepKeeps(s.ring);
    OnlyJoinCloses(s.c, s.ring);
    ProducerKeepsJoint(env, s.c, s.ring);
    ProducerKeepsFinished(s.c, s.ring);
  }

  // ---------------------------------------------------- a handler asks for an operation

  /** The commands a handler issues go with the point it continues at. */
  predicate Asks(pc: CtlPc, cmds: seq<Command>) {
    match pc
    case AtRest => cmds == [] || cmds == [Cancel]
    case OpenChecking => cmds == [ShouldPause]
    case MessageChecking => cmds == [ShouldPause]
    case OpenArming => cmds == [Arm]
    case MessageArming => cmds == [Arm]
    case ResumeArming => cmds == [Arm]
    case Acquiring(_) => cmds == [TryAcquire]
    case Publishing(res) => cmds == [Fill(res.batch), Publish(res.target)]
    case AcquireDenied => cmds == [Failed]
    case PublishDenied => cmds == [Failed]
    case ResumeChecking => cmds == [Failed]
    case TimeoutChecking => cmds == [Failed]
    case ResumeMeasuring => cmds == [BelowResume]
    case Joining => cmds == [Command.Join] || cmds == [Cancel, Command.Join]
  }

  /** A held slot is given up or filled first; acquiring and filling happen with room. */
  predicate MayAsk(ring: Ring, pc: CtlPc, cmds: seq<Command>) {
    && |ring.slots| == SLOT_COUNT && ring.p.pc.Idle? && Expected(ring.p.pc.ret) && Asks(pc, cmds)
    && (ring.p.acquired <==> cmds != [] && (cmds[0].Cancel? || cmds[0].Fill?))
    && (pc.Acquiring? ==> Room(ring))
    && (pc.Publishing? ==> Room(ring) && Fits(pc.res.batch, pc.res.target, ring.targets))
  }

  /** Starting an operation leaves what the threads share and what has been published. */
  predicate StartLeaves(s: Ring, r: Ring) {
    && r.sh == s.sh && r.c == s.c && r.log == s.log && r.handed == s.handed && r.targets == s.targets
    && r.p.seq_ == s.p.seq_ && r.p.bytes == s.p.bytes
  }

  lemma IssueOne(ring: Ring, cmd: Command)
    requires |ring.slots| == SLOT_COUNT && ring.p.pc.Idle?
    ensures Issue(ring, [cmd]) == Start(ring, cmd)
  {
    assert [cmd][1..] == [];
  }

  lemma IssueTwo(ring: Ring, first: Command, second: Command)
    requires |ring.slots| == SLOT_COUNT && ring.p.pc.Idle? && (first.Cancel? || first.Fill?)
    ensures Issue(ring, [first, second]) == Start(Start(ring, first), second)
  {
    assert [first, second][1..] == [second];
    IssueOne(Start(ring, first), second);
  }

  lemma {:induction false} IssueKeeps(ring: Ring, cmds: seq<Command>)
    requires Inv(ring) && ring.p.pc.Idle?
    ensures Inv(Issue(ring, cmds)) && StartLeaves(ring, Issue(ring, cmds))
    decreases |cmds|
  {
    if cmds != [] {
      StartKeeps(ring, cmds[0]);
      if Start(ring, cmds[0]).p.pc.Idle? {
        IssueKeeps(Start(ring, cmds[0]), cmds[1..]);
      }
    }
  }

  /** Where an operation begins. */
  predicate Begun(pc: CtlPc, p: ProducerPc) {
    match OpOf(pc)
    case NoOperation => p.Idle?
    case Pausing => p.PauseLoadReleased?
    case Arming => p.ArmLoadClose?
    case Acquisition => p.AcqLoadClose?
    case Publication(_, _) => p.PubStoreActive?
    case FailedQuery => p.FailedLoad?
    case Measuring => p.BelowLoadReleased?
    case Join => p == CloseStore(true)
  }

  lemma StartBegins(ring: Ring, pc: CtlPc, cmd: Command)
    requires MayAsk(ring, pc, [cmd])
    ensures Begun(pc, Start(ring, cmd).p.pc) && OperationOk(OpOf(pc), Start(ring, cmd))
  {
  }

  lemma FillPublishBegins(ring: Ring, pc: CtlPc)
    requires pc.Publishing? && MayAsk(ring, pc, [Fill(pc.res.batch), Publish(pc.res.target)])
    ensures var r := Start(Start(ring, Fill(pc.res.batch)), Publish(pc.res.target));
            Begun(pc, r.p.pc) && OperationOk(OpOf(pc), r)
  {
  }

  lemma CancelJoinBegins(ring: Ring, pc: CtlPc)
    requires pc.Joining? && MayAsk(ring, pc, [Cancel, Command.Join])
    ensures var r := Start(Start(ring, Cancel), Command.Join);
            Begun(pc, r.p.pc) && OperationOk(OpOf(pc), r)
  {
  }

  function Issued(ring: Ring, cmds: seq<Command>): Ring
    requires |ring.slots| == SLOT_COUNT && ring.p.pc.Idle?
  {
    if cmds == [] then ring else Issue(ring, cmds)
  }

  lemma AskBegins(ring: Ring, pc: CtlPc, cmds: seq<Command>)
    requires Inv(ring) && MayAsk(ring, pc, cmds)
    ensures var r := Issued(ring, cmds);
            Inv(r) && StartLeaves(ring, r) && Begun(pc, r.p.pc) && OperationOk(OpOf(pc), r)
  {
    IssueKeeps(ring, cmds);
    if cmds == [] {
    } else if |cmds| == 1 {
      IssueOne(ring, cmds[0]);
      StartBegins(ring, pc, cmds[0]);
      assert cmds == [cmds[0]];
    } else if pc.Publishing? {
      IssueTwo(ring, cmds[0], cmds[1]);
      FillPublishBegins(ring, pc);
    } else {
      IssueTwo(ring, cmds[0], cmds[1]);
      CancelJoinBegins(ring, pc);
    }
  }

  lemma HandlerKeepsFinished(c: Ctl, d: Ctl, s: Ring, r: Ring)
    requires Finished(c, s) && r.c == s.c && s.p.pc.Idle? && Begun(d.pc, r.p.pc)
    requires Ends(c, d, Success(s))
    ensures Finished(d, r)
  {
  }

  // --------------------------------------------------------------- an event happens

  predicate Reads(c: Ctl) {
    PhaseIs(c.net.session, Open) && c.net.session.s.reading
  }

  predicate GivesUpSlot(cmds: seq<Command>) {
    cmds != [] && (cmds[0].Cancel? || cmds[0].Fill?)
  }

  /** What a reaction to an event changes of what the ring is compared with. */
  predicate Reaction(c: Ctl, d: Ctl, cmds: seq<Command>, posted: bool) {
    && Asks(d.pc, cmds) && !GivesUpSlot(cmds)
    && !d.pc.Publishing? && !d.pc.PublishDenied? && OpOf(d.pc) != Arming
    && (d.pc.Acquiring? || Reads(d) ==> Reads(c))
    && d.metrics.lost == c.metrics.lost && d.metrics.published == c.metrics.published
    && (c.run.terminalStarted ==> d.run.terminalStarted)
    && (c.run.failureLatched ==> d.run.failureLatched)
    && (d.run.readsPaused ==> c.run.readsPaused)
    && d.run.handled == c.run.handled + One(posted)
    && (posted ==> d.pc.ResumeChecking? || d.run.terminalStarted)
  }

  lemma ReadTextReacts(c: Ctl, ts: Timestamp, payload: string)
    requires Shape(c) && c.pc.AtRest? && c.net.session.Current? && c.net.session.s.reading
    ensures var a := OnReadText(c, ts, payload); Reaction(c, a.ctl, a.cmds, false)
  {
  }

  lemma SessionEndReacts(c: Ctl, code: EndCode)
    requires Running(c)
    ensures var a := SessionEnded(c, code); Reaction(c, a.ctl, a.cmds, false)
  {
  }

  lemma StopReacts(c: Ctl)
    requires Shape(c) && c.pc.AtRest?
    ensures var a := OnStop(c); Reaction(c, a.ctl, a.cmds, false)
  {
  }

  lemma EventReacts(c: Ctl, ring: Ring, e: Event)
    requires Shape(c) && c.pc.AtRest? && EventEnabled(c, ring, e) && !e.StopRequest?
    ensures var a := React(c, ring, e); Reaction(c, a.ctl, a.cmds, e.ResumePosted?)
  {
    match e
    case ConnectFailed(code) => SessionEndReacts(c, code);
    case ReadText(ts, payload) => ReadTextReacts(c, ts, payload);
    case ReadEnded(code) => if PhaseIs(c.net.session, Open) { SessionEndReacts(c, code); }
    case CloseDone(code) => SessionEndReacts(c, code);
    case StopOnIo => StopReacts(c);
    case _ =>
  }

  lemma ReactionKeepsWaits(c: Ctl, d: Ctl, cmds: seq<Command>, posted: bool, s: Ring, r: Ring)
    requires Shape(d) && c.pc.AtRest? && Waits(c, s) && Reaction(c, d, cmds, posted)
    requires r.sh == s.sh && r.c == s.c && Begun(d.pc, r.p.pc)
    requires posted ==> c.run.handled < Posts(s)
    ensures Waits(d, r)
  {
  }

  lemma ReactionKeepsLog(env: Env, c: Ctl, d: Ctl, cmds: seq<Command>, posted: bool, s: Ring, r: Ring)
    requires c.pc.AtRest? && Reaction(c, d, cmds, posted) && StartLeaves(s, r)
    requires Counted(c, s) && LogMatches(env, c, s)
    requires TraceOf(env, d.feed.inputs).sent == TraceOf(env, c.feed.inputs).sent
    ensures Counted(d, r) && LogMatches(env, d, r)
  {
  }

  lemma ReactionKeepsJoint(env: Env, c: Ctl, d: Ctl, cmds: seq<Command>, posted: bool, s: Ring)
    requires Inv(s) && Shape(d) && c.pc.AtRest? && Joint(env, c, s) && Reaction(c, d, cmds, posted)
    requires posted ==> c.run.handled < Posts(s)
    requires TraceOf(env, d.feed.inputs).sent == TraceOf(env, c.feed.inputs).sent
    ensures var r := Issued(s, cmds); Inv(r) && StartLeaves(s, r) && Begun(d.pc, r.p.pc) && Joint(env, d, r)
  {
    AskBegins(s, d.pc, cmds);
    var r := Issued(s, cmds);
    ReactionKeepsWaits(c, d, cmds, posted, s, r);
    ReactionKeepsLog(env, c, d, cmds, posted, s, r);
  }

  lemma ReactKeepsCtl(env: Env, c: Ctl, ring: Ring, e: Event)
    requires CtlInv(env, c) && EventEnabled(c, ring, e) && (c.pc.AtRest? || e.StopRequest?)
    ensures var d := React(c, ring, e).ctl;
            CtlInv(env, d) && TraceOf(env, d.feed.inputs).sent == TraceOf(env, c.feed.inputs).sent
  {
    ReactKeepsShape(c, ring, e);
    ReactKeepsBooks(env, c, ring, e);
    ReactKeepsEpochs(c, ring, e);
    ReactKeepsPolicy(c, ring, e);
    ReactFeeds(env, c, ring, e);
    FeedKeepsHistory(env, c, React(c, ring, e).ctl, Answer(env, c));
  }

  lemma StopRequestKeepsJoint(env: Env, c: Ctl, d: Ctl, ring: Ring)
    requires d == c.(run := c.run.(stopRequested := true)) && Joint(env, c, ring)
    ensures Joint(env, d, ring)
  {
  }

  lemma StopRequestKeepsSystem(env: Env, s: Sys)
    requires SysInv(env, s) && SysEnabled(s, Happens(StopRequest))
    ensures SysInv(env, SysApply(env, s, Happens(StopRequest)))
  {
    ReactKeepsCtl(env, s.c, s.ring, StopRequest);
    StopRequestKeepsJoint(env, s.c, React(s.c, s.ring, StopRequest).ctl, s.ring);
  }

  lemma HandledEventKeepsParts(env: Env, c: Ctl, ring: Ring, e: Event)
    requires Inv(ring) && CtlInv(env, c) && Joint(env, c, ring) && Finished(c, ring)
    requires c.pc.AtRest? && ring.p.pc.Idle? && EventEnabled(c, ring, e) && !e.StopRequest?
    requires ring.sh.closeRequested ==> c.run.terminalStarted
    ensures var a := React(c, ring, e);
            var r := Issued(ring, a.cmds);
            && Inv(r) && r.targets == ring.targets && (r.sh.closeRequested ==> a.ctl.run.terminalStarted)
            && CtlInv(env, a.ctl) && Joint(env, a.ctl, r) && Finished(a.ctl, r)
  {
    var a := React(c, ring, e);
    ReactFinishes(c, ring, e);
    ReactKeepsCtl(env, c, ring, e);
    EventReacts(c, ring, e);
    ReactionKeepsJoint(env, c, a.ctl, a.cmds, e.ResumePosted?, ring);
    HandlerKeepsFinished(c, a.ctl, ring, Issued(ring, a.cmds));
  }

  /** What an idle ring and a controller become when an event is handled. */
  lemma EventPerforms(env: Env, s: Sys, e: Event)
    requires SysEnabled(s, Happens(e)) && s.ring.p.pc.Idle?
    ensures var a := React(s.c, s.ring, e); SysApply(env, s, Happens(e)) == Sys(a.ctl, Issued(s.ring, a.cmds))
  {
  }

  lemma PartsMakeSystem(env: Env, c: Ctl, ring: Ring)
    requires Inv(ring) && ring.targets == |env.symbols| && (ring.sh.closeRequested ==> c.run.terminalStarted)
    requires CtlInv(env, c) && Joint(env, c, ring) && Finished(c, ring)
    ensures SysInv(env, Sys(c, ring))
  {
  }

  lemma HandledEventKeepsSystem(env: Env, s: Sys, e: Event)
    requires SysInv(env, s) && SysEnabled(s, Happens(e)) && !e.StopRequest?
    ensures SysInv(env, SysApply(env, s, Happens(e)))
  {
    var a := React(s.c, s.ring, e);
    HandledEventKeepsParts(env, s.c, s.ring, e);
    PartsMakeSystem(env, a.ctl, Issued(s.ring, a.cmds));
    EventPerforms(env, s, e);
  }

  lemma EventKeepsSystem(env: Env, s: Sys, e: Event)
    requires SysInv(env, s) && SysEnabled(s, Happens(e))
    ensures SysInv(env, SysApply(env, s, Happens(e)))
  {
    if e.StopRequest? {
      StopRequestKeepsSystem(env, s);
    } else {
      HandledEventKeepsSystem(env, s, e);
    }
  }

  // ------------------------------------------------------------- a handler goes on

  /** The slot just acquired is used. */
  predicate Takes(c: Ctl, ret: Ret) {
    c.pc.Acquiring? && ret == Acquired
  }

  /** What a handler changes, when it goes on, of what the ring is compared with. */
  predicate Continuation(c: Ctl, d: Ctl, cmds: seq<Command>, ret: Ret, res: PipelineResult) {
    && Asks(d.pc, cmds) && (GivesUpSlot(cmds) <==> Takes(c, ret))
    && !d.pc.Acquiring? && !d.pc.ResumeChecking?
    && (d.pc.Publishing? <==> Takes(c, ret) && res.disposition.BatchReady?)
    && (d.pc.Publishing? ==> d.pc.res == res)
    && (d.pc.PublishDenied? <==> c.pc.Publishing? && ret != Published)
    && (Reads(d) ==> || Reads(c) || Takes(c, ret)
                     || (OpOf(c.pc).Pausing? && ret != Flag(true)) || (OpOf(c.pc).Measuring? && ret == Flag(true)))
    && d.metrics.published == c.metrics.published + One(c.pc.Publishing? && ret == Published)
    && (c.metrics.lost > 0 || c.pc.PublishDenied? ==> d.metrics.lost > 0)
    && (c.run.terminalStarted ==> d.run.terminalStarted)
    && (c.run.failureLatched ==> d.run.failureLatched)
    && d.run.handled == c.run.handled
    && (d.run.readsPaused && d.pc.AtRest? && !d.run.failureLatched ==> OpOf(c.pc).Arming?)
    && (c.pc.ResumeChecking? && ret == Flag(true) ==> d.run.failureLatched || d.run.terminalStarted)
  }

  lemma FailContinues(c: Ctl)
    requires Shape(c) && !c.pc.Joining?
    ensures var a := Fail(c);
            && Asks(a.ctl.pc, a.cmds) && !GivesUpSlot(a.cmds) && (a.ctl.pc.AtRest? || a.ctl.pc.Joining?)
            && (Reads(a.ctl) ==> Reads(c)) && a.ctl.metrics.published == c.metrics.published
            && a.ctl.metrics.lost == c.metrics.lost && a.ctl.run.handled == c.run.handled
            && (c.run.terminalStarted ==> a.ctl.run.terminalStarted)
            && (a.ctl.run.failureLatched || a.ctl.run.terminalStarted)
            && (c.run.failureLatched ==> a.ctl.run.failureLatched)
            && (a.ctl.run.readsPaused ==> a.ctl.run.failureLatched)
  {
  }

  lemma AcquiredContinues(c: Ctl, res: PipelineResult)
    requires Shape(c) && c.pc.Acquiring?
    ensures var a := OnAcquired(c, c.pc.msg, res); Continuation(c, a.ctl, a.cmds, Acquired, res)
  {
    if res.disposition.Fatal? {
      FailContinues(Losing(Delivered(c, c.pc.msg, res)));
    }
  }

  lemma PauseContinues(c: Ctl, arming: CtlPc, ret: Ret, res: PipelineResult)
    requires Shape(c) && (c.pc.OpenChecking? || c.pc.MessageChecking?) && (arming.OpenArming? || arming.MessageArming?)
    ensures var a := PauseOr(c, arming); Continuation(c, a.ctl, a.cmds, ret, res)
    ensures ret != Flag(true) ==> Continuation(c, Return(c), [], ret, res)
  {
  }

  lemma MessageContinues(c: Ctl, ret: Ret, writerOk: bool, res: PipelineResult)
    requires Shape(c) && InMessage(c.pc)
    ensures var a := Continue(c, ret, writerOk, res); Continuation(c, a.ctl, a.cmds, ret, res)
  {
    if Takes(c, ret) {
      AcquiredContinues(c, res);
    } else if c.pc.AcquireDenied? || c.pc.PublishDenied? {
      FailContinues(Losing(c));
    }
  }

  lemma HandlerContinues(c: Ctl, ret: Ret, writerOk: bool, res: PipelineResult)
    requires Shape(c) && InHandler(c.pc)
    ensures var a := Continue(c, ret, writerOk, res); Continuation(c, a.ctl, a.cmds, ret, res)
  {
    if InMessage(c.pc) {
      MessageContinues(c, ret, writerOk, res);
    } else if c.pc.OpenChecking? {
      PauseContinues(c, OpenArming, ret, res);
    } else if c.pc.MessageChecking? {
      PauseContinues(c, MessageArming, ret, res);
    }
  }

  lemma TimeoutContinues(c: Ctl, ret: Ret, writerOk: bool, res: PipelineResult)
    requires Shape(c) && c.pc.TimeoutChecking?
    ensures var a := Continue(c, ret, writerOk, res); Continuation(c, a.ctl, a.cmds, ret, res)
  {
    FailContinues(c);
  }

  lemma FailedCheckContinues(c: Ctl, res: PipelineResult)
    requires Shape(c) && c.pc.ResumeChecking?
    ensures var a := Fail(c); Continuation(c, a.ctl, a.cmds, Flag(true), res)
  {
    FailContinues(c);
  }

  lemma CheckContinues(c: Ctl, ret: Ret, writerOk: bool, res: PipelineResult)
    requires Shape(c) && c.pc.ResumeChecking?
    ensures var a := Continue(c, ret, writerOk, res); Continuation(c, a.ctl, a.cmds, ret, res)
  {
    if ret == Flag(true) {
      FailedCheckContinues(c, res);
    }
  }

  lemma CallbackContinues(c: Ctl, ret: Ret, writerOk: bool, res: PipelineResult)
    requires Shape(c) && !c.pc.AtRest? && !InHandler(c.pc)
    ensures var a := Continue(c, ret, writerOk, res); Continuation(c, a.ctl, a.cmds, ret, res)
  {
    if c.pc.ResumeChecking? {
      CheckContinues(c, ret, writerOk, res);
    } else if c.pc.TimeoutChecking? {
      TimeoutContinues(c, ret, writerOk, res);
    }
  }

  lemma ContinuationKeepsWaits(c: Ctl, d: Ctl, cmds: seq<Command>, ret: Ret, res: PipelineResult, s: Ring, r: Ring)
    requires Waits(c, s) && Continuation(c, d, cmds, ret, res) && s.p.pc == Idle(ret)
    requires InOperation(OpOf(c.pc), s.p.pc)
    requires r.sh == s.sh && r.c == s.c && Begun(d.pc, r.p.pc)
    ensures Waits(d, r)
  {
  }

  /** The batches to publish, after the pipeline's answer has been taken in. */
  predicate SentGrows(before: seq<PipelineResult>, after: seq<PipelineResult>, adds: bool, res: PipelineResult) {
    after == if adds then before + [res] else before
  }

  lemma SlotsOfAppend(sent: seq<PipelineResult>, res: PipelineResult)
    ensures SlotsOf(sent + [res]) == SlotsOf(sent) + [SlotOf(res)]
  {
  }

  lemma ContinuationKeepsCount(c: Ctl, d: Ctl, cmds: seq<Command>, ret: Ret, res: PipelineResult, s: Ring, r: Ring)
    requires Continuation(c, d, cmds, ret, res) && s.p.pc == Idle(ret) && Counted(c, s)
    requires StartLeaves(s, r) && Begun(d.pc, r.p.pc)
    ensures Counted(d, r)
  {
  }

  lemma ContinuationKeepsLog(want: seq<Slot>, c: Ctl, d: Ctl, cmds: seq<Command>, ret: Ret, res: PipelineResult,
                             s: Ring, r: Ring)
    requires c.pc.Acquiring? ==> c.metrics.lost == 0
    requires Continuation(c, d, cmds, ret, res) && s.p.pc == Idle(ret)
    requires r.log == s.log && Begun(d.pc, r.p.pc) && LogIs(want, c, s)
    ensures LogIs(if d.pc.Publishing? then want + [SlotOf(res)] else want, d, r)
  {
  }

  lemma ContinuationMayAsk(env: Env, c: Ctl, d: Ctl, cmds: seq<Command>, ret: Ret, res: PipelineResult, s: Ring)
    requires OperationOk(OpOf(c.pc), s) && s.p.pc == Idle(ret) && Continuation(c, d, cmds, ret, res)
    requires Meta(env, d) && s.targets == |env.symbols|
    ensures MayAsk(s, d.pc, cmds)
  {
  }

  lemma ContinuationKeepsRest(env: Env, c: Ctl, d: Ctl, cmds: seq<Command>, ret: Ret, res: PipelineResult, s: Ring,
                              r: Ring)
    requires s.p.pc == Idle(ret) && Account(c) && Shape(c) && Joint(env, c, s) && Continuation(c, d, cmds, ret, res)
    requires SentGrows(TraceOf(env, c.feed.inputs).sent, TraceOf(env, d.feed.inputs).sent, d.pc.Publishing?, res)
    requires StartLeaves(s, r) && Begun(d.pc, r.p.pc)
    ensures Counted(d, r) && LogMatches(env, d, r) && Waits(d, r)
  {
    ContinuationKeepsWaits(c, d, cmds, ret, res, s, r);
    ContinuationKeepsCount(c, d, cmds, ret, res, s, r);
    ContinuationKeepsLog(SlotsOf(TraceOf(env, c.feed.inputs).sent), c, d, cmds, ret, res, s, r);
    SlotsOfAppend(TraceOf(env, c.feed.inputs).sent, res);
  }

  lemma ContinuationKeepsRoom(c: Ctl, d: Ctl, cmds: seq<Command>, ret: Ret, res: PipelineResult, s: Ring, r: Ring)
    requires OperationOk(OpOf(c.pc), s) && s.p.pc == Idle(ret) && RoomToRead(c, s)
    requires Continuation(c, d, cmds, ret, res) && StartLeaves(s, r)
    ensures RoomToRead(d, r)
  {
  }

  lemma ContinuationKeepsJoint(env: Env, c: Ctl, d: Ctl, cmds: seq<Command>, ret: Ret, res: PipelineResult, s: Ring)
    requires Inv(s) && s.targets == |env.symbols| && s.p.pc == Idle(ret)
    requires Account(c) && Shape(c) && Joint(env, c, s) && Meta(env, d) && Continuation(c, d, cmds, ret, res)
    requires SentGrows(TraceOf(env, c.feed.inputs).sent, TraceOf(env, d.feed.inputs).sent, d.pc.Publishing?, res)
    ensures var r := Issued(s, cmds); Inv(r) && StartLeaves(s, r) && Begun(d.pc, r.p.pc) && Joint(env, d, r)
  {
    ContinuationMayAsk(env, c, d, cmds, ret, res, s);
    AskBegins(s, d.pc, cmds);
    var r := Issued(s, cmds);
    ContinuationKeepsRoom(c, d, cmds, ret, res, s, r);
    ContinuationKeepsRest(env, c, d, cmds, ret, res, s, r);
  }

  /** The answer the pipeline gives for the message in hand is good. */
  lemma AnswerIsGood(env: Env, c: Ctl)
    requires EnvContract(env) && Meta(env, c)
    ensures GoodAnswer(env, c, Answer(env, c))
  {
    if c.pc.Acquiring? {
      MessageIsGood(env, c.feed.pl, c.pc.msg);
    }
  }

  lemma ContinueKeepsCtl(env: Env, c: Ctl, ret: Ret, writerOk: bool, res: PipelineResult)
    requires EnvContract(env) && CtlInv(env, c) && !c.pc.AtRest? && res == Answer(env, c)
    ensures var a := Continue(c, ret, writerOk, res);
            && CtlInv(env, a.ctl) && Continuation(c, a.ctl, a.cmds, ret, res)
            && SentGrows(TraceOf(env, c.feed.inputs).sent, TraceOf(env, a.ctl.feed.inputs).sent,
                         a.ctl.pc.Publishing?, res)
  {
    AnswerIsGood(env, c);
    ContinueKeepsShape(c, ret, writerOk, res);
    ContinueKeepsBooks(env, c, ret, writerOk, res);
    ContinueKeepsEpochs(c, ret, writerOk, res);
    ContinueKeepsPolicy(c, ret, writerOk, res);
    ContinueKeepsFeed(env, c, ret, writerOk, res);
  }

  lemma ContinueKeepsFeed(env: Env, c: Ctl, ret: Ret, writerOk: bool, res: PipelineResult)
    requires Shape(c) && Meta(env, c) && History(env, c) && !c.pc.AtRest? && res == Answer(env, c)
    ensures var a := Continue(c, ret, writerOk, res);
            && History(env, a.ctl) && Continuation(c, a.ctl, a.cmds, ret, res)
            && SentGrows(TraceOf(env, c.feed.inputs).sent, TraceOf(env, a.ctl.feed.inputs).sent,
                         a.ctl.pc.Publishing?, res)
  {
    ContinueFeeds(env, c, ret, writerOk, res);
    FeedKeepsHistory(env, c, Continue(c, ret, writerOk, res).ctl, res);
    if InHandler(c.pc) {
      HandlerContinues(c, ret, writerOk, res);
    } else {
      CallbackContinues(c, ret, writerOk, res);
    }
  }

  lemma GoingOnKeepsParts(env: Env, c: Ctl, ring: Ring, ret: Ret, res: PipelineResult)
    requires EnvContract(env) && Inv(ring) && ring.targets == |env.symbols|
    requires CtlInv(env, c) && Joint(env, c, ring) && Finished(c, ring)
    requires !c.pc.AtRest? && ring.p.pc == Idle(ret) && res == Answer(env, c)
    requires ring.sh.closeRequested ==> c.run.terminalStarted
    ensures var a := Continue(c, ret, Success(ring), res);
            var r := Issued(ring, a.cmds);
            && Inv(r) && r.targets == ring.targets && (r.sh.closeRequested ==> a.ctl.run.terminalStarted)
            && CtlInv(env, a.ctl) && Joint(env, a.ctl, r) && Finished(a.ctl, r)
  {
    var a := Continue(c, ret, Success(ring), res);
    ContinueKeepsCtl(env, c, ret, Success(ring), res);
    ContinueFinishes(c, ret, Success(ring), res);
    ContinuationKeepsJoint(env, c, a.ctl, a.cmds, ret, res, ring);
    HandlerKeepsFinished(c, a.ctl, ring, Issued(ring, a.cmds));
  }

  lemma GoingOnPerforms(env: Env, s: Sys)
    requires SysEnabled(s, GoesOn)
    ensures var a := Continue(s.c, s.ring.p.pc.ret, Success(s.ring), Answer(env, s.c));
            SysApply(env, s, GoesOn) == Sys(a.ctl, Issued(s.ring, a.cmds))
  {
  }

  lemma GoingOnKeepsSystem(env: Env, s: Sys)
    requires EnvContract(env) && SysInv(env, s) && SysEnabled(s, GoesOn)
    ensures SysInv(env, SysApply(env, s, GoesOn))
  {
    var ret, res := s.ring.p.pc.ret, Answer(env, s.c);
    var a := Continue(s.c, ret, Success(s.ring), res);
    GoingOnKeepsParts(env, s.c, s.ring, ret, res);
    PartsMakeSystem(env, a.ctl, Issued(s.ring, a.cmds));
    GoingOnPerforms(env, s);
  }

  // ------------------------------------------------------------------ every step

  lemma SysStepKeeps(env: Env, s: Sys, step: SysStep)
    requires EnvContract(env) && SysInv(env, s) && SysEnabled(s, step)
    ensures SysInv(env, SysApply(env, s, step))
  {
    match step
    case Happens(e) => EventKeepsSystem(env, s, e);
    case GoesOn => GoingOnKeepsSystem(env, s);
    case RingProducer => ProducerKeepsSystem(env, s);
    case RingConsumer(ch) => ConsumerKeepsSystem(env, s, ch);
  }

  lemma SysInitEstablishes(env: Env, s: Sys)
    requires EnvContract(env) && SysInit(env, s)
    ensures SysInv(env, s)
  {
    InitEstablishes(s.ring);
    InitialIsGood(env);
  }
}
