/** Safety of the writer ring over every interleaving of its two threads. */
module WriterRingTheorems {
  import opened Types
  import opened WriterRing
  import opened WriterRingInvariants

  /** A step of the system: the I/O thread starts a command or takes an atomic step
      of the running one, or the writer thread takes an atomic step. */
  datatype Step = Begin(cmd: Command) | ProducerTakes | ConsumerTakes(ch: Choice)

  predicate Enabled(s: Ring, step: Step) {
    && |s.slots| == SLOT_COUNT && s.sh.released <= U64_MAX && s.sh.bytesReleased <= U64_MAX
    && s.c.seq_ <= U64_MAX && s.c.bytes <= U64_MAX
    && match step
       case Begin(_) => s.p.pc.Idle?
       case ProducerTakes => ProducerEnabled(s)
       case ConsumerTakes(ch) => ConsumerEnabled(s, ch)
  }

  function Apply(s: Ring, step: Step): Ring
    requires Enabled(s, step)
  {
    match step
    case Begin(cmd) => Start(s, cmd)
    case ProducerTakes => ProducerStep(s)
    case ConsumerTakes(ch) => ConsumerStep(s, ch)
  }

  /** The bounds that Enabled asks for hold in every reachable state: only the
      thread's own guard can disable a step. */
  lemma InvBoundsCounters(s: Ring)
    requires Counters(s) && Bytes(s)
    ensures s.sh.released <= s.c.seq_ <= s.sh.published <= s.p.seq_ <= U64_MAX
    ensures s.sh.bytesReleased <= s.c.bytes <= s.sh.bytesPublished <= s.p.bytes <= U64_MAX
  {
    TotalMonotone(SlotBytes, s.log, s.c.seq_ - One(s.c.pc.ReleaseStoreBytes?), s.c.seq_);
    TotalMonotone(SlotBytes, s.log, s.c.seq_, s.sh.published);
    TotalMonotone(SlotBytes, s.log, s.sh.published, s.p.seq_ - One(s.p.pc.PubStoreBytes?));
    TotalMonotone(SlotBytes, s.log, s.p.seq_ - One(s.p.pc.PubStoreBytes?), s.p.seq_);
  }

  lemma StartKeeps(s: Ring, cmd: Command)
    requires Inv(s) && s.p.pc.Idle?
    ensures Inv(Start(s, cmd))
  {
    StartKeepsCounters(s, cmd);
    StartKeepsBytes(s, cmd);
    StartKeepsContents(s, cmd);
    StartKeepsStopping(s, cmd);
    StartKeepsWritten(s, cmd);
    StartKeepsSignals(s, cmd);
  }

  lemma ProducerStepKeeps(s: Ring)
    requires Inv(s) && Enabled(s, ProducerTakes)
    ensures Inv(ProducerStep(s))
  {
    if InPublishCheck(s.p.pc) {
      PublishCheckKeepsCounters(s);
      PublishCheckKeepsBytes(s);
      PublishCheckKeepsContents(s);
      PublishCheckKeepsStopping(s);
      PublishCheckKeepsWritten(s);
      PublishCheckKeepsSignals(s);
    } else if s.p.pc.PubLoadReleased? {
      PublishCommitKeepsCounters(s);
      PublishCommitKeepsBytes(s);
      PublishCommitKeepsContents(s);
      PublishCommitKeepsStopping(s);
      PublishCommitKeepsWritten(s);
      PublishCommitKeepsSignals(s);
    } else if InPublishStore(s.p.pc) {
      PublishStoreKeepsCounters(s);
      PublishStoreKeepsBytes(s);
      PublishStoreKeepsContents(s);
      PublishStoreKeepsStopping(s);
      PublishStoreKeepsWritten(s);
      PublishStoreKeepsSignals(s);
    } else if InAcquireOrClose(s.p.pc) {
      AcquireOrCloseKeepsCounters(s);
      AcquireOrCloseKeepsBytes(s);
      AcquireOrCloseKeepsContents(s);
      AcquireOrCloseKeepsStopping(s);
      AcquireOrCloseKeepsWritten(s);
      AcquireOrCloseKeepsSignals(s);
    } else {
      ObserveKeepsCounters(s);
      ObserveKeepsBytes(s);
      ObserveKeepsContents(s);
      ObserveKeepsStopping(s);
      ObserveKeepsWritten(s);
      ObserveKeepsSignals(s);
    }
  }

  lemma ConsumerStepKeeps(s: Ring, ch: Choice)
    requires Inv(s) && Enabled(s, ConsumerTakes(ch))
    ensures Inv(ConsumerStep(s, ch))
  {
    if InLoop(s.c.pc) {
      LoopKeepsCounters(s, ch);
      LoopKeepsBytes(s, ch);
      LoopKeepsContents(s, ch);
      LoopKeepsStopping(s, ch);
      LoopKeepsWritten(s, ch);
      LoopKeepsSignals(s, ch);
    } else if InRelease(s.c.pc) {
      ReleaseKeepsCounters(s);
      ReleaseKeepsBytes(s);
      ReleaseKeepsContents(s);
      ReleaseKeepsStopping(s);
      ReleaseKeepsWritten(s);
      ReleaseKeepsWakeup(s);
      ReleaseKeepsResume(s);
    } else if InStop(s.c.pc) {
      StopKeepsCounters(s, ch);
      StopKeepsBytes(s, ch);
      StopKeepsContents(s, ch);
      StopKeepsStopping(s, ch);
      StopKeepsWritten(s, ch);
      StopKeepsSignals(s, ch);
    } else {
      SleepKeepsCounters(s, ch);
      SleepKeepsBytes(s, ch);
      SleepKeepsContents(s, ch);
      SleepKeepsStopping(s, ch);
      SleepKeepsWritten(s, ch);
      SleepKeepsSignals(s, ch);
    }
  }

  lemma StepKeeps(s: Ring, step: Step)
    requires Inv(s) && Enabled(s, step)
    ensures Inv(Apply(s, step))
  {
    match step
    case Begin(cmd) => StartKeeps(s, cmd);
    case ProducerTakes => ProducerStepKeeps(s);
    case ConsumerTakes(ch) => ConsumerStepKeeps(s, ch);
  }

  // ---------------------------------------------------------------- runs

  /** Each step is enabled in the state the earlier ones lead to. */
  predicate Legal(s: Ring, steps: seq<Step>)
    decreases |steps|
  {
    steps == [] || (Enabled(s, steps[0]) && Legal(Apply(s, steps[0]), steps[1..]))
  }

  function Execute(s: Ring, steps: seq<Step>): Ring
    requires Legal(s, steps)
    decreases |steps|
  {
    if steps == [] then s else Execute(Apply(s, steps[0]), steps[1..])
  }

  lemma RunCons(s: Ring, step: Step, rest: seq<Step>)
    requires Enabled(s, step) && Legal(Apply(s, step), rest)
    ensures Legal(s, [step] + rest) && Execute(s, [step] + rest) == Execute(Apply(s, step), rest)
  {
    assert ([step] + rest)[1..] == rest;
  }

  /** Every reachable state satisfies the invariant. */
  lemma {:induction false} RunKeeps(s: Ring, steps: seq<Step>)
    requires Inv(s) && Legal(s, steps)
    ensures Inv(Execute(s, steps))
    decreases |steps|
  {
    if steps != [] {
      StepKeeps(s, steps[0]);
      RunKeeps(Apply(s, steps[0]), steps[1..]);
    }
  }

  lemma ReachableInv(init: Ring, steps: seq<Step>)
    requires Init(init) && Legal(init, steps)
    ensures Inv(Execute(init, steps))
  {
    InitEstablishes(init);
    RunKeeps(init, steps);
  }

  /** In every interleaving: no counter subtraction underflows, the batches handed over are
      a prefix of those published, no arming is answered twice and the failure callback is
      made at most once. */
  lemma RingRunsAreSafe(init: Ring, steps: seq<Step>)
    requires Init(init) && Legal(init, steps)
    ensures var s := Execute(init, steps);
            && s.sh.released <= s.c.seq_ <= s.sh.published <= s.p.seq_ <= U64_MAX
            && s.sh.bytesReleased <= s.c.bytes <= s.sh.bytesPublished <= s.p.bytes <= U64_MAX
            && s.p.seq_ - s.sh.released <= SLOT_COUNT
            && s.handed <= s.log && |s.log| == s.p.seq_
            && s.sh.resumes + One(s.sh.armed) <= s.sh.arms && s.sh.failures <= 1
  {
    ReachableInv(init, steps);
    InvBoundsCounters(Execute(init, steps));
  }

  // ----------------------------------------------------------- ownership

  /** The slot the producer holds, or has just committed and not yet published, is
      none of the slots the consumer may read or clear. */
  lemma SlotsAreDisjoint(s: Ring, i: nat)
    requires Counters(s) && s.sh.released <= i < s.sh.published
    ensures s.p.acquired ==> i % SLOT_COUNT != HeldIndex(s)
    ensures Unpublished(s.p.pc) ==> i % SLOT_COUNT != (s.p.seq_ - 1) % SLOT_COUNT
  {
  }

  // ------------------------------------------------------ queue refinement

  /** The abstract queue: published and not yet released. */
  function Queue(s: Ring): seq<Slot>
    requires Counters(s) && |s.log| == s.p.seq_
  {
    s.log[s.c.seq_..s.sh.published]
  }

  /** Only two atomic steps change the queue: the store of published_sequence enqueues
      the committed slot, and the release of a slot dequeues the head. */
  ghost predicate QueueStep(s: Ring, step: Step, r: Ring)
    requires Counters(s) && |s.log| == s.p.seq_ && Counters(r) && |r.log| == r.p.seq_
  {
    if step.ProducerTakes? && s.p.pc.PubStoreSequence? then
      Queue(r) == Queue(s) + [s.log[s.sh.published]]
    else if step.ConsumerTakes? && s.c.pc.ReleaseClear? then
      Queue(s) != [] && Queue(r) == Queue(s)[1..]
    else Queue(r) == Queue(s)
  }

  /** What a step of the producer changes of the queue. */
  lemma ProducerEffect(s: Ring)
    requires Enabled(s, ProducerTakes)
    ensures var r := ProducerStep(s);
            && r.c.seq_ == s.c.seq_ && s.log <= r.log
            && r.sh.published == if s.p.pc.PubStoreSequence? then s.p.seq_ else s.sh.published
  {
  }

  /** What a step of the consumer changes of the queue. */
  lemma ConsumerEffect(s: Ring, ch: Choice)
    requires Enabled(s, ConsumerTakes(ch))
    ensures var r := ConsumerStep(s, ch);
            && r.log == s.log && r.sh.published == s.sh.published
            && r.c.seq_ == s.c.seq_ + One(s.c.pc.ReleaseClear?)
  {
  }

  lemma StepRefinesQueue(s: Ring, step: Step)
    requires Enabled(s, step) && var r := Apply(s, step);
             Counters(s) && |s.log| == s.p.seq_ && Counters(r) && |r.log| == r.p.seq_
    ensures QueueStep(s, step, Apply(s, step))
  {
    match step
    case Begin(_) =>
    case ProducerTakes => ProducerEffect(s);
    case ConsumerTakes(ch) => ConsumerEffect(s, ch);
  }

  /** write_batch is always given the head of the queue. */
  lemma WriteTakesHead(s: Ring, ch: Choice)
    requires Core(s) && s.c.pc.Write? && Enabled(s, ConsumerTakes(ch))
    ensures Queue(s) != [] && NextSlot(s) == Queue(s)[0]
    ensures ConsumerStep(s, ch).handed == s.handed + [Queue(s)[0]]
  {
    assert s.log[s.c.seq_] == Queue(s)[0];
  }

  // -------------------------------------------------- failure is final

  /** The failure handshake is over, or a close was requested. */
  predicate Settled(s: Ring) {
    !Committing(s.p.pc) && (s.sh.failed || (s.sh.closeRequested && !s.p.pc.PubLoadFailed?))
  }

  lemma HandshakeSettles(s: Ring)
    requires Inv(s) && (s.sh.closeRequested || (s.sh.failed && !Handshaking(s.c.pc)))
    ensures Settled(s)
  {
  }

  lemma SettledProducerStep(s: Ring)
    requires Settled(s) && Enabled(s, ProducerTakes)
    ensures Settled(ProducerStep(s)) && ProducerStep(s).log == s.log
  {
  }

  lemma SettledConsumerStep(s: Ring, ch: Choice)
    requires Settled(s) && Enabled(s, ConsumerTakes(ch))
    ensures Settled(ConsumerStep(s, ch)) && ConsumerStep(s, ch).log == s.log
  {
  }

  lemma SettledStep(s: Ring, step: Step)
    requires Settled(s) && Enabled(s, step)
    ensures Settled(Apply(s, step)) && Apply(s, step).log == s.log
  {
    match step
    case Begin(_) =>
    case ProducerTakes => SettledProducerStep(s);
    case ConsumerTakes(ch) => SettledConsumerStep(s, ch);
  }

  /** After the handshake no run publishes anything more, whatever the producer tries. */
  lemma {:induction false} FailureIsFinal(s: Ring, steps: seq<Step>)
    requires Settled(s) && Legal(s, steps)
    ensures Execute(s, steps).log == s.log && Settled(Execute(s, steps))
    decreases |steps|
  {
    if steps != [] {
      SettledStep(s, steps[0]);
      FailureIsFinal(Apply(s, steps[0]), steps[1..]);
    }
  }

  /** The number of producer steps until publish_active is cleared is at most this. */
  function SpinDistance(pc: ProducerPc): nat {
    match pc
    case PubLoadClose => 6
    case PubLoadFailed => 5
    case PubLoadReleased => 4
    case PubStoreBytes => 3
    case PubStoreSequence => 2
    case PubStoreInactive => 1
    case PubReject(_) => 1
    case _ => 0
  }

  predicate InSpin(s: Ring) {
    s.sh.active && SpinDistance(s.p.pc) > 0
  }

  /** A step of the producer comes closer to clearing publish_active. */
  lemma SpinCloser(s: Ring)
    requires InSpin(s) && Enabled(s, ProducerTakes)
    ensures var r := ProducerStep(s);
            SpinDistance(r.p.pc) < SpinDistance(s.p.pc) && (r.sh.active <==> SpinDistance(r.p.pc) > 0)
  {
  }

  /** While publish_active is set the producer can always move, and a step of the writer
      thread takes it no step back. */
  lemma SpinAdvances(s: Ring, step: Step)
    requires InSpin(s) && Enabled(s, step)
    ensures Enabled(s, ProducerTakes) && !step.Begin?
    ensures var r := Apply(s, step);
            && SpinDistance(r.p.pc) + (if step.ProducerTakes? then 1 else 0) <= SpinDistance(s.p.pc)
            && (r.sh.active <==> SpinDistance(r.p.pc) > 0)
  {
    match step
    case Begin(_) =>
    case ProducerTakes => SpinCloser(s);
    case ConsumerTakes(ch) => SpinUnmoved(s, ch);
  }

  lemma SpinUnmoved(s: Ring, ch: Choice)
    requires Enabled(s, ConsumerTakes(ch))
    ensures var r := ConsumerStep(s, ch); r.p == s.p && r.sh.active == s.sh.active
  {
  }

  function ProducerSteps(steps: seq<Step>): nat {
    if steps == [] then 0 else ProducerSteps(steps[1..]) + if steps[0].ProducerTakes? then 1 else 0
  }

  /** publish_active is set in every state of the run. */
  predicate ActiveThroughout(s: Ring, steps: seq<Step>)
    requires Legal(s, steps)
    decreases |steps|
  {
    s.sh.active && (steps == [] || ActiveThroughout(Apply(s, steps[0]), steps[1..]))
  }

  lemma {:induction false} SpinBound(s: Ring, steps: seq<Step>)
    requires InSpin(s) && Legal(s, steps) && ActiveThroughout(s, steps)
    ensures ProducerSteps(steps) + SpinDistance(Execute(s, steps).p.pc) <= SpinDistance(s.p.pc)
    ensures InSpin(Execute(s, steps))
    decreases |steps|
  {
    if steps != [] {
      SpinAdvances(s, steps[0]);
      SpinBound(Apply(s, steps[0]), steps[1..]);
    }
  }

  /** The last of the steps. */
  lemma SpinStops(s: Ring)
    requires Inv(s) && InSpin(s)
    ensures Enabled(s, ProducerTakes)
    ensures SpinDistance(s.p.pc) == 1 ==> !ProducerStep(s).sh.active
  {
    InvBoundsCounters(s);
    SpinCloser(s);
  }

  /** The writer's spin on publish_active cannot hang.  In every run of both threads that
      keeps it set the producer takes at most five steps, and it can take another one; its
      sixth step at the latest clears it. */
  lemma SpinEnds(s: Ring, steps: seq<Step>)
    requires Inv(s) && Legal(s, steps) && ActiveThroughout(s, steps)
    ensures ProducerSteps(steps) <= 5 && Enabled(Execute(s, steps), ProducerTakes)
    ensures ProducerSteps(steps) == 5 ==> !Apply(Execute(s, steps), ProducerTakes).sh.active
  {
    SpinBound(s, steps);
    RunKeeps(s, steps);
    SpinStops(Execute(s, steps));
  }

  // ------------------------------------------------- accounting at thread exit

  predicate Success(s: Ring) {
    !s.c.error && s.c.auditUnwritten == 0 && s.c.bookUnwritten == 0
  }

  /** When the writer thread has ended the ring is empty, rows are conserved, and the
      result is a success exactly when no output error occurred; then every batch was
      handed over and every published row is in its file. */
  lemma ExitAccounting(s: Ring)
    requires Inv(s) && s.c.pc.Exited?
    ensures s.c.seq_ == s.sh.released == s.sh.published == s.p.seq_ && Queue(s) == []
    ensures s.p.auditRows == s.c.out.auditWritten + s.c.auditUnwritten
    ensures s.p.bookRows == s.c.out.bookWritten + s.c.bookUnwritten
    ensures Success(s) <==> !s.c.error
    ensures Success(s) ==> s.handed == s.log
                           && s.p.auditRows == s.c.out.auditWritten && s.p.bookRows == s.c.out.bookWritten
  {
    if !s.c.error {
      assert |s.handed| == s.c.seq_;
      assert s.log[..|s.log|] == s.log;
    }
  }

  // ------------------------------------------------------------- signals

  /** An armed resume notification outside the two check windows means the queue is
      not below the resume marks; and no arming is answered twice. */
  lemma ArmedMeansNotBelow(s: Ring)
    requires Inv(s) && s.sh.armed && !ConsumerChecking(s.c.pc) && !ProducerChecking(s.p.pc)
    ensures !Below(s) && s.sh.resumes < s.sh.arms
  {
  }

  /** When both threads are at rest the queue is empty and nothing is left armed. */
  lemma QuiescentMeansDrained(s: Ring)
    requires Inv(s) && s.c.pc == Waiting(false) && s.p.pc.Idle?
    ensures Queue(s) == [] && s.p.bytes == s.sh.bytesReleased && !s.sh.armed
  {
  }

  /** How many producer steps a pending wake-up is away. */
  function WakeDistance(pc: ProducerPc): nat
    requires WakePending(pc)
  {
    match pc
    case PubStoreInactive => 4
    case PubLoadSleeping => 3
    case PubLock => 2
    case PubNotify => 1
  }

  lemma WakeAdvances(s: Ring)
    requires Counters(s) && Bytes(s) && NoLostWakeup(s)
    requires s.c.pc == Waiting(false) && s.sh.published != s.c.seq_
    ensures WakePending(s.p.pc) && Enabled(s, ProducerTakes)
    ensures var r := ProducerStep(s);
            if s.p.pc.PubNotify? then r.c.pc == Waiting(true)
            else && r.c == s.c && r.sh.published == s.sh.published
                 && WakePending(r.p.pc) && WakeDistance(r.p.pc) < WakeDistance(s.p.pc)
  {
    InvBoundsCounters(s);
  }

  /** These steps can be taken and wake the consumer. */
  predicate Wakes(s: Ring, steps: seq<Step>) {
    Legal(s, steps) && Execute(s, steps).c.pc == Waiting(true)
  }

  lemma WakesCons(s: Ring, rest: seq<Step>)
    requires Enabled(s, ProducerTakes) && Wakes(Apply(s, ProducerTakes), rest)
    ensures Wakes(s, [ProducerTakes] + rest)
  {
    RunCons(s, ProducerTakes, rest);
  }

  /** The situation in which a wake-up is pending, distance producer steps away. */
  ghost predicate AsleepOverWork(s: Ring, distance: nat) {
    && Counters(s) && Bytes(s) && NoLostWakeup(s) && NoLostResume(s)
    && s.c.pc == Waiting(false) && s.sh.published != s.c.seq_
    && WakePending(s.p.pc) && WakeDistance(s.p.pc) == distance
  }

  /** One step of the producer wakes the consumer or comes closer to it. */
  lemma WakeLink(s: Ring, distance: nat) returns (d: nat)
    requires AsleepOverWork(s, distance)
    ensures Enabled(s, ProducerTakes) && d < distance
    ensures if distance == 1 then Wakes(Apply(s, ProducerTakes), []) else AsleepOverWork(Apply(s, ProducerTakes), d)
  {
    WakeAdvances(s);
    PublishStoreKeepsCounters(s);
    PublishStoreKeepsBytes(s);
    PublishStoreKeepsSignals(s);
    var r := Apply(s, ProducerTakes);
    d := if distance == 1 then 0 else WakeDistance(r.p.pc);
  }

  lemma {:induction false} WakeChain(s: Ring, distance: nat) returns (steps: seq<Step>)
    requires AsleepOverWork(s, distance)
    ensures 1 <= |steps| <= distance && (forall i | 0 <= i < |steps| :: steps[i] == ProducerTakes) && Wakes(s, steps)
    decreases distance
  {
    var d := WakeLink(s, distance);
    var rest := [];
    if distance != 1 {
      rest := WakeChain(Apply(s, ProducerTakes), d);
    }
    WakesCons(s, rest);
    steps := [ProducerTakes] + rest;
  }

  /** A consumer asleep over unconsumed work is woken within four steps of the
      producer, none of which can block. */
  lemma PendingWakeArrives(s: Ring) returns (steps: seq<Step>)
    requires Inv(s) && s.c.pc == Waiting(false) && s.sh.published != s.c.seq_
    ensures 1 <= |steps| <= 4 && forall i | 0 <= i < |steps| :: steps[i] == ProducerTakes
    ensures Wakes(s, steps)
  {
    WakeAdvances(s);
    steps := WakeChain(s, WakeDistance(s.p.pc));
  }
}
