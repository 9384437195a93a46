/** The bounded single-producer, single-consumer ring between the I/O thread
    and the CSV writer thread (src/csv_writer.cpp).

    The two threads are modelled as one step system.  Each step performs at most
    one access to an atomic variable, to the sleep mutex or to the condition
    variable, together with the thread-local work that follows it; the program
    counters of the two threads say which access comes next.  Every interleaving
    of steps is allowed, so the memory model is sequential consistency.  */
module WriterRing {
  import opened Types

  const SLOT_COUNT: nat := 4096
  const BYTE_CAPACITY: nat := 64 * 1024 * 1024
  const PAUSE_SLOTS: nat := 3072
  const RESUME_SLOTS: nat := 2048
  const PAUSE_BYTES: nat := 48 * 1024 * 1024
  const RESUME_BYTES: nat := 32 * 1024 * 1024

  /** Unsigned 64-bit subtraction, wrapping below zero. */
  function Sub64(a: nat, b: nat): nat
    requires b <= U64_MAX
  {
    if b <= a then a - b else a + (U64_MAX + 1 - b)
  }

  // ---------------------------------------------------------------- data

  function BatchBytes(b: Batch): nat {
    |b.audit| + |b.book|
  }

  function AuditRows(b: Batch): nat {
    if b.hasAudit then 1 else 0
  }

  function BookRows(b: Batch): nat {
    if b.hasBook then 1 else 0
  }

  /** The batch contract of a live output set. */
  predicate ValidBatch(b: Batch) {
    && (b.hasAudit || b.hasBook)
    && b.hasAudit == (b.audit != "")
    && b.hasBook == (b.book != "")
    && (b.hasBook ==> b.hasAudit)
  }

  /** One ring slot; target is -1 when no target is set. */
  datatype Slot = Slot(batch: Batch, target: int, bytes: nat)

  const EMPTY_SLOT := Slot(EMPTY_BATCH, -1, 0)

  /** What the output set has taken from the consumer and what is in the files. */
  datatype Output = Output(auditTaken: nat, auditWritten: nat,
                           bookTaken: nat, bookWritten: nat, failed: bool)

  /** The values an operation of the writer can return to the I/O thread. */
  datatype Ret =
    | Done
    | Acquired | AcquireClosed | AcquireFailed | AlreadyAcquired | SlotCapacity
    | Published | NoAcquiredSlot | PublishClosed | PublishFailed | InvalidTarget
    | InvalidBatch | ByteCapacity | CounterOverflow
    | Flag(value: bool)

  datatype ProducerPc =
    | Idle(ret: Ret)
    // try_acquire
    | AcqLoadClose | AcqLoadFailed | AcqLoadReleased
    // publish
    | PubStoreActive | PubLoadClose | PubLoadFailed | PubLoadReleased | PubStoreBytes | PubStoreSequence
    | PubStoreInactive | PubLoadSleeping | PubLock | PubNotify | PubReject(error: Ret)
    // should_pause, below_resume_watermark, failed
    | PauseLoadReleased | PauseLoadBytes | BelowLoadReleased | BelowLoadBytes | FailedLoad
    // arm_resume_notification
    | ArmLoadClose | ArmLoadFailed | ArmStore | ArmLoadReleased | ArmLoadBytes | ArmExchange
    // close, join
    | CloseStore(join: bool) | CloseLock(join: bool) | CloseNotify(join: bool) | JoinWait

  predicate InPublishCheck(pc: ProducerPc) {
    pc.PubStoreActive? || pc.PubLoadClose? || pc.PubLoadFailed? || pc.PubReject?
  }

  predicate InPublishStore(pc: ProducerPc) {
    || pc.PubStoreBytes? || pc.PubStoreSequence? || pc.PubStoreInactive?
    || pc.PubLoadSleeping? || pc.PubLock? || pc.PubNotify?
  }

  predicate InAcquireOrClose(pc: ProducerPc) {
    || pc.AcqLoadClose? || pc.AcqLoadFailed? || pc.AcqLoadReleased?
    || pc.CloseStore? || pc.CloseLock? || pc.CloseNotify? || pc.JoinWait?
  }

  predicate InArm(pc: ProducerPc) {
    || pc.ArmLoadClose? || pc.ArmLoadFailed? || pc.ArmStore? || pc.ArmLoadReleased?
    || pc.ArmLoadBytes? || pc.ArmExchange?
  }

  predicate InObserve(pc: ProducerPc) {
    || pc.PauseLoadReleased? || pc.PauseLoadBytes? || pc.BelowLoadReleased?
    || pc.BelowLoadBytes? || pc.FailedLoad? || InArm(pc)
  }

  /** Where release_slot returns to. */
  datatype AfterRelease = AfterWrite(error: bool) | AfterDiscard

  /** Where latch_output_failure returns to. */
  datatype AfterLatch = LatchedInWrite | LatchedInFlush | LatchedInClose

  datatype ConsumerPc =
    | LoadPublished | InnerCheck | Write
    | ReleaseClear(k: AfterRelease) | ReleaseStoreBytes(k: AfterRelease)
    | ReleaseStoreSequence(k: AfterRelease)
    | NotifyLoadPublished(k: AfterRelease) | NotifyLoadBytes(k: AfterRelease)
    | NotifyExchange(k: AfterRelease)
    | LatchStore(l: AfterLatch) | LatchSent(l: AfterLatch) | LatchSpin(l: AfterLatch)
    | FailedCheck | DiscardLoad | DiscardLoop
    | AgeFlush | CloseCheck | CloseCheckPublished
    | SleepLock | SleepStore
    | PredicateClose(timedOut: bool) | PredicateFailed(timedOut: bool)
    | PredicatePublished(timedOut: bool)
    | EnterWait | Waiting(notified: bool) | Reacquire(timedOut: bool) | WakeStore
    | CloseAll | Finish | Exited

  predicate InLoop(pc: ConsumerPc) {
    || pc.LoadPublished? || pc.InnerCheck? || pc.Write? || pc.FailedCheck? || pc.DiscardLoad?
    || pc.DiscardLoop? || pc.AgeFlush? || pc.CloseCheck? || pc.CloseCheckPublished?
  }

  predicate InRelease(pc: ConsumerPc) {
    || pc.ReleaseClear? || pc.ReleaseStoreBytes? || pc.ReleaseStoreSequence?
    || pc.NotifyLoadPublished? || pc.NotifyLoadBytes? || pc.NotifyExchange?
  }

  predicate InStop(pc: ConsumerPc) {
    pc.LatchStore? || pc.LatchSent? || pc.LatchSpin? || pc.CloseAll? || pc.Finish?
  }

  predicate InSleep(pc: ConsumerPc) {
    || pc.SleepLock? || pc.SleepStore? || pc.PredicateClose? || pc.PredicateFailed?
    || pc.PredicatePublished? || pc.EnterWait? || pc.Waiting? || pc.Reacquire? || pc.WakeStore?
  }

  datatype Owner = Nobody | ByProducer | ByConsumer

  /** The atomics, the sleep mutex, and counts of the two callbacks made. */
  datatype Shared = Shared(
    published: nat, released: nat, bytesPublished: nat, bytesReleased: nat,
    closeRequested: bool, failed: bool, active: bool, sleeping: bool,
    armed: bool, failureSent: bool, mutex: Owner,
    arms: nat, resumes: nat, failures: nat)

  /** target and seen are locals: publish's argument and the value of released_sequence
      that the running operation has loaded. */
  datatype Producer = Producer(pc: ProducerPc, seq_: nat, bytes: nat, acquired: bool,
                               auditRows: nat, bookRows: nat, target: nat, seen: nat)

  /** limit and seen are locals: the values of published_sequence loaded by the running
      loop and by the notification check.  The unwritten counts are set at the end. */
  datatype Consumer = Consumer(pc: ConsumerPc, seq_: nat, bytes: nat, out: Output, error: bool,
                               limit: nat, seen: nat, auditUnwritten: nat, bookUnwritten: nat)

  /** log: every slot committed by publish, in order; handed: every slot passed to
      write_batch, in order.  Both are histories that no step reads. */
  datatype Ring = Ring(slots: seq<Slot>, sh: Shared, p: Producer, c: Consumer,
                       targets: nat, log: seq<Slot>, handed: seq<Slot>)

  ghost predicate Init(s: Ring) {
    && |s.slots| == SLOT_COUNT
    && s.sh == Shared(0, 0, 0, 0, false, false, false, false, false, false, Nobody, 0, 0, 0)
    && s.p == Producer(Idle(Done), 0, 0, false, 0, 0, 0, 0)
    && s.c == Consumer(LoadPublished, 0, 0, Output(0, 0, 0, 0, false), false, 0, 0, 0, 0)
    && s.log == [] && s.handed == []
  }

  // ------------------------------------------------- producer operations

  /** The operations the I/O thread can start when no other one is running. */
  datatype Command =
    | TryAcquire | Fill(batch: Batch) | Publish(target: nat) | Cancel
    | ShouldPause | BelowResume | Arm | Failed | Close | Join

  function HeldIndex(s: Ring): nat {
    s.p.seq_ % SLOT_COUNT
  }

  /** Does the command drop the held slot at once?  (cancel, and close through it) */
  predicate Drops(cmd: Command) {
    cmd.Cancel? || cmd.Close? || cmd.Join?
  }

  function StartPc(acquired: bool, current: ProducerPc, cmd: Command): ProducerPc {
    match cmd
    case TryAcquire => if acquired then Idle(AlreadyAcquired) else AcqLoadClose
    case Fill(_) => current
    case Publish(_) => if acquired then PubStoreActive else Idle(NoAcquiredSlot)
    case Cancel => Idle(Done)
    case ShouldPause => PauseLoadReleased
    case BelowResume => BelowLoadReleased
    case Arm => ArmLoadClose
    case Failed => FailedLoad
    case Close => CloseStore(false)
    case Join => CloseStore(true)
  }

  /** Start a command; Fill is the pipeline writing into the acquired slot. */
  function Start(s: Ring, cmd: Command): Ring
    requires |s.slots| == SLOT_COUNT && s.p.pc.Idle?
  {
    var i := HeldIndex(s);
    s.(slots := if !s.p.acquired then s.slots
                else if Drops(cmd) then s.slots[i := EMPTY_SLOT]
                else if cmd.Fill? then s.slots[i := s.slots[i].(batch := cmd.batch)]
                else s.slots,
       p := s.p.(pc := StartPc(s.p.acquired, s.p.pc, cmd),
                 acquired := s.p.acquired && !Drops(cmd),
                 target := if cmd.Publish? then cmd.target else s.p.target))
  }

  predicate ProducerEnabled(s: Ring) {
    match s.p.pc
    case Idle(_) => false
    case PubLock => s.sh.mutex.Nobody?
    case CloseLock(_) => s.sh.mutex.Nobody?
    case JoinWait => s.c.pc.Exited?
    case _ => true
  }

  /** The checks of publish that follow the load of bytes_released, in order. */
  function CommitVerdict(s: Ring): Ret
    requires |s.slots| == SLOT_COUNT && s.sh.bytesReleased <= U64_MAX
  {
    var b := s.slots[HeldIndex(s)].batch;
    var bytes := BatchBytes(b);
    if s.p.target >= s.targets then InvalidTarget
    else if !ValidBatch(b) then InvalidBatch
    else if bytes > BYTE_CAPACITY || Sub64(s.p.bytes, s.sh.bytesReleased) > BYTE_CAPACITY - bytes then
      ByteCapacity
    else if s.p.seq_ + 1 > U64_MAX || s.p.bytes + bytes > U64_MAX then CounterOverflow
    else Published
  }

  /** Drop the held slot and go on to report the error. */
  function Reject(s: Ring, error: Ret): Ring
    requires |s.slots| == SLOT_COUNT
  {
    s.(slots := s.slots[HeldIndex(s) := EMPTY_SLOT], p := s.p.(pc := PubReject(error), acquired := false))
  }

  /** publish up to its last flag check, and the end of a rejected publish. */
  function PublishCheck(s: Ring): Ring
    requires |s.slots| == SLOT_COUNT && InPublishCheck(s.p.pc)
  {
    match s.p.pc
    case PubStoreActive => s.(p := s.p.(pc := PubLoadClose), sh := s.sh.(active := true))
    case PubLoadClose =>
      if s.sh.closeRequested then Reject(s, PublishClosed) else s.(p := s.p.(pc := PubLoadFailed))
    case PubLoadFailed =>
      if s.sh.failed then Reject(s, PublishFailed) else s.(p := s.p.(pc := PubLoadReleased))
    case PubReject(error) => s.(p := s.p.(pc := Idle(error)), sh := s.sh.(active := false))
  }

  /** Fill in the slot and count it; the consumer cannot see it yet. */
  function CommitSlot(s: Ring): Ring
    requires |s.slots| == SLOT_COUNT
  {
    var b := s.slots[HeldIndex(s)].batch;
    var slot := Slot(b, s.p.target, BatchBytes(b));
    s.(slots := s.slots[HeldIndex(s) := slot],
       p := s.p.(pc := PubStoreBytes, seq_ := s.p.seq_ + 1, bytes := s.p.bytes + slot.bytes, acquired := false,
                 auditRows := s.p.auditRows + AuditRows(b), bookRows := s.p.bookRows + BookRows(b)),
       log := s.log + [slot])
  }

  /** The commit point of publish. */
  function PublishCommit(s: Ring): Ring
    requires |s.slots| == SLOT_COUNT && s.sh.bytesReleased <= U64_MAX && s.p.pc.PubLoadReleased?
  {
    if CommitVerdict(s) == Published then CommitSlot(s) else Reject(s, CommitVerdict(s))
  }

  function PublishStorePc(pc: ProducerPc, sleeping: bool): ProducerPc
    requires InPublishStore(pc)
  {
    match pc
    case PubStoreBytes => PubStoreSequence
    case PubStoreSequence => PubStoreInactive
    case PubStoreInactive => PubLoadSleeping
    case PubLoadSleeping => if sleeping then PubLock else Idle(Published)
    case PubLock => PubNotify
    case PubNotify => Idle(Published)
  }

  /** notify_one: a waiting consumer becomes ready. */
  function Notified(c: Consumer): Consumer {
    if c.pc.Waiting? then c.(pc := Waiting(true)) else c
  }

  /** publish after its commit point: make the slot visible, then wake the consumer. */
  function PublishStore(s: Ring): Ring
    requires InPublishStore(s.p.pc)
  {
    s.(p := s.p.(pc := PublishStorePc(s.p.pc, s.sh.sleeping)),
       sh := s.sh.(bytesPublished := if s.p.pc.PubStoreBytes? then s.p.bytes else s.sh.bytesPublished,
                   published := if s.p.pc.PubStoreSequence? then s.p.seq_ else s.sh.published,
                   active := s.sh.active && !s.p.pc.PubStoreInactive?,
                   mutex := if s.p.pc.PubLock? then ByProducer
                            else if s.p.pc.PubNotify? then Nobody else s.sh.mutex),
       c := if s.p.pc.PubNotify? then Notified(s.c) else s.c)
  }

  function AcquireClosePc(s: Ring): ProducerPc
    requires s.sh.released <= U64_MAX && InAcquireOrClose(s.p.pc)
  {
    match s.p.pc
    case AcqLoadClose => if s.sh.closeRequested then Idle(AcquireClosed) else AcqLoadFailed
    case AcqLoadFailed => if s.sh.failed then Idle(AcquireFailed) else AcqLoadReleased
    case AcqLoadReleased =>
      Idle(if Sub64(s.p.seq_, s.sh.released) >= SLOT_COUNT then SlotCapacity else Acquired)
    case CloseStore(j) => CloseLock(j)
    case CloseLock(j) => CloseNotify(j)
    case CloseNotify(j) => if j then JoinWait else Idle(Done)
    case JoinWait => Idle(Done)
  }

  /** try_acquire, close and join. */
  function AcquireOrClose(s: Ring): Ring
    requires |s.slots| == SLOT_COUNT && s.sh.released <= U64_MAX && InAcquireOrClose(s.p.pc)
  {
    var pc := AcquireClosePc(s);
    var taken := s.p.pc.AcqLoadReleased? && pc == Idle(Acquired);
    s.(slots := if taken then s.slots[HeldIndex(s) := EMPTY_SLOT] else s.slots,
       p := s.p.(pc := pc, acquired := s.p.acquired || taken),
       sh := s.sh.(closeRequested := s.sh.closeRequested || s.p.pc.CloseStore?,
                   mutex := if s.p.pc.CloseLock? then ByProducer
                            else if s.p.pc.CloseNotify? then Nobody else s.sh.mutex),
       c := if s.p.pc.CloseNotify? then Notified(s.c) else s.c)
  }

  function Occupied(total: nat, released: nat): nat {
    if released <= total then total - released else 0
  }

  /** Compare what the producer has loaded with the pause and resume marks. */
  predicate AtPauseMarks(s: Ring) {
    || Occupied(s.p.seq_, s.p.seen) >= PAUSE_SLOTS
    || Occupied(s.p.bytes, s.sh.bytesReleased) >= PAUSE_BYTES
  }

  predicate BelowResumeMarks(s: Ring) {
    && Occupied(s.p.seq_, s.p.seen) < RESUME_SLOTS
    && Occupied(s.p.bytes, s.sh.bytesReleased) < RESUME_BYTES
  }

  function ObservePc(s: Ring): ProducerPc
    requires InObserve(s.p.pc)
  {
    match s.p.pc
    case PauseLoadReleased => PauseLoadBytes
    case PauseLoadBytes => Idle(Flag(AtPauseMarks(s)))
    case BelowLoadReleased => BelowLoadBytes
    case BelowLoadBytes => Idle(Flag(BelowResumeMarks(s)))
    case FailedLoad => Idle(Flag(s.sh.failed))
    case ArmLoadClose => if s.sh.closeRequested then Idle(Done) else ArmLoadFailed
    case ArmLoadFailed => if s.sh.failed then Idle(Done) else ArmStore
    case ArmStore => ArmLoadReleased
    case ArmLoadReleased => ArmLoadBytes
    case ArmLoadBytes => if BelowResumeMarks(s) then ArmExchange else Idle(Done)
    case ArmExchange => Idle(Done)
  }

  /** should_pause, below_resume_watermark, failed and arm_resume_notification. */
  function Observe(s: Ring): Ring
    requires InObserve(s.p.pc)
  {
    var loads := s.p.pc.PauseLoadReleased? || s.p.pc.BelowLoadReleased? || s.p.pc.ArmLoadReleased?;
    s.(p := s.p.(pc := ObservePc(s), seen := if loads then s.sh.released else s.p.seen),
       sh := s.sh.(armed := s.p.pc.ArmStore? || (s.sh.armed && !s.p.pc.ArmExchange?),
                   arms := s.sh.arms + if s.p.pc.ArmStore? then 1 else 0,
                   resumes := s.sh.resumes + if s.p.pc.ArmExchange? && s.sh.armed then 1 else 0))
  }

  /** One atomic step of the operation the producer is in. */
  function ProducerStep(s: Ring): Ring
    requires |s.slots| == SLOT_COUNT && s.sh.released <= U64_MAX && s.sh.bytesReleased <= U64_MAX
    requires ProducerEnabled(s)
  {
    if InPublishCheck(s.p.pc) then PublishCheck(s)
    else if s.p.pc.PubLoadReleased? then PublishCommit(s)
    else if InPublishStore(s.p.pc) then PublishStore(s)
    else if InAcquireOrClose(s.p.pc) then AcquireOrClose(s)
    else Observe(s)
  }

  // --------------------------------------------------------- consumer

  /** How the environment of the writer thread decides a step: what the output set
      did, and whether the flush interval or the wait has timed out. */
  datatype Choice = Choice(out: Output, elapsed: bool)

  /** write_batch: on success it took every row of the batch; on failure it may have
      taken the audit row only.  Files only grow, and never beyond what was taken. */
  predicate WriteContract(before: Output, b: Batch, after: Output) {
    && before.auditWritten <= after.auditWritten <= after.auditTaken
    && before.bookWritten <= after.bookWritten <= after.bookTaken
    && before.auditTaken <= after.auditTaken <= before.auditTaken + AuditRows(b)
    && before.bookTaken <= after.bookTaken <= before.bookTaken + BookRows(b)
    && (before.failed ==> after.failed)
    && (!after.failed ==> && after.auditTaken == before.auditTaken + AuditRows(b)
                          && after.bookTaken == before.bookTaken + BookRows(b))
  }

  /** flush_all and close_all: nothing is taken; without an error everything taken
      is in the files. */
  predicate FlushContract(before: Output, after: Output) {
    && before.auditWritten <= after.auditWritten <= after.auditTaken == before.auditTaken
    && before.bookWritten <= after.bookWritten <= after.bookTaken == before.bookTaken
    && (before.failed ==> after.failed)
    && (!after.failed ==> after.auditWritten == after.auditTaken && after.bookWritten == after.bookTaken)
  }

  /** The slot the consumer is at. */
  function NextSlot(s: Ring): Slot
    requires |s.slots| == SLOT_COUNT
  {
    s.slots[s.c.seq_ % SLOT_COUNT]
  }

  predicate ConsumerEnabled(s: Ring, ch: Choice)
    requires |s.slots| == SLOT_COUNT
  {
    match s.c.pc
    case Write => WriteContract(s.c.out, NextSlot(s).batch, ch.out)
    case AgeFlush => ch.elapsed ==> FlushContract(s.c.out, ch.out)
    case CloseAll => FlushContract(s.c.out, ch.out)
    case SleepLock => s.sh.mutex.Nobody?
    case Reacquire(_) => s.sh.mutex.Nobody?
    case Exited => false
    case _ => true
  }

  function LoopPc(s: Ring, ch: Choice): ConsumerPc
    requires InLoop(s.c.pc)
  {
    match s.c.pc
    case LoadPublished => InnerCheck
    case InnerCheck => if s.c.seq_ < s.c.limit && !s.sh.failed then Write else FailedCheck
    case Write => ReleaseClear(AfterWrite(ch.out.failed))
    case FailedCheck => if s.sh.failed then DiscardLoad else AgeFlush
    case DiscardLoad => DiscardLoop
    case DiscardLoop => if s.c.seq_ < s.c.limit then ReleaseClear(AfterDiscard) else CloseAll
    case AgeFlush => if ch.elapsed && ch.out.failed then LatchStore(LatchedInFlush) else CloseCheck
    case CloseCheck => if s.sh.closeRequested then CloseCheckPublished else SleepLock
    case CloseCheckPublished => if s.c.seq_ == s.sh.published then CloseAll else SleepLock
  }

  /** The main loop of the writer thread up to the decision to sleep or stop. */
  function Loop(s: Ring, ch: Choice): Ring
    requires |s.slots| == SLOT_COUNT && InLoop(s.c.pc)
  {
    s.(c := s.c.(pc := LoopPc(s, ch),
                 limit := if s.c.pc.LoadPublished? || s.c.pc.DiscardLoad? then s.sh.published else s.c.limit,
                 out := if s.c.pc.Write? || (s.c.pc.AgeFlush? && ch.elapsed) then ch.out else s.c.out),
       handed := if s.c.pc.Write? then s.handed + [NextSlot(s)] else s.handed)
  }

  function AfterReleaseTo(k: AfterRelease): ConsumerPc {
    match k
    case AfterWrite(error) => if error then LatchStore(LatchedInWrite) else InnerCheck
    case AfterDiscard => DiscardLoop
  }

  predicate ConsumerBelowResume(s: Ring)
    requires s.c.seq_ <= U64_MAX && s.c.bytes <= U64_MAX
  {
    && Sub64(s.c.seen, s.c.seq_) < RESUME_SLOTS
    && Sub64(s.sh.bytesPublished, s.c.bytes) < RESUME_BYTES
  }

  function ReleasePc(s: Ring): ConsumerPc
    requires s.c.seq_ <= U64_MAX && s.c.bytes <= U64_MAX && InRelease(s.c.pc)
  {
    match s.c.pc
    case ReleaseClear(k) => ReleaseStoreBytes(k)
    case ReleaseStoreBytes(k) => ReleaseStoreSequence(k)
    case ReleaseStoreSequence(k) => NotifyLoadPublished(k)
    case NotifyLoadPublished(k) => NotifyLoadBytes(k)
    case NotifyLoadBytes(k) => if ConsumerBelowResume(s) then NotifyExchange(k) else AfterReleaseTo(k)
    case NotifyExchange(k) => AfterReleaseTo(k)
  }

  /** release_slot with its resume notification. */
  function Release(s: Ring): Ring
    requires |s.slots| == SLOT_COUNT && s.c.seq_ <= U64_MAX && s.c.bytes <= U64_MAX && InRelease(s.c.pc)
  {
    var clears := s.c.pc.ReleaseClear?;
    s.(slots := if clears then s.slots[s.c.seq_ % SLOT_COUNT := EMPTY_SLOT] else s.slots,
       c := s.c.(pc := ReleasePc(s),
                 seq_ := s.c.seq_ + if clears then 1 else 0,
                 bytes := s.c.bytes + if clears then NextSlot(s).bytes else 0,
                 seen := if s.c.pc.NotifyLoadPublished? then s.sh.published else s.c.seen),
       sh := s.sh.(bytesReleased := if s.c.pc.ReleaseStoreBytes? then s.c.bytes else s.sh.bytesReleased,
                   released := if s.c.pc.ReleaseStoreSequence? then s.c.seq_ else s.sh.released,
                   armed := s.sh.armed && !s.c.pc.NotifyExchange?,
                   resumes := s.sh.resumes + if s.c.pc.NotifyExchange? && s.sh.armed then 1 else 0))
  }

  function AfterLatchTo(l: AfterLatch): ConsumerPc {
    match l
    case LatchedInWrite => InnerCheck
    case LatchedInFlush => DiscardLoad
    case LatchedInClose => Finish
  }

  function StopPc(s: Ring, ch: Choice): ConsumerPc
    requires InStop(s.c.pc)
  {
    match s.c.pc
    case LatchStore(l) => LatchSent(l)
    case LatchSent(l) => LatchSpin(l)
    case LatchSpin(l) => if s.sh.active then LatchSpin(l) else AfterLatchTo(l)
    case CloseAll => if ch.out.failed then LatchStore(LatchedInClose) else Finish
    case Finish => Exited
  }

  /** latch_output_failure, close_all and the final accounting. */
  function Stop(s: Ring, ch: Choice): Ring
    requires InStop(s.c.pc)
  {
    var first := s.c.pc.LatchSent? && !s.sh.failureSent;
    s.(c := s.c.(pc := StopPc(s, ch),
                 error := s.c.error || s.c.pc.LatchStore?,
                 out := if s.c.pc.CloseAll? then ch.out else s.c.out,
                 auditUnwritten := if s.c.pc.Finish? then Occupied(s.p.auditRows, s.c.out.auditWritten)
                                   else s.c.auditUnwritten,
                 bookUnwritten := if s.c.pc.Finish? then Occupied(s.p.bookRows, s.c.out.bookWritten)
                                  else s.c.bookUnwritten),
       sh := s.sh.(failed := s.sh.failed || s.c.pc.LatchStore?,
                   failureSent := s.sh.failureSent || s.c.pc.LatchSent?,
                   failures := s.sh.failures + if first then 1 else 0))
  }

  function SleepPc(s: Ring, ch: Choice): ConsumerPc
    requires InSleep(s.c.pc)
  {
    match s.c.pc
    case SleepLock => SleepStore
    case SleepStore => PredicateClose(false)
    case PredicateClose(t) => if s.sh.closeRequested then WakeStore else PredicateFailed(t)
    case PredicateFailed(t) => if s.sh.failed then WakeStore else PredicatePublished(t)
    case PredicatePublished(t) => if s.c.seq_ != s.sh.published || t then WakeStore else EnterWait
    case EnterWait => Waiting(false)
    case Waiting(_) => Reacquire(ch.elapsed)
    case Reacquire(t) => PredicateClose(t)
    case WakeStore => LoadPublished
  }

  /** The wait on the condition variable; it may end at any time. */
  function Sleep(s: Ring, ch: Choice): Ring
    requires InSleep(s.c.pc)
  {
    s.(c := s.c.(pc := SleepPc(s, ch)),
       sh := s.sh.(sleeping := s.c.pc.SleepStore? || (s.sh.sleeping && !s.c.pc.WakeStore?),
                   mutex := if s.c.pc.SleepLock? || s.c.pc.Reacquire? then ByConsumer
                            else if s.c.pc.EnterWait? || s.c.pc.WakeStore? then Nobody else s.sh.mutex))
  }

  /** One atomic step of the writer thread. */
  function ConsumerStep(s: Ring, ch: Choice): Ring
    requires |s.slots| == SLOT_COUNT && s.c.seq_ <= U64_MAX && s.c.bytes <= U64_MAX
    requires ConsumerEnabled(s, ch)
  {
    if InLoop(s.c.pc) then Loop(s, ch)
    else if InRelease(s.c.pc) then Release(s)
    else if InStop(s.c.pc) then Stop(s, ch)
    else Sleep(s, ch)
  }
}
