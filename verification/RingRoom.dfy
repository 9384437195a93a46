/** What the I/O thread can rely on when it uses the writer ring one operation at a
    time: room below the pause marks stays, and each operation returns what it may. */
module RingRoom {
  import opened Types
  import opened CsvFormat
  import opened WriterRing
  import opened WriterRingInvariants
  import opened WriterRingTheorems

  /** The occupancy is below both pause marks. */
  predicate Room(s: Ring) {
    && s.p.seq_ - s.sh.released < PAUSE_SLOTS
    && s.p.bytes - s.sh.bytesReleased < PAUSE_BYTES
  }

  /** What a step of the writer thread can do to what the I/O thread sees. */
  predicate ConsumerLeaves(s: Ring, r: Ring) {
    && r.log == s.log && r.targets == s.targets && r.p == s.p
    && s.sh.released <= r.sh.released && s.sh.bytesReleased <= r.sh.bytesReleased
    && r.sh.closeRequested == s.sh.closeRequested
    && s.sh.resumes <= r.sh.resumes && s.sh.failures <= r.sh.failures
    && (s.sh.failed ==> r.sh.failed)
    && (s.sh.armed && !r.sh.armed ==> r.sh.resumes == s.sh.resumes + 1)
    && (s.sh.armed || !r.sh.armed)
  }

  lemma LoopLeaves(s: Ring, ch: Choice)
    requires Counters(s) && InLoop(s.c.pc)
    ensures ConsumerLeaves(s, Loop(s, ch)) && Loop(s, ch).slots == s.slots
  {
  }

  lemma ReleaseLeaves(s: Ring)
    requires Counters(s) && Bytes(s) && InRelease(s.c.pc) && s.c.bytes <= U64_MAX
    ensures ConsumerLeaves(s, Release(s))
    ensures forall i :: 0 <= i < SLOT_COUNT && i != s.c.seq_ % SLOT_COUNT ==> Release(s).slots[i] == s.slots[i]
    ensures !s.c.pc.ReleaseClear? ==> Release(s).slots == s.slots
  {
    InvBoundsCounters(s);
  }

  lemma StopLeaves(s: Ring, ch: Choice)
    requires InStop(s.c.pc)
    ensures ConsumerLeaves(s, Stop(s, ch)) && Stop(s, ch).slots == s.slots
  {
  }

  lemma SleepLeaves(s: Ring, ch: Choice)
    requires InSleep(s.c.pc)
    ensures ConsumerLeaves(s, Sleep(s, ch)) && Sleep(s, ch).slots == s.slots
  {
  }

  /** A step of the writer thread leaves the producer, its room and its held slot alone. */
  lemma ConsumerStepLeaves(s: Ring, ch: Choice)
    requires Counters(s) && Bytes(s) && Enabled(s, ConsumerTakes(ch))
    ensures var r := ConsumerStep(s, ch);
            && ConsumerLeaves(s, r) && (Room(s) ==> Room(r)) && |r.slots| == |s.slots|
            && (s.p.acquired ==> r.slots[HeldIndex(s)] == s.slots[HeldIndex(s)])
  {
    if InLoop(s.c.pc) {
      LoopLeaves(s, ch);
    } else if InRelease(s.c.pc) {
      ReleaseLeaves(s);
      if s.p.acquired && s.c.pc.ReleaseClear? {
        SlotsAreDisjoint(s, s.c.seq_);
      }
    } else if InStop(s.c.pc) {
      StopLeaves(s, ch);
    } else {
      SleepLeaves(s, ch);
    }
  }

  // ------------------------------------------- one producer operation at a time

  /** The operations the I/O thread has running. */
  datatype Operation =
    | NoOperation | Pausing | Arming | Acquisition | Publication(batch: Batch, target: nat)
    | FailedQuery | Measuring | Join

  /** Where the producer can be while an operation runs, and what it can return.  The two
      capacity errors are not among the results. */
  predicate InOperation(op: Operation, pc: ProducerPc) {
    match op
    case NoOperation => pc.Idle? && Expected(pc.ret)
    case Pausing => pc.PauseLoadReleased? || pc.PauseLoadBytes? || (pc.Idle? && pc.ret.Flag?)
    case Arming => InArm(pc) || pc == Idle(Done)
    case Acquisition =>
      || pc.AcqLoadClose? || pc.AcqLoadFailed? || pc.AcqLoadReleased?
      || (pc.Idle? && (pc.ret.Acquired? || pc.ret.AcquireClosed? || pc.ret.AcquireFailed?))
    case Publication(_, _) =>
      || pc.PubStoreActive? || pc.PubLoadClose? || pc.PubLoadFailed? || pc.PubLoadReleased? || InPublishStore(pc)
      || (pc.PubReject? && RejectionOf(pc.error)) || (pc.Idle? && (pc.ret.Published? || RejectionOf(pc.ret)))
    case FailedQuery => pc.FailedLoad? || (pc.Idle? && pc.ret.Flag?)
    case Measuring => pc.BelowLoadReleased? || pc.BelowLoadBytes? || (pc.Idle? && pc.ret.Flag?)
    case Join =>
      pc == CloseStore(true) || pc == CloseLock(true) || pc == CloseNotify(true) || pc.JoinWait? || pc == Idle(Done)
  }

  /** Not a capacity error, and not one of the errors of a misused writer. */
  predicate Expected(ret: Ret) {
    && !ret.SlotCapacity? && !ret.ByteCapacity? && !ret.AlreadyAcquired? && !ret.NoAcquiredSlot?
    && !ret.InvalidTarget? && !ret.InvalidBatch?
  }

  predicate RejectionOf(ret: Ret) {
    ret.PublishClosed? || ret.PublishFailed? || ret.CounterOverflow?
  }

  /** A batch the pipeline can have produced. */
  predicate Fits(b: Batch, target: nat, targets: nat) {
    ValidBatch(b) && |b.audit| <= MAX_RECORD && |b.book| <= MAX_RECORD && target < targets
  }

  /** The producer holds a slot exactly between acquisition and commit, and during
      publication the slot holds the batch. */
  predicate HoldsRight(op: Operation, s: Ring)
    requires |s.slots| == SLOT_COUNT
  {
    && (s.p.acquired <==> (op.Acquisition? && s.p.pc == Idle(Acquired)) || HoldsSlot(s.p.pc))
    && (op.Publication? && HoldsSlot(s.p.pc) ==>
          s.slots[HeldIndex(s)].batch == op.batch && s.p.target == op.target && Fits(op.batch, op.target, s.targets))
  }

  /** A negative answer of should_pause, or a positive one of below_resume_watermark,
      means room. */
  predicate AnswersMeanRoom(op: Operation, s: Ring) {
    && (op.Pausing? && s.p.pc == Idle(Flag(false)) ==> Room(s))
    && (op.Measuring? && s.p.pc == Idle(Flag(true)) ==> Room(s))
  }

  /** Room is needed up to the commit of a publication. */
  predicate NeedsRoom(op: Operation, pc: ProducerPc) {
    op.Acquisition? || (op.Publication? && HoldsSlot(pc))
  }

  predicate OperationOk(op: Operation, s: Ring) {
    && |s.slots| == SLOT_COUNT && InOperation(op, s.p.pc) && HoldsRight(op, s) && AnswersMeanRoom(op, s)
    && (NeedsRoom(op, s.p.pc) ==> Room(s))
  }

  lemma ConsumerKeepsOperation(op: Operation, s: Ring, ch: Choice)
    requires Counters(s) && Bytes(s) && OperationOk(op, s) && Enabled(s, ConsumerTakes(ch))
    ensures OperationOk(op, ConsumerStep(s, ch))
  {
    ConsumerStepLeaves(s, ch);
  }

  /** With room for one more batch neither capacity check can fail. */
  lemma RoomMeansNoCapacityError(s: Ring)
    requires Counters(s) && Bytes(s) && Room(s) && s.sh.bytesReleased <= U64_MAX
    ensures Sub64(s.p.seq_, s.sh.released) < SLOT_COUNT
    ensures Fits(s.slots[HeldIndex(s)].batch, s.p.target, s.targets) ==>
              CommitVerdict(s) == Published || CommitVerdict(s) == CounterOverflow
  {
    InvBoundsCounters(s);
  }

  lemma PublishCheckKeepsOperation(op: Operation, s: Ring)
    requires OperationOk(op, s) && InPublishCheck(s.p.pc)
    ensures OperationOk(op, PublishCheck(s))
  {
  }

  lemma PublishCommitKeepsOperation(op: Operation, s: Ring)
    requires Counters(s) && Bytes(s) && OperationOk(op, s) && s.p.pc.PubLoadReleased? && s.sh.bytesReleased <= U64_MAX
    ensures OperationOk(op, PublishCommit(s))
  {
    RoomMeansNoCapacityError(s);
  }

  lemma PublishStoreKeepsOperation(op: Operation, s: Ring)
    requires OperationOk(op, s) && InPublishStore(s.p.pc)
    ensures OperationOk(op, PublishStore(s))
  {
  }

  lemma AcquireOrCloseKeepsOperation(op: Operation, s: Ring)
    requires Counters(s) && Bytes(s) && OperationOk(op, s) && InAcquireOrClose(s.p.pc)
    ensures OperationOk(op, AcquireOrClose(s))
  {
    InvBoundsCounters(s);
    if NeedsRoom(op, s.p.pc) {
      RoomMeansNoCapacityError(s);
    }
  }

  lemma ObserveKeepsOperation(op: Operation, s: Ring)
    requires Counters(s) && Bytes(s) && NoLostResume(s) && OperationOk(op, s) && InObserve(s.p.pc)
    ensures OperationOk(op, Observe(s))
  {
    InvBoundsCounters(s);
  }

  lemma ProducerKeepsOperation(op: Operation, s: Ring)
    requires Counters(s) && Bytes(s) && NoLostResume(s) && OperationOk(op, s) && Enabled(s, ProducerTakes)
    ensures OperationOk(op, ProducerStep(s))
  {
    if InPublishCheck(s.p.pc) {
      PublishCheckKeepsOperation(op, s);
    } else if s.p.pc.PubLoadReleased? {
      PublishCommitKeepsOperation(op, s);
    } else if InPublishStore(s.p.pc) {
      PublishStoreKeepsOperation(op, s);
    } else if InAcquireOrClose(s.p.pc) {
      AcquireOrCloseKeepsOperation(op, s);
    } else {
      ObserveKeepsOperation(op, s);
    }
  }
}
