/** What every step of the writer ring keeps. */
module WriterRingInvariants {
  import opened Types
  import opened WriterRing

  function One(b: bool): nat {
    if b then 1 else 0
  }

  // ------------------------------------------------- groups of program points

  /** The producer has committed a slot that published_sequence does not show yet. */
  predicate Unpublished(pc: ProducerPc) {
    pc.PubStoreBytes? || pc.PubStoreSequence?
  }

  /** publish is past its check of writer_failed and has not finished storing. */
  predicate Committing(pc: ProducerPc) {
    pc.PubLoadReleased? || pc.PubStoreBytes? || pc.PubStoreSequence? || pc.PubStoreInactive?
  }

  predicate HoldsSlot(pc: ProducerPc) {
    pc.PubStoreActive? || pc.PubLoadClose? || pc.PubLoadFailed? || pc.PubLoadReleased?
  }

  /** publish has made its slot visible and has yet to wake the consumer. */
  predicate WakePending(pc: ProducerPc) {
    pc.PubStoreInactive? || pc.PubLoadSleeping? || pc.PubLock? || pc.PubNotify?
  }

  /** The consumer has counted a release that released_sequence does not show yet. */
  predicate Unreleased(pc: ConsumerPc) {
    pc.ReleaseStoreBytes? || pc.ReleaseStoreSequence?
  }

  predicate InLatch(pc: ConsumerPc) {
    pc.LatchStore? || pc.LatchSent? || pc.LatchSpin?
  }

  /** The failure handshake is running for the first time. */
  predicate Handshaking(pc: ConsumerPc) {
    (pc.LatchSent? || pc.LatchSpin?) && !pc.l.LatchedInClose?
  }

  /** The consumer is inside the loop bounded by limit. */
  predicate UsesLimit(pc: ConsumerPc) {
    || pc.InnerCheck? || pc.Write? || pc.DiscardLoop? || InRelease(pc)
    || (InLatch(pc) && pc.l.LatchedInWrite?)
  }

  predicate Discarding(pc: ConsumerPc) {
    pc.DiscardLoop? || (InRelease(pc) && pc.k.AfterDiscard?)
  }

  predicate ReleasingWritten(pc: ConsumerPc) {
    InRelease(pc) && pc.k.AfterWrite?
  }

  /** The writer thread has left its loop. */
  predicate Ending(pc: ConsumerPc) {
    pc.CloseAll? || (InLatch(pc) && pc.l.LatchedInClose?) || pc.Finish? || pc.Exited?
  }

  // -------------------------------------------------------------- counters

  /** Sequence numbers: who is ahead of whom, and by how much. */
  predicate Counters(s: Ring) {
    && |s.slots| == SLOT_COUNT
    && s.c.seq_ <= s.sh.published
    && s.sh.published + One(Unpublished(s.p.pc)) == s.p.seq_ <= U64_MAX
    && s.sh.released + One(Unreleased(s.c.pc)) == s.c.seq_
    && s.p.seq_ - s.sh.released <= SLOT_COUNT
    && (s.p.acquired ==> s.p.seq_ - s.sh.released < SLOT_COUNT)
    && (HoldsSlot(s.p.pc) ==> s.p.acquired)
    && (UsesLimit(s.c.pc) ==> s.c.limit <= s.sh.published)
    && (s.c.pc.Write? || s.c.pc.ReleaseClear? ==> s.c.seq_ < s.c.limit)
    && (s.c.pc.NotifyLoadBytes? ==> s.c.seq_ <= s.c.seen <= s.sh.published)
  }

  // -------------------------------------------------------- bytes and rows

  function SlotBytes(x: Slot): nat { x.bytes }
  function SlotAudit(x: Slot): nat { AuditRows(x.batch) }
  function SlotBook(x: Slot): nat { BookRows(x.batch) }

  /** The sum of a measure over the first k slots of a log. */
  function Total(f: Slot -> nat, log: seq<Slot>, k: nat): nat
    requires k <= |log|
  {
    if k == 0 then 0 else Total(f, log, k - 1) + f(log[k - 1])
  }

  lemma {:induction false} TotalMonotone(f: Slot -> nat, log: seq<Slot>, j: nat, k: nat)
    requires j <= k <= |log|
    ensures Total(f, log, j) <= Total(f, log, k)
  {
    if j < k {
      TotalMonotone(f, log, j, k - 1);
    }
  }

  lemma {:induction false} TotalOfPrefix(f: Slot -> nat, log: seq<Slot>, more: seq<Slot>, k: nat)
    requires k <= |log|
    ensures Total(f, log + more, k) == Total(f, log, k)
  {
    if k != 0 {
      TotalOfPrefix(f, log, more, k - 1);
    }
  }

  /** n is the sum of f over the first k slots. */
  predicate SumsTo(f: Slot -> nat, log: seq<Slot>, k: int, n: nat) {
    0 <= k <= |log| && n == Total(f, log, k)
  }

  /** Byte counters are the sums over the slots they account for. */
  predicate Bytes(s: Ring) {
    && |s.log| == s.p.seq_ && s.p.bytes <= U64_MAX
    && SumsTo(SlotBytes, s.log, s.p.seq_, s.p.bytes)
    && SumsTo(SlotBytes, s.log, s.c.seq_, s.c.bytes)
    && SumsTo(SlotBytes, s.log, s.p.seq_ - One(s.p.pc.PubStoreBytes?), s.sh.bytesPublished)
    && SumsTo(SlotBytes, s.log, s.c.seq_ - One(s.c.pc.ReleaseStoreBytes?), s.sh.bytesReleased)
  }

  /** Everything committed from position lo on sits in its slot. */
  predicate Stored(slots: seq<Slot>, log: seq<Slot>, lo: nat) {
    |slots| == SLOT_COUNT && forall i :: lo <= i < |log| ==> slots[i % SLOT_COUNT] == log[i]
  }

  predicate GoodSlot(x: Slot, targets: nat) {
    x.bytes == BatchBytes(x.batch) && ValidBatch(x.batch) && 0 <= x.target < targets
  }

  predicate GoodLog(log: seq<Slot>, targets: nat) {
    forall i :: 0 <= i < |log| ==> GoodSlot(log[i], targets)
  }

  predicate Contents(s: Ring) {
    |s.log| == s.p.seq_ && Stored(s.slots, s.log, s.c.seq_) && GoodLog(s.log, s.targets)
  }

  // ------------------------------------------------------ failure and close

  predicate Handshake(s: Ring) {
    && (s.sh.active <==> s.p.pc.PubLoadClose? || s.p.pc.PubLoadFailed? || s.p.pc.PubReject? || Committing(s.p.pc))
    && (s.sh.closeRequested ==> !s.p.pc.PubLoadFailed? && !Committing(s.p.pc))
    && (s.sh.failed && !Handshaking(s.c.pc) ==> !Committing(s.p.pc))
    && s.c.error == s.sh.failed
    && s.sh.failures == One(s.sh.failureSent)
    && (s.sh.failed ==> s.sh.failureSent || s.c.pc.LatchSent?)
    && (s.sh.failureSent ==> s.sh.failed)
    && (s.c.pc.Write? || ReleasingWritten(s.c.pc) ==> !s.sh.failed)
    && (s.c.pc.LatchStore? && !s.c.pc.l.LatchedInClose? ==> !s.sh.failed)
    && (s.c.pc.AgeFlush? || s.c.pc.CloseCheck? || s.c.pc.CloseCheckPublished? || InSleep(s.c.pc)
        ==> !s.sh.failed)
    && (s.c.pc.DiscardLoad? || Discarding(s.c.pc) ==> s.sh.failed)
    && (s.c.pc.LatchSent? || s.c.pc.LatchSpin? ==> s.sh.failed)
  }

  /** Once the loop is left, everything published has been released and nothing more
      can be published. */
  predicate Frozen(s: Ring) {
    && (Discarding(s.c.pc) ==> s.c.limit == s.p.seq_)
    && (s.c.pc.CloseCheckPublished? ==> s.sh.closeRequested)
    && (Ending(s.c.pc) ==> s.c.seq_ == s.p.seq_ && !Committing(s.p.pc)
                           && (s.sh.closeRequested || s.sh.failed))
  }

  // ------------------------------------------------------------ what is written

  /** The batches handed to write_batch are a prefix of the log, and all of it up to
      the consumer's position unless the output has failed. */
  predicate Handed(s: Ring) {
    && |s.handed| <= |s.log|
    && s.handed == s.log[..|s.handed|]
    && (!s.sh.failed ==> |s.handed| == s.c.seq_ + One(s.c.pc.ReleaseClear?))
  }

  predicate OutputKnown(s: Ring) {
    && (s.c.out.failed <==> || s.sh.failed || s.c.pc.LatchStore?
                            || (ReleasingWritten(s.c.pc) && s.c.pc.k.error))
    && s.c.out.auditWritten <= s.c.out.auditTaken
    && s.c.out.bookWritten <= s.c.out.bookTaken
    && ((s.c.pc.Finish? || s.c.pc.Exited?) && !s.c.out.failed
        ==> s.c.out.auditWritten == s.c.out.auditTaken && s.c.out.bookWritten == s.c.out.bookTaken)
  }

  /** Row counts published and taken. */
  predicate Rows(s: Ring) {
    && SumsTo(SlotAudit, s.log, |s.log|, s.p.auditRows)
    && SumsTo(SlotBook, s.log, |s.log|, s.p.bookRows)
    && Taken(s.log, |s.handed|, s.c.out)
    && (s.c.pc.Exited? ==> s.c.auditUnwritten + s.c.out.auditWritten == s.p.auditRows
                           && s.c.bookUnwritten + s.c.out.bookWritten == s.p.bookRows)
  }

  /** The output has taken at most the rows of the first k slots, and all of them
      unless it has failed. */
  predicate Taken(log: seq<Slot>, k: nat, out: Output) {
    && k <= |log|
    && out.auditTaken <= Total(SlotAudit, log, k)
    && out.bookTaken <= Total(SlotBook, log, k)
    && (!out.failed ==> out.auditTaken == Total(SlotAudit, log, k) && out.bookTaken == Total(SlotBook, log, k))
  }

  // ------------------------------------------------------------ sleep and wake

  predicate HoldsMutex(pc: ConsumerPc) {
    || pc.SleepStore? || pc.PredicateClose? || pc.PredicateFailed? || pc.PredicatePublished?
    || pc.EnterWait? || pc.WakeStore?
  }

  predicate Sleeping(pc: ConsumerPc) {
    InSleep(pc) && !pc.SleepLock? && !pc.SleepStore?
  }

  /** A consumer that will wait, or waits without having been notified, has nothing to
      do, or the producer is on its way to the notification. */
  predicate NoLostWakeup(s: Ring) {
    && (s.sh.mutex.ByProducer? <==> s.p.pc.PubNotify? || s.p.pc.CloseNotify?)
    && (s.sh.mutex.ByConsumer? <==> HoldsMutex(s.c.pc))
    && (s.sh.sleeping <==> Sleeping(s.c.pc))
    && (s.c.pc.EnterWait? || s.c.pc == Waiting(false) ==>
          && (s.c.seq_ == s.sh.published || WakePending(s.p.pc))
          && (s.sh.closeRequested ==> s.p.pc.CloseLock? || s.p.pc.CloseNotify?))
    && (s.c.pc.PredicateFailed? || s.c.pc.PredicatePublished? ==>
          s.sh.closeRequested ==> s.p.pc.CloseLock? || s.p.pc.CloseNotify?)
  }

  // --------------------------------------------------------- resume notification

  /** The producer's occupancy is below both resume marks. */
  predicate Below(s: Ring) {
    && s.p.seq_ - s.sh.released < RESUME_SLOTS
    && s.p.bytes - s.sh.bytesReleased < RESUME_BYTES
  }

  /** The consumer has released bytes and has not finished its notification check. */
  predicate ConsumerChecking(pc: ConsumerPc) {
    pc.ReleaseStoreSequence? || pc.NotifyLoadPublished? || pc.NotifyLoadBytes? || pc.NotifyExchange?
  }

  /** The producer has armed and has not finished its own check. */
  predicate ProducerChecking(pc: ProducerPc) {
    pc.ArmLoadReleased? || pc.ArmLoadBytes? || pc.ArmExchange?
  }

  predicate NoLostResume(s: Ring) {
    && (s.sh.armed ==> !Below(s) || ConsumerChecking(s.c.pc) || ProducerChecking(s.p.pc))
    && (s.p.pc.ArmLoadBytes? && s.sh.armed ==>
          s.p.seen == s.sh.released || !Below(s) || ConsumerChecking(s.c.pc))
    && (s.p.pc.ArmLoadBytes? || s.p.pc.PauseLoadBytes? || s.p.pc.BelowLoadBytes? ==>
          s.p.seen <= s.sh.released)
    && s.sh.resumes + One(s.sh.armed) <= s.sh.arms
  }

  // ------------------------------------------------------------- the invariant

  predicate Core(s: Ring) {
    Counters(s) && Bytes(s) && Contents(s)
  }

  predicate Stopping(s: Ring) {
    Handshake(s) && Frozen(s)
  }

  predicate Written(s: Ring) {
    Handed(s) && OutputKnown(s) && Rows(s)
  }

  predicate Inv(s: Ring) {
    && Core(s)
    && Stopping(s)
    && Written(s)
    && NoLostWakeup(s)
    && NoLostResume(s)
  }

  lemma InitEstablishes(s: Ring)
    requires Init(s)
    ensures Inv(s)
  {
  }

  /** Appending to the log leaves every earlier sum as it was. */
  lemma ExtendTotals(f: Slot -> nat, s: Ring)
    requires |s.slots| == SLOT_COUNT
    ensures var log := CommitSlot(s).log;
            forall k | 0 <= k <= |s.log| :: Total(f, log, k) == Total(f, s.log, k)
  {
    var log := CommitSlot(s).log;
    forall k | 0 <= k <= |s.log| ensures Total(f, log, k) == Total(f, s.log, k) {
      TotalOfPrefix(f, s.log, log[|s.log|..], k);
      assert log == s.log + log[|s.log|..];
    }
  }

  lemma CommitKeepsTotal(f: Slot -> nat, s: Ring, k: nat)
    requires |s.slots| == SLOT_COUNT && k <= |s.log|
    ensures Total(f, CommitSlot(s).log, k) == Total(f, s.log, k)
  {
    ExtendTotals(f, s);
  }

  /** A step that moves neither position and stores no byte counter. */
  predicate SameAccounts(s: Ring, r: Ring) {
    && r.log == s.log && r.p.seq_ == s.p.seq_ && r.p.bytes == s.p.bytes && r.c.seq_ == s.c.seq_
    && r.c.bytes == s.c.bytes
    && r.sh.bytesPublished == s.sh.bytesPublished && r.sh.bytesReleased == s.sh.bytesReleased
    && r.p.pc.PubStoreBytes? == s.p.pc.PubStoreBytes? && r.c.pc.ReleaseStoreBytes? == s.c.pc.ReleaseStoreBytes?
  }

  lemma SameAccountsKeepBytes(s: Ring, r: Ring)
    requires Bytes(s) && SameAccounts(s, r)
    ensures Bytes(r)
  {
  }

  // Preserved by: a command is started.

  lemma StartKeepsCounters(s: Ring, cmd: Command)
    requires Counters(s) && s.p.pc.Idle?
    ensures var r := Start(s, cmd); Counters(r)
  {
  }

  lemma StartKeepsBytes(s: Ring, cmd: Command)
    requires Counters(s) && Bytes(s) && s.p.pc.Idle?
    ensures var r := Start(s, cmd); Bytes(r)
  {
  }

  lemma StartKeepsContents(s: Ring, cmd: Command)
    requires Counters(s) && Contents(s) && s.p.pc.Idle?
    ensures var r := Start(s, cmd); Contents(r)
  {
  }

  lemma StartKeepsStopping(s: Ring, cmd: Command)
    requires Counters(s) && Stopping(s) && s.p.pc.Idle?
    ensures var r := Start(s, cmd); Stopping(r)
  {
  }

  lemma StartKeepsWritten(s: Ring, cmd: Command)
    requires Counters(s) && Contents(s) && Stopping(s) && Written(s) && s.p.pc.Idle?
    ensures var r := Start(s, cmd); Written(r)
  {
  }

  lemma StartKeepsSignals(s: Ring, cmd: Command)
    requires Counters(s) && Bytes(s) && NoLostWakeup(s) && NoLostResume(s) && s.p.pc.Idle?
    ensures var r := Start(s, cmd); NoLostWakeup(r) && NoLostResume(r)
  {
  }

  // Preserved by: publish, up to its last flag check.

  lemma PublishCheckKeepsCounters(s: Ring)
    requires Counters(s) && InPublishCheck(s.p.pc)
    ensures var r := PublishCheck(s); Counters(r)
  {
  }

  lemma PublishCheckKeepsBytes(s: Ring)
    requires Counters(s) && Bytes(s) && InPublishCheck(s.p.pc)
    ensures var r := PublishCheck(s); Bytes(r)
  {
  }

  lemma PublishCheckKeepsContents(s: Ring)
    requires Counters(s) && Contents(s) && InPublishCheck(s.p.pc)
    ensures var r := PublishCheck(s); Contents(r)
  {
  }

  lemma PublishCheckKeepsStopping(s: Ring)
    requires Counters(s) && Stopping(s) && InPublishCheck(s.p.pc)
    ensures var r := PublishCheck(s); Stopping(r)
  {
  }

  lemma PublishCheckKeepsWritten(s: Ring)
    requires Counters(s) && Contents(s) && Stopping(s) && Written(s) && InPublishCheck(s.p.pc)
    ensures var r := PublishCheck(s); Written(r)
  {
  }

  lemma PublishCheckKeepsSignals(s: Ring)
    requires Counters(s) && Bytes(s) && NoLostWakeup(s) && NoLostResume(s) && InPublishCheck(s.p.pc)
    ensures var r := PublishCheck(s); NoLostWakeup(r) && NoLostResume(r)
  {
  }

  // Preserved by: the commit point of publish.

  lemma PublishCommitKeepsCounters(s: Ring)
    requires Counters(s) && s.p.pc.PubLoadReleased? && s.sh.bytesReleased <= U64_MAX
    ensures var r := PublishCommit(s); Counters(r)
  {
  }

  lemma CommitSlotKeepsBytes(s: Ring)
    requires Counters(s) && Bytes(s) && s.p.pc.PubLoadReleased?
    requires s.p.bytes + BatchBytes(s.slots[HeldIndex(s)].batch) <= U64_MAX
    ensures Bytes(CommitSlot(s))
  {
    CommitKeepsTotal(SlotBytes, s, s.p.seq_);
    CommitKeepsTotal(SlotBytes, s, s.c.seq_);
    CommitKeepsTotal(SlotBytes, s, s.c.seq_ - One(s.c.pc.ReleaseStoreBytes?));
  }

  lemma PublishCommitKeepsBytes(s: Ring)
    requires Counters(s) && Bytes(s) && s.p.pc.PubLoadReleased? && s.sh.bytesReleased <= U64_MAX
    ensures var r := PublishCommit(s); Bytes(r)
  {
    if CommitVerdict(s) == Published {
      CommitSlotKeepsBytes(s);
    } else {
      SameAccountsKeepBytes(s, Reject(s, CommitVerdict(s)));
    }
  }

  lemma PublishCommitKeepsContents(s: Ring)
    requires Counters(s) && Contents(s) && s.p.pc.PubLoadReleased? && s.sh.bytesReleased <= U64_MAX
    ensures var r := PublishCommit(s); Contents(r)
  {
  }

  lemma PublishCommitKeepsStopping(s: Ring)
    requires Counters(s) && Stopping(s) && s.p.pc.PubLoadReleased? && s.sh.bytesReleased <= U64_MAX
    ensures var r := PublishCommit(s); Stopping(r)
  {
  }

  lemma PublishCommitKeepsWritten(s: Ring)
    requires Counters(s) && Contents(s) && Stopping(s) && Written(s)
    requires s.p.pc.PubLoadReleased? && s.sh.bytesReleased <= U64_MAX
    ensures var r := PublishCommit(s); Written(r)
  {
    ExtendTotals(SlotAudit, s);
    ExtendTotals(SlotBook, s);
  }

  lemma PublishCommitKeepsSignals(s: Ring)
    requires Counters(s) && Bytes(s) && NoLostWakeup(s) && NoLostResume(s)
    requires s.p.pc.PubLoadReleased? && s.sh.bytesReleased <= U64_MAX
    ensures var r := PublishCommit(s); NoLostWakeup(r) && NoLostResume(r)
  {
  }

  // Preserved by: publish, after its commit.

  lemma PublishStoreKeepsCounters(s: Ring)
    requires Counters(s) && InPublishStore(s.p.pc) && ProducerEnabled(s)
    ensures var r := PublishStore(s); Counters(r)
  {
  }

  lemma PublishStoreKeepsBytes(s: Ring)
    requires Counters(s) && Bytes(s) && InPublishStore(s.p.pc) && ProducerEnabled(s)
    ensures var r := PublishStore(s); Bytes(r)
  {
  }

  lemma PublishStoreKeepsContents(s: Ring)
    requires Counters(s) && Contents(s) && InPublishStore(s.p.pc) && ProducerEnabled(s)
    ensures var r := PublishStore(s); Contents(r)
  {
  }

  lemma PublishStoreKeepsStopping(s: Ring)
    requires Counters(s) && Stopping(s) && InPublishStore(s.p.pc) && ProducerEnabled(s)
    ensures var r := PublishStore(s); Stopping(r)
  {
  }

  lemma PublishStoreKeepsWritten(s: Ring)
    requires Counters(s) && Contents(s) && Stopping(s) && Written(s) && InPublishStore(s.p.pc) && ProducerEnabled(s)
    ensures var r := PublishStore(s); Written(r)
  {
  }

  lemma PublishStoreKeepsSignals(s: Ring)
    requires Counters(s) && Bytes(s) && NoLostWakeup(s) && NoLostResume(s)
    requires InPublishStore(s.p.pc) && ProducerEnabled(s)
    ensures var r := PublishStore(s); NoLostWakeup(r) && NoLostResume(r)
  {
  }

  // Preserved by: try_acquire, close and join.

  lemma AcquireOrCloseKeepsCounters(s: Ring)
    requires Counters(s) && InAcquireOrClose(s.p.pc) && ProducerEnabled(s)
    ensures var r := AcquireOrClose(s); Counters(r)
  {
  }

  lemma AcquireOrCloseKeepsBytes(s: Ring)
    requires Counters(s) && Bytes(s) && InAcquireOrClose(s.p.pc) && ProducerEnabled(s)
    ensures var r := AcquireOrClose(s); Bytes(r)
  {
    AcquireOrCloseKeepsAccounts(s);
    SameAccountsKeepBytes(s, AcquireOrClose(s));
  }

  lemma AcquireOrCloseKeepsAccounts(s: Ring)
    requires |s.slots| == SLOT_COUNT && s.sh.released <= U64_MAX && InAcquireOrClose(s.p.pc)
    ensures SameAccounts(s, AcquireOrClose(s))
  {
  }

  lemma AcquireOrCloseKeepsContents(s: Ring)
    requires Counters(s) && Contents(s) && InAcquireOrClose(s.p.pc) && ProducerEnabled(s)
    ensures var r := AcquireOrClose(s); Contents(r)
  {
  }

  lemma AcquireOrCloseKeepsStopping(s: Ring)
    requires Counters(s) && Stopping(s) && InAcquireOrClose(s.p.pc) && ProducerEnabled(s)
    ensures var r := AcquireOrClose(s); Stopping(r)
  {
  }

  lemma AcquireOrCloseKeepsWritten(s: Ring)
    requires Counters(s) && Contents(s) && Stopping(s) && Written(s) && InAcquireOrClose(s.p.pc) && ProducerEnabled(s)
    ensures var r := AcquireOrClose(s); Written(r)
  {
  }

  lemma AcquireOrCloseKeepsSignals(s: Ring)
    requires Counters(s) && Bytes(s) && NoLostWakeup(s) && NoLostResume(s)
    requires InAcquireOrClose(s.p.pc) && ProducerEnabled(s)
    ensures var r := AcquireOrClose(s); NoLostWakeup(r) && NoLostResume(r)
  {
  }

  // Preserved by: the observers and arm_resume_notification.

  lemma ObserveKeepsCounters(s: Ring)
    requires Counters(s) && InObserve(s.p.pc)
    ensures var r := Observe(s); Counters(r)
  {
  }

  lemma ObserveKeepsBytes(s: Ring)
    requires Counters(s) && Bytes(s) && InObserve(s.p.pc)
    ensures var r := Observe(s); Bytes(r)
  {
  }

  lemma ObserveKeepsContents(s: Ring)
    requires Counters(s) && Contents(s) && InObserve(s.p.pc)
    ensures var r := Observe(s); Contents(r)
  {
  }

  lemma ObserveKeepsStopping(s: Ring)
    requires Counters(s) && Stopping(s) && InObserve(s.p.pc)
    ensures var r := Observe(s); Stopping(r)
  {
  }

  lemma ObserveKeepsWritten(s: Ring)
    requires Counters(s) && Contents(s) && Stopping(s) && Written(s) && InObserve(s.p.pc)
    ensures var r := Observe(s); Written(r)
  {
  }

  lemma ObserveKeepsSignals(s: Ring)
    requires Counters(s) && Bytes(s) && NoLostWakeup(s) && NoLostResume(s) && InObserve(s.p.pc)
    ensures var r := Observe(s); NoLostWakeup(r) && NoLostResume(r)
  {
  }

  // Preserved by: the writer's main loop.

  lemma LoopKeepsCounters(s: Ring, ch: Choice)
    requires Counters(s) && InLoop(s.c.pc) && ConsumerEnabled(s, ch)
    ensures var r := Loop(s, ch); Counters(r)
  {
  }

  lemma LoopKeepsBytes(s: Ring, ch: Choice)
    requires Counters(s) && Bytes(s) && InLoop(s.c.pc) && ConsumerEnabled(s, ch)
    ensures var r := Loop(s, ch); Bytes(r)
  {
  }

  lemma LoopKeepsContents(s: Ring, ch: Choice)
    requires Counters(s) && Contents(s) && InLoop(s.c.pc) && ConsumerEnabled(s, ch)
    ensures var r := Loop(s, ch); Contents(r)
  {
  }

  lemma LoopKeepsStopping(s: Ring, ch: Choice)
    requires Counters(s) && Stopping(s) && InLoop(s.c.pc) && ConsumerEnabled(s, ch)
    ensures var r := Loop(s, ch); Stopping(r)
  {
  }

  lemma LoopKeepsHanded(s: Ring, ch: Choice)
    requires Counters(s) && Contents(s) && Handshake(s) && Handed(s) && InLoop(s.c.pc) && ConsumerEnabled(s, ch)
    ensures Handed(Loop(s, ch))
  {
    if s.c.pc.Write? {
      NextIsLogged(s);
      assert s.log[..s.c.seq_ + 1] == s.log[..s.c.seq_] + [s.log[s.c.seq_]];
    }
  }

  lemma LoopKeepsOutput(s: Ring, ch: Choice)
    requires Counters(s) && Handshake(s) && OutputKnown(s) && InLoop(s.c.pc) && ConsumerEnabled(s, ch)
    ensures OutputKnown(Loop(s, ch))
  {
  }

  lemma LoopKeepsRows(s: Ring, ch: Choice)
    requires Counters(s) && Contents(s) && Handshake(s) && Handed(s) && OutputKnown(s) && Rows(s)
    requires InLoop(s.c.pc) && ConsumerEnabled(s, ch)
    ensures Rows(Loop(s, ch))
  {
    if s.c.pc.Write? {
      NextIsLogged(s);
    }
  }

  lemma LoopKeepsWritten(s: Ring, ch: Choice)
    requires Counters(s) && Contents(s) && Stopping(s) && Written(s) && InLoop(s.c.pc) && ConsumerEnabled(s, ch)
    ensures var r := Loop(s, ch); Written(r)
  {
    LoopKeepsHanded(s, ch);
    LoopKeepsOutput(s, ch);
    LoopKeepsRows(s, ch);
  }

  lemma LoopKeepsSignals(s: Ring, ch: Choice)
    requires Counters(s) && Bytes(s) && NoLostWakeup(s) && NoLostResume(s) && InLoop(s.c.pc) && ConsumerEnabled(s, ch)
    ensures var r := Loop(s, ch); NoLostWakeup(r) && NoLostResume(r)
  {
  }

  // Preserved by: release_slot.

  lemma ReleaseKeepsCounters(s: Ring)
    requires Counters(s) && InRelease(s.c.pc) && s.c.bytes <= U64_MAX
    ensures var r := Release(s); Counters(r)
  {
  }

  /** The consumer finds the slot that was committed at its position. */
  lemma NextIsLogged(s: Ring)
    requires Counters(s) && Contents(s) && s.c.seq_ < s.sh.published
    ensures s.c.seq_ < |s.log| && NextSlot(s) == s.log[s.c.seq_]
  {
  }

  lemma ClearKeepsBytes(s: Ring, next: Slot)
    requires Counters(s) && Bytes(s) && s.c.pc.ReleaseClear? && s.c.bytes <= U64_MAX
    requires s.c.seq_ < |s.log| && next == NextSlot(s) == s.log[s.c.seq_]
    ensures Bytes(Release(s))
  {
    assert Total(SlotBytes, s.log, s.c.seq_ + 1) == Total(SlotBytes, s.log, s.c.seq_) + next.bytes;
  }

  lemma StoreReleasedKeepsBytes(s: Ring)
    requires Counters(s) && Bytes(s) && s.c.pc.ReleaseStoreBytes? && s.c.bytes <= U64_MAX
    ensures Bytes(Release(s))
  {
  }

  lemma ReleaseKeepsAccounts(s: Ring)
    requires |s.slots| == SLOT_COUNT && s.c.seq_ <= U64_MAX && s.c.bytes <= U64_MAX && InRelease(s.c.pc)
    requires !s.c.pc.ReleaseClear? && !s.c.pc.ReleaseStoreBytes?
    ensures SameAccounts(s, Release(s))
  {
  }

  lemma ReleaseKeepsBytes(s: Ring)
    requires Counters(s) && Bytes(s) && Contents(s) && InRelease(s.c.pc) && s.c.bytes <= U64_MAX
    ensures var r := Release(s); Bytes(r)
  {
    if s.c.pc.ReleaseClear? {
      NextIsLogged(s);
      ClearKeepsBytes(s, NextSlot(s));
    } else if s.c.pc.ReleaseStoreBytes? {
      StoreReleasedKeepsBytes(s);
    } else {
      ReleaseKeepsAccounts(s);
      SameAccountsKeepBytes(s, Release(s));
    }
  }

  lemma ReleaseKeepsContents(s: Ring)
    requires Counters(s) && Contents(s) && InRelease(s.c.pc) && s.c.bytes <= U64_MAX
    ensures var r := Release(s); Contents(r)
  {
  }

  lemma ReleaseKeepsStopping(s: Ring)
    requires Counters(s) && Stopping(s) && InRelease(s.c.pc) && s.c.bytes <= U64_MAX
    ensures var r := Release(s); Stopping(r)
  {
  }

  lemma ReleaseKeepsWritten(s: Ring)
    requires Counters(s) && Contents(s) && Stopping(s) && Written(s) && InRelease(s.c.pc) && s.c.bytes <= U64_MAX
    ensures var r := Release(s); Written(r)
  {
  }

  lemma ReleaseKeepsWakeup(s: Ring)
    requires Counters(s) && NoLostWakeup(s) && InRelease(s.c.pc) && s.c.bytes <= U64_MAX
    ensures var r := Release(s); NoLostWakeup(r)
  {
  }

  lemma ReleaseKeepsResume(s: Ring)
    requires Counters(s) && Bytes(s) && NoLostResume(s) && InRelease(s.c.pc) && s.c.bytes <= U64_MAX
    ensures var r := Release(s); NoLostResume(r)
  {
    TotalMonotone(SlotBytes, s.log, s.c.seq_, s.sh.published);
    TotalMonotone(SlotBytes, s.log, s.p.seq_ - One(s.p.pc.PubStoreBytes?), s.p.seq_);
  }

  // Preserved by: the failure handshake and the end of the thread.

  lemma StopKeepsCounters(s: Ring, ch: Choice)
    requires Counters(s) && InStop(s.c.pc) && ConsumerEnabled(s, ch)
    ensures var r := Stop(s, ch); Counters(r)
  {
  }

  lemma StopKeepsBytes(s: Ring, ch: Choice)
    requires Counters(s) && Bytes(s) && InStop(s.c.pc) && ConsumerEnabled(s, ch)
    ensures var r := Stop(s, ch); Bytes(r)
  {
  }

  lemma StopKeepsContents(s: Ring, ch: Choice)
    requires Counters(s) && Contents(s) && InStop(s.c.pc) && ConsumerEnabled(s, ch)
    ensures var r := Stop(s, ch); Contents(r)
  {
  }

  lemma StopKeepsStopping(s: Ring, ch: Choice)
    requires Counters(s) && Stopping(s) && InStop(s.c.pc) && ConsumerEnabled(s, ch)
    ensures var r := Stop(s, ch); Stopping(r)
  {
  }

  lemma StopKeepsWritten(s: Ring, ch: Choice)
    requires Counters(s) && Contents(s) && Stopping(s) && Written(s) && InStop(s.c.pc) && ConsumerEnabled(s, ch)
    ensures var r := Stop(s, ch); Written(r)
  {
    if s.c.pc.Finish? {
      TotalMonotone(SlotAudit, s.log, |s.handed|, |s.log|);
      TotalMonotone(SlotBook, s.log, |s.handed|, |s.log|);
    }
  }

  lemma StopKeepsSignals(s: Ring, ch: Choice)
    requires Counters(s) && Bytes(s) && NoLostWakeup(s) && NoLostResume(s) && InStop(s.c.pc) && ConsumerEnabled(s, ch)
    ensures var r := Stop(s, ch); NoLostWakeup(r) && NoLostResume(r)
  {
  }

  // Preserved by: the wait.

  lemma SleepKeepsCounters(s: Ring, ch: Choice)
    requires Counters(s) && InSleep(s.c.pc) && ConsumerEnabled(s, ch)
    ensures var r := Sleep(s, ch); Counters(r)
  {
  }

  lemma SleepKeepsBytes(s: Ring, ch: Choice)
    requires Counters(s) && Bytes(s) && InSleep(s.c.pc) && ConsumerEnabled(s, ch)
    ensures var r := Sleep(s, ch); Bytes(r)
  {
  }

  lemma SleepKeepsContents(s: Ring, ch: Choice)
    requires Counters(s) && Contents(s) && InSleep(s.c.pc) && ConsumerEnabled(s, ch)
    ensures var r := Sleep(s, ch); Contents(r)
  {
  }

  lemma SleepKeepsStopping(s: Ring, ch: Choice)
    requires Counters(s) && Stopping(s) && InSleep(s.c.pc) && ConsumerEnabled(s, ch)
    ensures var r := Sleep(s, ch); Stopping(r)
  {
  }

  lemma SleepKeepsWritten(s: Ring, ch: Choice)
    requires Counters(s) && Contents(s) && Stopping(s) && Written(s) && InSleep(s.c.pc) && ConsumerEnabled(s, ch)
    ensures var r := Sleep(s, ch); Written(r)
  {
  }

  lemma SleepKeepsSignals(s: Ring, ch: Choice)
    requires Counters(s) && Bytes(s) && NoLostWakeup(s) && NoLostResume(s) && InSleep(s.c.pc) && ConsumerEnabled(s, ch)
    ensures var r := Sleep(s, ch); NoLostWakeup(r) && NoLostResume(r)
  {
  }

}
