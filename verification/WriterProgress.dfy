/** The writer thread gets on with its work: it takes every published batch after a bounded
    number of its own steps, and it ends once the I/O thread waits for it in join
    (src/csv_writer.cpp). */
module WriterProgress {
  import opened Types
  import opened WriterRing
  import opened WriterRingInvariants
  import opened WriterRingTheorems

  predicate MoreToTake(s: Ring) {
    s.c.seq_ < s.sh.published
  }

  /** With a published batch left: at most this many steps until its slot is cleared. */
  function DrainRank(s: Ring): nat {
    match s.c.pc
    case ReleaseClear(_) => 1
    case Write => 2
    case DiscardLoop => 2
    case DiscardLoad => 3
    case InnerCheck => if s.c.seq_ < s.c.limit && !s.sh.failed then 3 else 15
    case LoadPublished => if s.sh.failed then 16 else 4
    case WakeStore => 5
    case PredicatePublished(_) => 6
    case PredicateFailed(_) => 7
    case PredicateClose(_) => 8
    case Reacquire(_) => 9
    case SleepStore => 9
    case Waiting(_) => 10
    case SleepLock => 10
    case EnterWait => 11
    case CloseCheckPublished => 11
    case CloseCheck => 12
    case AgeFlush => 13
    case FailedCheck => 14
    case LatchSpin(l) => if l.LatchedInFlush? then 4 else 16
    case LatchSent(l) => if l.LatchedInFlush? then 5 else 17
    case LatchStore(l) => if l.LatchedInFlush? then 6 else 18
    case NotifyExchange(_) => 19
    case NotifyLoadBytes(_) => 20
    case NotifyLoadPublished(_) => 21
    case ReleaseStoreSequence(_) => 22
    case ReleaseStoreBytes(_) => 23
    case CloseAll => 0
    case Finish => 0
    case Exited => 0
  }

  /** With nothing left to take and the end requested: at most this many steps to the end. */
  function CloseRank(s: Ring): nat {
    match s.c.pc
    case Exited => 0
    case Finish => 1
    case CloseAll => 5
    case CloseCheckPublished => 6
    case DiscardLoop => 6
    case CloseCheck => 7
    case DiscardLoad => 7
    case AgeFlush => 11
    case FailedCheck => 12
    case InnerCheck => 13
    case LoadPublished => 14
    case WakeStore => 15
    case PredicateClose(_) => 16
    case Reacquire(_) => 17
    case SleepStore => 17
    case Waiting(_) => 18
    case SleepLock => 18
    case EnterWait => 19
    case PredicatePublished(_) => 20
    case PredicateFailed(_) => 21
    case LatchSpin(l) => (match l case LatchedInClose => 2 case LatchedInFlush => 8 case LatchedInWrite => 14)
    case LatchSent(l) => (match l case LatchedInClose => 3 case LatchedInFlush => 9 case LatchedInWrite => 15)
    case LatchStore(l) => (match l case LatchedInClose => 4 case LatchedInFlush => 10 case LatchedInWrite => 16)
    case NotifyExchange(_) => 17
    case NotifyLoadBytes(_) => 18
    case NotifyLoadPublished(_) => 19
    case ReleaseStoreSequence(_) => 20
    case ReleaseStoreBytes(_) => 21
    case ReleaseClear(_) => 0
    case Write => 0
  }

  /** An upper bound on the steps of the writer thread while join waits for it. */
  function Countdown(s: Ring): nat
    requires s.c.seq_ <= s.sh.published
  {
    50 * (s.sh.published - s.c.seq_) + if MoreToTake(s) then DrainRank(s) else CloseRank(s)
  }

  // --------------------------------------------------------------------- join returns

  /** The I/O thread has requested the close and waits for the writer thread. */
  predicate InJoin(s: Ring) {
    s.p.pc.JoinWait? && s.sh.closeRequested
  }

  lemma LoopCountsDown(s: Ring, ch: Choice)
    requires Counters(s) && Handshake(s) && Frozen(s) && InJoin(s) && InLoop(s.c.pc)
    ensures var r := Loop(s, ch); InJoin(r) && r.c.seq_ <= r.sh.published && Countdown(r) < Countdown(s)
  {
  }

  lemma ReleaseCountsDown(s: Ring)
    requires Counters(s) && Handshake(s) && Frozen(s) && InJoin(s) && InRelease(s.c.pc)
    requires s.c.seq_ <= U64_MAX && s.c.bytes <= U64_MAX
    ensures var r := Release(s); InJoin(r) && r.c.seq_ <= r.sh.published && Countdown(r) < Countdown(s)
  {
  }

  lemma StopCountsDown(s: Ring, ch: Choice)
    requires Counters(s) && Handshake(s) && Frozen(s) && InJoin(s) && InStop(s.c.pc)
    ensures var r := Stop(s, ch); InJoin(r) && r.c.seq_ <= r.sh.published && Countdown(r) < Countdown(s)
  {
  }

  lemma SleepCountsDown(s: Ring, ch: Choice)
    requires Counters(s) && Handshake(s) && Frozen(s) && InJoin(s) && InSleep(s.c.pc)
    ensures var r := Sleep(s, ch); InJoin(r) && r.c.seq_ <= r.sh.published && Countdown(r) < Countdown(s)
  {
  }

  lemma StepCountsDown(s: Ring, ch: Choice)
    requires Inv(s) && InJoin(s) && Enabled(s, ConsumerTakes(ch))
    ensures var r := ConsumerStep(s, ch); InJoin(r) && r.c.seq_ <= r.sh.published && Countdown(r) < Countdown(s)
  {
    if InLoop(s.c.pc) {
      LoopCountsDown(s, ch);
    } else if InRelease(s.c.pc) {
      ReleaseCountsDown(s);
    } else if InStop(s.c.pc) {
      StopCountsDown(s, ch);
    } else {
      SleepCountsDown(s, ch);
    }
  }

  /** While join waits nothing but the end of the thread holds it up: some answer of the output
      set allows its next step. */
  lemma JoinIsNotBlocked(s: Ring) returns (ch: Choice)
    requires Inv(s) && InJoin(s) && !s.c.pc.Exited?
    ensures Enabled(s, ConsumerTakes(ch))
  {
    InvBoundsCounters(s);
    ch := Choice(s.c.out.(failed := true), false);
  }

  /** Join returns: in every run of the writer thread while join waits it takes at most
      Countdown steps, and until it has ended it can take another one. */
  lemma {:induction false} JoinReturns(s: Ring, steps: seq<Step>)
    requires Inv(s) && InJoin(s) && Legal(s, steps) && forall i :: 0 <= i < |steps| ==> steps[i].ConsumerTakes?
    ensures |steps| <= Countdown(s)
    ensures var r := Execute(s, steps); Inv(r) && InJoin(r)
    ensures !Execute(s, steps).c.pc.Exited? ==> exists ch :: Enabled(Execute(s, steps), ConsumerTakes(ch))
    decreases |steps|
  {
    if steps == [] {
      if !s.c.pc.Exited? {
        var ch := JoinIsNotBlocked(s);
      }
    } else {
      StepCountsDown(s, steps[0].ch);
      StepKeeps(s, steps[0]);
      JoinReturns(Apply(s, steps[0]), steps[1..]);
    }
  }

  // -------------------------------------------------------------- batches are taken

  /** A batch is waiting, and no call of the output set has failed. */
  predicate Pending(s: Ring) {
    MoreToTake(s) && !s.c.out.failed
  }

  /** A step of the writer thread clears the slot, meets an error or comes closer to the slot. */
  predicate Closer(s: Ring, r: Ring) {
    Pending(r) && r.c.seq_ == s.c.seq_ ==> DrainRank(r) < DrainRank(s)
  }

  lemma LoopGetsCloser(s: Ring, ch: Choice)
    requires Counters(s) && Handshake(s) && Frozen(s) && OutputKnown(s) && Pending(s) && InLoop(s.c.pc)
    ensures Closer(s, Loop(s, ch))
  {
  }

  lemma ReleaseGetsCloser(s: Ring)
    requires Counters(s) && OutputKnown(s) && Pending(s) && InRelease(s.c.pc)
    requires s.c.seq_ <= U64_MAX && s.c.bytes <= U64_MAX
    ensures Closer(s, Release(s))
  {
  }

  /** The thread latches a failure, closes or ends only with an error or with nothing left. */
  lemma StopIsNotPending(s: Ring)
    requires Counters(s) && Handshake(s) && Frozen(s) && OutputKnown(s) && InStop(s.c.pc)
    ensures !Pending(s)
  {
  }

  lemma SleepGetsCloser(s: Ring, ch: Choice)
    requires Counters(s) && Handshake(s) && Pending(s) && InSleep(s.c.pc)
    ensures Closer(s, Sleep(s, ch))
  {
  }

  lemma ConsumerGetsCloser(s: Ring, ch: Choice)
    requires Inv(s) && Pending(s) && Enabled(s, ConsumerTakes(ch))
    ensures Closer(s, ConsumerStep(s, ch))
  {
    if InLoop(s.c.pc) {
      LoopGetsCloser(s, ch);
    } else if InRelease(s.c.pc) {
      ReleaseGetsCloser(s);
    } else if InStop(s.c.pc) {
      StopIsNotPending(s);
    } else {
      SleepGetsCloser(s, ch);
    }
  }

  /** At most the producer wakes a waiting consumer. */
  predicate LeftAlone(s: Ring, r: Ring) {
    && r.sh.failed == s.sh.failed
    && (r.c == s.c || (s.c.pc.Waiting? && r.c == s.c.(pc := Waiting(true))))
  }

  lemma ProducerLeavesAlone(s: Ring)
    requires Enabled(s, ProducerTakes)
    ensures LeftAlone(s, ProducerStep(s))
  {
  }

  lemma ProducerDoesNotDelay(s: Ring, r: Ring)
    requires LeftAlone(s, r)
    ensures r.c.seq_ == s.c.seq_ && DrainRank(r) == DrainRank(s)
  {
  }

  lemma StepGetsCloser(s: Ring, step: Step)
    requires Inv(s) && Pending(s) && Enabled(s, step)
    requires var r := Apply(s, step); Pending(r) && r.c.seq_ == s.c.seq_
    ensures DrainRank(Apply(s, step)) + (if step.ConsumerTakes? then 1 else 0) <= DrainRank(s)
  {
    match step
    case Begin(_) =>
    case ProducerTakes =>
      ProducerLeavesAlone(s);
      ProducerDoesNotDelay(s, ProducerStep(s));
    case ConsumerTakes(ch) => ConsumerGetsCloser(s, ch);
  }

  function ConsumerSteps(steps: seq<Step>): nat {
    if steps == [] then 0 else ConsumerSteps(steps[1..]) + if steps[0].ConsumerTakes? then 1 else 0
  }

  /** In every state of the run a batch is waiting and the same slot is the next one. */
  predicate PendingThroughout(s: Ring, steps: seq<Step>)
    requires Legal(s, steps)
    decreases |steps|
  {
    && Pending(s)
    && (steps == [] || (&& Apply(s, steps[0]).c.seq_ == s.c.seq_
                        && PendingThroughout(Apply(s, steps[0]), steps[1..])))
  }

  lemma {:induction false} WaitIsBounded(s: Ring, steps: seq<Step>)
    requires Inv(s) && Legal(s, steps) && PendingThroughout(s, steps)
    ensures ConsumerSteps(steps) + DrainRank(Execute(s, steps)) <= DrainRank(s)
    decreases |steps|
  {
    if steps != [] {
      StepGetsCloser(s, steps[0]);
      StepKeeps(s, steps[0]);
      WaitIsBounded(Apply(s, steps[0]), steps[1..]);
    }
  }

  /** A published batch does not wait for ever: in every run of both threads in which its slot
      is not cleared and no call of the output set fails, the writer thread takes at most 23
      steps. */
  lemma BatchIsTaken(s: Ring, steps: seq<Step>)
    requires Inv(s) && Legal(s, steps) && PendingThroughout(s, steps)
    ensures ConsumerSteps(steps) <= 23
  {
    WaitIsBounded(s, steps);
  }
}
