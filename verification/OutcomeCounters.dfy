/** The nine outcome counters of a capture count the outcomes of its messages
    (record_event_status in src/live_capture_controller.cpp). */
module OutcomeCounters {
  import opened Sequencer
  import opened EventProcessor
  import opened LivePipeline
  import opened WriterRing
  import opened WriterRingTheorems
  import opened Controller
  import opened System
  import opened SystemProofs
  import opened SystemSteps
  import opened SystemTheorems

  /** What each counter is for: applied refreshes, applied diffs, stale refreshes, stale diffs,
      ignored while invalid, sequence gaps, crossed books, trades audited, schema rejections. */
  const OUTCOMES: seq<EventStatus> :=
    [BookEvent(AppliedRefresh), BookEvent(AppliedDiff), BookEvent(StaleRefresh), BookEvent(StaleDiff),
     BookEvent(IgnoredWhileInvalid), BookEvent(SequenceGap), BookEvent(CrossedBook), TradeAudited, SchemaRejected]

  function CountOf(sent: seq<PipelineResult>, status: EventStatus): nat {
    if sent == [] then 0
    else CountOf(sent[..|sent| - 1], status) + if sent[|sent| - 1].status == status then 1 else 0
  }

  predicate Counts(outcomes: seq<nat>, sent: seq<PipelineResult>) {
    |outcomes| == |OUTCOMES| && forall i :: 0 <= i < |outcomes| ==> outcomes[i] == CountOf(sent, OUTCOMES[i])
  }

  lemma CountNext(m: Metrics, sent: seq<PipelineResult>, res: PipelineResult)
    requires Counts(m.outcomes, sent) && OutcomeIndex(res.status) < OUTCOME_COUNT
    ensures Counts(CountOutcome(m, res.status).outcomes, sent + [res])
  {
    var all := sent + [res];
    assert all[..|all| - 1] == sent && all[|all| - 1] == res;
    assert OUTCOMES[OutcomeIndex(res.status)] == res.status;
    forall i, j | 0 <= i < j < 9 ensures OUTCOMES[i] != OUTCOMES[j] {
    }
  }

  ghost predicate OutcomesCount(env: Env, c: Ctl) {
    Counts(c.metrics.outcomes, TraceOf(env, c.feed.inputs).sent)
  }

  lemma ReactKeepsOutcomes(c: Ctl, ring: Ring, e: Event)
    requires EventEnabled(c, ring, e)
    ensures React(c, ring, e).ctl.metrics.outcomes == c.metrics.outcomes
  {
  }

  lemma ContinueCountsOutcome(c: Ctl, ret: Ret, writerOk: bool, res: PipelineResult)
    requires !c.pc.AtRest?
    ensures var d := Continue(c, ret, writerOk, res).ctl;
            && d.metrics.outcomes == (if d.pc.Publishing? then CountOutcome(c.metrics, res.status).outcomes
                                      else c.metrics.outcomes)
            && (d.pc.Publishing? ==> c.pc.Acquiring? && res.disposition.BatchReady?)
  {
  }

  lemma CountStep(m: Metrics, outcomes: seq<nat>, sent: seq<PipelineResult>, after: seq<PipelineResult>, adds: bool,
                  res: PipelineResult)
    requires Counts(m.outcomes, sent) && SentGrows(sent, after, adds, res)
    requires outcomes == if adds then CountOutcome(m, res.status).outcomes else m.outcomes
    requires adds ==> OutcomeIndex(res.status) < OUTCOME_COUNT
    ensures Counts(outcomes, after)
  {
    if adds {
      CountNext(m, sent, res);
    }
  }

  lemma EventKeepsOutcomes(env: Env, c: Ctl, ring: Ring, e: Event)
    requires History(env, c) && Meta(env, c) && OutcomesCount(env, c) && EventEnabled(c, ring, e)
    ensures OutcomesCount(env, React(c, ring, e).ctl)
  {
    ReactKeepsOutcomes(c, ring, e);
    ReactFeeds(env, c, ring, e);
    FeedKeepsHistory(env, c, React(c, ring, e).ctl, Answer(env, c));
  }

  lemma SentFollows(env: Env, c: Ctl, ret: Ret, writerOk: bool, res: PipelineResult)
    requires Shape(c) && History(env, c) && Meta(env, c) && !c.pc.AtRest? && res == Answer(env, c)
    ensures var d := Continue(c, ret, writerOk, res).ctl;
            SentGrows(TraceOf(env, c.feed.inputs).sent, TraceOf(env, d.feed.inputs).sent, d.pc.Publishing?, res)
  {
    ContinueKeepsFeed(env, c, ret, writerOk, res);
  }

  lemma StatusIsCounted(env: Env, c: Ctl, res: PipelineResult)
    requires GoodAnswer(env, c, res) && c.pc.Acquiring? && res.disposition.BatchReady?
    ensures OutcomeIndex(res.status) < OUTCOME_COUNT
  {
  }

  lemma GoingOnKeepsOutcomes(env: Env, c: Ctl, ret: Ret, writerOk: bool, res: PipelineResult)
    requires Shape(c) && History(env, c) && Meta(env, c) && OutcomesCount(env, c) && !c.pc.AtRest?
    requires res == Answer(env, c) && GoodAnswer(env, c, res)
    ensures OutcomesCount(env, Continue(c, ret, writerOk, res).ctl)
  {
    var d := Continue(c, ret, writerOk, res).ctl;
    SentFollows(env, c, ret, writerOk, res);
    ContinueCountsOutcome(c, ret, writerOk, res);
    if d.pc.Publishing? {
      StatusIsCounted(env, c, res);
    }
    CountStep(c.metrics, d.metrics.outcomes, TraceOf(env, c.feed.inputs).sent, TraceOf(env, d.feed.inputs).sent,
              d.pc.Publishing?, res);
  }

  lemma StepKeepsOutcomes(env: Env, s: Sys, step: SysStep)
    requires EnvContract(env) && SysInv(env, s) && OutcomesCount(env, s.c) && SysEnabled(s, step)
    ensures OutcomesCount(env, SysApply(env, s, step).c)
  {
    match step
    case Happens(e) => EventKeepsOutcomes(env, s.c, s.ring, e);
    case GoesOn =>
      AnswerIsGood(env, s.c);
      GoingOnKeepsOutcomes(env, s.c, s.ring.p.pc.ret, Success(s.ring), Answer(env, s.c));
    case RingProducer =>
    case RingConsumer(_) =>
  }

  lemma {:induction false} RunKeepsOutcomes(env: Env, s: Sys, steps: seq<SysStep>)
    requires EnvContract(env) && SysInv(env, s) && OutcomesCount(env, s.c) && SysLegal(env, s, steps)
    ensures OutcomesCount(env, SysExecute(env, s, steps).c)
    decreases |steps|
  {
    if steps != [] {
      SysStepKeeps(env, s, steps[0]);
      StepKeepsOutcomes(env, s, steps[0]);
      RunKeepsOutcomes(env, SysApply(env, s, steps[0]), steps[1..]);
    }
  }

  lemma ReachableCounts(env: Env, s: Sys)
    requires Reachable(env, s)
    ensures OutcomesCount(env, s.c)
  {
    var init, steps :| SysInit(env, init) && SysLegal(env, init, steps) && s == SysExecute(env, init, steps);
    SysInitEstablishes(env, init);
    InitCounts(env, init.c);
    RunKeepsOutcomes(env, init, steps);
  }

  lemma InitCounts(env: Env, c: Ctl)
    requires c == InitialCtl(env)
    ensures OutcomesCount(env, c)
  {
  }

  /** In every reachable state each of the nine counters is the number of messages the pipeline
      has given that status. */
  lemma CountersCountStatuses(env: Env, s: Sys, i: nat)
    requires Reachable(env, s) && i < |OUTCOMES|
    ensures i < |s.c.metrics.outcomes|
    ensures s.c.metrics.outcomes[i] == CountOf(TraceOf(env, s.c.feed.inputs).sent, OUTCOMES[i])
  {
    ReachableCounts(env, s);
  }
}
