/** What every step of the whole system keeps. */
module SystemProofs {
  import opened Types
  import opened CsvFormat
  import opened LivePipeline
  import opened LiveReplay
  import opened WriterRing
  import opened Controller
  import opened System

  // ------------------------------------------------------------- the shape

  /** A running controller whose failure, if any, has been recorded. */
  predicate Running(c: Ctl) {
    && !c.run.terminalStarted && !c.run.terminal && !c.net.reconnectArmed
    && (c.run.failureLatched ==> c.run.error)
  }

  lemma SessionEndKeepsShape(c: Ctl, code: EndCode)
    requires Running(c)
    ensures Shape(SessionEnded(c, code).ctl)
  {
  }

  lemma StopSessionKeepsShape(c: Ctl)
    requires Running(c) && c.net.session.Current?
    requires c.run.readsPaused ==> c.net.session.s.paused && !c.net.session.s.phase.Connecting?
    ensures Shape(StopSession(c).ctl)
  {
    SessionEndKeepsShape(c, Cancelled);
  }

  lemma FailKeepsShape(c: Ctl)
    requires Shape(c) && !c.pc.Joining?
    ensures Shape(Fail(c).ctl)
  {
    if c.net.session.Current? && !c.run.failureLatched {
      StopSessionKeepsShape(Latched(c));
    }
  }

  lemma ReadTextKeepsShape(c: Ctl, ts: Timestamp, payload: string)
    requires Shape(c) && c.pc.AtRest? && c.net.session.Current? && c.net.session.s.reading
    ensures Shape(OnReadText(c, ts, payload).ctl)
  {
    SessionEndKeepsShape(c, Unrecoverable);
  }

  lemma ReadEndedKeepsShape(c: Ctl, code: EndCode)
    requires Shape(c) && c.pc.AtRest? && c.net.session.Current? && c.net.session.s.reading
    ensures Shape(OnReadEnded(c, code).ctl)
  {
    SessionEndKeepsShape(c, code);
  }

  lemma OpenKeepsShape(c: Ctl)
    requires Shape(c) && c.pc.AtRest? && PhaseIs(c.net.session, Connecting)
    ensures Shape(OnOpen(c).ctl)
  {
  }

  lemma ReconnectKeepsShape(c: Ctl, failed: bool, created: bool)
    requires Shape(c) && c.pc.AtRest? && c.net.reconnectArmed
    ensures Shape(OnReconnect(c, failed, created).ctl)
  {
  }

  lemma StopKeepsShape(c: Ctl)
    requires Shape(c) && c.pc.AtRest?
    ensures Shape(OnStop(c).ctl)
  {
    if c.net.session.Current? {
      StopSessionKeepsShape(c.(net := c.net.(reconnectArmed := false)));
    }
  }

  lemma ReactKeepsShape(c: Ctl, ring: Ring, e: Event)
    requires Shape(c) && EventEnabled(c, ring, e) && (c.pc.AtRest? || e.StopRequest?)
    ensures Shape(React(c, ring, e).ctl)
  {
    match e
    case OpenEvent => OpenKeepsShape(c);
    case ConnectFailed(code) => SessionEndKeepsShape(c, code);
    case ReadText(ts, payload) => ReadTextKeepsShape(c, ts, payload);
    case ReadEnded(code) => ReadEndedKeepsShape(c, code);
    case CloseDone(code) => SessionEndKeepsShape(c, code);
    case ReconnectTimer(failed, created) => ReconnectKeepsShape(c, failed, created);
    case StopOnIo => StopKeepsShape(c);
    case _ =>
  }

  lemma PauseKeepsShape(c: Ctl, arming: CtlPc)
    requires Shape(c) && (c.pc.OpenChecking? || c.pc.MessageChecking?) && (arming.OpenArming? || arming.MessageArming?)
    ensures Shape(PauseOr(c, arming).ctl) && Shape(Return(c))
  {
  }

  lemma AcquiredKeepsShape(c: Ctl, msg: Message, res: PipelineResult)
    requires Shape(c) && c.pc.Acquiring?
    ensures Shape(OnAcquired(c, msg, res).ctl)
  {
    FailKeepsShape(Losing(Delivered(c, msg, res)));
  }

  lemma ResumeKeepsShape(c: Ctl, below: bool)
    requires Shape(c) && c.pc.ResumeMeasuring?
    ensures Shape(OnResumeMeasured(c, below).ctl)
  {
  }

  lemma ReturnKeepsShape(c: Ctl)
    requires Shape(c) && (c.pc.OpenArming? || c.pc.MessageArming?)
    ensures Shape(Return(c))
  {
  }

  lemma ContinueHandlerKeepsShape(c: Ctl, ret: Ret, writerOk: bool, res: PipelineResult)
    requires Shape(c) && InHandler(c.pc)
    ensures Shape(Continue(c, ret, writerOk, res).ctl)
  {
    match c.pc
    case OpenChecking => PauseKeepsShape(c, OpenArming);
    case MessageChecking => PauseKeepsShape(c, MessageArming);
    case OpenArming => ReturnKeepsShape(c);
    case MessageArming => ReturnKeepsShape(c);
    case Acquiring(msg) => AcquiredKeepsShape(c, msg, res);
    case AcquireDenied => FailKeepsShape(Losing(c));
    case PublishDenied => FailKeepsShape(Losing(c));
    case Publishing(_) =>
  }

  lemma ContinueKeepsShape(c: Ctl, ret: Ret, writerOk: bool, res: PipelineResult)
    requires Shape(c) && !c.pc.AtRest?
    ensures Shape(Continue(c, ret, writerOk, res).ctl)
  {
    if InHandler(c.pc) {
      ContinueHandlerKeepsShape(c, ret, writerOk, res);
    } else if c.pc.ResumeMeasuring? {
      ResumeKeepsShape(c, ret == Flag(true));
    } else if c.pc.ResumeChecking? || c.pc.TimeoutChecking? {
      FailKeepsShape(c);
    }
  }

  // ------------------------------------------- metadata and message accounting

  ghost predicate Books(env: Env, c: Ctl) {
    Meta(env, c) && Account(c)
  }

  /** The pipeline's answer for the message in hand is what MessageIsGood says. */
  ghost predicate GoodAnswer(env: Env, c: Ctl, res: PipelineResult) {
    c.pc.Acquiring? ==> GoodResult(env, c.feed.pl, c.pc.msg, res)
  }

  lemma SessionEndKeepsBooks(env: Env, c: Ctl, code: EndCode)
    requires Books(env, c) && c.net.session.Current? && !InMessage(c.pc)
    ensures Books(env, SessionEnded(c, code).ctl)
  {
    InvalidateKeeps(env, c.feed.pl);
  }

  /** The same, for a failure with which the message in hand is lost. */
  lemma StopSessionKeepsBooks(env: Env, c: Ctl)
    requires Meta(env, c.(pc := AtRest)) && Account(c.(pc := AtRest)) && c.net.session.Current?
    ensures Books(env, StopSession(c).ctl)
  {
    InvalidateKeeps(env, c.feed.pl);
  }

  lemma FailKeepsBooks(env: Env, c: Ctl)
    requires Meta(env, c.(pc := AtRest)) && Account(c.(pc := AtRest, run := c.run.(failureLatched := true)))
    requires !c.run.failureLatched && !c.run.terminal
    ensures Books(env, Fail(c).ctl)
  {
    if c.net.session.Current? {
      StopSessionKeepsBooks(env, Latched(c));
    }
  }

  lemma OpenKeepsBooks(env: Env, c: Ctl)
    requires Books(env, c) && c.pc.AtRest? && PhaseIs(c.net.session, Connecting)
    ensures Books(env, OnOpen(c).ctl)
  {
  }

  lemma ReadTextKeepsBooks(env: Env, c: Ctl, ts: Timestamp, payload: string)
    requires Books(env, c) && c.pc.AtRest? && c.net.session.Current? && ValidTimestamp(ts) && |payload| <= MAX_PAYLOAD
    ensures Books(env, OnReadText(c, ts, payload).ctl)
  {
    SessionEndKeepsBooks(env, c, Unrecoverable);
  }

  lemma ReconnectKeepsBooks(env: Env, c: Ctl, failed: bool, created: bool)
    requires Books(env, c) && Shape(c) && c.pc.AtRest? && c.net.reconnectArmed
    ensures Books(env, OnReconnect(c, failed, created).ctl)
  {
  }

  lemma StopKeepsBooks(env: Env, c: Ctl)
    requires Books(env, c) && c.pc.AtRest?
    ensures Books(env, OnStop(c).ctl)
  {
    if c.net.session.Current? {
      StopSessionKeepsBooks(env, c.(net := c.net.(reconnectArmed := false)));
    }
  }

  lemma ReactKeepsBooks(env: Env, c: Ctl, ring: Ring, e: Event)
    requires Books(env, c) && Shape(c) && EventEnabled(c, ring, e) && (c.pc.AtRest? || e.StopRequest?)
    ensures Books(env, React(c, ring, e).ctl)
  {
    match e
    case OpenEvent => OpenKeepsBooks(env, c);
    case ConnectFailed(code) => SessionEndKeepsBooks(env, c, code);
    case ReadText(ts, payload) => ReadTextKeepsBooks(env, c, ts, payload);
    case ReadEnded(code) => SessionEndKeepsBooks(env, c, code);
    case CloseDone(code) => SessionEndKeepsBooks(env, c, code);
    case ReconnectTimer(failed, created) => ReconnectKeepsBooks(env, c, failed, created);
    case StopOnIo => StopKeepsBooks(env, c);
    case _ =>
  }

  lemma {:induction false} CountedOnce(xs: seq<nat>, i: nat)
    requires i < |xs|
    ensures SumOf(xs[i := xs[i] + 1]) == SumOf(xs) + 1
  {
    if i != 0 {
      assert xs[i := xs[i] + 1][1..] == xs[1..][i - 1 := xs[1..][i - 1] + 1];
      CountedOnce(xs[1..], i - 1);
    } else {
      assert xs[0 := xs[0] + 1][1..] == xs[1..];
    }
  }

  lemma AcquiredKeepsBooks(env: Env, c: Ctl, res: PipelineResult)
    requires Books(env, c) && Shape(c) && c.pc.Acquiring? && GoodAnswer(env, c, res)
    ensures Books(env, OnAcquired(c, c.pc.msg, res).ctl)
  {
    var d := Delivered(c, c.pc.msg, res);
    match res.disposition
    case Fatal(_) => FailKeepsBooks(env, Losing(d));
    case PreAudit =>
    case BatchReady => CountedOnce(c.metrics.outcomes, OutcomeIndex(res.status));
  }

  lemma PauseKeepsBooks(env: Env, c: Ctl, arming: CtlPc)
    requires Books(env, c) && !InMessage(c.pc) && (arming.OpenArming? || arming.MessageArming?)
    ensures Books(env, PauseOr(c, arming).ctl) && Books(env, Return(c))
  {
  }

  lemma PublishedKeepsBooks(env: Env, c: Ctl)
    requires Books(env, c) && Shape(c) && c.pc.Publishing?
    ensures Books(env, OnPublished(c).ctl) && Books(env, c.(pc := PublishDenied))
  {
  }

  lemma ContinueMessageKeepsBooks(env: Env, c: Ctl, ret: Ret, writerOk: bool, res: PipelineResult)
    requires Books(env, c) && Shape(c) && InMessage(c.pc) && GoodAnswer(env, c, res)
    ensures Books(env, Continue(c, ret, writerOk, res).ctl)
  {
    match c.pc
    case Acquiring(_) => AcquiredKeepsBooks(env, c, res);
    case AcquireDenied => FailKeepsBooks(env, Losing(c));
    case PublishDenied => FailKeepsBooks(env, Losing(c));
    case Publishing(_) => PublishedKeepsBooks(env, c);
  }

  lemma ContinuePauseKeepsBooks(env: Env, c: Ctl, ret: Ret, writerOk: bool, res: PipelineResult)
    requires Books(env, c) && InHandler(c.pc) && !InMessage(c.pc)
    ensures Books(env, Continue(c, ret, writerOk, res).ctl)
  {
    PauseKeepsBooks(env, c, OpenArming);
    PauseKeepsBooks(env, c, MessageArming);
  }

  lemma ContinueHandlerKeepsBooks(env: Env, c: Ctl, ret: Ret, writerOk: bool, res: PipelineResult)
    requires Books(env, c) && Shape(c) && InHandler(c.pc) && GoodAnswer(env, c, res)
    ensures Books(env, Continue(c, ret, writerOk, res).ctl)
  {
    if InMessage(c.pc) {
      ContinueMessageKeepsBooks(env, c, ret, writerOk, res);
    } else {
      ContinuePauseKeepsBooks(env, c, ret, writerOk, res);
    }
  }

  lemma ResumeKeepsBooks(env: Env, c: Ctl, below: bool)
    requires Books(env, c) && c.pc.ResumeMeasuring?
    ensures Books(env, OnResumeMeasured(c, below).ctl)
  {
  }

  lemma CheckKeepsBooks(env: Env, c: Ctl, ret: Ret, writerOk: bool, res: PipelineResult)
    requires Books(env, c) && (c.pc.ResumeChecking? || c.pc.TimeoutChecking?)
    ensures Books(env, Continue(c, ret, writerOk, res).ctl)
  {
    if !c.run.failureLatched && !c.run.terminal {
      FailKeepsBooks(env, c);
    }
  }

  lemma ContinueKeepsBooks(env: Env, c: Ctl, ret: Ret, writerOk: bool, res: PipelineResult)
    requires Books(env, c) && Shape(c) && !c.pc.AtRest? && GoodAnswer(env, c, res)
    ensures Books(env, Continue(c, ret, writerOk, res).ctl)
  {
    if InHandler(c.pc) {
      ContinueHandlerKeepsBooks(env, c, ret, writerOk, res);
    } else if c.pc.ResumeChecking? || c.pc.TimeoutChecking? {
      CheckKeepsBooks(env, c, ret, writerOk, res);
    } else if c.pc.ResumeMeasuring? {
      ResumeKeepsBooks(env, c, ret == Flag(true));
    }
  }

  // ------------------------------------------------------------- epochs

  lemma SessionEndKeepsEpochs(c: Ctl, code: EndCode)
    requires Epochs(c)
    ensures Epochs(SessionEnded(c, code).ctl)
  {
  }

  lemma FailKeepsEpochs(c: Ctl)
    requires Epochs(c)
    ensures Epochs(Fail(c).ctl)
  {
    if c.net.session.Current? {
      SessionEndKeepsEpochs(Latched(c), Cancelled);
    }
  }

  lemma OpenKeepsEpochs(c: Ctl)
    requires Epochs(c) && PhaseIs(c.net.session, Connecting)
    ensures Epochs(OnOpen(c).ctl)
  {
  }

  lemma ReconnectKeepsEpochs(c: Ctl, failed: bool, created: bool)
    requires Epochs(c) && !c.net.epochExhausted
    ensures Epochs(OnReconnect(c, failed, created).ctl)
  {
  }

  lemma ReactKeepsEpochs(c: Ctl, ring: Ring, e: Event)
    requires Epochs(c) && Shape(c) && EventEnabled(c, ring, e)
    ensures Epochs(React(c, ring, e).ctl)
  {
    match e
    case OpenEvent => OpenKeepsEpochs(c);
    case ReconnectTimer(failed, created) => ReconnectKeepsEpochs(c, failed, created);
    case ConnectFailed(code) => SessionEndKeepsEpochs(c, code);
    case ReadText(_, _) => SessionEndKeepsEpochs(c, Unrecoverable);
    case ReadEnded(code) => SessionEndKeepsEpochs(c, code);
    case CloseDone(code) => SessionEndKeepsEpochs(c, code);
    case StopOnIo => SessionEndKeepsEpochs(c.(net := c.net.(reconnectArmed := false)), Cancelled);
    case _ =>
  }

  lemma ContinueHandlerKeepsEpochs(c: Ctl, ret: Ret, writerOk: bool, res: PipelineResult)
    requires Epochs(c) && InHandler(c.pc)
    ensures Epochs(Continue(c, ret, writerOk, res).ctl)
  {
    if c.pc.Acquiring? {
      FailKeepsEpochs(Losing(Delivered(c, c.pc.msg, res)));
    } else if InMessage(c.pc) {
      FailKeepsEpochs(Losing(c));
    }
  }

  lemma ContinueKeepsEpochs(c: Ctl, ret: Ret, writerOk: bool, res: PipelineResult)
    requires Epochs(c) && !c.pc.AtRest?
    ensures Epochs(Continue(c, ret, writerOk, res).ctl)
  {
    if InHandler(c.pc) {
      ContinueHandlerKeepsEpochs(c, ret, writerOk, res);
    } else {
      FailKeepsEpochs(c);
    }
  }

  // ------------------------------------------------------- the message policy

  lemma FailKeepsPolicy(c: Ctl)
    requires Policy(c)
    ensures Policy(Fail(c).ctl)
  {
  }

  lemma ReactKeepsPolicy(c: Ctl, ring: Ring, e: Event)
    requires Policy(c) && EventEnabled(c, ring, e)
    ensures Policy(React(c, ring, e).ctl)
  {
  }

  lemma ContinueHandlerKeepsPolicy(c: Ctl, ret: Ret, writerOk: bool, res: PipelineResult)
    requires Policy(c) && InHandler(c.pc)
    ensures Policy(Continue(c, ret, writerOk, res).ctl)
  {
    if c.pc.Acquiring? {
      FailKeepsPolicy(Losing(Delivered(c, c.pc.msg, res)));
    } else if InMessage(c.pc) {
      FailKeepsPolicy(Losing(c));
    }
  }

  lemma ContinueKeepsPolicy(c: Ctl, ret: Ret, writerOk: bool, res: PipelineResult)
    requires Policy(c) && !c.pc.AtRest?
    ensures Policy(Continue(c, ret, writerOk, res).ctl)
  {
    if InHandler(c.pc) {
      ContinueHandlerKeepsPolicy(c, ret, writerOk, res);
    } else {
      FailKeepsPolicy(c);
    }
  }

  // ------------------------------------------------------------ the end of a run

  lemma ReactFinishes(c: Ctl, ring: Ring, e: Event)
    requires EventEnabled(c, ring, e)
    ensures var d := React(c, ring, e).ctl; d.run.terminal == c.run.terminal && (c.run.error ==> d.run.error)
  {
  }

  lemma FailFinishes(c: Ctl)
    ensures var d := Fail(c).ctl; d.run.terminal == c.run.terminal && (c.run.error ==> d.run.error)
  {
  }

  /** Only the return of join ends the run, and a writer error is recorded with it. */
  predicate Ends(c: Ctl, d: Ctl, writerOk: bool) {
    && (c.run.error ==> d.run.error)
    && (d.run.terminal ==> c.run.terminal || (c.pc.Joining? && (!writerOk ==> d.run.error)))
  }

  lemma ContinueHandlerFinishes(c: Ctl, ret: Ret, writerOk: bool, res: PipelineResult)
    requires InHandler(c.pc)
    ensures Ends(c, Continue(c, ret, writerOk, res).ctl, writerOk)
  {
    if c.pc.Acquiring? {
      FailFinishes(Losing(Delivered(c, c.pc.msg, res)));
    } else if InMessage(c.pc) {
      FailFinishes(Losing(c));
    }
  }

  lemma ContinueFinishes(c: Ctl, ret: Ret, writerOk: bool, res: PipelineResult)
    requires !c.pc.AtRest?
    ensures Ends(c, Continue(c, ret, writerOk, res).ctl, writerOk)
  {
    if InHandler(c.pc) {
      ContinueHandlerFinishes(c, ret, writerOk, res);
    } else {
      FailFinishes(c);
    }
  }

  // ------------------------------------------------------------------ history

  lemma TraceAppends(env: Env, inputs: seq<LiveInput>, input: LiveInput)
    ensures TraceOf(env, inputs + [input]) == Extend(env, TraceOf(env, inputs), input)
    ensures Ordered(env, inputs) && (input.Deliver? ==>
              var t := TraceOf(env, inputs);
              ValidMetadata(t.pl, input.msg) && |input.msg.payload| <= MAX_PAYLOAD
              && (t.torn && t.pl.observed ==> input.msg.epoch > t.pl.epoch))
            ==> Ordered(env, inputs + [input])
  {
    var all := inputs + [input];
    assert all[..|all| - 1] == inputs && all[|all| - 1] == input;
  }

  /** A controller step either leaves the feed alone, or tears down, or delivers. */
  ghost predicate FeedStep(env: Env, c: Ctl, d: Ctl, res: PipelineResult) {
    || d.feed == c.feed
    || d.feed == TornDown(c.feed)
    || (&& c.pc.Acquiring? && d.feed == Delivered(c, c.pc.msg, res).feed
        && (res.disposition.Fatal? ==> d.run.failureLatched))
  }

  lemma FeedKeepsHistory(env: Env, c: Ctl, d: Ctl, res: PipelineResult)
    requires History(env, c) && Meta(env, c) && FeedStep(env, c, d, res) && res == Answer(env, c)
    requires c.run.failureLatched ==> d.run.failureLatched
    ensures History(env, d)
    ensures var t, u := TraceOf(env, c.feed.inputs), TraceOf(env, d.feed.inputs);
            if d.feed == c.feed || d.feed == TornDown(c.feed) then u.sent == t.sent
            else u.sent == if !t.dead && res.disposition.BatchReady? then t.sent + [res] else t.sent
  {
    if d.feed == TornDown(c.feed) {
      TraceAppends(env, c.feed.inputs, Teardown);
    } else if d.feed != c.feed {
      TraceAppends(env, c.feed.inputs, Deliver(c.pc.msg));
    }
  }

  lemma FailFeeds(env: Env, c: Ctl)
    ensures var d := Fail(c).ctl;
            && (d.feed == c.feed || d.feed == TornDown(c.feed))
            && (c.run.failureLatched ==> d.run.failureLatched)
            && (PhaseIs(c.net.session, Open) ==> d.feed == c.feed)
            && (!c.run.terminal ==> d.run.failureLatched)
  {
  }

  lemma ReactFeeds(env: Env, c: Ctl, ring: Ring, e: Event)
    requires EventEnabled(c, ring, e)
    ensures var d := React(c, ring, e).ctl;
            && (d.feed == c.feed || d.feed == TornDown(c.feed)) && (c.run.failureLatched ==> d.run.failureLatched)
  {
  }

  lemma ContinueFeeds(env: Env, c: Ctl, ret: Ret, writerOk: bool, res: PipelineResult)
    requires Shape(c) && !c.pc.AtRest?
    ensures var d := Continue(c, ret, writerOk, res).ctl;
            && FeedStep(env, c, d, res) && (c.run.failureLatched ==> d.run.failureLatched)
            && if c.pc.Acquiring? && ret == Acquired then d.feed == Delivered(c, c.pc.msg, res).feed
               else d.feed == c.feed || d.feed == TornDown(c.feed)
  {
    FailFeeds(env, c);
    FailFeeds(env, Losing(c));
    if c.pc.Acquiring? {
      FailFeeds(env, Losing(Delivered(c, c.pc.msg, res)));
    }
  }
}
