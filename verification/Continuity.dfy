/** What the sequence protocols decide, by identifiers and levels, and what a valid book means
    for the updates delivered so far (src/spot_book.cpp, src/event_processor.cpp). */
module Continuity {
  import opened Types
  import opened TopFive
  import opened Sequencer
  import opened EventProcessor

  // ------------------------------------------------------------------- one event

  /** The diff continues the book: it is newer, and it follows the predecessor chain of USD-M
      or, without a chain, its range begins no later than the next update. */
  predicate Continues(venue: Venue, b: Book, e: DepthEvent) {
    && e.finalId > b.lastId
    && if venue.UsdM? && b.chained then e.previousId == b.lastId else e.firstId <= b.lastId + 1
  }

  /** With the quantities of the diff in place of the book's there are a bid and an ask that
      cross, whether the book shows them or not. */
  ghost predicate Crosses(b: Book, e: DepthEvent) {
    exists p, q :: p >= q && Overridden(b.bids, e.bids, p) != 0 && Overridden(b.asks, e.asks, q) != 0
  }

  /** Updates between the book and the diff are missing: the diff breaks the predecessor chain
      or, without a chain, begins after the next update. */
  predicate Misses(venue: Venue, b: Book, e: DepthEvent) {
    if venue.UsdM? && b.chained then e.previousId != b.lastId else e.firstId > b.lastId + 1
  }

  lemma CrossedMeansCrosses(b: Book, e: DepthEvent)
    requires GoodSide(Bid, b.bids) && GoodSide(Ask, b.asks) && GoodDiff(Spot, e)
    ensures Crossed(ApplyUpdates(Bid, b.bids, e.bids), ApplyUpdates(Ask, b.asks, e.asks)) <==> Crosses(b, e)
  {
    var bids, asks := ApplyUpdates(Bid, b.bids, e.bids), ApplyUpdates(Ask, b.asks, e.asks);
    ApplyUpdatesIsBestFive(Bid, b.bids, e.bids);
    ApplyUpdatesIsBestFive(Ask, b.asks, e.asks);
    if Crossed(bids, asks) {
      var p, q := bids[0].price, asks[0].price;
      assert Overridden(b.bids, e.bids, p) != 0 && Overridden(b.asks, e.asks, q) != 0;
    }
    if p, q :| p >= q && Overridden(b.bids, e.bids, p) != 0 && Overridden(b.asks, e.asks, q) != 0 {
      BestIsFirst(Bid, bids, x => Overridden(b.bids, e.bids, x), p);
      BestIsFirst(Ask, asks, x => Overridden(b.asks, e.asks, x), q);
    }
  }

  /** Every price of a side is at or behind the first one shown. */
  lemma BestIsFirst(side: BookSide, shown: seq<Level>, f: int -> int, p: int)
    requires IsBestFive(side, shown, f) && f(p) != 0
    ensures shown != [] && AtOrBetter(side, shown[0].price, p)
  {
    if HasPrice(shown, p) {
      var i :| 0 <= i < |shown| && shown[i].price == p;
    }
  }

  /** The five verdicts on a diff and what each does to the book. */
  lemma DiffVerdict(venue: Venue, b: Book, e: DepthEvent)
    requires GoodBook(venue, b) && GoodDiff(venue, e)
    ensures var (r, status) := ApplyEvent(venue, DepthDiff, b, e);
            && (status.IgnoredWhileInvalid? <==> !b.valid)
            && (status.SequenceGap? <==> b.valid && Misses(venue, b, e))
            && (status.StaleDiff? <==> b.valid && !Misses(venue, b, e) && e.finalId <= b.lastId)
            && (status.CrossedBook? <==> b.valid && Continues(venue, b, e) && Crosses(b, e))
            && (status.AppliedDiff? <==> b.valid && Continues(venue, b, e) && !Crosses(b, e))
            && (r.valid <==> status.StaleDiff? || status.AppliedDiff?)
            && (status.StaleDiff? ==> r == b)
            && (status.AppliedDiff? ==> && r.lastId == e.finalId && (r.chained <==> venue.UsdM?)
                                        && IsBestFive(Bid, r.bids, p => Overridden(b.bids, e.bids, p))
                                        && IsBestFive(Ask, r.asks, p => Overridden(b.asks, e.asks, p)))
  {
    CrossedMeansCrosses(b, e);
    ApplyUpdatesIsBestFive(Bid, b.bids, e.bids);
    ApplyUpdatesIsBestFive(Ask, b.asks, e.asks);
  }

  /** The two verdicts on a refresh. */
  lemma RefreshVerdict(venue: Venue, b: Book, e: DepthEvent)
    ensures var (r, status) := ApplyEvent(venue, Depth5, b, e);
            && r.valid && (status.StaleRefresh? || status.AppliedRefresh?)
            && (status.StaleRefresh? <==> b.valid && e.finalId < b.lastId)
            && (status.StaleRefresh? ==> r == b)
            && (status.AppliedRefresh? ==> r.lastId == e.finalId && r.bids == e.bids && r.asks == e.asks && !r.chained)
  {
  }

  // ------------------------------------------------------------------- whole runs

  /** The book is valid in every state of the run. */
  predicate ValidThroughout(venue: Venue, b: Book, xs: seq<Input>)
    requires GoodInputs(venue, xs)
    decreases |xs|
  {
    b.valid && (xs == [] || ValidThroughout(venue, Advance(venue, b, xs[0]), xs[1..]))
  }

  /** The delivered event brings update id: a refresh brings all up to its own, a diff those
      of its range, and on USD-M those after its predecessor. */
  predicate Brings(venue: Venue, x: Input, id: int) {
    && x.Depth? && id <= x.event.finalId
    && (x.kind.Depth5? || x.event.firstId <= id || (venue.UsdM? && x.event.previousId < id))
  }

  predicate SomeBrings(venue: Venue, xs: seq<Input>, id: int) {
    exists i :: 0 <= i < |xs| && Brings(venue, xs[i], id)
  }

  /** Nothing is missing between two valid books: the later one has seen every event, and
      every update up to it was brought by one. */
  ghost predicate CaughtUp(venue: Venue, b: Book, xs: seq<Input>, r: Book) {
    && r.valid && b.lastId <= r.lastId
    && (forall i :: 0 <= i < |xs| ==> xs[i].Depth? && xs[i].event.finalId <= r.lastId)
    && (forall id :: b.lastId < id <= r.lastId ==> SomeBrings(venue, xs, id))
  }

  lemma EventCatchesUp(venue: Venue, b: Book, x: Input)
    requires GoodBook(venue, b) && b.valid && GoodInput(venue, x) && Advance(venue, b, x).valid
    ensures x.Depth?
    ensures var r := Advance(venue, b, x);
            && GoodBook(venue, r) && b.lastId <= r.lastId && x.event.finalId <= r.lastId
            && forall id :: b.lastId < id <= r.lastId ==> Brings(venue, x, id)
  {
    EventKeepsBook(venue, x.kind, b, x.event);
    if x.kind.DepthDiff? {
      DiffVerdict(venue, b, x.event);
    } else {
      RefreshVerdict(venue, b, x.event);
    }
  }

  lemma CaughtUpCons(venue: Venue, b: Book, x: Input, c: Book, xs: seq<Input>, r: Book)
    requires x.Depth? && b.lastId <= c.lastId && x.event.finalId <= c.lastId && CaughtUp(venue, c, xs, r)
    requires forall id :: b.lastId < id <= c.lastId ==> Brings(venue, x, id)
    ensures CaughtUp(venue, b, [x] + xs, r)
  {
    var all := [x] + xs;
    forall id | b.lastId < id <= r.lastId ensures SomeBrings(venue, all, id) {
      if id <= c.lastId {
        assert Brings(venue, all[0], id);
      } else {
        assert SomeBrings(venue, xs, id);
        var i :| 0 <= i < |xs| && Brings(venue, xs[i], id);
        assert all[i + 1] == xs[i];
      }
    }
  }

  /** While a book stays valid no update delivered to it is missing: no event is ahead of it,
      and every update between its first and its last state was brought by an event. */
  lemma {:induction false} ValidMissesNothing(venue: Venue, b: Book, xs: seq<Input>)
    requires GoodBook(venue, b) && GoodInputs(venue, xs) && ValidThroughout(venue, b, xs)
    ensures CaughtUp(venue, b, xs, Replayed(venue, b, xs))
    decreases |xs|
  {
    if xs != [] {
      var c := Advance(venue, b, xs[0]);
      assert c.valid;
      EventCatchesUp(venue, b, xs[0]);
      ValidMissesNothing(venue, c, xs[1..]);
      CaughtUpCons(venue, b, xs[0], c, xs[1..], Replayed(venue, b, xs));
      assert [xs[0]] + xs[1..] == xs;
    }
  }

  predicate NoRefresh(xs: seq<Input>) {
    forall i :: 0 <= i < |xs| ==> xs[i].Depth? ==> xs[i].kind.DepthDiff?
  }

  /** Only a refresh makes a book valid. */
  lemma {:induction false} InvalidUntilRefresh(venue: Venue, b: Book, xs: seq<Input>)
    requires GoodInputs(venue, xs) && !b.valid && NoRefresh(xs)
    ensures !Replayed(venue, b, xs).valid
    decreases |xs|
  {
    if xs != [] {
      InvalidUntilRefresh(venue, Advance(venue, b, xs[0]), xs[1..]);
    }
  }

  /** A diff that misses updates leaves the book invalid until the next refresh, whatever
      else is delivered. */
  lemma GapLastsUntilRefresh(venue: Venue, b: Book, e: DepthEvent, xs: seq<Input>)
    requires GoodBook(venue, b) && GoodDiff(venue, e) && Misses(venue, b, e) && GoodInputs(venue, xs) && NoRefresh(xs)
    ensures var all := [Depth(DepthDiff, e)] + xs; GoodInputs(venue, all) && !Replayed(venue, b, all).valid
  {
    var all := [Depth(DepthDiff, e)] + xs;
    DiffVerdict(venue, b, e);
    InvalidUntilRefresh(venue, ApplyEvent(venue, DepthDiff, b, e).0, xs);
    assert all[1..] == xs;
  }

  // ------------------------------------------------------ events of the processor

  /** When the book is valid after an event: an accepted refresh makes it valid; otherwise it
      was valid, in the connection of this event, and a diff was accepted and is stale, or
      continues the book without crossing it. */
  lemma ValidAfterEvent(parse: Parser, st: SymbolState, ctx: Context, payload: string, mode: Mode)
    requires ParserContract(parse) && GoodState(st) && ContextIsValid(st, ctx)
    requires Process(parse, st, ctx, payload, mode).error == NoError
    ensures var parsed := parse(ctx.venue, ctx.kind, st.symbol, payload);
            var e, before := parsed.depth, st.book.valid && !(st.observed && ctx.epoch > st.epoch);
            Process(parse, st, ctx, payload, mode).state.book.valid
            <==> match ctx.kind
                 case Trade => before
                 case Depth5 => before || parsed.error.NoParseError?
                 case DepthDiff =>
                   && before && parsed.error.NoParseError? && !Misses(st.venue, st.book, e)
                   && (e.finalId <= st.book.lastId || !Crosses(st.book, e))
  {
    var e := parse(ctx.venue, ctx.kind, st.symbol, payload).depth;
    if parse(ctx.venue, ctx.kind, st.symbol, payload).error.NoParseError? && !ctx.kind.Trade? {
      InvalidationKeepsBook(st.venue, st.book);
      if ctx.kind.DepthDiff? {
        DiffVerdict(st.venue, StartBook(st, ctx), e);
      } else {
        RefreshVerdict(st.venue, StartBook(st, ctx), e);
      }
    }
  }

  /** A row is emitted exactly for an accepted refresh that is not older than a valid book of
      this connection, and for an accepted diff that continues such a book without crossing. */
  lemma EmitsExactly(parse: Parser, st: SymbolState, ctx: Context, payload: string, mode: Mode)
    requires ParserContract(parse) && GoodState(st) && ContextIsValid(st, ctx)
    requires Process(parse, st, ctx, payload, mode).error == NoError
    ensures var parsed := parse(ctx.venue, ctx.kind, st.symbol, payload);
            var e, before := parsed.depth, st.book.valid && !(st.observed && ctx.epoch > st.epoch);
            Process(parse, st, ctx, payload, mode).batch.hasBook
            <==> && parsed.error.NoParseError?
                 && match ctx.kind
                    case Trade => false
                    case Depth5 => !before || e.finalId >= st.book.lastId
                    case DepthDiff => before && Continues(st.venue, st.book, e) && !Crosses(st.book, e)
  {
    var e := parse(ctx.venue, ctx.kind, st.symbol, payload).depth;
    if parse(ctx.venue, ctx.kind, st.symbol, payload).error.NoParseError? && !ctx.kind.Trade? {
      InvalidationKeepsBook(st.venue, st.book);
      if ctx.kind.DepthDiff? {
        DiffVerdict(st.venue, StartBook(st, ctx), e);
      } else {
        RefreshVerdict(st.venue, StartBook(st, ctx), e);
      }
    }
  }

  /** A valid book is current: after a processed diff it is at or past the diff, and after an
      event of a later connection it is that connection's own refresh. */
  lemma ValidMeansCurrent(parse: Parser, st: SymbolState, ctx: Context, payload: string, mode: Mode)
    requires ParserContract(parse) && GoodState(st) && ContextIsValid(st, ctx)
    requires var o := Process(parse, st, ctx, payload, mode); o.error == NoError && o.state.book.valid
    ensures var o, e := Process(parse, st, ctx, payload, mode), parse(ctx.venue, ctx.kind, st.symbol, payload).depth;
            && (ctx.kind.DepthDiff? ==> e.finalId <= o.state.book.lastId)
            && (st.book.valid && !(st.observed && ctx.epoch > st.epoch) ==> st.book.lastId <= o.state.book.lastId)
            && (!st.book.valid || (st.observed && ctx.epoch > st.epoch) ==>
                  ctx.kind.Depth5? && o.state.book.lastId == e.finalId)
            && o.state.observed && o.state.epoch == ctx.epoch && o.state.connSeq == ctx.connSeq
  {
    var e := parse(ctx.venue, ctx.kind, st.symbol, payload).depth;
    ValidAfterEvent(parse, st, ctx, payload, mode);
    if parse(ctx.venue, ctx.kind, st.symbol, payload).error.NoParseError? && !ctx.kind.Trade? {
      InvalidationKeepsBook(st.venue, st.book);
      if ctx.kind.DepthDiff? {
        DiffVerdict(st.venue, StartBook(st, ctx), e);
      } else {
        RefreshVerdict(st.venue, StartBook(st, ctx), e);
      }
    }
  }
}
