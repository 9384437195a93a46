/** The visible book against the exchange it follows.  A history says what quantity the
    exchange had at every price after every update; the messages are truthful reports
    of it.  Nothing here is code of the capture program: it is the reference the book of
    src/spot_book.cpp is compared with. */
module Exchange {
  import opened Types
  import opened TopFive
  import opened Sequencer

  /** bids(t, p) and asks(t, p): the quantity at price p after update t, zero if none. */
  datatype History = History(bids: (int, int) -> int, asks: (int, int) -> int)

  function Quantity(x: History, side: BookSide, t: int, p: int): int {
    if side.Bid? then x.bids(t, p) else x.asks(t, p)
  }

  /** An exchange never shows a bid at or above an ask. */
  ghost predicate Uncrossed(x: History) {
    forall t, p, q :: x.bids(t, p) != 0 && x.asks(t, q) != 0 ==> p < q
  }

  // -------------------------------------------------------- truthful messages

  /** The updates give the quantity after update `to` of every price that changed since
      any update from `from` on. */
  ghost predicate ReportsChanges(x: History, side: BookSide, from: int, to: int, updates: seq<Level>) {
    && (forall i :: 0 <= i < |updates| ==> updates[i].quantity == Quantity(x, side, to, updates[i].price))
    && (forall t, p :: from <= t <= to && !HasPrice(updates, p) ==>
          Quantity(x, side, t, p) == Quantity(x, side, to, p))
  }

  /** A diff covers the updates firstId..finalId; on USD-M also everything after
      previousId. */
  ghost predicate TruthfulDiff(x: History, venue: Venue, e: DepthEvent) {
    && ReportsChanges(x, Bid, e.firstId - 1, e.finalId, e.bids)
    && ReportsChanges(x, Ask, e.firstId - 1, e.finalId, e.asks)
    && (venue.UsdM? ==> && ReportsChanges(x, Bid, e.previousId, e.finalId, e.bids)
                        && ReportsChanges(x, Ask, e.previousId, e.finalId, e.asks))
  }

  /** A refresh carries the best five of both sides. */
  ghost predicate TruthfulRefresh(x: History, e: DepthEvent) {
    && IsBestFive(Bid, e.bids, p => Quantity(x, Bid, e.finalId, p))
    && IsBestFive(Ask, e.asks, p => Quantity(x, Ask, e.finalId, p))
  }

  ghost predicate Truthful(x: History, venue: Venue, input: Input) {
    input.Depth? ==>
      if input.kind.Depth5? then TruthfulRefresh(x, input.event) else TruthfulDiff(x, venue, input.event)
  }

  // --------------------------------------------------- what the book may claim

  /** How deep the visible side is known to be complete. */
  datatype Horizon = Everything | UpTo(price: int)

  predicate Within(side: BookSide, p: int, h: Horizon) {
    h.Everything? || AtOrBetter(side, p, h.price)
  }

  /** Every visible level is the exchange's level, and every exchange level within the
      horizon is visible. */
  ghost predicate Sees(x: History, side: BookSide, t: int, levels: seq<Level>, h: Horizon) {
    && (forall i :: 0 <= i < |levels| ==> Quantity(x, side, t, levels[i].price) == levels[i].quantity)
    && (forall p :: Quantity(x, side, t, p) != 0 && Within(side, p, h) ==> HasPrice(levels, p))
  }

  /** The horizon after the five best have been kept. */
  function Narrowed(side: BookSide, levels: seq<Level>, h: Horizon): Horizon {
    if |levels| < DEPTH then h
    else
      var worst := levels[DEPTH - 1].price;
      if h.UpTo? && Better(side, h.price, worst) then h else UpTo(worst)
  }

  ghost predicate SeesBook(x: History, b: Book, bidHorizon: Horizon, askHorizon: Horizon) {
    b.valid ==> Sees(x, Bid, b.lastId, b.bids, bidHorizon) && Sees(x, Ask, b.lastId, b.asks, askHorizon)
  }

  // ----------------------------------------------------------------- one side

  lemma RefreshSees(x: History, side: BookSide, t: int, levels: seq<Level>)
    requires IsBestFive(side, levels, p => Quantity(x, side, t, p))
    ensures Sees(x, side, t, levels, Narrowed(side, levels, Everything))
  {
    var f := (p: int) => Quantity(x, side, t, p);
    forall p | Quantity(x, side, t, p) != 0 && Within(side, p, Narrowed(side, levels, Everything))
      ensures HasPrice(levels, p)
    {
      assert f(p) != 0;
    }
  }

  /** What a truthful diff makes of a side that was seen at an update it covers. */
  lemma OverriddenIsTrue(x: History, side: BookSide, t: int, to: int, levels: seq<Level>, h: Horizon,
                         updates: seq<Level>, p: int)
    requires Sees(x, side, t, levels, h) && UniquePrices(levels) && UniquePrices(updates)
    requires ReportsChanges(x, side, t, to, updates) && t <= to
    ensures Overridden(levels, updates, p) != 0 ==> Overridden(levels, updates, p) == Quantity(x, side, to, p)
    ensures Within(side, p, h) ==> Overridden(levels, updates, p) == Quantity(x, side, to, p)
  {
    if HasPrice(updates, p) {
      var i :| 0 <= i < |updates| && updates[i].price == p;
      LookupAt(updates, i);
    } else {
      assert Quantity(x, side, t, p) == Quantity(x, side, to, p);
      if HasPrice(levels, p) {
        var i :| 0 <= i < |levels| && levels[i].price == p;
        LookupAt(levels, i);
      } else {
        LookupAbsent(levels, p);
      }
    }
  }

  lemma DiffSees(x: History, side: BookSide, t: int, to: int, levels: seq<Level>, h: Horizon, updates: seq<Level>)
    requires Sees(x, side, t, levels, h) && GoodSide(side, levels)
    requires UniquePrices(updates) && NonNegativeQuantities(updates)
    requires ReportsChanges(x, side, t, to, updates) && t <= to
    ensures var r := ApplyUpdates(side, levels, updates); Sees(x, side, to, r, Narrowed(side, r, h))
  {
    var r := ApplyUpdates(side, levels, updates);
    ApplyUpdatesIsBestFive(side, levels, updates);
    var f := (p: int) => Overridden(levels, updates, p);
    forall i | 0 <= i < |r| ensures Quantity(x, side, to, r[i].price) == r[i].quantity {
      assert f(r[i].price) == r[i].quantity;
      OverriddenIsTrue(x, side, t, to, levels, h, updates, r[i].price);
    }
    forall p | Quantity(x, side, to, p) != 0 && Within(side, p, Narrowed(side, r, h))
      ensures HasPrice(r, p)
    {
      OverriddenIsTrue(x, side, t, to, levels, h, updates, p);
      assert f(p) != 0;
    }
  }

  // ------------------------------------------------------------------ the book

  /** A book accepted by the sequencer was at an update the diff covers. */
  lemma AcceptedDiffSees(x: History, venue: Venue, b: Book, e: DepthEvent, bh: Horizon, ah: Horizon)
    requires GoodBook(venue, b) && b.valid && GoodDiff(venue, e) && SeesBook(x, b, bh, ah)
    requires ReportsChanges(x, Bid, b.lastId, e.finalId, e.bids) && ReportsChanges(x, Ask, b.lastId, e.finalId, e.asks)
    requires b.lastId <= e.finalId
    ensures var r := ApplyAccepted(venue, b, e).0;
            SeesBook(x, r, Narrowed(Bid, r.bids, bh), Narrowed(Ask, r.asks, ah))
  {
    DiffSees(x, Bid, b.lastId, e.finalId, b.bids, bh, e.bids);
    DiffSees(x, Ask, b.lastId, e.finalId, b.asks, ah, e.asks);
  }

  /** The book together with the horizons its history of messages gives it: a refresh
      sets them to the fifth level, or to everything when fewer are shown; a diff that
      fills the five levels can only narrow them. */
  datatype Followed = Followed(book: Book, bidHorizon: Horizon, askHorizon: Horizon)

  function Follow(venue: Venue, s: Followed, input: Input): Followed
    requires GoodInput(venue, input)
  {
    var b := Advance(venue, s.book, input);
    if input.Invalidation? then s.(book := b)
    else match ApplyEvent(venue, input.kind, s.book, input.event).1
      case AppliedRefresh => Followed(b, Narrowed(Bid, b.bids, Everything), Narrowed(Ask, b.asks, Everything))
      case AppliedDiff => Followed(b, Narrowed(Bid, b.bids, s.bidHorizon), Narrowed(Ask, b.asks, s.askHorizon))
      case _ => s.(book := b)
  }

  function FollowAll(venue: Venue, s: Followed, inputs: seq<Input>): Followed
    requires GoodInputs(venue, inputs)
    decreases |inputs|
  {
    if inputs == [] then s else FollowAll(venue, Follow(venue, s, inputs[0]), inputs[1..])
  }

  ghost predicate SeesExchange(x: History, s: Followed) {
    SeesBook(x, s.book, s.bidHorizon, s.askHorizon)
  }

  lemma FollowSees(x: History, venue: Venue, s: Followed, input: Input)
    requires GoodBook(venue, s.book) && GoodInput(venue, input) && Truthful(x, venue, input) && SeesExchange(x, s)
    ensures SeesExchange(x, Follow(venue, s, input))
  {
    if input.Depth? {
      var e := input.event;
      var status := ApplyEvent(venue, input.kind, s.book, e).1;
      if status.AppliedRefresh? {
        RefreshSees(x, Bid, e.finalId, e.bids);
        RefreshSees(x, Ask, e.finalId, e.asks);
      } else if status.AppliedDiff? {
        AcceptedDiffSees(x, venue, s.book, e, s.bidHorizon, s.askHorizon);
      }
    }
  }

  /** The visible book is sound against the exchange in every reachable state: each
      visible level is the exchange's at the book's last update, and everything within
      the horizon is visible. */
  lemma {:induction false} VisibleBookIsSound(x: History, venue: Venue, s: Followed, inputs: seq<Input>)
    requires GoodBook(venue, s.book) && SeesExchange(x, s) && GoodInputs(venue, inputs)
    requires forall i :: 0 <= i < |inputs| ==> Truthful(x, venue, inputs[i])
    ensures SeesExchange(x, FollowAll(venue, s, inputs))
    ensures FollowAll(venue, s, inputs).book == Replayed(venue, s.book, inputs)
    decreases |inputs|
  {
    if inputs != [] {
      FollowSees(x, venue, s, inputs[0]);
      if inputs[0].Depth? {
        EventKeepsBook(venue, inputs[0].kind, s.book, inputs[0].event);
      }
      VisibleBookIsSound(x, venue, Follow(venue, s, inputs[0]), inputs[1..]);
    }
  }

  /** From the empty book, with no assumption on the start. */
  lemma VisibleBookIsSoundFromStart(x: History, venue: Venue, inputs: seq<Input>)
    requires GoodInputs(venue, inputs) && forall i :: 0 <= i < |inputs| ==> Truthful(x, venue, inputs[i])
    ensures SeesExchange(x, FollowAll(venue, Followed(EMPTY_BOOK, Everything, Everything), inputs))
  {
    VisibleBookIsSound(x, venue, Followed(EMPTY_BOOK, Everything, Everything), inputs);
  }

  /** Right after a refresh every visible level lies within the horizon. */
  lemma RefreshSetsHorizon(venue: Venue, s: Followed, e: DepthEvent, i: nat)
    requires GoodRefresh(e) && ApplyRefresh(s.book, e).1.AppliedRefresh?
    ensures var r := Follow(venue, s, Depth(Depth5, e));
            && (i < |r.book.bids| ==> Within(Bid, r.book.bids[i].price, r.bidHorizon))
            && (i < |r.book.asks| ==> Within(Ask, r.book.asks[i].price, r.askHorizon))
  {
  }

  /** While any visible level lies within the horizon the best visible price is the
      exchange's best price. */
  lemma BestPriceIsExact(x: History, side: BookSide, t: int, levels: seq<Level>, h: Horizon, i: nat, p: int)
    requires Sees(x, side, t, levels, h) && Sorted(side, levels)
    requires i < |levels| && Within(side, levels[i].price, h)
    requires Quantity(x, side, t, p) != 0
    ensures AtOrBetter(side, levels[0].price, p)
  {
    if Better(side, p, levels[0].price) {
      assert Within(side, p, h);
      var k :| 0 <= k < |levels| && levels[k].price == p;
    }
  }

  /** Following an uncrossed exchange truthfully, the book never crosses. */
  lemma TruthfulDiffNeverCrosses(x: History, venue: Venue, b: Book, e: DepthEvent, bh: Horizon, ah: Horizon)
    requires GoodBook(venue, b) && GoodDiff(venue, e) && SeesBook(x, b, bh, ah)
    requires TruthfulDiff(x, venue, e) && Uncrossed(x)
    ensures ApplyEvent(venue, DepthDiff, b, e).1 != CrossedBook
  {
    if b.valid && ApplyEvent(venue, DepthDiff, b, e).1 == CrossedBook {
      var bids, asks := ApplyUpdates(Bid, b.bids, e.bids), ApplyUpdates(Ask, b.asks, e.asks);
      DiffSees(x, Bid, b.lastId, e.finalId, b.bids, bh, e.bids);
      DiffSees(x, Ask, b.lastId, e.finalId, b.asks, ah, e.asks);
      UpdatesKeepSide(Bid, b.bids, e.bids);
      UpdatesKeepSide(Ask, b.asks, e.asks);
    }
  }
}
