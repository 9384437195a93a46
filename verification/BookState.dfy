/** The book objects of src/spot_book.cpp: candidate sides are built in fresh arrays
    and replace the current ones only when the event is accepted. */
module BookState {
  import opened Types
  import opened TopFive
  import opened BookArrays
  import opened Sequencer

  /** Storage and mutation shared by the two sequencers. */
  class TopFiveBook {
    var bids: array<Level>
    var bidCount: nat
    var asks: array<Level>
    var askCount: nat
    var lastId: U64
    var valid: bool

    ghost predicate Valid()
      reads this, bids, asks
    {
      && bids.Length == DEPTH && bidCount <= DEPTH && GoodSide(Bid, bids[..bidCount])
      && asks.Length == DEPTH && askCount <= DEPTH && GoodSide(Ask, asks[..askCount])
      && !Crossed(bids[..bidCount], asks[..askCount])
    }

    /** The book this object stands for, with the given chain fields. */
    ghost function View(chained: bool, previousId: U64): Book
      reads this, bids, asks
      requires Valid()
    {
      Book(bids[..bidCount], asks[..askCount], lastId, valid, chained, previousId)
    }

    constructor ()
      ensures Valid() && fresh(bids) && fresh(asks)
      ensures View(false, 0) == EMPTY_BOOK
    {
      bids, asks := new Level[DEPTH](_ => Level(0, 0)), new Level[DEPTH](_ => Level(0, 0));
      bidCount, askCount, lastId, valid := 0, 0, 0, false;
    }

    method Invalidate()
      requires Valid()
      modifies this`valid
      ensures Valid() && View(false, 0) == Invalidated(old(View(false, 0)))
    {
      valid := false;
    }

    method Refresh(e: DepthEvent) returns (status: Status)
      requires Valid() && GoodRefresh(e)
      modifies this
      ensures Valid()
      ensures (View(false, 0), status) == Sequencer.ApplyRefresh(old(View(false, 0)), e)
    {
      if valid && e.finalId < lastId {
        return StaleRefresh;
      }
      var newBids, newBidCount := MakeRefreshSide(e.bids);
      var newAsks, newAskCount := MakeRefreshSide(e.asks);
      bids, bidCount, asks, askCount := newBids, newBidCount, newAsks, newAskCount;
      lastId, valid := e.finalId, true;
      return AppliedRefresh;
    }

    method AcceptDiff(e: DepthEvent) returns (status: Status)
      requires Valid() && GoodDiff(Spot, e)
      modifies this
      ensures Valid()
      ensures (View(false, 0), status) == ApplyAccepted(Spot, old(View(false, 0)), e)
    {
      UpdatesKeepSide(Bid, bids[..bidCount], e.bids);
      UpdatesKeepSide(Ask, asks[..askCount], e.asks);
      var newBids, newBidCount := ApplyUpdatesInPlace(bids, bidCount, e.bids, Bid);
      var newAsks, newAskCount := ApplyUpdatesInPlace(asks, askCount, e.asks, Ask);
      if newBidCount != 0 && newAskCount != 0 && newBids[0].price >= newAsks[0].price {
        assert Crossed(newBids[..newBidCount], newAsks[..newAskCount]);
        valid := false;
        return CrossedBook;
      }
      bids, bidCount, asks, askCount := newBids, newBidCount, newAsks, newAskCount;
      lastId := e.finalId;
      return AppliedDiff;
    }
  }

  class SpotBookState {
    const core: TopFiveBook

    ghost predicate Valid()
      reads core, core.bids, core.asks
    {
      core.Valid()
    }

    ghost function View(): Book
      reads core, core.bids, core.asks
      requires Valid()
    {
      core.View(false, 0)
    }

    constructor ()
      ensures Valid() && fresh(core) && View() == EMPTY_BOOK
    {
      core := new TopFiveBook();
    }

    method Invalidate()
      requires Valid()
      modifies core`valid
      ensures Valid() && View() == Invalidated(old(View()))
    {
      core.Invalidate();
    }

    method ApplyRefresh(e: DepthEvent) returns (status: Status)
      requires Valid() && GoodRefresh(e)
      modifies core
      ensures Valid() && (View(), status) == Sequencer.ApplyRefresh(old(View()), e)
    {
      status := core.Refresh(e);
    }

    method ApplyDiff(e: DepthEvent) returns (status: Status)
      requires Valid() && GoodDiff(Spot, e)
      modifies core
      ensures Valid() && (View(), status) == SpotDiff(old(View()), e)
    {
      if !core.valid {
        return IgnoredWhileInvalid;
      }
      if e.finalId <= core.lastId {
        return StaleDiff;
      }
      var nextUpdateId: U64 := core.lastId + 1;
      if e.firstId > nextUpdateId {
        core.Invalidate();
        return SequenceGap;
      }
      status := core.AcceptDiff(e);
    }
  }

  class UsdMBookState {
    const core: TopFiveBook
    var previousId: U64
    var chained: bool

    ghost predicate Valid()
      reads this, core, core.bids, core.asks
    {
      core.Valid() && GoodBook(UsdM, core.View(chained, previousId))
    }

    ghost function View(): Book
      reads this, core, core.bids, core.asks
      requires Valid()
    {
      core.View(chained, previousId)
    }

    constructor ()
      ensures Valid() && fresh(core) && View() == EMPTY_BOOK
    {
      core := new TopFiveBook();
      previousId, chained := 0, false;
    }

    method Invalidate()
      requires Valid()
      modifies this, core`valid
      ensures Valid() && View() == Invalidated(old(View()))
    {
      core.Invalidate();
      previousId, chained := 0, false;
    }

    method ApplyRefresh(e: DepthEvent) returns (status: Status)
      requires Valid() && GoodRefresh(e)
      modifies this, core
      ensures Valid() && (View(), status) == Sequencer.ApplyRefresh(old(View()), e)
    {
      status := core.Refresh(e);
      if status == AppliedRefresh {
        previousId, chained := 0, false;
      }
    }

    method ApplyDiff(e: DepthEvent) returns (status: Status)
      requires Valid() && GoodDiff(UsdM, e)
      modifies this, core
      ensures Valid() && (View(), status) == UsdMDiff(old(View()), e)
    {
      if !core.valid {
        return IgnoredWhileInvalid;
      }
      if chained {
        if e.previousId != previousId {
          Invalidate();
          return SequenceGap;
        }
        if e.finalId <= core.lastId {
          return StaleDiff;
        }
      } else {
        if e.finalId <= core.lastId {
          return StaleDiff;
        }
        var nextUpdateId: U64 := core.lastId + 1;
        if e.firstId > nextUpdateId {
          Invalidate();
          return SequenceGap;
        }
      }
      status := core.AcceptDiff(e);
      if status == AppliedDiff {
        previousId, chained := e.finalId, true;
      } else if status == CrossedBook {
        previousId, chained := 0, false;
      }
    }
  }
}
