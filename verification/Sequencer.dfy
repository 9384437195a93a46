/** The visible book of one symbol and the two sequence protocols that decide which
    depth messages may change it (SpotBookState and UsdMBookState in
    src/spot_book.cpp). */
module Sequencer {
  import opened Types
  import opened TopFive

  /** chained and previousId are the predecessor chain of USD-M; a Spot book never
      sets them. */
  datatype Book = Book(bids: seq<Level>, asks: seq<Level>, lastId: U64, valid: bool,
                       chained: bool, previousId: U64)

  const EMPTY_BOOK := Book([], [], 0, false, false, 0)

  datatype Status =
    | AppliedRefresh | AppliedDiff | StaleRefresh | StaleDiff
    | IgnoredWhileInvalid | SequenceGap | CrossedBook

  datatype RowSide = BidRow | AskRow | NeutralRow

  predicate EmitsSnapshot(status: Status) {
    status.AppliedRefresh? || status.AppliedDiff?
  }

  predicate Crossed(bids: seq<Level>, asks: seq<Level>) {
    bids != [] && asks != [] && bids[0].price >= asks[0].price
  }

  function RowSideOf(e: DepthEvent): RowSide {
    if (e.bids == []) == (e.asks == []) then NeutralRow
    else if e.bids != [] then BidRow else AskRow
  }

  // ------------------------------------- what the payload parser establishes

  predicate GoodDiff(venue: Venue, e: DepthEvent) {
    && UniquePrices(e.bids) && NonNegativeQuantities(e.bids) && PositivePrices(e.bids)
    && UniquePrices(e.asks) && NonNegativeQuantities(e.asks) && PositivePrices(e.asks)
    && e.firstId <= e.finalId
    && (venue.UsdM? ==> e.previousId < e.finalId)
  }

  predicate GoodRefresh(e: DepthEvent) {
    && GoodSide(Bid, e.bids) && GoodSide(Ask, e.asks) && !Crossed(e.bids, e.asks)
  }

  predicate GoodEvent(venue: Venue, kind: Kind, e: DepthEvent) {
    match kind
    case DepthDiff => GoodDiff(venue, e)
    case Depth5 => GoodRefresh(e)
    case Trade => true
  }

  /** At most five levels, best first, all positive. */
  predicate GoodSide(side: BookSide, levels: seq<Level>) {
    |levels| <= DEPTH && Sorted(side, levels) && PositivePrices(levels) && PositiveQuantities(levels)
  }

  /** What every book keeps. */
  predicate GoodBook(venue: Venue, b: Book) {
    && GoodSide(Bid, b.bids) && GoodSide(Ask, b.asks) && !Crossed(b.bids, b.asks)
    && (b.chained ==> venue.UsdM? && b.valid && b.previousId == b.lastId)
  }

  // -------------------------------------------------------------- transitions

  function Invalidated(b: Book): Book {
    b.(valid := false, chained := false, previousId := 0)
  }

  function ApplyRefresh(b: Book, e: DepthEvent): (Book, Status) {
    if b.valid && e.finalId < b.lastId then (b, StaleRefresh)
    else (Book(e.bids, e.asks, e.finalId, true, false, 0), AppliedRefresh)
  }

  function ApplyAccepted(venue: Venue, b: Book, e: DepthEvent): (Book, Status) {
    var bids := ApplyUpdates(Bid, b.bids, e.bids);
    var asks := ApplyUpdates(Ask, b.asks, e.asks);
    if Crossed(bids, asks) then (Invalidated(b), CrossedBook)
    else (Book(bids, asks, e.finalId, b.valid, venue.UsdM?, if venue.UsdM? then e.finalId else 0), AppliedDiff)
  }

  /** Spot: ignore what is already included, otherwise the range must bridge. */
  function SpotDiff(b: Book, e: DepthEvent): (Book, Status) {
    if !b.valid then (b, IgnoredWhileInvalid)
    else if e.finalId <= b.lastId then (b, StaleDiff)
    else
      var next: U64 := b.lastId + 1;
      if e.firstId > next then (Invalidated(b), SequenceGap) else ApplyAccepted(Spot, b, e)
  }

  /** USD-M: the first diff after a refresh bridges, the following ones must chain. */
  function UsdMDiff(b: Book, e: DepthEvent): (Book, Status) {
    if !b.valid then (b, IgnoredWhileInvalid)
    else if b.chained then
      if e.previousId != b.previousId then (Invalidated(b), SequenceGap)
      else if e.finalId <= b.lastId then (b, StaleDiff)
      else ApplyAccepted(UsdM, b, e)
    else if e.finalId <= b.lastId then (b, StaleDiff)
    else
      var next: U64 := b.lastId + 1;
      if e.firstId > next then (Invalidated(b), SequenceGap) else ApplyAccepted(UsdM, b, e)
  }

  function ApplyEvent(venue: Venue, kind: Kind, b: Book, e: DepthEvent): (Book, Status)
    requires !kind.Trade?
  {
    if kind.Depth5? then ApplyRefresh(b, e)
    else if venue.Spot? then SpotDiff(b, e) else UsdMDiff(b, e)
  }

  // ---------------------------------------------------------------- invariant

  lemma UpdatesKeepSide(side: BookSide, levels: seq<Level>, updates: seq<Level>)
    requires GoodSide(side, levels)
    requires UniquePrices(updates) && NonNegativeQuantities(updates) && PositivePrices(updates)
    ensures GoodSide(side, ApplyUpdates(side, levels, updates))
  {
    ApplyUpdatesIsBestFive(side, levels, updates);
    var r := ApplyUpdates(side, levels, updates);
    forall i | 0 <= i < |r| ensures r[i].price > 0 {
      var p := r[i].price;
      assert Overridden(levels, updates, p) != 0;
      if !HasPrice(updates, p) && !HasPrice(levels, p) {
        LookupAbsent(levels, p);
      }
    }
  }

  lemma AcceptedKeepsBook(venue: Venue, b: Book, e: DepthEvent)
    requires GoodBook(venue, b) && b.valid && GoodDiff(venue, e)
    ensures GoodBook(venue, ApplyAccepted(venue, b, e).0)
  {
    UpdatesKeepSide(Bid, b.bids, e.bids);
    UpdatesKeepSide(Ask, b.asks, e.asks);
  }

  /** Every event keeps a book good: sorted, positive, uncrossed, chain consistent. */
  lemma EventKeepsBook(venue: Venue, kind: Kind, b: Book, e: DepthEvent)
    requires GoodBook(venue, b) && !kind.Trade? && GoodEvent(venue, kind, e)
    ensures GoodBook(venue, ApplyEvent(venue, kind, b, e).0)
    ensures EmitsSnapshot(ApplyEvent(venue, kind, b, e).1) ==> ApplyEvent(venue, kind, b, e).0.valid
  {
    if b.valid && kind.DepthDiff? {
      AcceptedKeepsBook(venue, b, e);
    }
  }

  /** The predecessor chain: with the parser's previousId < finalId a diff that chains is
      never stale; it extends the chain, or it invalidates the book and clears it. */
  lemma ChainedDiffExtendsOrClears(b: Book, e: DepthEvent)
    requires GoodBook(UsdM, b) && b.chained && GoodDiff(UsdM, e)
    ensures var (r, status) := UsdMDiff(b, e);
            && status != StaleDiff && status != IgnoredWhileInvalid
            && (status == AppliedDiff <==> r.valid)
            && (r.valid ==> e.previousId == b.lastId && r.chained && r.previousId == r.lastId == e.finalId > b.lastId)
            && (!r.valid ==> !r.chained && r.previousId == 0)
  {
  }

  // ------------------------------------------------------------- whole runs

  datatype Input = Depth(kind: Kind, event: DepthEvent) | Invalidation

  predicate GoodInput(venue: Venue, x: Input) {
    x.Depth? ==> !x.kind.Trade? && GoodEvent(venue, x.kind, x.event)
  }

  predicate GoodInputs(venue: Venue, xs: seq<Input>) {
    forall i :: 0 <= i < |xs| ==> GoodInput(venue, xs[i])
  }

  function Advance(venue: Venue, b: Book, x: Input): Book
    requires GoodInput(venue, x)
  {
    if x.Invalidation? then Invalidated(b) else ApplyEvent(venue, x.kind, b, x.event).0
  }

  function Replayed(venue: Venue, b: Book, xs: seq<Input>): Book
    requires GoodInputs(venue, xs)
    decreases |xs|
  {
    if xs == [] then b else Replayed(venue, Advance(venue, b, xs[0]), xs[1..])
  }

  /** In every reachable state the book is good; in particular an established chain
      means a valid book whose last diff is its last update. */
  lemma {:induction false} ReachableBookIsGood(venue: Venue, b: Book, xs: seq<Input>)
    requires GoodBook(venue, b) && GoodInputs(venue, xs)
    ensures GoodBook(venue, Replayed(venue, b, xs))
    decreases |xs|
  {
    if xs != [] {
      if xs[0].Depth? {
        EventKeepsBook(venue, xs[0].kind, b, xs[0].event);
      }
      ReachableBookIsGood(venue, Advance(venue, b, xs[0]), xs[1..]);
    }
  }
}
