/** Values shared by the parser, the book, the event processor and the CSV files. */
module Types {

  const U64_MAX: nat := 0xFFFF_FFFF_FFFF_FFFF

  type U64 = x: int | 0 <= x <= U64_MAX

  type U32 = x: int | 0 <= x <= 0xFFFF_FFFF

  type I64 = x: int | -0x8000_0000_0000_0000 <= x <= 0x7FFF_FFFF_FFFF_FFFF

  type I32 = x: int | -0x8000_0000 <= x <= 0x7FFF_FFFF

  datatype Venue = Spot | UsdM

  datatype Kind = DepthDiff | Depth5 | Trade

  datatype BookSide = Bid | Ask

  /** A price level; prices and quantities are integers scaled by 10^8. */
  datatype Level = Level(price: I64, quantity: I64)

  /** A depth message.  In a diff an update of quantity zero removes its price. */
  datatype DepthEvent = DepthEvent(previousId: U64, firstId: U64, finalId: U64,
                                   bids: seq<Level>, asks: seq<Level>)

  datatype Timestamp = Timestamp(seconds: I64, nanoseconds: I32)

  /** The CSV rows produced for one message; a row is empty when it is absent. */
  datatype Batch = Batch(hasAudit: bool, audit: string, hasBook: bool, book: string)

  const EMPTY_BATCH := Batch(false, "", false, "")

  /** Is a a better price than b on this side of the book? */
  predicate Better(side: BookSide, a: int, b: int) {
    if side.Bid? then a > b else a < b
  }

  predicate AtOrBetter(side: BookSide, a: int, b: int) {
    a == b || Better(side, a, b)
  }

  /** Best price first, no price twice. */
  predicate Sorted(side: BookSide, levels: seq<Level>) {
    forall i, j :: 0 <= i < j < |levels| ==> Better(side, levels[i].price, levels[j].price)
  }

  predicate UniquePrices(levels: seq<Level>) {
    forall i, j :: 0 <= i < j < |levels| ==> levels[i].price != levels[j].price
  }

  predicate PositivePrices(levels: seq<Level>) {
    forall i :: 0 <= i < |levels| ==> levels[i].price > 0
  }

  predicate PositiveQuantities(levels: seq<Level>) {
    forall i :: 0 <= i < |levels| ==> levels[i].quantity > 0
  }

  predicate NonNegativeQuantities(levels: seq<Level>) {
    forall i :: 0 <= i < |levels| ==> levels[i].quantity >= 0
  }
}
