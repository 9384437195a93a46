/** The fixed arrays of the visible book and the loops that shift them in place
    (find_price, erase_level, insert_level, make_refresh_side and apply_updates in
    src/spot_book.cpp). */
module BookArrays {
  import opened Types
  import opened TopFive

  method FindLevel(levels: array<Level>, size: nat, price: int) returns (index: nat)
    requires size <= levels.Length
    ensures index == FindPrice(levels[..size], price)
  {
    index := 0;
    while index < size
      invariant index <= size
      invariant FindPrice(levels[..size], price) == index + FindPrice(levels[index..size], price)
    {
      assert levels[index..size][1..] == levels[index + 1..size];
      if levels[index].price == price {
        return;
      }
      index := index + 1;
    }
  }

  /** Move the levels after index one place towards the front. */
  method ShiftUp(levels: array<Level>, size: nat, index: nat)
    requires index < size <= levels.Length
    modifies levels
    ensures forall j :: 0 <= j < size - 1 ==> levels[j] == if j < index then old(levels[j]) else old(levels[j + 1])
  {
    var destination := index;
    while destination + 1 < size
      invariant index <= destination < size
      invariant forall j :: 0 <= j < destination ==>
                  levels[j] == if j < index then old(levels[j]) else old(levels[j + 1])
      invariant forall j :: destination <= j < size ==> levels[j] == old(levels[j])
    {
      levels[destination] := levels[destination + 1];
      destination := destination + 1;
    }
  }

  lemma ErasedAt(before: seq<Level>, after: seq<Level>, index: nat)
    requires index < |before| && |after| == |before| - 1
    requires forall j :: 0 <= j < index ==> after[j] == before[j]
    requires forall j :: index <= j < |after| ==> after[j] == before[j + 1]
    ensures after == Erase(before, index)
  {
    assert after[..index] == before[..index];
    assert after[index..] == before[index + 1..];
    assert after == after[..index] + after[index..];
  }

  method EraseLevel(levels: array<Level>, size: nat, index: nat) returns (newSize: nat)
    requires index < size <= levels.Length
    modifies levels
    ensures newSize == size - 1
    ensures levels[..newSize] == Erase(old(levels[..size]), index)
  {
    ghost var before := levels[..size];
    ShiftUp(levels, size, index);
    newSize := size - 1;
    levels[newSize] := Level(0, 0);
    ErasedAt(before, levels[..newSize], index);
  }

  method FindPosition(levels: array<Level>, size: nat, side: BookSide, price: int) returns (position: nat)
    requires size <= levels.Length
    ensures position == InsertPosition(side, levels[..size], price)
  {
    position := 0;
    while position < size && Better(side, levels[position].price, price)
      invariant position <= size
      invariant forall j :: 0 <= j < position ==> Better(side, levels[j].price, price)
    {
      position := position + 1;
    }
    PositionIsFirst(side, levels[..size], price, position);
  }

  /** Move the levels from position on one place towards the end. */
  method ShiftDown(levels: array<Level>, position: nat, limit: nat)
    requires position <= limit < levels.Length
    modifies levels
    ensures forall j :: 0 <= j < levels.Length ==>
              levels[j] == if position < j <= limit then old(levels[j - 1]) else old(levels[j])
  {
    var destination := limit;
    while destination > position
      invariant position <= destination <= limit
      invariant forall j :: 0 <= j < levels.Length ==>
                  levels[j] == if destination < j <= limit then old(levels[j - 1]) else old(levels[j])
    {
      levels[destination] := levels[destination - 1];
      destination := destination - 1;
    }
  }

  lemma PlacedAt(c: seq<Level>, level: Level, i: nat, j: nat)
    requires i <= |c| && j <= |c|
    ensures (c[..i] + [level] + c[i..])[j] == if j < i then c[j] else if j == i then level else c[j - 1]
  {
  }

  lemma InsertedAt(side: BookSide, before: seq<Level>, after: seq<Level>, level: Level)
    requires |before| <= DEPTH && |after| == if |before| < DEPTH then |before| + 1 else DEPTH
    requires var i := InsertPosition(side, before, level.price);
             && (forall j :: 0 <= j < i && j < |after| ==> after[j] == before[j]) && (i < |after| ==> after[i] == level)
             && (forall j :: i < j < |after| ==> after[j] == before[j - 1])
    ensures after == Insert(side, before, level)
  {
    var i, all := InsertPosition(side, before, level.price), Placed(side, before, level);
    forall j | 0 <= j < |after| ensures after[j] == all[j] {
      PlacedAt(before, level, i, j);
    }
    assert after == all[..|after|];
  }

  method InsertLevel(levels: array<Level>, size: nat, side: BookSide, level: Level) returns (newSize: nat)
    requires levels.Length == DEPTH && size <= DEPTH
    modifies levels
    ensures newSize <= DEPTH
    ensures levels[..newSize] == Insert(side, old(levels[..size]), level)
  {
    ghost var before := levels[..size];
    var position := FindPosition(levels, size, side, level.price);
    if size == DEPTH && position == DEPTH {
      InsertedAt(side, before, levels[..size], level);
      return size;
    }
    ShiftDown(levels, position, if size < DEPTH then size else DEPTH - 1);
    levels[position] := level;
    newSize := if size < DEPTH then size + 1 else size;
    InsertedAt(side, before, levels[..newSize], level);
  }

  /** The scan of insert_level stops at the specified position. */
  lemma {:induction false} PositionIsFirst(side: BookSide, levels: seq<Level>, price: int, position: nat)
    requires position <= |levels|
    requires forall j :: 0 <= j < position ==> Better(side, levels[j].price, price)
    requires position < |levels| ==> !Better(side, levels[position].price, price)
    ensures InsertPosition(side, levels, price) == position
  {
  }

  method CopyLevels(source: array<Level>) returns (copy: array<Level>)
    ensures fresh(copy) && copy.Length == source.Length && copy[..] == source[..]
  {
    copy := new Level[source.Length](i requires 0 <= i < source.Length reads source => source[i]);
  }

  method MakeRefreshSide(updates: seq<Level>) returns (levels: array<Level>, size: nat)
    requires |updates| <= DEPTH
    ensures fresh(levels) && levels.Length == DEPTH && size == |updates|
    ensures levels[..size] == updates
  {
    levels := new Level[DEPTH](_ => Level(0, 0));
    size := 0;
    while size < |updates|
      invariant size <= |updates|
      invariant levels[..size] == updates[..size]
    {
      levels[size] := updates[size];
      size := size + 1;
    }
  }

  /** One shown price: erase it or change its quantity. */
  method ChangeLevel(levels: array<Level>, size: nat, index: nat, quantity: I64) returns (newSize: nat)
    requires index < size <= levels.Length
    modifies levels
    ensures newSize <= size
    ensures levels[..newSize] == var before := old(levels[..size]);
                                 if quantity == 0 then Erase(before, index)
                                 else before[index := before[index].(quantity := quantity)]
  {
    if quantity == 0 {
      newSize := EraseLevel(levels, size, index);
    } else {
      levels[index] := levels[index].(quantity := quantity);
      newSize := size;
    }
  }

  /** One update of the first pass. */
  method ChangeNext(original: array<Level>, size: nat, updates: seq<Level>, n: nat, side: BookSide,
                    candidate: array<Level>, shown: nat)
    returns (newSize: nat)
    requires original != candidate && size <= original.Length && shown <= candidate.Length && n < |updates|
    requires Sorted(side, original[..size]) && PositiveQuantities(original[..size])
    requires UniquePrices(updates) && NonNegativeQuantities(updates)
    requires candidate[..shown] == ChangeShown(original[..size], updates, n)
    modifies candidate
    ensures newSize <= shown && candidate[..newSize] == ChangeShown(original[..size], updates, n + 1)
  {
    var u := updates[n];
    var originalIndex := FindLevel(original, size, u.price);
    if originalIndex == size {
      return shown;
    }
    var index := FindLevel(candidate, shown, u.price);
    ChangedPriceIsShown(side, original[..size], updates, n);
    newSize := ChangeLevel(candidate, shown, index, u.quantity);
  }

  /** The first pass of apply_updates: change or erase the prices already shown. */
  method ChangePass(original: array<Level>, size: nat, updates: seq<Level>, side: BookSide, candidate: array<Level>)
    returns (newSize: nat)
    requires original != candidate && size <= original.Length == candidate.Length
    requires candidate[..] == original[..]
    requires Sorted(side, original[..size]) && PositiveQuantities(original[..size])
    requires UniquePrices(updates) && NonNegativeQuantities(updates)
    modifies candidate
    ensures newSize <= size && candidate[..newSize] == ChangeShown(original[..size], updates, |updates|)
  {
    newSize := size;
    assert candidate[..size] == candidate[..][..size];
    for n := 0 to |updates|
      invariant newSize <= size && candidate[..newSize] == ChangeShown(original[..size], updates, n)
    {
      newSize := ChangeNext(original, size, updates, n, side, candidate, newSize);
    }
  }

  /** The second pass: insert the prices not shown before. */
  method InsertPass(original: array<Level>, size: nat, updates: seq<Level>, side: BookSide, candidate: array<Level>,
                    start: nat)
    returns (newSize: nat)
    requires original != candidate && size <= original.Length && start <= candidate.Length == DEPTH
    modifies candidate
    ensures newSize <= DEPTH
    ensures candidate[..newSize]
            == InsertNew(side, original[..size], old(candidate[..start]), updates, |updates|)
  {
    newSize := start;
    for n := 0 to |updates|
      invariant newSize <= DEPTH
      invariant candidate[..newSize] == InsertNew(side, original[..size], old(candidate[..start]), updates, n)
    {
      var u := updates[n];
      var originalIndex := FindLevel(original, size, u.price);
      if u.quantity != 0 && originalIndex == size {
        newSize := InsertLevel(candidate, newSize, side, u);
      }
    }
  }

  /** apply_updates works on a copy and leaves the original side alone. */
  method ApplyUpdatesInPlace(original: array<Level>, size: nat, updates: seq<Level>, side: BookSide)
    returns (candidate: array<Level>, newSize: nat)
    requires original.Length == DEPTH && size <= DEPTH
    requires Sorted(side, original[..size]) && PositiveQuantities(original[..size])
    requires UniquePrices(updates) && NonNegativeQuantities(updates)
    ensures fresh(candidate) && candidate.Length == DEPTH && newSize <= DEPTH
    ensures candidate[..newSize] == ApplyUpdates(side, original[..size], updates)
  {
    candidate := CopyLevels(original);
    newSize := ChangePass(original, size, updates, side, candidate);
    newSize := InsertPass(original, size, updates, side, candidate, newSize);
  }

  /** The assertion of apply_updates: a price shown originally is found in the candidate. */
  lemma ChangedPriceIsShown(side: BookSide, original: seq<Level>, updates: seq<Level>, n: nat)
    requires Sorted(side, original) && PositiveQuantities(original)
    requires UniquePrices(updates) && NonNegativeQuantities(updates) && n < |updates|
    requires FindPrice(original, updates[n].price) < |original|
    ensures var candidate := ChangeShown(original, updates, n);
            FindPrice(candidate, updates[n].price) < |candidate|
  {
    ChangeShownCorrect(side, original, updates, n);
    StillInForce(side, original, updates, n, FindPrice(original, updates[n].price));
    var candidate := ChangeShown(original, updates, n);
    assert HasPrice(candidate, updates[n].price);
  }
}
