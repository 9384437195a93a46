/** The level loop of the payload parser and its generation-stamped duplicate table
    (src/spot_payload_parser.cpp).  JSON traversal is not part of this model: the input is
    the sequence of decoded array elements. */
module DepthParser {
  import opened Types
  import opened Sequencer
  import opened ProbeTable

  const TABLE_SIZE: nat := 32768
  const MAX_UPDATES: nat := 16384
  const MAX_PARTIAL_LEVELS: nat := 5

  datatype Key = Key(price: I64, side: BookSide)

  datatype DuplicateSlot = DuplicateSlot(generation: U64, price: I64, side: BookSide)

  datatype InsertResult = Inserted | Duplicate | TableFull

  function CellOf(slot: DuplicateSlot, generation: U64): Cell<Key> {
    if slot.generation == generation then Held(Key(slot.price, slot.side)) else Vacant
  }

  class DuplicateTable {
    const slots: array<DuplicateSlot>
    /** The masked hash; any function into the table. */
    const home: Key -> nat
    var generation: U64
    /** The keys of the current message, slot by slot. */
    ghost var cells: seq<Cell<Key>>

    constructor (home: Key -> nat)
      requires forall k :: home(k) < TABLE_SIZE
      ensures Stamped() && fresh(slots) && this.home == home
    {
      slots := new DuplicateSlot[TABLE_SIZE](i => DuplicateSlot(0, 0, Bid));
      this.home, generation, cells := home, 0, [];
    }

    /** No slot is stamped later than the current message. */
    ghost predicate Stamped()
      reads this, slots
    {
      && slots.Length == TABLE_SIZE && (forall k :: home(k) < TABLE_SIZE)
      && (forall i :: 0 <= i < TABLE_SIZE ==> slots[i].generation <= generation)
    }

    ghost predicate Valid()
      reads this, slots
    {
      && Stamped() && |cells| == TABLE_SIZE && Chained(cells, home)
      && (forall i :: 0 <= i < TABLE_SIZE ==> cells[i] == CellOf(slots[i], generation))
    }

    /** begin_message: the table becomes empty, also when the generation wraps around. */
    method BeginMessage()
      requires Stamped()
      modifies this`generation, this`cells, slots
      ensures Valid() && Count(cells) == 0 && forall k :: !Contains(cells, k)
    {
      if generation == U64_MAX {
        var i := 0;
        while i < slots.Length
          invariant i <= slots.Length
          invariant forall j :: 0 <= j < i ==> slots[j].generation == 0
        {
          slots[i] := slots[i].(generation := 0);
          i := i + 1;
        }
        generation := 1;
      } else {
        generation := generation + 1;
      }
      cells := seq(TABLE_SIZE, i => Vacant);
      CountEmpty(cells);
    }

    /** insert_unique: a duplicate is reported exactly when the key is in the table; the
        table is full only when every slot is held. */
    method Insert(key: Key) returns (r: InsertResult)
      requires Valid()
      modifies this`cells, slots
      ensures Valid()
      ensures r.Duplicate? <==> old(Contains(cells, key))
      ensures r.TableFull? ==> Count(cells) == TABLE_SIZE
      ensures !r.Inserted? ==> cells == old(cells)
      ensures r.Inserted? ==> Count(cells) == old(Count(cells)) + 1
      ensures r.Inserted? ==> forall k :: Contains(cells, k) <==> k == key || old(Contains(cells, k))
    {
      var at := home(key);
      var probe := 0;
      while probe < TABLE_SIZE
        invariant probe <= TABLE_SIZE && at < TABLE_SIZE
                  && (probe < TABLE_SIZE ==> at == At(home(key), probe, TABLE_SIZE))
        invariant Passed(cells, home, key, probe)
      {
        if slots[at].generation != generation {
          VacantMeansAbsent(cells, home, key, probe);
          Store(at, probe, key);
          return Inserted;
        }
        if slots[at].price == key.price && slots[at].side == key.side {
          assert cells[at] == Held(key);
          return Duplicate;
        }
        at := if at + 1 == TABLE_SIZE then 0 else at + 1;
        probe := probe + 1;
      }
      FullRoundMeansFull(cells, home, key);
      CountFull(cells);
      r := TableFull;
    }

    method Store(at: nat, ghost probe: nat, key: Key)
      requires Valid() && probe < TABLE_SIZE && at == At(home(key), probe, TABLE_SIZE) && cells[at].Vacant?
      requires Passed(cells, home, key, probe)
      modifies this`cells, slots
      ensures Valid() && Count(cells) == old(Count(cells)) + 1
      ensures forall k :: Contains(cells, k) <==> k == key || old(Contains(cells, k))
    {
      CountInsert(cells, at, key);
      InsertKeepsChains(cells, home, key, probe);
      ghost var before := cells;
      slots[at] := DuplicateSlot(generation, key.price, key.side);
      cells := cells[at := Held(key)];
      forall k ensures Contains(cells, k) <==> k == key || Contains(before, k) {
        assert cells[at] == Held(key);
        if Contains(before, k) {
          var j :| 0 <= j < |before| && before[j] == Held(k);
          assert cells[j] == Held(k);
        }
      }
    }
  }

  // ------------------------------------------------------------- the level loop

  /** An element of a bids or asks array: malformed or without a decimal price, without a
      decimal quantity, or decoded. */
  datatype RawLevel = Malformed | BadQuantity(price: Amount) | Decoded(price: Amount, quantity: Amount)

  /** What the decimal parser returns: it accepts no sign. */
  type Amount = x: int | 0 <= x <= 0x7FFF_FFFF_FFFF_FFFF

  datatype LevelError = NoLevelError | TooManyLevels | BadLevel | NonPositivePrice | InvalidQuantity
                      | DuplicatePrice | InvalidOrder | InternalCapacity

  datatype LevelUpdate = LevelUpdate(price: I64, quantity: I64, side: BookSide)

  datatype Previous = NoPrice | LastPrice(price: I64)

  /** The checks on one level, in order. */
  function Verdict(level: RawLevel, side: BookSide, partial: bool, sideCount: nat, encountered: nat,
                   seen: bool, previous: Previous): LevelError {
    if encountered >= MAX_UPDATES || (partial && sideCount >= MAX_PARTIAL_LEVELS) then TooManyLevels
    else if level.Malformed? then BadLevel
    else if level.price <= 0 then NonPositivePrice
    else if level.BadQuantity? then BadLevel
    else if partial && level.quantity <= 0 then InvalidQuantity
    else if seen then DuplicatePrice
    else if partial && previous.LastPrice? && !Better(side, previous.price, level.price) then InvalidOrder
    else NoLevelError
  }

  /** Which fault of a level is reported: too many levels, then a level that cannot be read or
      whose price is zero, then its quantity, then a repeated price, then the order. */
  lemma VerdictNamesFault(level: RawLevel, side: BookSide, partial: bool, sideCount: nat, encountered: nat, seen: bool,
                          previous: Previous)
    ensures var v := Verdict(level, side, partial, sideCount, encountered, seen, previous);
            var full := encountered >= 16_384 || (partial && sideCount >= 5);
            var whole := !full && level.Decoded? && level.price > 0 && !(partial && level.quantity == 0);
            && (v.TooManyLevels? <==> full) && !v.InternalCapacity?
            && (v.BadLevel? <==> !full && (level.Malformed? || (level.BadQuantity? && level.price > 0)))
            && (v.NonPositivePrice? <==> !full && !level.Malformed? && level.price == 0)
            && (v.InvalidQuantity? <==> !full && level.Decoded? && level.price > 0 && partial && level.quantity == 0)
            && (v.DuplicatePrice? <==> whole && seen)
            && (v.InvalidOrder? <==> && whole && !seen && partial && previous.LastPrice?
                                     && !Better(side, previous.price, level.price))
  {
  }

  function KeyOf(level: RawLevel, side: BookSide): Key {
    Key(if level.Malformed? then 0 else level.price, side)
  }

  /** What a decoded level becomes in the update array. */
  function UpdateOf(level: RawLevel, side: BookSide): LevelUpdate {
    if level.Decoded? then LevelUpdate(level.price, level.quantity, side) else LevelUpdate(0, 0, side)
  }

  function UpdatesOf(levels: seq<RawLevel>, side: BookSide): (r: seq<LevelUpdate>)
    ensures |r| == |levels| && forall i :: 0 <= i < |r| ==> r[i] == UpdateOf(levels[i], side)
  {
    if levels == [] then [] else UpdatesOf(levels[..|levels| - 1], side) + [UpdateOf(levels[|levels| - 1], side)]
  }

  /** A level that is good by itself. */
  predicate GoodRaw(level: RawLevel, partial: bool) {
    level.Decoded? && level.price > 0 && (partial ==> level.quantity > 0)
  }

  /** The levels of one side that the loop accepts: all good, within the capacity of the
      message, no price of this message twice, and best first in a partial book. */
  ghost predicate Acceptable(levels: seq<RawLevel>, side: BookSide, partial: bool, encountered: nat,
                             cells: seq<Cell<Key>>) {
    && (levels != [] ==> encountered + |levels| <= MAX_UPDATES)
    && (partial ==> |levels| <= MAX_PARTIAL_LEVELS)
    && (forall i :: 0 <= i < |levels| ==> GoodRaw(levels[i], partial) && !Contains(cells, KeyOf(levels[i], side)))
    && (forall i, j :: 0 <= i < j < |levels| ==> KeyOf(levels[i], side) != KeyOf(levels[j], side))
    && (partial ==> forall i, j :: 0 <= i < j < |levels| ==>
          Better(side, KeyOf(levels[i], side).price, KeyOf(levels[j], side).price))
  }

  function LastOf(levels: seq<RawLevel>, side: BookSide): Previous {
    if levels == [] then NoPrice else LastPrice(KeyOf(levels[|levels| - 1], side).price)
  }

  /** The keys of the accepted levels are in the table. */
  ghost predicate Recorded(levels: seq<RawLevel>, side: BookSide, before: seq<Cell<Key>>, cells: seq<Cell<Key>>) {
    forall k ::
      Contains(cells, k) <==> Contains(before, k) || exists i :: 0 <= i < |levels| && k == KeyOf(levels[i], side)
  }

  /** One more level is acceptable exactly when its verdict is no error. */
  lemma AcceptableStep(levels: seq<RawLevel>, level: RawLevel, side: BookSide, partial: bool, encountered: nat,
                       before: seq<Cell<Key>>, cells: seq<Cell<Key>>)
    requires Acceptable(levels, side, partial, encountered, before) && Recorded(levels, side, before, cells)
    ensures Acceptable(levels + [level], side, partial, encountered, before)
        <==> Verdict(level, side, partial, |levels|, encountered + |levels|, Contains(cells, KeyOf(level, side)),
                     LastOf(levels, side)).NoLevelError?
  {
    var all := levels + [level];
    var verdict := Verdict(level, side, partial, |levels|, encountered + |levels|, Contains(cells, KeyOf(level, side)),
                           LastOf(levels, side));
    assert forall i :: 0 <= i < |levels| ==> all[i] == levels[i];
    assert all[|levels|] == level;
    if Acceptable(all, side, partial, encountered, before) {
      assert partial && levels != [] ==>
        Better(side, KeyOf(all[|levels| - 1], side).price, KeyOf(all[|levels|], side).price);
    }
  }

  lemma AcceptablePrefix(levels: seq<RawLevel>, n: nat, side: BookSide, partial: bool, encountered: nat,
                         cells: seq<Cell<Key>>)
    requires Acceptable(levels, side, partial, encountered, cells) && n <= |levels|
    ensures Acceptable(levels[..n], side, partial, encountered, cells)
  {
    assert forall i :: 0 <= i < n ==> levels[..n][i] == levels[i];
  }

  /** The arguments of one call of parse_levels and the state it began with. */
  datatype Call = Call(side: BookSide, partial: bool, encountered: nat, cells: seq<Cell<Key>>)

  /** Does this message already have a level of that side and price, counting those done? */
  ghost predicate Known(done: seq<RawLevel>, level: RawLevel, call: Call) {
    || Contains(call.cells, KeyOf(level, call.side))
    || exists i :: 0 <= i < |done| && KeyOf(level, call.side) == KeyOf(done[i], call.side)
  }

  /** The levels before position n are acceptable, and e is what is wrong with the one at n. */
  ghost predicate FaultAt(levels: seq<RawLevel>, n: nat, call: Call, e: LevelError)
    requires n < |levels|
  {
    && Acceptable(levels[..n], call.side, call.partial, call.encountered, call.cells) && !e.NoLevelError?
    && e == Verdict(levels[n], call.side, call.partial, n, call.encountered + n, Known(levels[..n], levels[n], call),
                    LastOf(levels[..n], call.side))
  }

  /** There is no error so far, or it is that of the level at position n. */
  ghost predicate FirstFault(done: seq<RawLevel>, n: nat, call: Call, error: LevelError) {
    error.NoLevelError? || (n < |done| && FaultAt(done, n, call, error))
  }

  /** The error after one more level, given the table of the levels before. */
  lemma FirstFaultStep(done: seq<RawLevel>, n: nat, level: RawLevel, call: Call, error: LevelError,
                       cells: seq<Cell<Key>>, e: LevelError, error': LevelError, n': nat)
    requires FirstFault(done, n, call, error)
    requires error.NoLevelError? ==> && Acceptable(done, call.side, call.partial, call.encountered, call.cells)
                                     && Recorded(done, call.side, call.cells, cells)
    requires error.NoLevelError? ==> e == Verdict(level, call.side, call.partial, |done|, call.encountered + |done|,
                                                  Contains(cells, KeyOf(level, call.side)), LastOf(done, call.side))
    requires if error.NoLevelError? then error' == e && n' == |done| else error' == error && n' == n
    ensures FirstFault(done + [level], n', call, error')
  {
    var all := done + [level];
    assert all[..|done|] == done && all[|done|] == level;
    if !error.NoLevelError? {
      assert all[..n] == done[..n];
    }
  }

  /** What the loop has established for the levels done so far. */
  ghost predicate Progress(done: seq<RawLevel>, call: Call, error: LevelError, cells: seq<Cell<Key>>,
                           added: seq<LevelUpdate>, previous: Previous) {
    && (error.NoLevelError? <==> Acceptable(done, call.side, call.partial, call.encountered, call.cells))
    && !error.InternalCapacity?
    && (error.NoLevelError? ==> && Recorded(done, call.side, call.cells, cells) && added == UpdatesOf(done, call.side)
                                && previous == LastOf(done, call.side))
  }

  lemma ProgressStart(call: Call)
    ensures Progress([], call, NoLevelError, call.cells, [], NoPrice)
  {
  }

  lemma ProgressStep(done: seq<RawLevel>, level: RawLevel, call: Call, error: LevelError, cells: seq<Cell<Key>>,
                     added: seq<LevelUpdate>, previous: Previous, e: LevelError, error': LevelError,
                     cells': seq<Cell<Key>>, added': seq<LevelUpdate>, previous': Previous)
    requires Progress(done, call, error, cells, added, previous)
    requires e == Verdict(level, call.side, call.partial, |done|, call.encountered + |done|,
                          Contains(cells, KeyOf(level, call.side)), previous)
    requires e.NoLevelError? ==> forall k :: Contains(cells', k) <==> k == KeyOf(level, call.side) || Contains(cells, k)
    requires error' == if error.NoLevelError? then e else error
    requires e.NoLevelError? ==> && added' == added + [UpdateOf(level, call.side)]
                                 && previous' == LastPrice(KeyOf(level, call.side).price)
    ensures Progress(done + [level], call, error', cells', added', previous')
  {
    var all := done + [level];
    assert all[..|done|] == done && all[|done|] == level;
    if error.NoLevelError? {
      AcceptableStep(done, level, call.side, call.partial, call.encountered, call.cells, cells);
      if e.NoLevelError? {
        RecordedStep(done, level, call.side, call.cells, cells, cells');
        assert UpdatesOf(all, call.side) == UpdatesOf(done, call.side) + [UpdateOf(level, call.side)];
      }
    } else if Acceptable(all, call.side, call.partial, call.encountered, call.cells) {
      AcceptablePrefix(all, |done|, call.side, call.partial, call.encountered, call.cells);
    }
  }

  lemma RecordedStep(done: seq<RawLevel>, level: RawLevel, side: BookSide, before: seq<Cell<Key>>,
                     cells: seq<Cell<Key>>,
                     cells': seq<Cell<Key>>)
    requires Recorded(done, side, before, cells)
    requires forall k :: Contains(cells', k) <==> k == KeyOf(level, side) || Contains(cells, k)
    ensures Recorded(done + [level], side, before, cells')
  {
    var all := done + [level];
    forall k
      ensures Contains(cells', k) <==> Contains(before, k) || exists i :: 0 <= i < |all| && k == KeyOf(all[i], side)
    {
      if k == KeyOf(level, side) {
        assert all[|done|] == level;
      } else if exists i :: 0 <= i < |done| && k == KeyOf(done[i], side) {
        var i :| 0 <= i < |done| && k == KeyOf(done[i], side);
        assert all[i] == done[i];
      }
    }
  }

  /** The updates stored since the loop began. */
  lemma StoredSince(front: seq<LevelUpdate>, stored: seq<LevelUpdate>, more: seq<LevelUpdate>)
    requires front <= stored
    ensures front <= stored + more && (stored + more)[|front|..] == stored[|front|..] + more
  {
  }

  class LevelParser {
    const table: DuplicateTable
    const updates: array<LevelUpdate>
    var updateCount: nat
    var encountered: nat
    /** The updates stored so far. */
    ghost var stored: seq<LevelUpdate>

    constructor (home: Key -> nat)
      requires forall k :: home(k) < TABLE_SIZE
      ensures fresh(table) && fresh(table.slots) && fresh(updates) && updates.Length == MAX_UPDATES && table.Stamped()
    {
      table := new DuplicateTable(home);
      updates := new LevelUpdate[MAX_UPDATES](i => LevelUpdate(0, 0, Bid));
      updateCount, encountered, stored := 0, 0, [];
    }

    /** There is one key in the table for every update, and no more keys than levels. */
    ghost predicate Valid()
      reads this, table, table.slots, updates
    {
      && table.Valid() && updates.Length == MAX_UPDATES && |stored| == updateCount
      && (forall i :: 0 <= i < updateCount && i < MAX_UPDATES ==> updates[i] == stored[i])
      && updateCount <= Count(table.cells) <= encountered && Count(table.cells) <= MAX_UPDATES
    }

    method BeginMessage()
      requires table.Stamped() && updates.Length == MAX_UPDATES
      modifies this, table, table.slots
      ensures Valid() && stored == [] && encountered == 0 && forall k :: !Contains(table.cells, k)
    {
      updateCount, encountered, stored := 0, 0, [];
      table.BeginMessage();
    }

    /** One level: the duplicate table is never full, and the update array is not overrun. */
    method TakeLevel(level: RawLevel, side: BookSide, partial: bool, sideCount: nat,
                     previous: Previous) returns (e: LevelError)
      requires Valid()
      modifies this, table`cells, table.slots, updates
      ensures Valid() && encountered == old(encountered) + 1
      ensures e == Verdict(level, side, partial, sideCount, old(encountered),
                           old(Contains(table.cells, KeyOf(level, side))), previous)
      ensures stored == old(stored) + if e.NoLevelError? then [UpdateOf(level, side)] else []
      ensures e.NoLevelError? ==>
                forall k :: Contains(table.cells, k) <==> k == KeyOf(level, side) || old(Contains(table.cells, k))
    {
      var over := encountered >= MAX_UPDATES || (partial && sideCount >= MAX_PARTIAL_LEVELS);
      encountered := encountered + 1;
      if over {
        return TooManyLevels;
      }
      if level.Malformed? {
        return BadLevel;
      }
      if level.price <= 0 {
        return NonPositivePrice;
      }
      if level.BadQuantity? {
        return BadLevel;
      }
      if partial && level.quantity <= 0 {
        return InvalidQuantity;
      }
      var r := table.Insert(Key(level.price, side));
      if r.Duplicate? {
        return DuplicatePrice;
      }
      if r.TableFull? {
        return InternalCapacity;
      }
      if partial && previous.LastPrice? && !Better(side, previous.price, level.price) {
        return InvalidOrder;
      }
      Store(LevelUpdate(level.price, level.quantity, side));
      e := NoLevelError;
    }

    method Store(u: LevelUpdate)
      requires Valid() && updateCount < Count(table.cells)
      modifies this`updateCount, this`stored, updates
      ensures Valid() && stored == old(stored) + [u]
    {
      updates[updateCount] := u;
      stored := stored + [u];
      updateCount := updateCount + 1;
    }

    /** One iteration of the loop. */
    method NextLevel(ghost done: seq<RawLevel>, level: RawLevel, ghost call: Call, ghost front: seq<LevelUpdate>,
                     side: BookSide, partial: bool, sideCount: nat, before: LevelError, last: Previous, ghost n: nat)
      returns (error: LevelError, previous: Previous, ghost fault: nat)
      requires Valid() && call.side == side && call.partial == partial && sideCount == |done|
      requires encountered == call.encountered + |done| && front <= stored
      requires Progress(done, call, before, table.cells, stored[|front|..], last) && FirstFault(done, n, call, before)
      modifies this, table`cells, table.slots, updates
      ensures Valid() && encountered == call.encountered + |done| + 1 && front <= stored
      ensures Progress(done + [level], call, error, table.cells, stored[|front|..], previous)
      ensures FirstFault(done + [level], fault, call, error)
    {
      ghost var cells, was := table.cells, stored;
      var e := TakeLevel(level, side, partial, sideCount, last);
      error := if before.NoLevelError? then e else before;
      previous := if e.NoLevelError? then LastPrice(level.price) else last;
      fault := if before.NoLevelError? then |done| else n;
      StoredSince(front, was, if e.NoLevelError? then [UpdateOf(level, side)] else []);
      ProgressStep(done, level, call, before, cells, was[|front|..], last, e, error, table.cells, stored[|front|..],
                   previous);
      FirstFaultStep(done, n, level, call, before, cells, e, error, fault);
    }

    /** The loop over the levels. */
    method LoopLevels(levels: seq<RawLevel>, side: BookSide, partial: bool, ghost call: Call)
      returns (error: LevelError, ghost previous: Previous, ghost fault: nat)
      requires Valid() && call == Call(side, partial, encountered, table.cells)
      modifies this, table`cells, table.slots, updates
      ensures Valid() && encountered == call.encountered + |levels| && old(stored) <= stored
      ensures Progress(levels, call, error, table.cells, stored[|old(stored)|..], previous)
      ensures FirstFault(levels, fault, call, error)
    {
      error, fault := NoLevelError, 0;
      var last := NoPrice;
      ghost var done: seq<RawLevel>, front := [], stored;
      ProgressStart(call);
      assert stored[|front|..] == [];
      var i := 0;
      while i < |levels|
        invariant i == |done| && done <= levels
        invariant Valid() && encountered == call.encountered + i && front <= stored
        invariant Progress(done, call, error, table.cells, stored[|front|..], last)
        invariant FirstFault(done, fault, call, error)
      {
        error, last, fault := NextLevel(done, levels[i], call, front, side, partial, i, error, last, fault);
        done := done + [levels[i]];
        i := i + 1;
      }
      assert done == levels;
      previous := last;
    }

    /** parse_levels: without an error the updates are exactly the levels, in order; there is
        no error exactly when the levels are acceptable, and otherwise the error is that of
        the first level that makes them not so.  The table is never full. */
    method ParseLevels(levels: seq<RawLevel>, side: BookSide, partial: bool) returns (error: LevelError)
      requires Valid()
      modifies this, table`cells, table.slots, updates
      ensures Valid() && encountered == old(encountered) + |levels| && old(stored) <= stored
      ensures error.NoLevelError? <==> Acceptable(levels, side, partial, old(encountered), old(table.cells))
      ensures !error.InternalCapacity?
      ensures !error.NoLevelError? ==>
                exists n: nat :: && n < |levels|
                                 && FaultAt(levels, n, Call(side, partial, old(encountered), old(table.cells)), error)
      ensures error.NoLevelError? ==> stored == old(stored) + UpdatesOf(levels, side)
      ensures error.NoLevelError? ==> Recorded(levels, side, old(table.cells), table.cells)
    {
      ghost var call, previous, fault := Call(side, partial, encountered, table.cells), NoPrice, 0;
      error, previous, fault := LoopLevels(levels, side, partial, call);
    }
  }

  // --------------------------------------------------------------- a depth message

  function LevelsOf(levels: seq<RawLevel>): (r: seq<Level>)
    ensures |r| == |levels|
    ensures forall i :: 0 <= i < |r| && levels[i].Decoded? ==> r[i] == Level(levels[i].price, levels[i].quantity)
  {
    if levels == [] then []
    else
      var last := levels[|levels| - 1];
      LevelsOf(levels[..|levels| - 1]) + [if last.Decoded? then Level(last.price, last.quantity) else Level(0, 0)]
  }

  datatype DepthError = NoDepthError | Levels(error: LevelError) | InvalidUpdateRange | CrossedLevels

  /** The decoded fields of a depth message; which side comes first is up to the sender. */
  datatype RawDepth = RawDepth(previousId: U64, firstId: U64, finalId: U64, bids: seq<RawLevel>, asks: seq<RawLevel>,
                               bidsFirst: bool)

  function EventOf(raw: RawDepth): DepthEvent {
    DepthEvent(raw.previousId, raw.firstId, raw.finalId, LevelsOf(raw.bids), LevelsOf(raw.asks))
  }

  /** The final range and crossing checks. */
  function FinalCheck(venue: Venue, kind: Kind, raw: RawDepth): DepthError {
    var e := EventOf(raw);
    if (venue.UsdM? || kind.DepthDiff?) && e.firstId > e.finalId then InvalidUpdateRange
    else if venue.UsdM? && e.previousId >= e.finalId then InvalidUpdateRange
    else if kind.Depth5? && e.bids != [] && e.asks != [] && e.bids[0].price >= e.asks[0].price then CrossedLevels
    else NoDepthError
  }

  /** A side that parse_levels accepts, in a message that has only the other side before it. */
  ghost predicate AcceptableSide(levels: seq<RawLevel>, side: BookSide, partial: bool, others: nat) {
    Acceptable(levels, side, partial, others, [])
  }

  /** Keys of the other side do not matter. */
  lemma OtherSideIsIrrelevant(levels: seq<RawLevel>, others: seq<RawLevel>, side: BookSide, other: BookSide,
                              partial: bool,
                              encountered: nat, before: seq<Cell<Key>>, cells: seq<Cell<Key>>)
    requires side != other && (forall k :: !Contains(before, k)) && Recorded(others, other, before, cells)
    ensures Acceptable(levels, side, partial, encountered, cells)
            <==> AcceptableSide(levels, side, partial, encountered)
    ensures Acceptable(levels, side, partial, encountered, before)
            <==> AcceptableSide(levels, side, partial, encountered)
  {
    forall k: Key | k.side == side ensures !Contains(cells, k) && !Contains([], k) {
      assert !Contains(before, k);
    }
  }

  /** An accepted side is a good side of an event. */
  lemma AcceptableIsGood(levels: seq<RawLevel>, side: BookSide, partial: bool, encountered: nat)
    requires AcceptableSide(levels, side, partial, encountered)
    ensures var r := LevelsOf(levels);
            && UniquePrices(r) && PositivePrices(r) && NonNegativeQuantities(r) && |r| == |levels|
            && (partial ==> GoodSide(side, r))
  {
    var r := LevelsOf(levels);
    forall i, j | 0 <= i < j < |r|
      ensures r[i].price != r[j].price && (partial ==> Better(side, r[i].price, r[j].price))
    {
      assert GoodRaw(levels[i], partial) && GoodRaw(levels[j], partial);
      assert KeyOf(levels[i], side) != KeyOf(levels[j], side);
    }
  }

  ghost predicate AcceptableSides(kind: Kind, raw: RawDepth) {
    && AcceptableSide(raw.bids, Bid, kind.Depth5?, if raw.bidsFirst then 0 else |raw.asks|)
    && AcceptableSide(raw.asks, Ask, kind.Depth5?, if raw.bidsFirst then |raw.bids| else 0)
  }

  /** U <= u in a diff and in every message of USD-M, and there also pu < u. */
  predicate RangeInOrder(venue: Venue, kind: Kind, raw: RawDepth) {
    && (kind.DepthDiff? || venue.UsdM? ==> raw.firstId <= raw.finalId)
    && (venue.UsdM? ==> raw.previousId < raw.finalId)
  }

  /** In a partial book every bid is below every ask. */
  predicate SidesApart(kind: Kind, raw: RawDepth) {
    kind.Depth5? ==>
      forall i, j :: 0 <= i < |raw.bids| && 0 <= j < |raw.asks| ==>
        KeyOf(raw.bids[i], Bid).price < KeyOf(raw.asks[j], Ask).price
  }

  /** What makes a depth message acceptable. */
  ghost predicate AcceptableDepth(venue: Venue, kind: Kind, raw: RawDepth) {
    AcceptableSides(kind, raw) && RangeInOrder(venue, kind, raw) && SidesApart(kind, raw)
  }

  /** The first prices decide whether the sides of a partial book are apart. */
  lemma FirstPricesDecide(kind: Kind, raw: RawDepth)
    requires AcceptableSides(kind, raw) && kind.Depth5?
    ensures var e := EventOf(raw); SidesApart(kind, raw) <==> !Crossed(e.bids, e.asks)
  {
    assert forall i :: 0 <= i < |raw.bids| ==> GoodRaw(raw.bids[i], true);
    assert forall i :: 0 <= i < |raw.asks| ==> GoodRaw(raw.asks[i], true);
    if raw.bids != [] && raw.asks != [] {
      assert EventOf(raw).bids[0].price == KeyOf(raw.bids[0], Bid).price;
      assert EventOf(raw).asks[0].price == KeyOf(raw.asks[0], Ask).price;
    }
  }

  /** What the final checks report of a message with acceptable sides: the range is looked at
      first. */
  lemma FinalCheckDecides(venue: Venue, kind: Kind, raw: RawDepth)
    requires AcceptableSides(kind, raw)
    ensures FinalCheck(venue, kind, raw) == if !RangeInOrder(venue, kind, raw) then InvalidUpdateRange
                                            else if !SidesApart(kind, raw) then CrossedLevels else NoDepthError
  {
    if kind.Depth5? {
      FirstPricesDecide(kind, raw);
    }
  }

  /** An accepted depth message is a good event: the contract the book relies on. */
  lemma AcceptedDepthIsGood(venue: Venue, kind: Kind, raw: RawDepth)
    requires AcceptableDepth(venue, kind, raw)
    ensures GoodEvent(venue, kind, EventOf(raw))
  {
    AcceptableIsGood(raw.bids, Bid, kind.Depth5?, if raw.bidsFirst then 0 else |raw.asks|);
    AcceptableIsGood(raw.asks, Ask, kind.Depth5?, if raw.bidsFirst then |raw.bids| else 0);
    if kind.Depth5? {
      FirstPricesDecide(kind, raw);
    }
  }

  /** parse_depth from its decoded fields on: it accepts exactly the acceptable messages, of
      which it stores the updates of both sides.  A fault of a level comes before a fault of
      the range, and that before a crossing. */
  method ParseDepth(p: LevelParser, venue: Venue, kind: Kind, raw: RawDepth) returns (error: DepthError)
    requires p.table.Stamped() && p.updates.Length == MAX_UPDATES
    modifies p, p.table, p.table.slots, p.updates
    ensures p.Valid()
    ensures error.NoDepthError? <==> AcceptableDepth(venue, kind, raw)
    ensures error.Levels? <==> !AcceptableSides(kind, raw)
    ensures error.InvalidUpdateRange? <==> AcceptableSides(kind, raw) && !RangeInOrder(venue, kind, raw)
    ensures error.CrossedLevels? <==>
              AcceptableSides(kind, raw) && RangeInOrder(venue, kind, raw) && !SidesApart(kind, raw)
    ensures error.NoDepthError? ==> GoodEvent(venue, kind, EventOf(raw))
    ensures error.NoDepthError? ==>
              p.stored == if raw.bidsFirst then UpdatesOf(raw.bids, Bid) + UpdatesOf(raw.asks, Ask)
                          else UpdatesOf(raw.asks, Ask) + UpdatesOf(raw.bids, Bid)
  {
    p.BeginMessage();
    var e: LevelError;
    if raw.bidsFirst {
      e := ParseSides(p, raw.bids, Bid, raw.asks, Ask, kind.Depth5?);
    } else {
      e := ParseSides(p, raw.asks, Ask, raw.bids, Bid, kind.Depth5?);
    }
    if !e.NoLevelError? {
      return Levels(e);
    }
    error := FinalCheck(venue, kind, raw);
    FinalCheckDecides(venue, kind, raw);
    if error.NoDepthError? {
      AcceptedDepthIsGood(venue, kind, raw);
    }
  }

  /** Both arrays, one after the other; the first error is the result. */
  method ParseSides(p: LevelParser, first: seq<RawLevel>, firstSide: BookSide, second: seq<RawLevel>,
                    secondSide: BookSide,
                    partial: bool) returns (error: LevelError)
    requires p.Valid() && p.stored == [] && p.encountered == 0 && firstSide != secondSide
    requires forall k :: !Contains(p.table.cells, k)
    modifies p, p.table`cells, p.table.slots, p.updates
    ensures p.Valid()
    ensures error.NoLevelError?
            <==> AcceptableSide(first, firstSide, partial, 0) && AcceptableSide(second, secondSide, partial, |first|)
    ensures error.NoLevelError? ==> p.stored == UpdatesOf(first, firstSide) + UpdatesOf(second, secondSide)
  {
    ghost var before := p.table.cells;
    OtherSideIsIrrelevant(first, [], firstSide, secondSide, partial, 0, before, before);
    error := p.ParseLevels(first, firstSide, partial);
    var e := ParseSecond(p, first, firstSide, second, secondSide, partial, error, before);
    if error.NoLevelError? {
      error := e;
    }
  }

  method ParseSecond(p: LevelParser, ghost first: seq<RawLevel>, ghost firstSide: BookSide, second: seq<RawLevel>,
                     side: BookSide,
                     partial: bool, ghost sofar: LevelError, ghost before: seq<Cell<Key>>) returns (e: LevelError)
    requires p.Valid() && p.encountered == |first| && firstSide != side && (forall k :: !Contains(before, k))
    requires sofar.NoLevelError? ==> Recorded(first, firstSide, before, p.table.cells)
    modifies p, p.table`cells, p.table.slots, p.updates
    ensures p.Valid()
    ensures sofar.NoLevelError? ==> (e.NoLevelError? <==> AcceptableSide(second, side, partial, |first|))
    ensures e.NoLevelError? ==> p.stored == old(p.stored) + UpdatesOf(second, side)
  {
    if sofar.NoLevelError? {
      OtherSideIsIrrelevant(second, first, side, firstSide, partial, |first|, before, p.table.cells);
    }
    e := p.ParseLevels(second, side, partial);
  }
}
