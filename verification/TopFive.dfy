/** One side of the visible book: at most five levels, changed in place
    (TopFiveBookCore in src/spot_book.cpp). */
module TopFive {
  import opened Types

  const DEPTH: nat := 5

  // ------------------------------------------------------------ specification

  /** The quantity shown at a price; zero when the price is absent. */
  function Lookup(levels: seq<Level>, price: int): int {
    if levels == [] then 0
    else if levels[0].price == price then levels[0].quantity
    else Lookup(levels[1..], price)
  }

  predicate HasPrice(levels: seq<Level>, price: int) {
    exists i :: 0 <= i < |levels| && levels[i].price == price
  }

  /** The whole side after a diff: the original quantities overridden by the updates,
      zero meaning absent. */
  function Overridden(original: seq<Level>, updates: seq<Level>, price: int): int {
    if HasPrice(updates, price) then Lookup(updates, price) else Lookup(original, price)
  }

  /** result shows exactly the best five prices of the side whose quantities are f. */
  ghost predicate IsBestFive(side: BookSide, result: seq<Level>, f: int -> int) {
    && Sorted(side, result) && |result| <= DEPTH && PositiveQuantities(result)
    && (forall i :: 0 <= i < |result| ==> f(result[i].price) == result[i].quantity)
    && (forall p :: f(p) != 0 && !HasPrice(result, p) ==>
          |result| == DEPTH && Better(side, result[DEPTH - 1].price, p))
  }

  lemma {:induction false} LookupAt(levels: seq<Level>, i: nat)
    requires i < |levels| && UniquePrices(levels)
    ensures Lookup(levels, levels[i].price) == levels[i].quantity
  {
    if i != 0 {
      assert levels[1..][i - 1] == levels[i];
      LookupAt(levels[1..], i - 1);
    }
  }

  lemma {:induction false} LookupAbsent(levels: seq<Level>, price: int)
    requires !HasPrice(levels, price)
    ensures Lookup(levels, price) == 0
  {
    if levels != [] {
      assert levels[0].price != price;
      assert forall i :: 0 <= i < |levels[1..]| ==> levels[1..][i] == levels[i + 1];
      LookupAbsent(levels[1..], price);
    }
  }

  /** There is only one best five. */
  lemma BestFiveIsUnique(side: BookSide, r: seq<Level>, s: seq<Level>, f: int -> int)
    requires IsBestFive(side, r, f) && IsBestFive(side, s, f)
    ensures r == s
  {
    BestFiveAgrees(side, r, s, f, |r|);
    BestFiveAgrees(side, s, r, f, |s|);
  }

  /** Two best fives of the same side agree on their first n levels. */
  lemma {:induction false} BestFiveAgrees(side: BookSide, r: seq<Level>, s: seq<Level>, f: int -> int, n: nat)
    requires IsBestFive(side, r, f) && IsBestFive(side, s, f) && n <= |r|
    ensures n <= |s| && forall j :: 0 <= j < n ==> r[j] == s[j]
  {
    if n != 0 {
      BestFiveAgrees(side, r, s, f, n - 1);
      NextAgrees(side, r, s, f, n - 1);
    }
  }

  lemma NextAgrees(side: BookSide, r: seq<Level>, s: seq<Level>, f: int -> int, n: nat)
    requires IsBestFive(side, r, f) && IsBestFive(side, s, f) && n < |r| && n <= |s|
    requires forall j :: 0 <= j < n ==> r[j] == s[j]
    ensures n < |s| && r[n] == s[n]
  {
    SameSize(side, r, s, f, n);
    NoBetterNext(side, r, s, f, n);
    NoBetterNext(side, s, r, f, n);
    assert r[n].quantity == f(r[n].price) == f(s[n].price) == s[n].quantity;
  }

  /** Where two best fives agree up to n, they both end or both go on. */
  lemma SameSize(side: BookSide, r: seq<Level>, s: seq<Level>, f: int -> int, n: nat)
    requires IsBestFive(side, r, f) && IsBestFive(side, s, f) && n < |r| && n <= |s|
    requires forall j :: 0 <= j < n ==> r[j] == s[j]
    ensures n < |s|
  {
    var p := r[n].price;
    assert f(p) != 0 && (|s| == n ==> !HasPrice(s, p));
  }

  /** Where two best fives agree up to n, neither continues with a better price. */
  lemma NoBetterNext(side: BookSide, r: seq<Level>, s: seq<Level>, f: int -> int, n: nat)
    requires IsBestFive(side, r, f) && IsBestFive(side, s, f) && n < |r| && n < |s|
    requires forall j :: 0 <= j < n ==> s[j] == r[j]
    ensures !Better(side, s[n].price, r[n].price)
  {
    var q := s[n].price;
    assert f(q) != 0 && (Better(side, q, r[n].price) ==> !HasPrice(r, q));
  }

  // --------------------------------------- what the in-place operations compute

  /** The index of a price, or the size when it is absent. */
  function FindPrice(levels: seq<Level>, price: int): (i: nat)
    ensures i <= |levels|
    ensures i < |levels| ==> levels[i].price == price
    ensures forall j :: 0 <= j < i ==> levels[j].price != price
  {
    if levels == [] then 0
    else if levels[0].price == price then 0
    else
      var i := 1 + FindPrice(levels[1..], price);
      assert forall j :: 1 <= j < |levels| ==> levels[j] == levels[1..][j - 1];
      i
  }

  function Erase(levels: seq<Level>, index: nat): seq<Level>
    requires index < |levels|
  {
    levels[..index] + levels[index + 1..]
  }

  /** The first position whose price is not better than the given one. */
  function InsertPosition(side: BookSide, levels: seq<Level>, price: int): (i: nat)
    ensures i <= |levels|
    ensures i < |levels| ==> !Better(side, levels[i].price, price)
    ensures forall j :: 0 <= j < i ==> Better(side, levels[j].price, price)
  {
    if levels == [] || !Better(side, levels[0].price, price) then 0
    else
      assert forall j :: 1 <= j < |levels| ==> levels[j] == levels[1..][j - 1];
      1 + InsertPosition(side, levels[1..], price)
  }

  /** The level at its place among the others, before the five best are kept. */
  function Placed(side: BookSide, c: seq<Level>, level: Level): seq<Level> {
    var i := InsertPosition(side, c, level.price);
    c[..i] + [level] + c[i..]
  }

  /** Insert in order and keep the first five. */
  function Insert(side: BookSide, levels: seq<Level>, level: Level): seq<Level> {
    var all := Placed(side, levels, level);
    if |all| <= DEPTH then all else all[..DEPTH]
  }

  /** The first pass of apply_updates over the first n updates: change or erase the
      prices the side already shows. */
  function ChangeShown(original: seq<Level>, updates: seq<Level>, n: nat): seq<Level>
    requires n <= |updates|
  {
    if n == 0 then original
    else
      var candidate := ChangeShown(original, updates, n - 1);
      var u := updates[n - 1];
      var i := FindPrice(candidate, u.price);
      if FindPrice(original, u.price) == |original| || i == |candidate| then candidate
      else if u.quantity == 0 then Erase(candidate, i)
      else candidate[i := candidate[i].(quantity := u.quantity)]
  }

  /** The second pass over the first n updates: insert the prices not shown before. */
  function InsertNew(side: BookSide, original: seq<Level>, candidate: seq<Level>, updates: seq<Level>,
                     n: nat): (r: seq<Level>)
    requires n <= |updates|
    ensures |candidate| <= DEPTH ==> |r| <= DEPTH
  {
    if n == 0 then candidate
    else
      var r := InsertNew(side, original, candidate, updates, n - 1);
      var u := updates[n - 1];
      if u.quantity == 0 || FindPrice(original, u.price) != |original| then r
      else Insert(side, r, u)
  }

  lemma {:induction false} ChangeShownSize(original: seq<Level>, updates: seq<Level>, n: nat)
    requires n <= |updates|
    ensures |ChangeShown(original, updates, n)| <= |original|
  {
    if n != 0 {
      ChangeShownSize(original, updates, n - 1);
    }
  }

  function ApplyUpdates(side: BookSide, original: seq<Level>, updates: seq<Level>): (r: seq<Level>)
    ensures |original| <= DEPTH ==> |r| <= DEPTH
  {
    ChangeShownSize(original, updates, |updates|);
    InsertNew(side, original, ChangeShown(original, updates, |updates|), updates, |updates|)
  }

  // --------------------------------------------------------- correctness proof

  /** r keeps the order of original and shows, of its prices, exactly those to which f
      gives a quantity. */
  ghost predicate Changed(side: BookSide, original: seq<Level>, f: int -> int, r: seq<Level>) {
    && Sorted(side, r) && PositiveQuantities(r) && |r| <= |original|
    && (forall i :: 0 <= i < |r| ==> HasPrice(original, r[i].price) && f(r[i].price) == r[i].quantity)
    && (forall i :: 0 <= i < |original| && f(original[i].price) != 0 ==> HasPrice(r, original[i].price))
  }

  /** g is f except at one price. */
  ghost predicate DiffersAt(f: int -> int, g: int -> int, level: Level) {
    forall p :: g(p) == if p == level.price then level.quantity else f(p)
  }

  /** The quantities in force after n updates. */
  ghost function After(original: seq<Level>, updates: seq<Level>, n: nat): int -> int
    requires n <= |updates|
  {
    p => Overridden(original, updates[..n], p)
  }

  /** One more update changes the quantity at its own price only. */
  lemma OverriddenStep(original: seq<Level>, updates: seq<Level>, n: nat, p: int)
    requires n < |updates| && UniquePrices(updates)
    ensures Overridden(original, updates[..n + 1], p)
            == if p == updates[n].price then updates[n].quantity else Overridden(original, updates[..n], p)
  {
    var before, after := updates[..n], updates[..n + 1];
    assert forall i :: 0 <= i < n ==> after[i] == before[i] == updates[i];
    if HasPrice(after, p) {
      var i :| 0 <= i < |after| && after[i].price == p;
      LookupAt(after, i);
      if i < n {
        assert before[i].price == p;
        LookupAt(before, i);
      } else {
        assert p == updates[n].price;
      }
    } else {
      assert forall i :: 0 <= i < n ==> before[i].price != p;
      assert after[n].price != p;
    }
  }

  lemma AfterStep(original: seq<Level>, updates: seq<Level>, n: nat)
    requires n < |updates| && UniquePrices(updates)
    ensures DiffersAt(After(original, updates, n), After(original, updates, n + 1), updates[n])
  {
    var f, g := After(original, updates, n), After(original, updates, n + 1);
    forall p ensures g(p) == if p == updates[n].price then updates[n].quantity else f(p) {
      OverriddenStep(original, updates, n, p);
    }
  }

  /** A price shown originally and not updated yet is still in force. */
  lemma StillInForce(side: BookSide, original: seq<Level>, updates: seq<Level>, n: nat, i: nat)
    requires n < |updates| && UniquePrices(updates) && Sorted(side, original) && PositiveQuantities(original)
    requires i < |original| && original[i].price == updates[n].price
    ensures After(original, updates, n)(updates[n].price) != 0
  {
    assert forall j :: 0 <= j < n ==> updates[..n][j] == updates[j];
    LookupAt(original, i);
  }

  lemma {:induction false} ChangeShownCorrect(side: BookSide, original: seq<Level>, updates: seq<Level>, n: nat)
    requires Sorted(side, original) && PositiveQuantities(original)
    requires UniquePrices(updates) && NonNegativeQuantities(updates) && n <= |updates|
    ensures Changed(side, original, After(original, updates, n), ChangeShown(original, updates, n))
  {
    if n == 0 {
      forall i | 0 <= i < |original| ensures Lookup(original, original[i].price) == original[i].quantity {
        LookupAt(original, i);
      }
    } else {
      ChangeShownCorrect(side, original, updates, n - 1);
      var r := ChangeShown(original, updates, n - 1);
      var f, g := After(original, updates, n - 1), After(original, updates, n);
      var u := updates[n - 1];
      AfterStep(original, updates, n - 1);
      var at := FindPrice(original, u.price);
      if at < |original| {
        StillInForce(side, original, updates, n - 1, at);
        ChangeOne(side, original, f, g, r, u);
      } else {
        ChangeNone(side, original, f, g, r, u);
      }
    }
  }

  lemma ChangeNone(side: BookSide, original: seq<Level>, f: int -> int, g: int -> int, r: seq<Level>, u: Level)
    requires Changed(side, original, f, r) && DiffersAt(f, g, u) && !HasPrice(original, u.price)
    ensures Changed(side, original, g, r)
  {
  }

  /** One iteration of the first pass, at a price that is shown. */
  lemma ChangeOne(side: BookSide, original: seq<Level>, f: int -> int, g: int -> int, r: seq<Level>, u: Level)
    requires Changed(side, original, f, r) && DiffersAt(f, g, u)
    requires u.quantity >= 0 && HasPrice(original, u.price) && f(u.price) != 0
    ensures var i := FindPrice(r, u.price);
            && i < |r|
            && Changed(side, original, g, if u.quantity == 0 then Erase(r, i)
                                          else r[i := r[i].(quantity := u.quantity)])
  {
    assert HasPrice(r, u.price);
    var i := FindPrice(r, u.price);
    if u.quantity == 0 {
      ChangeErase(side, original, f, g, r, u, i);
    } else {
      ChangeSet(side, original, f, g, r, u, i);
    }
  }

  lemma ChangeErase(side: BookSide, original: seq<Level>, f: int -> int, g: int -> int, r: seq<Level>, u: Level, i: nat)
    requires Changed(side, original, f, r) && DiffersAt(f, g, u)
    requires u.quantity == 0 && i < |r| && r[i].price == u.price
    ensures Changed(side, original, g, Erase(r, i))
  {
    EraseKeepsOthers(side, r, i);
    var e := Erase(r, i);
    forall k | 0 <= k < |original| && g(original[k].price) != 0 ensures HasPrice(e, original[k].price) {
      assert HasPrice(r, original[k].price);
    }
  }

  lemma ChangeSet(side: BookSide, original: seq<Level>, f: int -> int, g: int -> int, r: seq<Level>, u: Level, i: nat)
    requires Changed(side, original, f, r) && DiffersAt(f, g, u)
    requires u.quantity > 0 && i < |r| && r[i].price == u.price
    ensures Changed(side, original, g, r[i := r[i].(quantity := u.quantity)])
  {
    var e := r[i := r[i].(quantity := u.quantity)];
    assert forall j :: 0 <= j < |r| ==> e[j].price == r[j].price;
    forall k | 0 <= k < |original| && g(original[k].price) != 0 ensures HasPrice(e, original[k].price) {
      if original[k].price == u.price {
        assert e[i].price == u.price;
      } else {
        assert HasPrice(r, original[k].price);
      }
    }
  }

  /** Erasing removes one price and keeps every other level in order. */
  lemma EraseKeepsOthers(side: BookSide, r: seq<Level>, i: nat)
    requires Sorted(side, r) && PositiveQuantities(r) && i < |r|
    ensures var e := Erase(r, i);
            && Sorted(side, e) && PositiveQuantities(e) && |e| == |r| - 1
            && (forall j :: 0 <= j < |e| ==> e[j] in r && e[j].price != r[i].price)
            && (forall j :: 0 <= j < |r| && j != i ==> HasPrice(e, r[j].price))
  {
    var e := Erase(r, i);
    forall j | 0 <= j < |r| && j != i ensures HasPrice(e, r[j].price) {
      var k := if j < i then j else j - 1;
      assert e[k] == r[j];
    }
  }

  lemma PlacedIsSorted(side: BookSide, c: seq<Level>, level: Level)
    requires Sorted(side, c) && PositiveQuantities(c) && level.quantity > 0 && !HasPrice(c, level.price)
    ensures Sorted(side, Placed(side, c, level)) && PositiveQuantities(Placed(side, c, level))
  {
    assert forall j :: 0 <= j < |c| ==> c[j].price != level.price;
  }

  lemma PlacedHolds(side: BookSide, c: seq<Level>, level: Level)
    ensures var all := Placed(side, c, level);
            && |all| == |c| + 1 && HasPrice(all, level.price)
            && (forall j :: 0 <= j < |all| ==> all[j] == level || all[j] in c)
            && (forall j :: 0 <= j < |c| ==> HasPrice(all, c[j].price))
  {
    var i := InsertPosition(side, c, level.price);
    var all := Placed(side, c, level);
    assert all[i] == level;
    forall j | 0 <= j < |c| ensures HasPrice(all, c[j].price) {
      assert all[if j < i then j else j + 1] == c[j];
    }
  }

  /** A price beyond a full five stays beyond it after an insertion. */
  lemma PlacedKeepsWorst(side: BookSide, c: seq<Level>, level: Level, p: int)
    requires Sorted(side, c) && |c| == DEPTH && Better(side, c[DEPTH - 1].price, p)
    requires level.price != p
    ensures Better(side, Placed(side, c, level)[DEPTH - 1].price, p)
  {
  }

  /** Keeping the first five of a sorted side that lacks only worse prices. */
  lemma KeepFive(side: BookSide, all: seq<Level>, g: int -> int)
    requires Sorted(side, all) && PositiveQuantities(all)
    requires forall j :: 0 <= j < |all| ==> g(all[j].price) == all[j].quantity
    requires forall p :: g(p) != 0 && !HasPrice(all, p) ==>
               |all| >= DEPTH && Better(side, all[DEPTH - 1].price, p)
    ensures IsBestFive(side, if |all| <= DEPTH then all else all[..DEPTH], g)
  {
    var r := if |all| <= DEPTH then all else all[..DEPTH];
    assert forall j :: 0 <= j < |r| ==> r[j] == all[j];
    forall p | g(p) != 0 && !HasPrice(r, p)
      ensures |r| == DEPTH && Better(side, r[DEPTH - 1].price, p)
    {
      if HasPrice(all, p) {
        var k :| 0 <= k < |all| && all[k].price == p;
        assert forall j :: 0 <= j < |r| ==> r[j].price != p;
      }
    }
  }

  /** Inserting a new price into a best five gives the best five with that price. */
  lemma InsertCorrect(side: BookSide, c: seq<Level>, level: Level, f: int -> int, g: int -> int)
    requires IsBestFive(side, c, f) && f(level.price) == 0 && level.quantity > 0 && DiffersAt(f, g, level)
    ensures IsBestFive(side, Insert(side, c, level), g)
  {
    assert !HasPrice(c, level.price);
    var all := Placed(side, c, level);
    PlacedIsSorted(side, c, level);
    PlacedHolds(side, c, level);
    forall p | g(p) != 0 && !HasPrice(all, p)
      ensures |all| >= DEPTH && Better(side, all[DEPTH - 1].price, p)
    {
      assert p != level.price && f(p) != 0 && !HasPrice(c, p);
      PlacedKeepsWorst(side, c, level, p);
    }
    KeepFive(side, all, g);
  }

  /** The quantities in force during the second pass: everything at the prices shown
      originally, and the first n updates elsewhere. */
  ghost function During(original: seq<Level>, updates: seq<Level>, n: nat): int -> int
    requires n <= |updates|
  {
    p => if HasPrice(original, p) then After(original, updates, |updates|)(p) else After(original, updates, n)(p)
  }

  lemma SameQuantities(side: BookSide, r: seq<Level>, f: int -> int, g: int -> int)
    requires IsBestFive(side, r, f) && forall p :: f(p) == g(p)
    ensures IsBestFive(side, r, g)
  {
  }

  /** A price that was not shown and has not been updated yet has no quantity. */
  lemma NotYetThere(original: seq<Level>, updates: seq<Level>, n: nat)
    requires n < |updates| && UniquePrices(updates) && !HasPrice(original, updates[n].price)
    ensures After(original, updates, n)(updates[n].price) == 0
  {
    assert forall j :: 0 <= j < n ==> updates[..n][j] == updates[j];
    LookupAbsent(original, updates[n].price);
  }

  lemma FirstPassIsBest(side: BookSide, original: seq<Level>, candidate: seq<Level>, updates: seq<Level>)
    requires |original| <= DEPTH && Changed(side, original, After(original, updates, |updates|), candidate)
    ensures IsBestFive(side, candidate, During(original, updates, 0))
  {
    var f := During(original, updates, 0);
    forall p | f(p) != 0 ensures HasPrice(candidate, p) {
      if HasPrice(original, p) {
        var k :| 0 <= k < |original| && original[k].price == p;
        assert f(p) == After(original, updates, |updates|)(original[k].price);
      } else {
        var n: nat := 0;
        assert f(p) == After(original, updates, n)(p) == Overridden(original, updates[..n], p);
        LookupAbsent(original, p);
      }
    }
  }

  lemma {:induction false} InsertNewCorrect(side: BookSide, original: seq<Level>, candidate: seq<Level>,
                                            updates: seq<Level>, n: nat)
    requires UniquePrices(updates) && NonNegativeQuantities(updates) && n <= |updates|
    requires IsBestFive(side, candidate, During(original, updates, 0))
    ensures IsBestFive(side, InsertNew(side, original, candidate, updates, n), During(original, updates, n))
  {
    if n != 0 {
      InsertNewCorrect(side, original, candidate, updates, n - 1);
      InsertOne(side, original, updates, n - 1, InsertNew(side, original, candidate, updates, n - 1));
    }
  }

  /** One iteration of the second pass. */
  lemma InsertOne(side: BookSide, original: seq<Level>, updates: seq<Level>, n: nat, r: seq<Level>)
    requires UniquePrices(updates) && NonNegativeQuantities(updates) && n < |updates|
    requires IsBestFive(side, r, During(original, updates, n))
    ensures var u := updates[n];
            var skip := u.quantity == 0 || FindPrice(original, u.price) != |original|;
            IsBestFive(side, if skip then r else Insert(side, r, u), During(original, updates, n + 1))
  {
    var u := updates[n];
    var f, g := During(original, updates, n), During(original, updates, n + 1);
    AfterStep(original, updates, n);
    if FindPrice(original, u.price) == |original| {
      NotYetThere(original, updates, n);
      assert DiffersAt(f, g, u);
      if u.quantity != 0 {
        InsertCorrect(side, r, u, f, g);
      } else {
        SameQuantities(side, r, f, g);
      }
    } else {
      assert HasPrice(original, u.price);
      SameQuantities(side, r, f, g);
    }
  }

  /** apply_updates returns exactly the best five of the original side overridden by
      the updates, zero quantities removed. */
  lemma ApplyUpdatesIsBestFive(side: BookSide, original: seq<Level>, updates: seq<Level>)
    requires Sorted(side, original) && PositiveQuantities(original) && |original| <= DEPTH
    requires UniquePrices(updates) && NonNegativeQuantities(updates)
    ensures IsBestFive(side, ApplyUpdates(side, original, updates), p => Overridden(original, updates, p))
  {
    var n := |updates|;
    ChangeShownCorrect(side, original, updates, n);
    ChangeShownSize(original, updates, n);
    var candidate := ChangeShown(original, updates, n);
    FirstPassIsBest(side, original, candidate, updates);
    InsertNewCorrect(side, original, candidate, updates, n);
    assert updates[..n] == updates;
    SameQuantities(side, ApplyUpdates(side, original, updates), During(original, updates, n),
                   p => Overridden(original, updates, p));
  }

  /** Reordered updates carry the same quantities. */
  lemma PermutedLookup(updates: seq<Level>, permuted: seq<Level>, p: int)
    requires UniquePrices(updates) && UniquePrices(permuted) && multiset(updates) == multiset(permuted)
    ensures HasPrice(updates, p) <==> HasPrice(permuted, p)
    ensures Lookup(updates, p) == Lookup(permuted, p)
  {
    if HasPrice(updates, p) {
      PermutedLookupOneWay(updates, permuted, p);
    } else if HasPrice(permuted, p) {
      PermutedLookupOneWay(permuted, updates, p);
    } else {
      LookupAbsent(updates, p);
      LookupAbsent(permuted, p);
    }
  }

  lemma PermutedLookupOneWay(updates: seq<Level>, permuted: seq<Level>, p: int)
    requires UniquePrices(updates) && UniquePrices(permuted) && multiset(updates) == multiset(permuted)
    requires HasPrice(updates, p)
    ensures HasPrice(permuted, p) && Lookup(updates, p) == Lookup(permuted, p)
  {
    var i :| 0 <= i < |updates| && updates[i].price == p;
    assert updates[i] in multiset(updates);
    assert updates[i] in multiset(permuted);
    var j :| 0 <= j < |permuted| && permuted[j] == updates[i];
    LookupAt(updates, i);
    LookupAt(permuted, j);
  }

  /** The order of the updates in a message does not matter. */
  lemma UpdateOrderIrrelevant(side: BookSide, original: seq<Level>, updates: seq<Level>, permuted: seq<Level>)
    requires Sorted(side, original) && PositiveQuantities(original) && |original| <= DEPTH
    requires UniquePrices(updates) && NonNegativeQuantities(updates)
    requires UniquePrices(permuted) && NonNegativeQuantities(permuted)
    requires multiset(updates) == multiset(permuted)
    ensures ApplyUpdates(side, original, updates) == ApplyUpdates(side, original, permuted)
  {
    ApplyUpdatesIsBestFive(side, original, updates);
    ApplyUpdatesIsBestFive(side, original, permuted);
    var f, g := p => Overridden(original, updates, p), p => Overridden(original, permuted, p);
    forall p ensures f(p) == g(p) {
      PermutedLookup(updates, permuted, p);
    }
    SameQuantities(side, ApplyUpdates(side, original, permuted), g, f);
    BestFiveIsUnique(side, ApplyUpdates(side, original, updates), ApplyUpdates(side, original, permuted), f);
  }
}
