/** The combined-stream subscription of a live capture and its route table
    (src/live_subscription.cpp). */
module Subscription {
  import opened Types
  import opened CsvFormat
  import opened ProbeTable

  const LOOKUP_SLOTS: nat := 256
  const MAX_SYMBOLS: nat := 32
  const STREAMS_PER_SYMBOL: nat := 3
  const MAX_TARGET_BYTES: nat := 8192
  const MAX_STREAM_NAME: nat := 128

  // ------------------------------------------------------------------ stream names

  function LowercaseChar(c: char): char {
    if 'A' <= c <= 'Z' then c - 'A' + 'a' else c
  }

  function Lowercase(s: string): (r: string)
    ensures |r| == |s| && forall i :: 0 <= i < |s| ==> r[i] == LowercaseChar(s[i])
  {
    if s == [] then [] else Lowercase(s[..|s| - 1]) + [LowercaseChar(s[|s| - 1])]
  }

  /** A normalized symbol in lower case: letters move by 32, digits stay. */
  lemma LowercaseText(s: string, i: nat)
    requires NormalizedSymbol(s) && i < |s|
    ensures Lowercase(s)[i] as int == if 'A' <= s[i] <= 'Z' then s[i] as int + 32 else s[i] as int
  {
  }

  /** lowercase_symbol. */
  method LowercaseSymbol(symbol: string) returns (r: string)
    ensures r == Lowercase(symbol)
  {
    r := "";
    var i := 0;
    while i < |symbol|
      invariant i <= |symbol| && r == Lowercase(symbol[..i])
    {
      assert symbol[..i + 1][..i] == symbol[..i];
      r := r + [LowercaseChar(symbol[i])];
      i := i + 1;
    }
    assert symbol[..i] == symbol;
  }

  function Suffix(kind: Kind): string {
    match kind
    case DepthDiff => "@depth@100ms"
    case Depth5 => "@depth5@100ms"
    case Trade => "@trade"
  }

  function StreamName(symbol: string, kind: Kind): string {
    Lowercase(symbol) + Suffix(kind)
  }

  lemma SymbolHasNoAt(symbol: string, i: nat)
    requires NormalizedSymbol(symbol) && i < |symbol|
    ensures Lowercase(symbol)[i] != '@'
  {
  }

  lemma LowercaseIsInjective(s: string, t: string)
    requires NormalizedSymbol(s) && NormalizedSymbol(t) && Lowercase(s) == Lowercase(t)
    ensures s == t
  {
    forall i | 0 <= i < |s| ensures s[i] == t[i] {
      assert Lowercase(s)[i] == LowercaseChar(s[i]) && Lowercase(t)[i] == LowercaseChar(t[i]);
    }
  }

  lemma SuffixesAreDistinct(k: Kind, l: Kind)
    requires Suffix(k) == Suffix(l)
    ensures k == l
  {
    assert |Suffix(DepthDiff)| == 12 && |Suffix(Depth5)| == 13 && |Suffix(Trade)| == 6;
  }

  /** The first '@' splits a name in one way only. */
  lemma SplitAtFirst(a: string, p: string, b: string, q: string)
    requires a + p == b + q && p != "" && q != "" && p[0] == '@' && q[0] == '@'
    requires (forall i :: 0 <= i < |a| ==> a[i] != '@') && (forall i :: 0 <= i < |b| ==> b[i] != '@')
    ensures a == b && p == q
  {
    var name := a + p;
    assert name[|a|] == '@' && name[|b|] == '@';
    assert |a| >= |b| && |b| >= |a|;
    assert a == name[..|a|] && b == name[..|b|] && p == name[|a|..] && q == name[|b|..];
  }

  /** A stream name determines its symbol and its kind. */
  lemma StreamNamesAreDistinct(s: string, k: Kind, t: string, l: Kind)
    requires NormalizedSymbol(s) && NormalizedSymbol(t) && StreamName(s, k) == StreamName(t, l)
    ensures s == t && k == l
  {
    forall i | 0 <= i < |s| ensures Lowercase(s)[i] != '@' {
      SymbolHasNoAt(s, i);
    }
    forall i | 0 <= i < |t| ensures Lowercase(t)[i] != '@' {
      SymbolHasNoAt(t, i);
    }
    SplitAtFirst(Lowercase(s), Suffix(k), Lowercase(t), Suffix(l));
    LowercaseIsInjective(s, t);
    SuffixesAreDistinct(k, l);
  }

  // ------------------------------------------------------------------------ routes

  datatype Route = Route(streamName: string, symbolIndex: nat, kind: Kind)

  /** What validation establishes of a symbol set it accepts.  It also rejects two symbols
      with the same instrument id. */
  predicate AcceptedSymbols(symbols: seq<string>) {
    && 1 <= |symbols| <= MAX_SYMBOLS
    && (forall i :: 0 <= i < |symbols| ==> NormalizedSymbol(symbols[i]))
    && (forall i, j :: 0 <= i < j < |symbols| ==> symbols[i] != symbols[j])
  }

  function KindAt(i: nat): Kind {
    if i == 0 then DepthDiff else if i == 1 then Depth5 else Trade
  }

  function RouteOf(symbols: seq<string>, i: nat, k: nat): Route
    requires i < |symbols|
  {
    Route(StreamName(symbols[i], KindAt(k)), i, KindAt(k))
  }

  /** The routes of the first i symbols and of the first k streams of the next one. */
  function Routes(symbols: seq<string>, i: nat, k: nat): (r: seq<Route>)
    requires i <= |symbols| && k <= 3 && (i == |symbols| ==> k == 0)
    ensures |r| == 3 * i + k
    decreases i, k
  {
    if k > 0 then Routes(symbols, i, k - 1) + [RouteOf(symbols, i, k - 1)]
    else if i > 0 then Routes(symbols, i - 1, 3)
    else []
  }

  /** Every route names a stream of an earlier symbol, or an earlier stream of this one. */
  lemma {:induction false} RoutesComeFrom(symbols: seq<string>, i: nat, k: nat, r: nat)
    requires i <= |symbols| && k <= 3 && (i == |symbols| ==> k == 0) && r < 3 * i + k
    ensures var x := Routes(symbols, i, k)[r];
            && x.symbolIndex < |symbols| && x.streamName == StreamName(symbols[x.symbolIndex], x.kind)
            && (x.symbolIndex < i || (x.symbolIndex == i && exists j :: 0 <= j < k && x.kind == KindAt(j)))
    decreases i, k
  {
    if k > 0 {
      if r < 3 * i + k - 1 {
        RoutesComeFrom(symbols, i, k - 1, r);
      }
    } else if i > 0 {
      RoutesComeFrom(symbols, i - 1, 3, r);
    }
  }

  /** The next stream has a name that no earlier route has. */
  lemma NextNameIsNew(symbols: seq<string>, i: nat, k: nat, r: nat)
    requires AcceptedSymbols(symbols) && i < |symbols| && k < 3 && r < 3 * i + k
    ensures Routes(symbols, i, k)[r].streamName != RouteOf(symbols, i, k).streamName
  {
    RoutesComeFrom(symbols, i, k, r);
    var x := Routes(symbols, i, k)[r];
    if x.streamName == RouteOf(symbols, i, k).streamName {
      StreamNamesAreDistinct(symbols[x.symbolIndex], x.kind, symbols[i], KindAt(k));
    }
  }

  /** The request target with the same streams. */
  function TargetText(prefix: string, symbols: seq<string>, i: nat, k: nat): string
    requires i <= |symbols| && k <= 3 && (i == |symbols| ==> k == 0)
    decreases i, k
  {
    if k > 0 then
      TargetText(prefix, symbols, i, k - 1) + (if i == 0 && k == 1 then "" else "/")
        + RouteOf(symbols, i, k - 1).streamName
    else if i > 0 then TargetText(prefix, symbols, i - 1, 3)
    else prefix
  }

  /** The bytes of the streams of the first n symbols. */
  function StreamBytes(symbols: seq<string>, n: nat): nat
    requires n <= |symbols|
  {
    if n == 0 then 0 else StreamBytes(symbols, n - 1) + 3 * |symbols[n - 1]| + 31
  }

  function TargetSize(prefixBytes: nat, symbols: seq<string>): nat
    requires symbols != []
  {
    prefixBytes + StreamBytes(symbols, |symbols|) + 3 * |symbols| - 1
  }

  lemma {:induction false} TargetTextSize(prefix: string, symbols: seq<string>, n: nat)
    requires n <= |symbols|
    ensures |TargetText(prefix, symbols, n, 0)|
            == |prefix| + StreamBytes(symbols, n) + (if n == 0 then 0 else 3 * n - 1)
  {
    if n != 0 {
      TargetTextSize(prefix, symbols, n - 1);
      assert |TargetText(prefix, symbols, n - 1, 1)|
          == |TargetText(prefix, symbols, n - 1, 0)| + (if n == 1 then 0 else 1) + |symbols[n - 1]| + 12;
      assert |TargetText(prefix, symbols, n - 1, 2)|
        == |TargetText(prefix, symbols, n - 1, 1)| + 1 + |symbols[n - 1]| + 13;
      assert |TargetText(prefix, symbols, n - 1, 3)|
        == |TargetText(prefix, symbols, n - 1, 2)| + 1 + |symbols[n - 1]| + 6;
    }
  }

  lemma {:induction false} StreamBytesBound(symbols: seq<string>, n: nat)
    requires n <= |symbols| && forall i :: 0 <= i < |symbols| ==> |symbols[i]| <= 32
    ensures StreamBytes(symbols, n) <= 127 * n
  {
    if n != 0 {
      StreamBytesBound(symbols, n - 1);
    }
  }

  /** The 8192-byte limit cannot be hit. */
  lemma TargetFits(prefixBytes: nat, symbols: seq<string>)
    requires AcceptedSymbols(symbols) && prefixBytes <= 64
    ensures TargetSize(prefixBytes, symbols) <= MAX_TARGET_BYTES
  {
    StreamBytesBound(symbols, |symbols|);
  }

  datatype SizeResult = Size(bytes: nat) | InvalidSymbols | SizeOverflow

  /** checked_combined_target_size, with size_t of 64 bits. */
  method CheckedTargetSize(prefixBytes: nat, symbols: seq<string>) returns (r: SizeResult)
    requires prefixBytes <= U64_MAX
    ensures r.InvalidSymbols? <==> |symbols| == 0 || |symbols| > MAX_SYMBOLS
    ensures !r.InvalidSymbols? ==>
              var size := TargetSize(prefixBytes, symbols);
              r == if size <= U64_MAX then Size(size) else SizeOverflow
  {
    if |symbols| == 0 || |symbols| > MAX_SYMBOLS {
      return InvalidSymbols;
    }
    var total := prefixBytes;
    var i := 0;
    while i < |symbols|
      invariant i <= |symbols| && total == prefixBytes + StreamBytes(symbols, i) <= U64_MAX
    {
      var k := 0;
      while k < STREAMS_PER_SYMBOL
        invariant k <= STREAMS_PER_SYMBOL && total <= U64_MAX
        invariant total == prefixBytes + StreamBytes(symbols, i) + k * |symbols[i]|
                    + (if k == 0 then 0 else if k == 1 then 12 else if k == 2 then 25 else 31)
      {
        var size, suffix := |symbols[i]|, |Suffix(KindAt(k))|;
        StreamBytesGrow(symbols, i + 1);
        assert prefixBytes + StreamBytes(symbols, i + 1) >= total + size + suffix;
        if size > U64_MAX - total || suffix > U64_MAX - total - size {
          return SizeOverflow;
        }
        total := total + size + suffix;
        k := k + 1;
      }
      i := i + 1;
    }
    if 3 * |symbols| - 1 > U64_MAX - total {
      return SizeOverflow;
    }
    r := Size(total + 3 * |symbols| - 1);
  }

  lemma {:induction false} StreamBytesGrow(symbols: seq<string>, n: nat)
    requires n <= |symbols|
    ensures StreamBytes(symbols, n) <= StreamBytes(symbols, |symbols|)
    decreases |symbols| - n
  {
    if n < |symbols| {
      StreamBytesGrow(symbols, n + 1);
    }
  }

  // ------------------------------------------------------------------- the table

  const NO_ROUTE: int := -1

  datatype Lookup = Found(index: nat) | UnknownStream | NameTooLong

  predicate DistinctNames(routes: seq<Route>) {
    forall i, j :: 0 <= i < j < |routes| ==> routes[i].streamName != routes[j].streamName
  }

  ghost predicate Named(routes: seq<Route>, name: string) {
    exists i :: 0 <= i < |routes| && routes[i].streamName == name
  }

  function PrefixOf(venue: Venue): string {
    if venue.Spot? then "/stream?streams=" else "/public/stream?streams="
  }

  /** The streams of the first n symbols, as the exchange names them. */
  function StreamTexts(symbols: seq<string>, n: nat): seq<string>
    requires n <= |symbols|
  {
    if n == 0 then []
    else
      var name := Lowercase(symbols[n - 1]);
      StreamTexts(symbols, n - 1) + [name + "@depth@100ms", name + "@depth5@100ms", name + "@trade"]
  }

  function JoinSlash(names: seq<string>): string {
    if names == [] then ""
    else if |names| == 1 then names[0]
    else JoinSlash(names[..|names| - 1]) + "/" + names[|names| - 1]
  }

  lemma JoinGrows(prefix: string, names: seq<string>, name: string)
    ensures prefix + JoinSlash(names + [name]) == prefix + JoinSlash(names) + (if names == [] then "" else "/") + name
  {
    var all := names + [name];
    assert all[..|all| - 1] == names && all[|all| - 1] == name;
  }

  lemma JoinGrowsByThree(prefix: string, names: seq<string>, a: string, b: string, c: string)
    ensures prefix + JoinSlash(names + [a, b, c])
         == prefix + JoinSlash(names) + (if names == [] then "" else "/") + a + "/" + b + "/" + c
  {
    JoinGrows(prefix, names, a);
    JoinGrows(prefix, names + [a], b);
    JoinGrows(prefix, names + [a] + [b], c);
    assert names + [a] + [b] + [c] == names + [a, b, c];
  }

  /** The request target is the prefix and the names of all streams with slashes between. */
  lemma {:induction false} TargetIsJoined(prefix: string, symbols: seq<string>, n: nat)
    requires n <= |symbols|
    ensures TargetText(prefix, symbols, n, 0) == prefix + JoinSlash(StreamTexts(symbols, n))
  {
    if n == 0 {
      assert prefix + "" == prefix;
    } else {
      var name := Lowercase(symbols[n - 1]);
      TargetIsJoined(prefix, symbols, n - 1);
      JoinGrowsByThree(prefix, StreamTexts(symbols, n - 1), name + "@depth@100ms", name + "@depth5@100ms",
                       name + "@trade");
      ThreeStreams(prefix, symbols, n - 1);
    }
  }

  lemma ThreeStreams(prefix: string, symbols: seq<string>, i: nat)
    requires i < |symbols|
    ensures var name := Lowercase(symbols[i]);
            TargetText(prefix, symbols, i + 1, 0)
            == TargetText(prefix, symbols, i, 0) + (if i == 0 then "" else "/") + (name + "@depth@100ms")
               + "/" + (name + "@depth5@100ms") + "/" + (name + "@trade")
  {
    assert RouteOf(symbols, i, 0).streamName == Lowercase(symbols[i]) + "@depth@100ms";
    assert RouteOf(symbols, i, 1).streamName == Lowercase(symbols[i]) + "@depth5@100ms";
    assert RouteOf(symbols, i, 2).streamName == Lowercase(symbols[i]) + "@trade";
    assert TargetText(prefix, symbols, i + 1, 0) == TargetText(prefix, symbols, i, 3);
    assert TargetText(prefix, symbols, i, 2)
        == TargetText(prefix, symbols, i, 1) + "/" + RouteOf(symbols, i, 1).streamName;
  }

  class LiveSubscription {
    const lookup: array<int>
    /** The masked hash; any function into the table. */
    const home: string -> nat
    var routes: seq<Route>
    var target: string
    /** The names in the table, slot by slot. */
    ghost var cells: seq<Cell<string>>

    constructor (home: string -> nat, prefix: string)
      requires forall k :: home(k) < LOOKUP_SLOTS
      ensures Valid() && fresh(lookup) && routes == [] && target == prefix && this.home == home
    {
      lookup := new int[LOOKUP_SLOTS](i => NO_ROUTE);
      this.home, routes, target := home, [], prefix;
      cells := seq(LOOKUP_SLOTS, i => Vacant);
      new;
      CountEmpty(cells);
    }

    /** The slot refers to the route whose name it stands for. */
    ghost predicate Refers(i: nat)
      reads this`routes, this`cells, lookup
    {
      && i < lookup.Length && i < |cells|
      && if cells[i].Vacant? then lookup[i] == NO_ROUTE
         else 0 <= lookup[i] < |routes| && routes[lookup[i]].streamName == cells[i].key
    }

    /** The table holds exactly the names of the routes. */
    ghost predicate Valid()
      reads this`routes, this`cells, lookup
    {
      && lookup.Length == LOOKUP_SLOTS == |cells| && Chained(cells, home)
      && (forall i :: 0 <= i < LOOKUP_SLOTS ==> Refers(i))
      && DistinctNames(routes) && Count(cells) == |routes|
      && (forall name :: Contains(cells, name) <==> Named(routes, name))
    }

    /** find_route: the one route of that name, or none. */
    method FindRoute(name: string) returns (r: Lookup)
      requires Valid()
      ensures r.NameTooLong? <==> |name| > MAX_STREAM_NAME
      ensures r.UnknownStream? <==> |name| <= MAX_STREAM_NAME && !Named(routes, name)
      ensures r.Found? ==> r.index < |routes| && routes[r.index].streamName == name
    {
      if |name| > MAX_STREAM_NAME {
        return NameTooLong;
      }
      var at := home(name);
      var probe := 0;
      while probe < LOOKUP_SLOTS
        invariant probe <= LOOKUP_SLOTS && at < LOOKUP_SLOTS
                  && (probe < LOOKUP_SLOTS ==> at == At(home(name), probe, LOOKUP_SLOTS))
        invariant Passed(cells, home, name, probe)
      {
        assert Refers(at);
        if lookup[at] == NO_ROUTE {
          VacantMeansAbsent(cells, home, name, probe);
          return UnknownStream;
        }
        if routes[lookup[at]].streamName == name {
          return Found(lookup[at]);
        }
        at := if at + 1 == LOOKUP_SLOTS then 0 else at + 1;
        probe := probe + 1;
      }
      FullRoundMeansFull(cells, home, name);
      r := UnknownStream;
    }

    /** insert_route of the next route: it succeeds unless the name is taken or the table is
        full. */
    method InsertRoute(route: Route) returns (ok: bool)
      requires Valid()
      modifies this`routes, this`cells, lookup
      ensures ok <==> old(!Named(routes, route.streamName) && Count(cells) < LOOKUP_SLOTS)
      ensures ok ==> Valid() && routes == old(routes) + [route]
    {
      var at := home(route.streamName);
      var probe := 0;
      while probe < LOOKUP_SLOTS
        invariant probe <= LOOKUP_SLOTS && at < LOOKUP_SLOTS
        invariant probe < LOOKUP_SLOTS ==> at == At(home(route.streamName), probe, LOOKUP_SLOTS)
        invariant Passed(cells, home, route.streamName, probe)
      {
        assert Refers(at);
        if lookup[at] == NO_ROUTE {
          VacantMeansAbsent(cells, home, route.streamName, probe);
          Store(at, probe, route);
          return true;
        }
        if routes[lookup[at]].streamName == route.streamName {
          return false;
        }
        at := if at + 1 == LOOKUP_SLOTS then 0 else at + 1;
        probe := probe + 1;
      }
      FullRoundMeansFull(cells, home, route.streamName);
      CountFull(cells);
      ok := false;
    }

    method Store(at: nat, ghost probe: nat, route: Route)
      requires Valid() && probe < LOOKUP_SLOTS
      requires at == At(home(route.streamName), probe, LOOKUP_SLOTS) && cells[at].Vacant?
      requires Passed(cells, home, route.streamName, probe) && !Contains(cells, route.streamName)
      modifies this`routes, this`cells, lookup
      ensures Valid() && routes == old(routes) + [route] && old(Count(cells)) < LOOKUP_SLOTS
    {
      CountInsert(cells, at, route.streamName);
      CountBound(cells[at := Held(route.streamName)]);
      InsertKeepsChains(cells, home, route.streamName, probe);
      NamesAfter(route, at);
      lookup[at] := |routes|;
      routes := routes + [route];
      cells := cells[at := Held(route.streamName)];
      forall i | 0 <= i < LOOKUP_SLOTS ensures Refers(i) {
        assert old(Refers(i));
      }
    }

    lemma NamesAfter(route: Route, at: nat)
      requires Valid() && at < LOOKUP_SLOTS && cells[at].Vacant? && !Contains(cells, route.streamName)
      ensures DistinctNames(routes + [route])
      ensures forall name :: Contains(cells[at := Held(route.streamName)], name) <==> Named(routes + [route], name)
    {
      assert !Named(routes, route.streamName);
      var after, all := cells[at := Held(route.streamName)], routes + [route];
      forall name ensures Contains(after, name) <==> Named(all, name) {
        if name == route.streamName {
          assert after[at] == Held(name) && all[|routes|].streamName == name;
        } else if Contains(cells, name) {
          var j :| 0 <= j < |cells| && cells[j] == Held(name);
          assert after[j] == Held(name);
          var i :| 0 <= i < |routes| && routes[i].streamName == name;
          assert all[i].streamName == name;
        } else {
          assert !Named(routes, name);
        }
      }
    }
  }

  /** create: every symbol set that validation has accepted gets a subscription with all its
      routes; neither the size limit nor the route table can fail. */
  method Create(home: string -> nat, venue: Venue, symbols: seq<string>, accepted: bool)
    returns (sub: LiveSubscription?)
    requires (forall k :: home(k) < LOOKUP_SLOTS) && (accepted ==> AcceptedSymbols(symbols))
    ensures sub != null <==> accepted
    ensures sub != null ==> && fresh(sub) && sub.Valid() && sub.routes == Routes(symbols, |symbols|, 0)
                            && sub.target == TargetText(PrefixOf(venue), symbols, |symbols|, 0)
                            && |sub.target| == TargetSize(|PrefixOf(venue)|, symbols) <= MAX_TARGET_BYTES
                            && sub.target == (if venue.Spot? then "/stream?streams=" else "/public/stream?streams=")
                                             + JoinSlash(StreamTexts(symbols, |symbols|))
  {
    if !accepted {
      return null;
    }
    var prefix := PrefixOf(venue);
    TargetFits(|prefix|, symbols);
    TargetTextSize(prefix, symbols, |symbols|);
    TargetIsJoined(prefix, symbols, |symbols|);
    var size := CheckedTargetSize(|prefix|, symbols);
    if !size.Size? || size.bytes > MAX_TARGET_BYTES {
      return null;
    }
    var s := new LiveSubscription(home, prefix);
    var i := 0;
    while i < |symbols|
      invariant i <= |symbols| && fresh(s) && fresh(s.lookup) && s.Valid()
      invariant s.routes == Routes(symbols, i, 0) && s.target == TargetText(prefix, symbols, i, 0)
    {
      var ok := AddSymbol(s, prefix, symbols, i);
      if !ok {
        return null;
      }
      i := i + 1;
    }
    if |s.target| != size.bytes {
      return null;
    }
    sub := s;
  }

  /** The three streams of one symbol. */
  method AddSymbol(s: LiveSubscription, ghost prefix: string, symbols: seq<string>, i: nat) returns (ok: bool)
    requires AcceptedSymbols(symbols) && i < |symbols| && s.Valid()
    requires s.routes == Routes(symbols, i, 0) && s.target == TargetText(prefix, symbols, i, 0)
    modifies s, s.lookup
    ensures ok && s.Valid()
    ensures s.routes == Routes(symbols, i + 1, 0) && s.target == TargetText(prefix, symbols, i + 1, 0)
  {
    var lowercase := LowercaseSymbol(symbols[i]);
    var k := 0;
    while k < STREAMS_PER_SYMBOL
      invariant k <= 3 && s.Valid()
      invariant s.routes == Routes(symbols, i, k) && s.target == TargetText(prefix, symbols, i, k)
    {
      ok := AddStream(s, prefix, symbols, i, k, lowercase);
      if !ok {
        return;
      }
      k := k + 1;
    }
    ok := true;
  }

  /** One stream of a symbol: its name is new and the table has a place for it. */
  method AddStream(s: LiveSubscription, ghost prefix: string, symbols: seq<string>, i: nat, k: nat, lowercase: string)
    returns (ok: bool)
    requires AcceptedSymbols(symbols) && i < |symbols| && k < 3 && s.Valid() && lowercase == Lowercase(symbols[i])
    requires s.routes == Routes(symbols, i, k) && s.target == TargetText(prefix, symbols, i, k)
    modifies s, s.lookup
    ensures ok && s.Valid()
    ensures s.routes == Routes(symbols, i, k + 1) && s.target == TargetText(prefix, symbols, i, k + 1)
  {
    forall r | 0 <= r < 3 * i + k ensures s.routes[r].streamName != RouteOf(symbols, i, k).streamName {
      NextNameIsNew(symbols, i, k, r);
    }
    if i != 0 || k != 0 {
      s.target := s.target + "/";
    }
    var route := Route(lowercase + Suffix(KindAt(k)), i, KindAt(k));
    s.target := s.target + route.streamName;
    ok := s.InsertRoute(route);
  }

  /** Every stream of every accepted symbol is found, with its symbol and kind. */
  lemma {:induction false} EveryStreamIsRouted(symbols: seq<string>, n: nat, i: nat, k: nat)
    requires i < n <= |symbols| && k < 3
    ensures Routes(symbols, n, 0)[3 * i + k] == RouteOf(symbols, i, k)
    decreases n
  {
    var before := Routes(symbols, n - 1, 0);
    assert Routes(symbols, n, 0)
      == before + [RouteOf(symbols, n - 1, 0)] + [RouteOf(symbols, n - 1, 1)] + [RouteOf(symbols, n - 1, 2)] by {
      assert Routes(symbols, n - 1, 1) == before + [RouteOf(symbols, n - 1, 0)];
      assert Routes(symbols, n - 1, 2) == Routes(symbols, n - 1, 1) + [RouteOf(symbols, n - 1, 1)];
    }
    if i + 1 < n {
      EveryStreamIsRouted(symbols, n - 1, i, k);
    }
  }
}
