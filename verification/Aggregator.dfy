/**
 The window aggregator: `agg::aggregation::MarketDataAggregator`.

 The class keeps the source's nested map, symbol to window start to statistics, and updates it
 in place. Its abstract value is the map `contents` from keys to statistics, on which the
 functions of `Statistics` specify the methods. The source's maps are iterated in key order,
 but the extracted windows are promised in no particular order, so the loops here visit keys
 in any order.
 */
module Aggregation {
  import opened Options
  import opened Statistics

  type Nested = map<string, map<nat, WindowStats>>

  ghost predicate Represents(n: Nested, m: Windows) {
    && (forall k :: k in m <==> k.symbol in n && k.start in n[k.symbol])
    && (forall k :: k in m ==> m[k] == n[k.symbol][k.start])
  }

  ghost predicate NoEmptySymbol(n: Nested) {
    forall symbol :: symbol in n ==> n[symbol] != map[]
  }

  // ------------------------------------------------------------ enumerations

  lemma EnumeratesAppend(a: seq<WindowStats>, m: Windows, b: seq<WindowStats>, n: Windows)
    requires Enumerates(a, m) && Enumerates(b, n) && m.Keys !! n.Keys
    ensures Enumerates(a + b, m + n)
  {
  }

  lemma EnumeratesSnoc(a: seq<WindowStats>, m: Windows, x: WindowStats)
    requires Enumerates(a, m) && x.Id() !in m
    ensures Enumerates(a + [x], m[x.Id() := x])
  {
  }

  lemma EnumeratesNothing()
    ensures Enumerates([], map[])
  {
  }

  // ------------------------------------------------------------ the inner loops

  /** The windows of one symbol whose start satisfies the watermark test. */
  ghost predicate IsSlice(m: Windows, symbol: string, inner: map<nat, WindowStats>, mark: Option<nat>) {
    && (forall k :: k in m <==> k.symbol == symbol && k.start in inner && (mark.Some? ==> k.start < mark.value))
    && (forall k :: k in m ==> m[k] == inner[k.start])
  }

  /** Lists every window of a symbol. */
  method ListSymbol(symbol: string, inner: map<nat, WindowStats>) returns (listed: seq<WindowStats>, ghost slice: Windows)
    requires forall start :: start in inner ==> inner[start].Id() == Key(symbol, start)
    ensures IsSlice(slice, symbol, inner, None) && Enumerates(listed, slice)
  {
    hide Enumerates;
    EnumeratesNothing();
    listed, slice := [], map[];
    var starts := inner.Keys;
    while starts != {}
      invariant starts <= inner.Keys
      invariant forall k: Key :: k in slice <==> k.symbol == symbol && k.start in inner && k.start !in starts
      invariant forall k: Key :: k in slice ==> slice[k] == inner[k.start]
      invariant Enumerates(listed, slice)
      decreases |starts|
    {
      var start :| start in starts;
      EnumeratesSnoc(listed, slice, inner[start]);
      listed := listed + [inner[start]];
      slice := slice[Key(symbol, start) := inner[start]];
      starts := starts - {start};
    }
  }

  /** Erases the completed windows of a symbol while iterating over them. */
  method SplitSymbol(symbol: string, inner: map<nat, WindowStats>, mark: nat)
    returns (taken: seq<WindowStats>, kept: map<nat, WindowStats>, ghost slice: Windows)
    requires forall start :: start in inner ==> inner[start].Id() == Key(symbol, start)
    ensures IsSlice(slice, symbol, inner, Some(mark)) && Enumerates(taken, slice)
    ensures forall start :: start in kept <==> start in inner && start >= mark
    ensures forall start :: start in kept ==> kept[start] == inner[start]
  {
    hide Enumerates;
    EnumeratesNothing();
    taken, kept, slice := [], inner, map[];
    var starts := inner.Keys;
    while starts != {}
      invariant starts <= inner.Keys
      invariant forall start :: start in kept <==> start in inner && (start in starts || start >= mark)
      invariant forall start :: start in kept ==> kept[start] == inner[start]
      invariant forall k: Key :: k in slice <==>
                  k.symbol == symbol && k.start in inner && k.start !in starts && k.start < mark
      invariant forall k: Key :: k in slice ==> slice[k] == inner[k.start]
      invariant Enumerates(taken, slice)
      decreases |starts|
    {
      var start :| start in starts;
      if start < mark {
        EnumeratesSnoc(taken, slice, inner[start]);
        taken := taken + [kept[start]];
        kept := kept - {start};
        slice := slice[Key(symbol, start) := inner[start]];
      }
      starts := starts - {start};
    }
  }

  /** The windows of the symbols no longer in the work list. */
  ghost function Visited(m: Windows, symbols: set<string>): Windows {
    map k | k in m && k.symbol !in symbols :: m[k]
  }

  lemma VisitSymbol(n: Nested, m: Windows, symbols: set<string>, symbol: string, slice: Windows)
    requires Represents(n, m) && symbol in symbols && symbol in n
    requires IsSlice(slice, symbol, n[symbol], None)
    ensures Visited(m, symbols).Keys !! slice.Keys
    ensures Visited(m, symbols - {symbol}) == Visited(m, symbols) + slice
  {
  }

  lemma VisitedBounds(n: Nested, m: Windows)
    requires Represents(n, m)
    ensures Visited(m, n.Keys) == map[] && Visited(m, {}) == m
  {
  }

  /** Writing one bucket. */
  lemma PutRepresents(n: Nested, m: Windows, symbol: string, start: nat, stats: WindowStats)
    requires Represents(n, m) && NoEmptySymbol(n)
    ensures var inner := if symbol in n then n[symbol] else map[];
            var n' := n[symbol := inner[start := stats]];
            NoEmptySymbol(n') && Represents(n', m[Key(symbol, start) := stats])
    ensures Lookup(m, Key(symbol, start)) ==
              if symbol in n && start in n[symbol] then Some(n[symbol][start]) else None
  {
    var inner := if symbol in n then n[symbol] else map[];
    var n' := n[symbol := inner[start := stats]];
    assert start in n'[symbol];
    assert Key(symbol, start) in m <==> symbol in n && start in n[symbol];
  }

  /** The completed windows of some symbols. */
  ghost predicate IsPart(part: Windows, m: Windows, symbols: set<string>, mark: nat) {
    && (forall k :: k in part <==> k in m && k.symbol in symbols && k.start < mark)
    && (forall k :: k in part ==> part[k] == m[k])
  }

  /** Writing back what is left of a symbol, or dropping the symbol when nothing is. */
  lemma EraseRepresents(n: Nested, m: Windows, symbol: string, kept: map<nat, WindowStats>, slice: Windows, mark: nat)
    requires Represents(n, m) && NoEmptySymbol(n) && symbol in n
    requires IsSlice(slice, symbol, n[symbol], Some(mark))
    requires forall start :: start in kept <==> start in n[symbol] && start >= mark
    requires forall start :: start in kept ==> kept[start] == n[symbol][start]
    ensures IsPart(slice, m, {symbol}, mark)
    ensures kept == map[] ==> Represents(n - {symbol}, m - slice.Keys) && NoEmptySymbol(n - {symbol})
    ensures kept != map[] ==> Represents(n[symbol := kept], m - slice.Keys) && NoEmptySymbol(n[symbol := kept])
  {
    var m' := m - slice.Keys;
    assert forall k :: k in m' <==> k in m && (k.symbol == symbol ==> k.start in kept);
    if kept == map[] {
      assert forall k :: k in m' <==> k in m && k.symbol != symbol;
    }
  }

  lemma JoinParts(m: Windows, taken: Windows, visited: set<string>, result: seq<WindowStats>,
                  slice: Windows, symbol: string, part: seq<WindowStats>, mark: nat)
    requires IsPart(taken, m, visited, mark) && symbol !in visited && Enumerates(result, taken)
    requires IsPart(slice, m - taken.Keys, {symbol}, mark) && Enumerates(part, slice)
    ensures IsPart(taken + slice, m, visited + {symbol}, mark) && Enumerates(result + part, taken + slice)
    ensures m - taken.Keys - slice.Keys == m - (taken + slice).Keys
  {
    assert taken.Keys !! slice.Keys;
    hide Enumerates;
    EnumeratesAppend(result, taken, part, slice);
  }

  lemma WholePart(n: Nested, m: Windows, taken: Windows, mark: nat)
    requires Represents(n, m) && IsPart(taken, m, n.Keys, mark)
    ensures taken == Before(m, mark) && m - taken.Keys == NotBefore(m, mark)
  {
  }

  lemma EmptyValid(window: nat)
    requires window > 0
    ensures Represents(map[], map[]) && NoEmptySymbol(map[]) && WellFormed(map[], window)
  {
  }

  lemma EmptyPart(m: Windows, mark: nat)
    ensures IsPart(map[], m, {}, mark) && m - {} == m
  {
  }

  // ------------------------------------------------------------ the class

  class MarketDataAggregator {
    const windowMs: nat
    var windows: Nested
    ghost var contents: Windows

    ghost predicate Valid()
      reads this
    {
      && windowMs > 0
      && NoEmptySymbol(windows)
      && Represents(windows, contents)
      && WellFormed(contents, windowMs)
    }

    constructor (windowMs: nat)
      requires windowMs > 0
      ensures Valid() && this.windowMs == windowMs && contents == map[]
    {
      this.windowMs := windowMs;
      this.windows := map[];
      this.contents := map[];
    }

    /** The in-place update of one bucket; `None` when the bucket is created by this trade. */
    method UpdateStats(existing: Option<WindowStats>, start: nat, trade: Trade) returns (stats: WindowStats)
      requires windowMs > 0 && start == WindowStart(trade.time, windowMs)
      ensures existing.Some? ==> stats == Accumulate(existing.value, trade)
      ensures existing.None? ==> stats == Single(trade, windowMs)
    {
      if existing.None? {
        stats := WindowStats(trade.symbol, start, 0, 0, trade.price, trade.price, 0, 0);
      } else {
        stats := existing.value;
        if trade.price < stats.minPrice {
          stats := stats.(minPrice := trade.price);
        }
        if trade.price > stats.maxPrice {
          stats := stats.(maxPrice := trade.price);
        }
      }
      stats := stats.(count := stats.count + 1);
      stats := stats.(volume := Decimals.Plus(stats.volume, Decimals.Times(trade.price, trade.quantity)));
      if trade.buyerIsMaker {
        stats := stats.(sells := stats.sells + 1);
      } else {
        stats := stats.(buys := stats.buys + 1);
      }
    }

    method AddTrade(trade: Trade)
      requires Valid()
      modifies this
      ensures Valid() && contents == Statistics.AddTrade(old(contents), windowMs, trade)
    {
      hide WellFormed, Represents, NoEmptySymbol, Accumulate, Single;
      var start := trade.time - trade.time % windowMs;
      var symbolWindows := if trade.symbol in windows then windows[trade.symbol] else map[];
      var existing := if start in symbolWindows then Some(symbolWindows[start]) else None;
      var stats := UpdateStats(existing, start, trade);
      AddTradeWellFormed(contents, windowMs, trade);
      PutRepresents(windows, contents, trade.symbol, start, stats);
      windows := windows[trade.symbol := symbolWindows[start := stats]];
      contents := Statistics.AddTrade(contents, windowMs, trade);
    }

    method WindowStatsFor(symbol: string, start: nat) returns (r: Option<WindowStats>)
      requires Valid()
      ensures r == Lookup(contents, Key(symbol, start))
      ensures r.Some? ==> r.value.Id() == Key(symbol, start) && r.value.Sound(windowMs)
    {
      assert Key(symbol, start) in contents <==> symbol in windows && start in windows[symbol];
      if symbol !in windows {
        return None;
      }
      if start !in windows[symbol] {
        return None;
      }
      r := Some(windows[symbol][start]);
    }

    /** The statistics of a symbol carry its name and their window start. */
    lemma SymbolIds(symbol: string)
      requires Valid() && symbol in windows
      ensures forall start :: start in windows[symbol] ==> windows[symbol][start].Id() == Key(symbol, start)
    {
    }

    /** Removes and returns every window. */
    method ExtractAll() returns (result: seq<WindowStats>)
      requires Valid()
      modifies this
      ensures Valid() && contents == map[]
      ensures Enumerates(result, old(contents))
    {
      hide Enumerates, Visited, WellFormed, Represents, NoEmptySymbol, IsSlice;
      EnumeratesNothing();
      VisitedBounds(windows, contents);
      result := [];
      ghost var listed: Windows := map[];
      var symbols := windows.Keys;
      while symbols != {}
        invariant Valid() && symbols <= windows.Keys && contents == old(contents)
        invariant listed == Visited(contents, symbols) && Enumerates(result, listed)
        decreases |symbols|
      {
        var symbol :| symbol in symbols;
        SymbolIds(symbol);
        var part, slice := ListSymbol(symbol, windows[symbol]);
        VisitSymbol(windows, contents, symbols, symbol, slice);
        EnumeratesAppend(result, listed, part, slice);
        result, listed := result + part, listed + slice;
        symbols := symbols - {symbol};
      }
      EmptyValid(windowMs);
      windows, contents := map[], map[];
    }

    /** One iteration of the outer loop: erases a symbol's completed windows, and the symbol if none is left. */
    method EraseSymbol(symbol: string, mark: nat) returns (taken: seq<WindowStats>, ghost slice: Windows)
      requires Valid() && symbol in windows
      modifies this
      ensures Valid() && old(windows).Keys - {symbol} <= windows.Keys
      ensures Enumerates(taken, slice) && IsPart(slice, old(contents), {symbol}, mark)
      ensures contents == old(contents) - slice.Keys
    {
      SymbolIds(symbol);
      var kept;
      taken, kept, slice := SplitSymbol(symbol, windows[symbol], mark);
      EraseRepresents(windows, contents, symbol, kept, slice, mark);
      contents := contents - slice.Keys;
      if kept == map[] {
        windows := windows - {symbol};
      } else {
        windows := windows[symbol := kept];
      }
    }

    /** Removes and returns the windows that start before the watermark; the others stay untouched. */
    method ExtractCompleted(mark: nat) returns (result: seq<WindowStats>)
      requires Valid()
      modifies this
      ensures Valid() && contents == NotBefore(old(contents), mark)
      ensures Enumerates(result, Before(old(contents), mark))
    {
      hide Enumerates, IsPart, WellFormed, Represents, NoEmptySymbol, Before, NotBefore;
      EnumeratesNothing();
      EmptyPart(contents, mark);
      result := [];
      ghost var taken: Windows := map[];
      var symbols := windows.Keys;
      assert windows.Keys - symbols == {};
      while symbols != {}
        invariant Valid() && symbols <= windows.Keys && symbols <= old(windows).Keys
        invariant contents == old(contents) - taken.Keys
        invariant IsPart(taken, old(contents), old(windows).Keys - symbols, mark)
        invariant Enumerates(result, taken)
        decreases |symbols|
      {
        var symbol :| symbol in symbols;
        var part, slice := EraseSymbol(symbol, mark);
        JoinParts(old(contents), taken, old(windows).Keys - symbols, result, slice, symbol, part, mark);
        assert old(windows).Keys - (symbols - {symbol}) == old(windows).Keys - symbols + {symbol};
        result, taken := result + part, taken + slice;
        symbols := symbols - {symbol};
      }
      assert old(windows).Keys - symbols == old(windows).Keys;
      WholePart(old(windows), old(contents), taken, mark);
    }
  }
}
