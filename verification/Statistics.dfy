module Options {
  datatype Option<+T> = None | Some(value: T)
}

/**
 Trades, window statistics and what they add up to.

 A bucket is identified by a `Key`: symbol and window start. The partial statistics of one
 bucket form a commutative monoid under `Combine`; `TallyLines` sums the statistics a
 sequence holds for one key, and `TallyTrades` those of a sequence of trades. Everything the
 pipeline promises about contents is an equation between such tallies.
 */
module Statistics {
  import opened Options
  import opened Decimals

  datatype Trade = Trade(
    symbol: string, tradeId: nat, price: Int64, quantity: Int64, time: nat, buyerIsMaker: bool)

  datatype Key = Key(symbol: string, start: nat)

  datatype WindowStats = WindowStats(
    symbol: string, start: nat, count: nat, volume: Int64,
    minPrice: Int64, maxPrice: Int64, buys: nat, sells: nat)
  {
    function Id(): Key {
      Key(symbol, start)
    }

    /** What holds of every bucket the aggregator ever holds. */
    predicate Sound(window: nat)
      requires window > 0
    {
      start % window == 0 && count == buys + sells >= 1 && minPrice <= maxPrice
    }
  }

  /** The start of the exchange-time window a time stamp falls into. */
  function WindowStart(time: nat, window: nat): (start: nat)
    requires window > 0
    ensures start <= time < start + window
    ensures start % window == 0
  {
    var start := time - time % window;
    assert start == (time / window) * window;
    assert start % window == 0 by { MultipleOf(time / window, window); }
    start
  }

  lemma ProductAtLeast(c: int, window: int)
    requires c >= 1 && window >= 0
    ensures c * window >= window
  {
  }

  lemma DivisionUnique(q: int, d: int, r: int, window: int)
    requires 0 <= r < window && q * window == d * window + r
    ensures q == d && r == 0
  {
    assert (q - d) * window == q * window - d * window == r;
    if q > d {
      ProductAtLeast(q - d, window);
    } else if q < d {
      ProductAtLeast(d - q, window);
    }
  }

  lemma MultipleOf(q: nat, window: nat)
    requires window > 0
    ensures (q * window) % window == 0
  {
    var p := q * window;
    DivisionUnique(q, p / window, p % window, window);
  }

  function TradeKey(t: Trade, window: nat): Key
    requires window > 0
  {
    Key(t.symbol, WindowStart(t.time, window))
  }

  // ------------------------------------------------------------ one bucket

  /** The statistics of a single trade: a freshly created bucket. */
  function Single(t: Trade, window: nat): WindowStats
    requires window > 0
  {
    WindowStats(t.symbol, WindowStart(t.time, window), 1, Times(t.price, t.quantity), t.price, t.price,
                if t.buyerIsMaker then 0 else 1, if t.buyerIsMaker then 1 else 0)
  }

  /** Two partial results of one bucket taken together. */
  function Merge(a: WindowStats, b: WindowStats): WindowStats {
    WindowStats(a.symbol, a.start, a.count + b.count, Plus(a.volume, b.volume),
                Min(a.minPrice, b.minPrice), Max(a.maxPrice, b.maxPrice), a.buys + b.buys, a.sells + b.sells)
  }

  function Combine(a: Option<WindowStats>, b: Option<WindowStats>): Option<WindowStats> {
    match (a, b)
    case (None, _) => b
    case (_, None) => a
    case (Some(x), Some(y)) => Some(Merge(x, y))
  }

  lemma CombineAssociative(a: Option<WindowStats>, b: Option<WindowStats>, c: Option<WindowStats>)
    ensures Combine(Combine(a, b), c) == Combine(a, Combine(b, c))
  {
    if a.Some? && b.Some? && c.Some? {
      PlusAssociative(a.value.volume, b.value.volume, c.value.volume);
    }
  }

  lemma CombineCommutative(a: Option<WindowStats>, b: Option<WindowStats>)
    requires a.Some? && b.Some? ==> a.value.Id() == b.value.Id()
    ensures Combine(a, b) == Combine(b, a)
  {
  }

  // ------------------------------------------------------------ tallies

  function Pick(x: WindowStats, k: Key): (r: Option<WindowStats>)
    ensures r.Some? ==> r.value.Id() == k
  {
    if x.Id() == k then Some(x) else None
  }

  /** The sum of the statistics a sequence holds for one bucket. */
  function TallyLines(lines: seq<WindowStats>, k: Key): (r: Option<WindowStats>)
    ensures r.Some? ==> r.value.Id() == k
  {
    if lines == [] then None
    else Combine(TallyLines(lines[..|lines| - 1], k), Pick(lines[|lines| - 1], k))
  }

  function Singles(ts: seq<Trade>, window: nat): (r: seq<WindowStats>)
    requires window > 0
    ensures |r| == |ts|
    ensures forall i :: 0 <= i < |ts| ==> r[i] == Single(ts[i], window)
  {
    seq(|ts|, i requires 0 <= i < |ts| => Single(ts[i], window))
  }

  /** The statistics of one bucket over a sequence of trades. */
  function TallyTrades(ts: seq<Trade>, window: nat, k: Key): (r: Option<WindowStats>)
    requires window > 0
  {
    TallyLines(Singles(ts, window), k)
  }

  lemma TallySnoc(lines: seq<WindowStats>, x: WindowStats, k: Key)
    ensures TallyLines(lines + [x], k) == Combine(TallyLines(lines, k), Pick(x, k))
  {
  }

  lemma {:induction false} TallyConcat(a: seq<WindowStats>, b: seq<WindowStats>, k: Key)
    ensures TallyLines(a + b, k) == Combine(TallyLines(a, k), TallyLines(b, k))
  {
    if b == [] {
      assert a + b == a;
    } else {
      var b', x := b[..|b| - 1], b[|b| - 1];
      assert a + b == (a + b') + [x];
      TallySnoc(a + b', x, k);
      TallyConcat(a, b', k);
      CombineAssociative(TallyLines(a, k), TallyLines(b', k), Pick(x, k));
    }
  }

  /** Taking one line out and putting it at the end does not change a tally. */
  lemma TallyRotate(a: seq<WindowStats>, x: WindowStats, b: seq<WindowStats>, k: Key)
    ensures TallyLines(a + [x] + b, k) == TallyLines(a + b + [x], k)
  {
    TallyConcat(a + [x], b, k);
    TallySnoc(a, x, k);
    TallyConcat(a, b, k);
    TallySnoc(a + b, x, k);
    CombineAssociative(TallyLines(a, k), Pick(x, k), TallyLines(b, k));
    CombineAssociative(TallyLines(a, k), TallyLines(b, k), Pick(x, k));
    CombineCommutative(Pick(x, k), TallyLines(b, k));
  }

  /** A permutation of a non-empty sequence holds its last element somewhere. */
  lemma RemoveLast<T>(a: seq<T>, b: seq<T>) returns (i: nat)
    requires a != [] && multiset(a) == multiset(b)
    ensures i < |b| && b[i] == a[|a| - 1]
    ensures multiset(a[..|a| - 1]) == multiset(b[..i] + b[i + 1..])
    ensures b == b[..i] + [b[i]] + b[i + 1..]
  {
    var a', x := a[..|a| - 1], a[|a| - 1];
    assert a == a' + [x];
    assert x in multiset(b);
    i :| 0 <= i < |b| && b[i] == x;
    var l, r := b[..i], b[i + 1..];
    assert b == l + [x] + r;
    assert multiset(b) == multiset(l) + multiset{x} + multiset(r);
    assert multiset(a) == multiset(a') + multiset{x};
    assert multiset(l + r) == multiset(l) + multiset(r);
    assert multiset(a') == multiset(a) - multiset{x};
    assert multiset(l + r) == multiset(b) - multiset{x};
  }

  lemma EmptyPermutation<T>(b: seq<T>)
    requires multiset(b) == multiset{}
    ensures b == []
  {
    assert |multiset(b)| == |b|;
  }

  /** A tally does not depend on the order. */
  lemma {:induction false} TallyPermutation(a: seq<WindowStats>, b: seq<WindowStats>, k: Key)
    requires multiset(a) == multiset(b)
    ensures TallyLines(a, k) == TallyLines(b, k)
  {
    if a == [] {
      EmptyPermutation(b);
    } else {
      var i := RemoveLast(a, b);
      var a', x, l, r := a[..|a| - 1], b[i], b[..i], b[i + 1..];
      assert a == a' + [x];
      TallyPermutation(a', l + r, k);
      TallyRotate(l, x, r, k);
      TallySnoc(l + r, x, k);
      TallySnoc(a', x, k);
    }
  }

  lemma SinglesConcat(a: seq<Trade>, b: seq<Trade>, window: nat)
    requires window > 0
    ensures Singles(a + b, window) == Singles(a, window) + Singles(b, window)
  {
  }

  lemma {:induction false} SinglesPermutation(a: seq<Trade>, b: seq<Trade>, window: nat)
    requires window > 0 && multiset(a) == multiset(b)
    ensures multiset(Singles(a, window)) == multiset(Singles(b, window))
  {
    if a == [] {
      EmptyPermutation(b);
    } else {
      var i := RemoveLast(a, b);
      var a', t, l, r := a[..|a| - 1], b[i], b[..i], b[i + 1..];
      assert a == a' + [t];
      SinglesPermutation(a', l + r, window);
      SinglesConcat(a', [t], window);
      SinglesConcat(l, r, window);
      SinglesConcat(l + [t], r, window);
      SinglesConcat(l, [t], window);
    }
  }

  lemma TallyTradesPermutation(a: seq<Trade>, b: seq<Trade>, window: nat, k: Key)
    requires window > 0 && multiset(a) == multiset(b)
    ensures TallyTrades(a, window, k) == TallyTrades(b, window, k)
  {
    SinglesPermutation(a, b, window);
    TallyPermutation(Singles(a, window), Singles(b, window), k);
  }

  lemma TallyTradesConcat(a: seq<Trade>, b: seq<Trade>, window: nat, k: Key)
    requires window > 0
    ensures TallyTrades(a + b, window, k) == Combine(TallyTrades(a, window, k), TallyTrades(b, window, k))
  {
    SinglesConcat(a, b, window);
    TallyConcat(Singles(a, window), Singles(b, window), k);
  }

  // ------------------------------------------------------------ what a tally means

  /** The trades of one bucket, in order. */
  ghost function Bucket(ts: seq<Trade>, window: nat, k: Key): (b: seq<Trade>)
    requires window > 0
    ensures forall t :: t in b <==> t in ts && TradeKey(t, window) == k
  {
    if ts == [] then [] else
      var rest := Bucket(ts[..|ts| - 1], window, k);
      var t := ts[|ts| - 1];
      assert forall u :: u in ts <==> u in ts[..|ts| - 1] || u == t by {
        assert ts == ts[..|ts| - 1] + [t];
      }
      if TradeKey(t, window) == k then rest + [t] else rest
  }

  /** The sum of the truncated products, without any 64-bit reduction. */
  ghost function VolumeSum(ts: seq<Trade>): int {
    if ts == [] then 0 else
      VolumeSum(ts[..|ts| - 1]) + TruncDiv(ts[|ts| - 1].price * ts[|ts| - 1].quantity, SCALE_FACTOR)
  }

  /** The exact sum of price times quantity, scaled by 10^16. */
  ghost function ExactSum(ts: seq<Trade>): int {
    if ts == [] then 0 else ExactSum(ts[..|ts| - 1]) + ts[|ts| - 1].price * ts[|ts| - 1].quantity
  }

  ghost function MakerCount(ts: seq<Trade>, maker: bool): nat {
    if ts == [] then 0 else
      MakerCount(ts[..|ts| - 1], maker) + (if ts[|ts| - 1].buyerIsMaker == maker then 1 else 0)
  }

  /** The declarative summary: how statistics describe a set of trades. */
  ghost predicate Summarises(s: WindowStats, b: seq<Trade>) {
    && s.count == |b|
    && s.volume == Wrap64(VolumeSum(b))
    && (forall t :: t in b ==> s.minPrice <= t.price <= s.maxPrice)
    && (exists t :: t in b && t.price == s.minPrice)
    && (exists t :: t in b && t.price == s.maxPrice)
    && s.buys == MakerCount(b, false)
    && s.sells == MakerCount(b, true)
  }

  lemma VolumeSnoc(b: seq<Trade>, t: Trade)
    ensures Plus(Wrap64(VolumeSum(b)), Times(t.price, t.quantity)) == Wrap64(VolumeSum(b + [t]))
  {
    assert (b + [t])[..|b|] == b;
    var q := TruncDiv(t.price * t.quantity, SCALE_FACTOR);
    Wrap64Absorbs(VolumeSum(b), Wrap64(q));
    Wrap64Absorbs(q, VolumeSum(b));
  }

  lemma ExtremesSnoc(s: WindowStats, b: seq<Trade>, t: Trade, window: nat)
    requires window > 0 && Summarises(s, b)
    ensures var r, c := Merge(s, Single(t, window)), b + [t];
            && (forall u :: u in c ==> r.minPrice <= u.price <= r.maxPrice)
            && (exists u :: u in c && u.price == r.minPrice)
            && (exists u :: u in c && u.price == r.maxPrice)
  {
  }

  /** Accumulating one more trade keeps the summary. */
  lemma SummariseOne(s: WindowStats, b: seq<Trade>, t: Trade, window: nat)
    requires window > 0 && Summarises(s, b)
    ensures Summarises(Merge(s, Single(t, window)), b + [t])
  {
    VolumeSnoc(b, t);
    ExtremesSnoc(s, b, t, window);
    assert (b + [t])[..|b|] == b;
  }

  lemma SummariseFirst(t: Trade, window: nat)
    requires window > 0
    ensures Summarises(Single(t, window), [t])
  {
  }

  lemma TallyTradesSnoc(ts: seq<Trade>, t: Trade, window: nat, k: Key)
    requires window > 0
    ensures TallyTrades(ts + [t], window, k) == Combine(TallyTrades(ts, window, k), Pick(Single(t, window), k))
  {
    SinglesConcat(ts, [t], window);
    assert Singles([t], window) == [Single(t, window)];
    TallySnoc(Singles(ts, window), Single(t, window), k);
  }

  lemma BucketSnoc(ts: seq<Trade>, t: Trade, window: nat, k: Key)
    requires window > 0
    ensures Bucket(ts + [t], window, k) == Bucket(ts, window, k) + (if TradeKey(t, window) == k then [t] else [])
  {
  }

  /** How the tally of a bucket relates to the bucket's trades. */
  ghost predicate Describes(r: Option<WindowStats>, b: seq<Trade>) {
    if b == [] then r.None? else r.Some? && Summarises(r.value, b)
  }

  lemma DescribesSnoc(r: Option<WindowStats>, b: seq<Trade>, t: Trade, window: nat)
    requires window > 0 && Describes(r, b)
    ensures Describes(Combine(r, Some(Single(t, window))), b + [t])
  {
    if b == [] {
      SummariseFirst(t, window);
      assert b + [t] == [t];
    } else {
      SummariseOne(r.value, b, t, window);
    }
  }

  /** A bucket exists exactly when it has a trade, and then its statistics summarise its trades. */
  lemma {:induction false} TallyMeaning(ts: seq<Trade>, window: nat, k: Key)
    requires window > 0
    ensures Describes(TallyTrades(ts, window, k), Bucket(ts, window, k))
  {
    if ts != [] {
      var ts', t := ts[..|ts| - 1], ts[|ts| - 1];
      assert ts == ts' + [t];
      TallyMeaning(ts', window, k);
      TallyTradesSnoc(ts', t, window, k);
      BucketSnoc(ts', t, window, k);
      if TradeKey(t, window) == k {
        DescribesSnoc(TallyTrades(ts', window, k), Bucket(ts', window, k), t, window);
      } else {
        assert Bucket(ts', window, k) + [] == Bucket(ts', window, k);
      }
    }
  }

  /** A volume stays within one unit of its last digit per trade of the exact value. */
  ghost predicate WithinError(trades: nat, volume: int, exact: int) {
    -99_999_999 * trades <= 100_000_000 * volume - exact <= 99_999_999 * trades
  }

  /** The accumulated error of the truncating product, over any number of trades. */
  lemma {:induction false} VolumeError(b: seq<Trade>)
    ensures WithinError(|b|, VolumeSum(b), ExactSum(b))
    ensures (forall t :: t in b ==> t.price * t.quantity >= 0) ==> 100_000_000 * VolumeSum(b) <= ExactSum(b)
  {
    if b != [] {
      var b', t := b[..|b| - 1], b[|b| - 1];
      VolumeError(b');
      assert t in b && forall u :: u in b' ==> u in b;
    }
  }

  lemma ProductsNotNegative(b: seq<Trade>)
    requires forall t :: t in b ==> t.price >= 0 && t.quantity >= 0
    ensures forall t :: t in b ==> t.price * t.quantity >= 0
  {
    forall t | t in b ensures t.price * t.quantity >= 0 {
      var p: int, q: int := t.price, t.quantity;
      assert p >= 0 && q >= 0;
      assert p * q >= 0;
    }
  }

  /**
   The printed volume of a bucket of N trades is within N * (10^8 - 1) / 10^16 of the exact
   notional value, and never above it when prices and quantities are not negative.
   */
  lemma TallyVolumeError(ts: seq<Trade>, window: nat, k: Key)
    requires window > 0 && TallyTrades(ts, window, k).Some?
    requires -TWO63 <= VolumeSum(Bucket(ts, window, k)) < TWO63
    ensures var s, b := TallyTrades(ts, window, k).value, Bucket(ts, window, k);
            && WithinError(s.count, s.volume, ExactSum(b))
            && ((forall t :: t in b ==> t.price >= 0 && t.quantity >= 0) ==> 100_000_000 * s.volume <= ExactSum(b))
  {
    var s, b := TallyTrades(ts, window, k).value, Bucket(ts, window, k);
    assert s.count == |b| && s.volume == VolumeSum(b) by { TallyMeaning(ts, window, k); }
    VolumeError(b);
    if forall t :: t in b ==> t.price >= 0 && t.quantity >= 0 {
      ProductsNotNegative(b);
    }
  }

  // ------------------------------------------------------------ the map of buckets

  type Windows = map<Key, WindowStats>

  function Lookup(m: Windows, k: Key): Option<WindowStats> {
    if k in m then Some(m[k]) else None
  }

  /** Keys match the stored statistics, and every bucket is sound. */
  ghost predicate WellFormed(m: Windows, window: nat)
    requires window > 0
  {
    forall k :: k in m ==> m[k].Id() == k && m[k].Sound(window)
  }

  /** What `add_trade` does to an existing bucket. */
  function Accumulate(s: WindowStats, t: Trade): WindowStats {
    s.(minPrice := if t.price < s.minPrice then t.price else s.minPrice,
       maxPrice := if t.price > s.maxPrice then t.price else s.maxPrice,
       count := s.count + 1,
       volume := Plus(s.volume, Times(t.price, t.quantity)),
       sells := s.sells + (if t.buyerIsMaker then 1 else 0),
       buys := s.buys + (if t.buyerIsMaker then 0 else 1))
  }

  function AddTrade(m: Windows, window: nat, t: Trade): Windows
    requires window > 0
  {
    var k := TradeKey(t, window);
    m[k := if k in m then Accumulate(m[k], t) else Single(t, window)]
  }

  /** The windows that start before the watermark, and the others. */
  function Before(m: Windows, mark: nat): Windows {
    map k | k in m && k.start < mark :: m[k]
  }

  function NotBefore(m: Windows, mark: nat): Windows {
    map k | k in m && k.start >= mark :: m[k]
  }

  ghost predicate DistinctIds(lines: seq<WindowStats>) {
    forall i, j :: 0 <= i < j < |lines| ==> lines[i].Id() != lines[j].Id()
  }

  /** The sequence lists exactly the buckets of the map, each once. */
  ghost predicate Enumerates(lines: seq<WindowStats>, m: Windows) {
    && DistinctIds(lines)
    && (forall i :: 0 <= i < |lines| ==> lines[i].Id() in m && m[lines[i].Id()] == lines[i])
    && (forall k :: k in m ==> m[k] in lines)
  }

  lemma AddTradeTally(m: Windows, window: nat, t: Trade, k: Key)
    requires window > 0
    ensures Lookup(AddTrade(m, window, t), k) == Combine(Lookup(m, k), TallyTrades([t], window, k))
  {
    assert Singles([t], window) == [] + [Single(t, window)];
    TallySnoc([], Single(t, window), k);
  }

  lemma AddTradeWellFormed(m: Windows, window: nat, t: Trade)
    requires window > 0 && WellFormed(m, window)
    ensures WellFormed(AddTrade(m, window, t), window)
  {
  }

  lemma {:induction false} TallyAbsent(lines: seq<WindowStats>, k: Key)
    requires forall i :: 0 <= i < |lines| ==> lines[i].Id() != k
    ensures TallyLines(lines, k) == None
  {
    if lines != [] {
      TallyAbsent(lines[..|lines| - 1], k);
    }
  }

  /** With distinct keys, a tally is the one line of that key. */
  lemma TallyUnique(lines: seq<WindowStats>, i: nat)
    requires DistinctIds(lines) && i < |lines|
    ensures TallyLines(lines, lines[i].Id()) == Some(lines[i])
  {
    var k := lines[i].Id();
    assert lines == lines[..i] + [lines[i]] + lines[i + 1..];
    TallyConcat(lines[..i] + [lines[i]], lines[i + 1..], k);
    TallySnoc(lines[..i], lines[i], k);
    forall j | 0 <= j < i
      ensures lines[..i][j].Id() != k
    {
      assert lines[j].Id() != lines[i].Id();
    }
    TallyAbsent(lines[..i], k);
    var after := lines[i + 1..];
    forall j | 0 <= j < |after|
      ensures after[j].Id() != k
    {
      assert lines[i].Id() != lines[i + 1 + j].Id();
    }
    TallyAbsent(lines[i + 1..], k);
  }

  lemma TallyEnumerates(lines: seq<WindowStats>, m: Windows, k: Key)
    requires Enumerates(lines, m) && (k in m ==> m[k].Id() == k)
    ensures TallyLines(lines, k) == Lookup(m, k)
  {
    if k in m {
      var i :| 0 <= i < |lines| && lines[i] == m[k];
      TallyUnique(lines, i);
    } else {
      TallyAbsent(lines, k);
    }
  }

  /** Extraction moves statistics without changing what they add up to. */
  lemma ExtractTally(lines: seq<WindowStats>, m: Windows, mark: nat, k: Key)
    requires Enumerates(lines, Before(m, mark)) && (k in m ==> m[k].Id() == k)
    ensures Combine(TallyLines(lines, k), Lookup(NotBefore(m, mark), k)) == Lookup(m, k)
  {
    TallyEnumerates(lines, Before(m, mark), k);
  }

  // ------------------------------------------------------------ any sequence of trades

  function AddAll(m: Windows, window: nat, ts: seq<Trade>): Windows
    requires window > 0
  {
    if ts == [] then m else AddTrade(AddAll(m, window, ts[..|ts| - 1]), window, ts[|ts| - 1])
  }

  /** The aggregator refines filter-and-summarise, from any state it is in. */
  lemma {:induction false} AddAllTally(m: Windows, window: nat, ts: seq<Trade>, k: Key)
    requires window > 0
    ensures Lookup(AddAll(m, window, ts), k) == Combine(Lookup(m, k), TallyTrades(ts, window, k))
  {
    if ts != [] {
      var ts', t := ts[..|ts| - 1], ts[|ts| - 1];
      AddAllTally(m, window, ts', k);
      AddTradeTally(AddAll(m, window, ts'), window, t, k);
      assert ts == ts' + [t];
      TallyTradesConcat(ts', [t], window, k);
      CombineAssociative(Lookup(m, k), TallyTrades(ts', window, k), TallyTrades([t], window, k));
    }
  }

  /** From the empty aggregator: a bucket per non-empty set of trades, summarising exactly that set. */
  lemma AggregateMeaning(window: nat, ts: seq<Trade>, k: Key)
    requires window > 0
    ensures k in AddAll(map[], window, ts) <==> Bucket(ts, window, k) != []
    ensures k in AddAll(map[], window, ts) ==>
              AddAll(map[], window, ts)[k].Id() == k && Summarises(AddAll(map[], window, ts)[k], Bucket(ts, window, k))
  {
    AddAllTally(map[], window, ts, k);
    TallyMeaning(ts, window, k);
  }

  /** Any permutation of the trades gives the same aggregator state. */
  lemma AddAllPermutation(m: Windows, window: nat, a: seq<Trade>, b: seq<Trade>)
    requires window > 0 && multiset(a) == multiset(b)
    ensures AddAll(m, window, a) == AddAll(m, window, b)
  {
    var x, y := AddAll(m, window, a), AddAll(m, window, b);
    forall k: Key
      ensures Lookup(x, k) == Lookup(y, k)
    {
      AddAllTally(m, window, a, k);
      AddAllTally(m, window, b, k);
      TallyTradesPermutation(a, b, window, k);
    }
    assert forall k :: k in x <==> Lookup(x, k).Some?;
    assert forall k :: k in y <==> Lookup(y, k).Some?;
    assert x.Keys == y.Keys;
    assert forall k :: k in x ==> x[k] == Lookup(x, k).value && y[k] == Lookup(y, k).value;
  }
}
