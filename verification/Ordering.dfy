/**
 The order of output lines: by window start, and within a window by symbol.

 `Sorted` sequences are strictly increasing, hence free of duplicate keys. Two sorted sequences
 with equal tallies are equal (`SortedUnique`): contents determine the output.
 */
module Ordering {
  import opened Options
  import opened Statistics

  /** `std::string` comparison: lexicographic by character. */
  predicate SymbolLess(a: string, b: string) {
    b != [] && (a == [] || a[0] < b[0] || (a[0] == b[0] && SymbolLess(a[1..], b[1..])))
  }

  /** The first difference decides; a proper prefix comes first. */
  ghost predicate DiffersAt(a: string, b: string, i: nat) {
    && i <= |a| && i < |b| && a[..i] == b[..i]
    && (i == |a| || a[i] < b[i])
  }

  /** Behind an equal first character, the difference is one place further on. */
  lemma DiffersLater(a: string, b: string, i: nat)
    requires a != [] && b != [] && a[0] == b[0]
    ensures DiffersAt(a, b, i + 1) <==> DiffersAt(a[1..], b[1..], i)
  {
    var x, y := a[1..], b[1..];
    if i <= |x| && i <= |y| {
      assert a[..i + 1] == [a[0]] + x[..i] && b[..i + 1] == [b[0]] + y[..i];
      assert a[..i + 1][1..] == x[..i] && b[..i + 1][1..] == y[..i];
    }
  }

  lemma {:induction false} SymbolLessMeaning(a: string, b: string)
    ensures SymbolLess(a, b) <==> exists i :: DiffersAt(a, b, i)
  {
    if a != [] && b != [] && a[0] == b[0] {
      SymbolLessMeaning(a[1..], b[1..]);
      if i: nat :| DiffersAt(a[1..], b[1..], i) {
        DiffersLater(a, b, i);
      }
      if i: nat :| DiffersAt(a, b, i) {
        assert i > 0;
        DiffersLater(a, b, i - 1);
      }
    } else if a == [] || b == [] {
      assert b != [] ==> DiffersAt(a, b, 0);
    } else {
      assert a[0] < b[0] ==> DiffersAt(a, b, 0);
      if i: nat :| DiffersAt(a, b, i) {
        assert i > 0 ==> a[..i][0] == b[..i][0];
      }
    }
  }

  lemma {:induction false} SymbolIrreflexive(a: string)
    ensures !SymbolLess(a, a)
  {
    if a != [] {
      SymbolIrreflexive(a[1..]);
    }
  }

  lemma {:induction false} SymbolTransitive(a: string, b: string, c: string)
    requires SymbolLess(a, b) && SymbolLess(b, c)
    ensures SymbolLess(a, c)
  {
    if a != [] && a[0] == b[0] == c[0] {
      SymbolTransitive(a[1..], b[1..], c[1..]);
    }
  }

  lemma {:induction false} SymbolTotal(a: string, b: string)
    ensures a == b || SymbolLess(a, b) || SymbolLess(b, a)
  {
    if a != [] && b != [] && a[0] == b[0] {
      SymbolTotal(a[1..], b[1..]);
      assert a == [a[0]] + a[1..] && b == [b[0]] + b[1..];
    }
  }

  predicate KeyLess(a: Key, b: Key) {
    a.start < b.start || (a.start == b.start && SymbolLess(a.symbol, b.symbol))
  }

  lemma KeyOrder(a: Key, b: Key, c: Key)
    ensures !KeyLess(a, a)
    ensures KeyLess(a, b) && KeyLess(b, c) ==> KeyLess(a, c)
    ensures a == b || KeyLess(a, b) || KeyLess(b, a)
  {
    SymbolIrreflexive(a.symbol);
    SymbolTotal(a.symbol, b.symbol);
    if SymbolLess(a.symbol, b.symbol) && SymbolLess(b.symbol, c.symbol) {
      SymbolTransitive(a.symbol, b.symbol, c.symbol);
    }
  }

  ghost predicate Sorted(lines: seq<WindowStats>) {
    forall i, j :: 0 <= i < j < |lines| ==> KeyLess(lines[i].Id(), lines[j].Id())
  }

  lemma SortedDistinct(lines: seq<WindowStats>)
    requires Sorted(lines)
    ensures DistinctIds(lines)
  {
    forall i, j | 0 <= i < j < |lines|
      ensures lines[i].Id() != lines[j].Id()
    {
      KeyOrder(lines[i].Id(), lines[j].Id(), lines[i].Id());
    }
  }

  lemma SortedConcat(a: seq<WindowStats>, b: seq<WindowStats>)
    requires Sorted(a) && Sorted(b)
    requires forall i, j :: 0 <= i < |a| && 0 <= j < |b| ==> a[i].start < b[j].start
    ensures Sorted(a + b)
  {
  }

  /** The head of a sorted sequence is the least line, so equal contents give equal heads. */
  lemma SameHead(a: seq<WindowStats>, b: seq<WindowStats>)
    requires a != [] && b != [] && Sorted(a) && Sorted(b)
    requires forall k :: TallyLines(a, k) == TallyLines(b, k)
    ensures a[0] == b[0]
  {
    var j := Find(b, a[0]) by {
      SortedDistinct(a);
      TallyUnique(a, 0);
      assert TallyLines(a, a[0].Id()) == TallyLines(b, a[0].Id());
    }
    var i := Find(a, b[0]) by {
      SortedDistinct(b);
      TallyUnique(b, 0);
      assert TallyLines(a, b[0].Id()) == TallyLines(b, b[0].Id());
    }
    if i > 0 && j > 0 {
      KeyOrder(a[0].Id(), b[0].Id(), a[0].Id());
    }
  }

  /** A line that a tally returns is in the sequence. */
  lemma Find(b: seq<WindowStats>, x: WindowStats) returns (j: nat)
    requires Sorted(b) && TallyLines(b, x.Id()) == Some(x)
    ensures j < |b| && b[j] == x
  {
    SortedDistinct(b);
    if forall m :: 0 <= m < |b| ==> b[m].Id() != x.Id() {
      TallyAbsent(b, x.Id());
      assert false;
    }
    j :| 0 <= j < |b| && b[j].Id() == x.Id();
    TallyUnique(b, j);
  }

  lemma TailTally(a: seq<WindowStats>, k: Key)
    requires a != [] && Sorted(a)
    ensures TallyLines(a[1..], k) == if k == a[0].Id() then None else TallyLines(a, k)
  {
    assert a == [a[0]] + a[1..];
    TallyConcat([a[0]], a[1..], k);
    assert [a[0]][..0] == [];
    assert TallyLines([a[0]], k) == Pick(a[0], k);
    if k == a[0].Id() {
      SortedDistinct(a);
      TallyAbsent(a[1..], k);
    }
  }

  /** Sorted sequences with the same tallies are the same sequence. */
  lemma {:induction false} SortedUnique(a: seq<WindowStats>, b: seq<WindowStats>)
    requires Sorted(a) && Sorted(b)
    requires forall k :: TallyLines(a, k) == TallyLines(b, k)
    ensures a == b
  {
    if a == [] {
      if b != [] {
        assert TallyLines(b, b[0].Id()) == TallyLines(a, b[0].Id()) == None;
        SortedDistinct(b);
        TallyUnique(b, 0);
        assert false;
      }
    } else if b == [] {
      assert TallyLines(a, a[0].Id()) == TallyLines(b, a[0].Id()) == None;
      SortedDistinct(a);
      TallyUnique(a, 0);
      assert false;
    } else {
      SameHead(a, b);
      forall k
        ensures TallyLines(a[1..], k) == TallyLines(b[1..], k)
      {
        TailTally(a, k);
        TailTally(b, k);
      }
      SortedUnique(a[1..], b[1..]);
      assert a == [a[0]] + a[1..] && b == [b[0]] + b[1..];
    }
  }

  // ------------------------------------------------------------ the one-shot result

  /** One more partial result into a sorted list: merged into its line, or a new line in its place. */
  function InsertMerge(lines: seq<WindowStats>, x: WindowStats): seq<WindowStats> {
    if lines == [] then [x]
    else if lines[0].Id() == x.Id() then [Merge(lines[0], x)] + lines[1..]
    else if KeyLess(x.Id(), lines[0].Id()) then [x] + lines
    else [lines[0]] + InsertMerge(lines[1..], x)
  }

  /** All trades aggregated at once, in output order: the reference the pipeline is compared to. */
  function OneShot(ts: seq<Trade>, window: nat): seq<WindowStats>
    requires window > 0
  {
    if ts == [] then [] else InsertMerge(OneShot(ts[..|ts| - 1], window), Single(ts[|ts| - 1], window))
  }

  lemma {:induction false} InsertMergeTally(lines: seq<WindowStats>, x: WindowStats, k: Key)
    ensures TallyLines(InsertMerge(lines, x), k) == Combine(TallyLines(lines, k), Pick(x, k))
  {
    var r := InsertMerge(lines, x);
    if lines == [] {
      assert lines + [x] == [x];
      TallySnoc(lines, x, k);
    } else {
      var head, tail := lines[0], lines[1..];
      assert lines == [head] + tail;
      TallyConcat([head], tail, k);
      TallyOne(head, k);
      if head.Id() == x.Id() {
        TallyConcat([Merge(head, x)], tail, k);
        TallyOne(Merge(head, x), k);
        CombineAssociative(Pick(head, k), TallyLines(tail, k), Pick(x, k));
        CombineAssociative(Pick(head, k), Pick(x, k), TallyLines(tail, k));
        CombineCommutative(Pick(x, k), TallyLines(tail, k));
      } else if KeyLess(x.Id(), head.Id()) {
        TallyConcat([x], lines, k);
        TallyOne(x, k);
        CombineCommutative(Pick(x, k), TallyLines(lines, k));
      } else {
        TallyConcat([head], InsertMerge(tail, x), k);
        InsertMergeTally(tail, x, k);
        CombineAssociative(Pick(head, k), TallyLines(tail, k), Pick(x, k));
      }
    }
  }

  lemma TallyOne(x: WindowStats, k: Key)
    ensures TallyLines([x], k) == Pick(x, k)
  {
  }

  ghost predicate AllAbove(lines: seq<WindowStats>, h: Key) {
    forall i :: 0 <= i < |lines| ==> KeyLess(h, lines[i].Id())
  }

  lemma SortedCons(x: WindowStats, lines: seq<WindowStats>)
    requires Sorted(lines) && AllAbove(lines, x.Id())
    ensures Sorted([x] + lines)
  {
  }

  lemma {:induction false} InsertMergeAbove(lines: seq<WindowStats>, x: WindowStats, h: Key)
    requires AllAbove(lines, h) && KeyLess(h, x.Id())
    ensures AllAbove(InsertMerge(lines, x), h)
  {
    if lines != [] {
      InsertMergeAbove(lines[1..], x, h);
      assert KeyLess(h, lines[0].Id());
    }
  }

  lemma {:induction false} InsertMergeSorted(lines: seq<WindowStats>, x: WindowStats)
    requires Sorted(lines)
    ensures Sorted(InsertMerge(lines, x))
  {
    if lines != [] {
      var head, tail := lines[0], lines[1..];
      assert AllAbove(tail, head.Id());
      if head.Id() == x.Id() {
        SortedCons(Merge(head, x), tail);
      } else if KeyLess(x.Id(), head.Id()) {
        forall i | 0 <= i < |lines|
          ensures KeyLess(x.Id(), lines[i].Id())
        {
          KeyOrder(x.Id(), head.Id(), lines[i].Id());
        }
        SortedCons(x, lines);
      } else {
        KeyOrder(head.Id(), x.Id(), head.Id());
        InsertMergeSorted(tail, x);
        InsertMergeAbove(tail, x, head.Id());
        SortedCons(head, InsertMerge(tail, x));
      }
    }
  }

  /** The reference is sorted and holds, for every bucket, the aggregate of that bucket's trades. */
  lemma {:induction false} OneShotMeaning(ts: seq<Trade>, window: nat)
    requires window > 0
    ensures Sorted(OneShot(ts, window))
    ensures forall k :: TallyLines(OneShot(ts, window), k) == TallyTrades(ts, window, k)
  {
    if ts != [] {
      var ts', t := ts[..|ts| - 1], ts[|ts| - 1];
      assert ts == ts' + [t];
      OneShotMeaning(ts', window);
      InsertMergeSorted(OneShot(ts', window), Single(t, window));
      forall k
        ensures TallyLines(OneShot(ts, window), k) == TallyTrades(ts, window, k)
      {
        InsertMergeTally(OneShot(ts', window), Single(t, window), k);
        TallyTradesSnoc(ts', t, window, k);
      }
    }
  }

  /** The reference does not depend on the order of the trades. */
  lemma OneShotPermutation(a: seq<Trade>, b: seq<Trade>, window: nat)
    requires window > 0 && multiset(a) == multiset(b)
    ensures OneShot(a, window) == OneShot(b, window)
  {
    OneShotMeaning(a, window);
    OneShotMeaning(b, window);
    forall k
      ensures TallyLines(OneShot(a, window), k) == TallyLines(OneShot(b, window), k)
    {
      TallyTradesPermutation(a, b, window, k);
    }
    SortedUnique(OneShot(a, window), OneShot(b, window));
  }

  // ------------------------------------------------------------ sorting

  function InsertLine(x: WindowStats, lines: seq<WindowStats>): seq<WindowStats> {
    if lines == [] || !KeyLess(lines[0].Id(), x.Id()) then [x] + lines else [lines[0]] + InsertLine(x, lines[1..])
  }

  function SortLines(lines: seq<WindowStats>): seq<WindowStats> {
    if lines == [] then [] else InsertLine(lines[0], SortLines(lines[1..]))
  }

  lemma {:induction false} InsertLinePermutes(x: WindowStats, lines: seq<WindowStats>)
    ensures multiset(InsertLine(x, lines)) == multiset(lines) + multiset{x}
  {
    if lines != [] {
      assert lines == [lines[0]] + lines[1..];
      InsertLinePermutes(x, lines[1..]);
    }
  }

  lemma {:induction false} InsertLineAbove(x: WindowStats, lines: seq<WindowStats>, h: Key)
    requires AllAbove(lines, h) && KeyLess(h, x.Id())
    ensures AllAbove(InsertLine(x, lines), h)
  {
    if lines != [] {
      InsertLineAbove(x, lines[1..], h);
      assert KeyLess(h, lines[0].Id());
    }
  }

  lemma {:induction false} InsertLineSorted(x: WindowStats, lines: seq<WindowStats>)
    requires Sorted(lines) && forall i :: 0 <= i < |lines| ==> lines[i].Id() != x.Id()
    ensures Sorted(InsertLine(x, lines))
  {
    if lines != [] {
      var head, tail := lines[0], lines[1..];
      if KeyLess(head.Id(), x.Id()) {
        InsertLineSorted(x, tail);
        InsertLineAbove(x, tail, head.Id());
        SortedCons(head, InsertLine(x, tail));
      } else {
        KeyOrder(head.Id(), x.Id(), head.Id());
        forall i | 0 <= i < |lines|
          ensures KeyLess(x.Id(), lines[i].Id())
        {
          KeyOrder(x.Id(), head.Id(), lines[i].Id());
        }
        SortedCons(x, lines);
      }
    }
  }

  /** Sorting permutes, and with distinct keys the result is strictly sorted. */
  lemma {:induction false} SortLinesMeaning(lines: seq<WindowStats>)
    ensures multiset(SortLines(lines)) == multiset(lines)
    ensures DistinctIds(lines) ==> Sorted(SortLines(lines))
  {
    if lines != [] {
      var head, tail := lines[0], lines[1..];
      assert lines == [head] + tail;
      SortLinesMeaning(tail);
      var sorted := SortLines(tail);
      InsertLinePermutes(head, sorted);
      if DistinctIds(lines) {
        HeadAbsent(lines, sorted);
        InsertLineSorted(head, sorted);
      }
    }
  }

  lemma HeadAbsent(lines: seq<WindowStats>, sorted: seq<WindowStats>)
    requires lines != [] && DistinctIds(lines) && multiset(sorted) == multiset(lines[1..])
    ensures forall i :: 0 <= i < |sorted| ==> sorted[i].Id() != lines[0].Id()
  {
    forall i | 0 <= i < |sorted|
      ensures sorted[i].Id() != lines[0].Id()
    {
      assert sorted[i] in multiset(lines[1..]);
      var j :| 0 <= j < |lines[1..]| && lines[1..][j] == sorted[i];
      assert lines[0].Id() != lines[j + 1].Id();
    }
  }

  /** With distinct keys the sorted result depends only on which windows there are. */
  lemma SortedPermutationUnique(a: seq<WindowStats>, b: seq<WindowStats>)
    requires Sorted(a) && Sorted(b) && multiset(a) == multiset(b)
    ensures a == b
  {
    forall k
      ensures TallyLines(a, k) == TallyLines(b, k)
    {
      TallyPermutation(a, b, k);
    }
    SortedUnique(a, b);
  }
}
