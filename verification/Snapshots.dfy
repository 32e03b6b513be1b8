/**
 From extracted windows to output blocks: `MarketDataPipeline::write_windows`.

 A snapshot is one block of the output: the lines of one window start. `Blocks` cuts a
 sequence of lines where the window start changes; `WriteSpec` sorts and cuts. The method
 `WriteWindows` groups into an ordered map and sorts each group with a sort that need not be
 stable; it gives `WriteSpec` whenever no key occurs twice.
 */
module Snapshots {
  import opened Statistics
  import opened Ordering

  datatype Snapshot = Snapshot(start: nat, lines: seq<WindowStats>) {
    /** The block is not empty and its lines belong to its window. */
    ghost predicate Valid() {
      lines != [] && forall i :: 0 <= i < |lines| ==> lines[i].start == start
    }
  }

  /** All lines of a sequence of blocks, in order. */
  function Flatten(blocks: seq<Snapshot>): seq<WindowStats> {
    if blocks == [] then [] else Flatten(blocks[..|blocks| - 1]) + blocks[|blocks| - 1].lines
  }

  function AddLine(blocks: seq<Snapshot>, x: WindowStats): seq<Snapshot> {
    var n := |blocks|;
    if n > 0 && blocks[n - 1].start == x.start
    then blocks[..n - 1] + [Snapshot(x.start, blocks[n - 1].lines + [x])]
    else blocks + [Snapshot(x.start, [x])]
  }

  function Blocks(lines: seq<WindowStats>): seq<Snapshot> {
    if lines == [] then [] else AddLine(Blocks(lines[..|lines| - 1]), lines[|lines| - 1])
  }

  function WriteSpec(windows: seq<WindowStats>): seq<Snapshot> {
    Blocks(SortLines(windows))
  }

  ghost predicate Proper(blocks: seq<Snapshot>) {
    forall i :: 0 <= i < |blocks| ==> blocks[i].Valid()
  }

  ghost predicate Ascending(blocks: seq<Snapshot>) {
    forall i, j :: 0 <= i < j < |blocks| ==> blocks[i].start < blocks[j].start
  }

  // ------------------------------------------------------------ cutting and flattening

  lemma {:induction false} FlattenConcat(a: seq<Snapshot>, b: seq<Snapshot>)
    ensures Flatten(a + b) == Flatten(a) + Flatten(b)
  {
    if b == [] {
      assert a + b == a;
    } else {
      var n := |b| - 1;
      assert (a + b)[..|a| + n] == a + b[..n];
      FlattenConcat(a, b[..n]);
    }
  }

  lemma FlattenSnoc(a: seq<Snapshot>, s: Snapshot)
    ensures Flatten(a + [s]) == Flatten(a) + s.lines
  {
  }

  lemma AddLineFlatten(blocks: seq<Snapshot>, x: WindowStats)
    ensures Flatten(AddLine(blocks, x)) == Flatten(blocks) + [x]
  {
  }

  lemma AddLineProper(blocks: seq<Snapshot>, x: WindowStats)
    requires Proper(blocks)
    ensures Proper(AddLine(blocks, x))
    ensures AddLine(blocks, x) != [] && AddLine(blocks, x)[|AddLine(blocks, x)| - 1].start == x.start
  {
    var r, n := AddLine(blocks, x), |blocks|;
    forall i | 0 <= i < |r|
      ensures r[i].Valid()
    {
      if i < |r| - 1 {
        assert r[i] == blocks[i];
      } else if n > 0 && blocks[n - 1].start == x.start {
        assert blocks[n - 1].Valid();
      }
    }
  }

  /** Cutting loses nothing: the blocks hold the lines, in order. */
  lemma {:induction false} BlocksFlatten(lines: seq<WindowStats>)
    ensures Flatten(Blocks(lines)) == lines
    ensures Proper(Blocks(lines))
    ensures lines != [] ==> Blocks(lines) != [] && Blocks(lines)[|Blocks(lines)| - 1].start == lines[|lines| - 1].start
  {
    if lines != [] {
      var n := |lines| - 1;
      BlocksFlatten(lines[..n]);
      AddLineFlatten(Blocks(lines[..n]), lines[n]);
      AddLineProper(Blocks(lines[..n]), lines[n]);
      assert lines == lines[..n] + [lines[n]];
    }
  }

  lemma BlocksSnoc(lines: seq<WindowStats>, x: WindowStats)
    ensures Blocks(lines + [x]) == AddLine(Blocks(lines), x)
  {
  }

  /** Adding a line to a non-empty right part leaves the left part alone. */
  lemma AddLineRight(left: seq<Snapshot>, right: seq<Snapshot>, x: WindowStats)
    requires right != [] || (left != [] && left[|left| - 1].start != x.start)
    ensures AddLine(left + right, x) == left + AddLine(right, x)
  {
  }

  /** Cutting distributes over concatenation where the window start changes. */
  lemma {:induction false} BlocksConcat(a: seq<WindowStats>, b: seq<WindowStats>)
    requires a != [] && b != [] ==> a[|a| - 1].start != b[0].start
    ensures Blocks(a + b) == Blocks(a) + Blocks(b)
  {
    hide AddLine;
    if b == [] {
      assert a + b == a;
    } else if a == [] {
      assert a + b == b;
    } else {
      var b', x := b[..|b| - 1], b[|b| - 1];
      BlocksConcat(a, b');
      assert a + b == (a + b') + [x] && b == b' + [x];
      BlocksSnoc(a + b', x);
      BlocksSnoc(b', x);
      BlocksFlatten(a);
      BlocksFlatten(b');
      AddLineRight(Blocks(a), Blocks(b'), x);
    }
  }

  lemma {:induction false} BlocksOfOne(start: nat, lines: seq<WindowStats>)
    requires Snapshot(start, lines).Valid()
    ensures Blocks(lines) == [Snapshot(start, lines)]
  {
    var n := |lines| - 1;
    if n > 0 {
      assert Snapshot(start, lines[..n]).Valid();
      BlocksOfOne(start, lines[..n]);
      assert lines == lines[..n] + [lines[n]];
    } else {
      assert lines == [lines[0]];
    }
  }

  lemma FlattenLast(blocks: seq<Snapshot>)
    requires blocks != [] && blocks[|blocks| - 1].Valid()
    ensures Flatten(blocks) != [] && Flatten(blocks)[|Flatten(blocks)| - 1].start == blocks[|blocks| - 1].start
  {
  }

  /** Proper blocks with ascending starts are recovered from their lines. */
  lemma {:induction false} FlattenBlocks(blocks: seq<Snapshot>)
    requires Proper(blocks) && Ascending(blocks)
    ensures Blocks(Flatten(blocks)) == blocks
  {
    if blocks != [] {
      var n := |blocks| - 1;
      var init, last := blocks[..n], blocks[n];
      assert blocks == init + [last];
      assert last.Valid();
      FlattenBlocks(init);
      BlocksOfOne(last.start, last.lines);
      if n > 0 {
        assert init[n - 1].Valid() && blocks[n - 1].start < last.start;
        FlattenLast(init);
      }
      BlocksConcat(Flatten(init), last.lines);
    }
  }

  // ------------------------------------------------------------ order

  lemma AddLineAscending(blocks: seq<Snapshot>, x: WindowStats)
    requires Ascending(blocks) && (blocks != [] ==> blocks[|blocks| - 1].start <= x.start)
    ensures Ascending(AddLine(blocks, x))
  {
  }

  /** Sorted lines give blocks with strictly increasing window starts. */
  lemma {:induction false} StartsOfBlocks(lines: seq<WindowStats>)
    requires Sorted(lines)
    ensures Ascending(Blocks(lines))
  {
    if lines != [] {
      var n := |lines| - 1;
      StartsOfBlocks(lines[..n]);
      BlocksFlatten(lines[..n]);
      if n > 0 {
        assert KeyLess(lines[n - 1].Id(), lines[n].Id());
      } else {
        assert Blocks(lines[..n]) == [];
      }
      AddLineAscending(Blocks(lines[..n]), lines[n]);
    }
  }

  /** The lines of ascending blocks are sorted when each block is. */
  lemma {:induction false} FlattenSorted(blocks: seq<Snapshot>)
    requires Proper(blocks) && Ascending(blocks)
    requires forall i :: 0 <= i < |blocks| ==> Sorted(blocks[i].lines)
    ensures Sorted(Flatten(blocks))
    ensures blocks != [] ==> forall i :: 0 <= i < |Flatten(blocks)| ==>
              Flatten(blocks)[i].start <= blocks[|blocks| - 1].start
  {
    if blocks != [] {
      var n := |blocks| - 1;
      FlattenSorted(blocks[..n]);
      SortedConcat(Flatten(blocks[..n]), blocks[n].lines);
    }
  }

  // ------------------------------------------------------------ write_windows

  /** `std::sort` by symbol: some ordered permutation, not necessarily a stable one. */
  ghost predicate SymbolOrdered(lines: seq<WindowStats>) {
    forall i, j :: 0 <= i < j < |lines| ==> !SymbolLess(lines[j].symbol, lines[i].symbol)
  }

  method InsertBySymbol(x: WindowStats, lines: seq<WindowStats>) returns (r: seq<WindowStats>)
    requires SymbolOrdered(lines)
    ensures SymbolOrdered(r) && multiset(r) == multiset(lines) + multiset{x}
  {
    var i := 0;
    while i < |lines| && SymbolLess(lines[i].symbol, x.symbol)
      invariant i <= |lines|
      invariant forall j :: 0 <= j < i ==> SymbolLess(lines[j].symbol, x.symbol)
    {
      i := i + 1;
    }
    r := lines[..i] + [x] + lines[i..];
    assert lines == lines[..i] + lines[i..];
    InsertedOrdered(lines, i, x);
  }

  lemma InsertedOrdered(lines: seq<WindowStats>, i: nat, x: WindowStats)
    requires SymbolOrdered(lines) && i <= |lines|
    requires forall j :: 0 <= j < i ==> SymbolLess(lines[j].symbol, x.symbol)
    requires i < |lines| ==> !SymbolLess(lines[i].symbol, x.symbol)
    ensures SymbolOrdered(lines[..i] + [x] + lines[i..])
  {
    hide SymbolLess;
    var r := lines[..i] + [x] + lines[i..];
    forall a, b | 0 <= a < b < |r|
      ensures !SymbolLess(r[b].symbol, r[a].symbol)
    {
      if a < i && b == i {
        SymbolAsymmetric(lines[a].symbol, x.symbol);
      } else if a == i {
        NotBelow(lines, i, b - 1, x.symbol);
      }
    }
  }

  lemma SymbolAsymmetric(a: string, b: string)
    requires SymbolLess(a, b)
    ensures !SymbolLess(b, a)
  {
  }

  lemma NotBelow(lines: seq<WindowStats>, i: nat, b: nat, symbol: string)
    requires SymbolOrdered(lines) && i <= b < |lines| && !SymbolLess(lines[i].symbol, symbol)
    ensures !SymbolLess(lines[b].symbol, symbol)
  {
    if i < b && SymbolLess(lines[b].symbol, symbol) {
      SymbolTotal(lines[i].symbol, lines[b].symbol);
      SymbolTotal(lines[i].symbol, symbol);
      if SymbolLess(lines[i].symbol, lines[b].symbol) {
        SymbolTransitive(lines[i].symbol, lines[b].symbol, symbol);
      }
    }
  }

  method SortBySymbol(lines: seq<WindowStats>) returns (r: seq<WindowStats>)
    ensures SymbolOrdered(r) && multiset(r) == multiset(lines)
  {
    r := [];
    for i := 0 to |lines|
      invariant SymbolOrdered(r) && multiset(r) == multiset(lines[..i])
    {
      assert lines[..i + 1] == lines[..i] + [lines[i]];
      r := InsertBySymbol(lines[i], r);
    }
    assert lines[..|lines|] == lines;
  }

  /** The least key, where iteration over an ordered map starts. */
  method LeastStart(starts: set<nat>) returns (least: nat)
    requires starts != {}
    ensures least in starts && forall s :: s in starts ==> least <= s
  {
    least :| least in starts;
    var todo := starts - {least};
    while todo != {}
      invariant least in starts && todo <= starts
      invariant forall s :: s in starts ==> s in todo || least <= s
      decreases |todo|
    {
      var s :| s in todo;
      if s < least {
        least := s;
      }
      todo := todo - {s};
    }
  }

  type Groups = map<nat, seq<WindowStats>>

  ghost function CountIn(groups: Groups, x: WindowStats): nat {
    if x.start in groups then multiset(groups[x.start])[x] else 0
  }

  /** The windows grouped by start: nothing lost, nothing added. */
  ghost predicate Grouped(windows: seq<WindowStats>, groups: Groups) {
    && (forall s :: s in groups ==> Snapshot(s, groups[s]).Valid())
    && (forall x: WindowStats :: multiset(windows)[x] == CountIn(groups, x))
  }

  lemma GroupStep(windows: seq<WindowStats>, groups: Groups, x: WindowStats)
    requires Grouped(windows, groups)
    ensures Grouped(windows + [x], groups[x.start := (if x.start in groups then groups[x.start] else []) + [x]])
  {
    var group := (if x.start in groups then groups[x.start] else []) + [x];
    var groups' := groups[x.start := group];
    assert Snapshot(x.start, group).Valid() by {
      if x.start in groups {
        assert Snapshot(x.start, groups[x.start]).Valid();
      }
    }
    forall y: WindowStats
      ensures multiset(windows + [x])[y] == CountIn(groups', y)
    {
      assert multiset(windows)[y] == CountIn(groups, y);
      CountSnoc(windows, x, y);
      if y.start == x.start {
        CountSnoc(if x.start in groups then groups[x.start] else [], x, y);
      }
    }
  }

  lemma CountSnoc(lines: seq<WindowStats>, x: WindowStats, y: WindowStats)
    ensures multiset(lines + [x])[y] == multiset(lines)[y] + if x == y then 1 else 0
  {
  }

  /** The first loop of `write_windows`. */
  method GroupByStart(windows: seq<WindowStats>) returns (groups: Groups)
    ensures Grouped(windows, groups)
  {
    groups := map[];
    for n := 0 to |windows|
      invariant Grouped(windows[..n], groups)
    {
      var x := windows[n];
      assert windows[..n + 1] == windows[..n] + [x];
      GroupStep(windows[..n], groups, x);
      groups := groups[x.start := (if x.start in groups then groups[x.start] else []) + [x]];
    }
    assert windows[..|windows|] == windows;
  }

  ghost function Remaining(groups: Groups, todo: set<nat>, x: WindowStats): nat {
    if x.start in todo then CountIn(groups, x) else 0
  }

  ghost predicate AllOrdered(blocks: seq<Snapshot>) {
    forall i :: 0 <= i < |blocks| ==> SymbolOrdered(blocks[i].lines)
  }

  ghost predicate AllBefore(blocks: seq<Snapshot>, todo: set<nat>) {
    forall i, s :: 0 <= i < |blocks| && s in todo ==> blocks[i].start < s
  }

  /** Written blocks and groups still to be written add up to the input. */
  ghost predicate Accounted(windows: seq<WindowStats>, groups: Groups, todo: set<nat>, blocks: seq<Snapshot>) {
    forall x: WindowStats :: multiset(Flatten(blocks))[x] + Remaining(groups, todo, x) == multiset(windows)[x]
  }

  lemma AccountStep(windows: seq<WindowStats>, groups: Groups, todo: set<nat>, blocks: seq<Snapshot>,
                    s: nat, lines: seq<WindowStats>)
    requires Accounted(windows, groups, todo, blocks) && s in todo && s in groups
    requires multiset(lines) == multiset(groups[s]) && Snapshot(s, groups[s]).Valid()
    ensures Snapshot(s, lines).Valid()
    ensures Accounted(windows, groups, todo - {s}, blocks + [Snapshot(s, lines)])
  {
    FlattenSnoc(blocks, Snapshot(s, lines));
    assert |lines| == |multiset(lines)| == |groups[s]|;
    forall x | x in lines
      ensures x.start == s
    {
      assert x in multiset(groups[s]);
      assert x in groups[s];
    }
    forall x: WindowStats
      ensures multiset(Flatten(blocks + [Snapshot(s, lines)]))[x] + Remaining(groups, todo - {s}, x) == multiset(windows)[x]
    {
      assert multiset(Flatten(blocks))[x] + Remaining(groups, todo, x) == multiset(windows)[x];
      if x.start != s {
        assert x !in lines;
        assert multiset(lines)[x] == 0;
      }
    }
  }

  lemma AppendBlock(blocks: seq<Snapshot>, todo: set<nat>, b: Snapshot)
    requires Proper(blocks) && Ascending(blocks) && AllOrdered(blocks) && AllBefore(blocks, todo)
    requires b.Valid() && SymbolOrdered(b.lines) && b.start in todo && forall t :: t in todo ==> b.start <= t
    ensures var next := blocks + [b];
            Proper(next) && Ascending(next) && AllOrdered(next) && AllBefore(next, todo - {b.start})
  {
  }

  /**
   The written blocks are in ascending order of window start, each ordered by symbol, and
   together they are a permutation of the input. If no key occurs twice the result is
   `WriteSpec`, whatever the order of the input and of equal elements in the sort.
   */
  method WriteWindows(windows: seq<WindowStats>) returns (blocks: seq<Snapshot>)
    ensures Proper(blocks) && Ascending(blocks)
    ensures AllOrdered(blocks)
    ensures multiset(Flatten(blocks)) == multiset(windows)
    ensures DistinctIds(windows) ==> blocks == WriteSpec(windows)
  {
    blocks := [];
    if windows == [] {
      return;
    }
    var groups := GroupByStart(windows);
    var todo := groups.Keys;
    while todo != {}
      invariant todo <= groups.Keys && Accounted(windows, groups, todo, blocks)
      invariant Proper(blocks) && Ascending(blocks) && AllOrdered(blocks) && AllBefore(blocks, todo)
      decreases |todo|
    {
      var s := LeastStart(todo);
      var lines := SortBySymbol(groups[s]);
      AccountStep(windows, groups, todo, blocks, s, lines);
      AppendBlock(blocks, todo, Snapshot(s, lines));
      blocks := blocks + [Snapshot(s, lines)];
      todo := todo - {s};
    }
    SameCounts(windows, groups, blocks);
    if DistinctIds(windows) {
      WriteUnique(windows, blocks);
    }
  }

  lemma SameCounts(windows: seq<WindowStats>, groups: Groups, blocks: seq<Snapshot>)
    requires Accounted(windows, groups, {}, blocks)
    ensures multiset(Flatten(blocks)) == multiset(windows)
  {
  }

  lemma {:induction false} DistinctPermutation(a: seq<WindowStats>, b: seq<WindowStats>)
    requires DistinctIds(a) && multiset(a) == multiset(b)
    ensures DistinctIds(b)
  {
    forall i, j | 0 <= i < j < |b|
      ensures b[i].Id() != b[j].Id()
    {
      if b[i].Id() == b[j].Id() {
        assert b[i] in multiset(a) && b[j] in multiset(a);
        var m :| 0 <= m < |a| && a[m] == b[i];
        var n :| 0 <= n < |a| && a[n] == b[j];
        assert m == n;
        OccursTwice(b, i, j);
        OccursOnce(a, m);
        assert false;
      }
    }
  }

  lemma OccursTwice(b: seq<WindowStats>, i: nat, j: nat)
    requires i < j < |b| && b[i] == b[j]
    ensures multiset(b)[b[i]] >= 2
  {
    assert b == b[..j] + b[j..];
    assert b[..j][i] == b[i] && b[j..][0] == b[i];
    assert multiset(b) == multiset(b[..j]) + multiset(b[j..]);
    assert b[i] in b[..j] && b[i] in b[j..];
  }

  lemma OccursOnce(a: seq<WindowStats>, m: nat)
    requires DistinctIds(a) && m < |a|
    ensures multiset(a)[a[m]] == 1
  {
    assert a == a[..m] + [a[m]] + a[m + 1..];
    var before, after := a[..m], a[m + 1..];
    assert a[m] !in before && a[m] !in after;
    assert multiset(a) == multiset(before) + multiset{a[m]} + multiset(after);
  }

  /** Within one window, ordered by symbol with distinct keys means strictly sorted. */
  lemma OrderedIsSorted(s: Snapshot)
    requires s.Valid() && SymbolOrdered(s.lines) && DistinctIds(s.lines)
    ensures Sorted(s.lines)
  {
    forall i, j | 0 <= i < j < |s.lines|
      ensures KeyLess(s.lines[i].Id(), s.lines[j].Id())
    {
      KeyOrder(s.lines[i].Id(), s.lines[j].Id(), s.lines[i].Id());
      assert s.lines[i].Id() != s.lines[j].Id();
    }
  }

  /** A block's lines are a slice of all lines. */
  lemma FlattenSlice(blocks: seq<Snapshot>, i: nat) returns (n: nat)
    requires i < |blocks|
    ensures n + |blocks[i].lines| <= |Flatten(blocks)|
    ensures Flatten(blocks)[n..n + |blocks[i].lines|] == blocks[i].lines
  {
    var left, b, right := blocks[..i], blocks[i], blocks[i + 1..];
    assert blocks == left + [b] + right;
    FlattenConcat(left + [b], right);
    FlattenSnoc(left, b);
    n := |Flatten(left)|;
    hide Flatten;
    assert Flatten(blocks) == Flatten(left) + b.lines + Flatten(right);
  }

  lemma BlockDistinct(blocks: seq<Snapshot>, i: nat)
    requires DistinctIds(Flatten(blocks)) && i < |blocks|
    ensures DistinctIds(blocks[i].lines)
  {
  }

  lemma WriteUnique(windows: seq<WindowStats>, blocks: seq<Snapshot>)
    requires DistinctIds(windows) && multiset(Flatten(blocks)) == multiset(windows)
    requires Proper(blocks) && Ascending(blocks)
    requires AllOrdered(blocks)
    ensures blocks == WriteSpec(windows)
  {
    DistinctPermutation(windows, Flatten(blocks));
    forall i | 0 <= i < |blocks|
      ensures Sorted(blocks[i].lines)
    {
      BlockDistinct(blocks, i);
      assert blocks[i].Valid();
      OrderedIsSorted(blocks[i]);
    }
    FlattenSorted(blocks);
    SortLinesMeaning(windows);
    SortedPermutationUnique(Flatten(blocks), SortLines(windows));
    FlattenBlocks(blocks);
  }
}
