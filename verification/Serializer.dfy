/**
 The text format: `agg::output::StatsSerializer`.

 How a number, a decimal or a time stamp looks is a `Format`; the layout of lines and blocks is
 defined for any of them. The program's own format, `Standard`, prints decimals as
 `Decimal::to_string` does; its calendar formatting of a whole second stays a parameter. The
 text is uniquely decodable: `SinkDecodable` recovers every block from the concatenation of all
 blocks written.
 */
module Serializer {
  import opened Decimals
  import opened DigitStrings
  import opened DecimalText
  import opened Statistics
  import opened Snapshots

  // ------------------------------------------------------------ the layout

  datatype Format = Format(stamp: nat -> string, number: nat -> string, decimal: Int64 -> string)

  /** A labelled value and the character that ends it. */
  datatype Field = Field(name: string, value: string, end: char) {
    function Text(): string {
      name + (value + [end])
    }
  }

  function FieldsText(fs: seq<Field>): string {
    if fs == [] then "" else fs[0].Text() + FieldsText(fs[1..])
  }

  ghost function LineFields(f: Format, x: WindowStats): seq<Field> {
    [Field("symbol=", x.symbol, ' '),
     Field("trades=", f.number(x.count), ' '),
     Field("volume=", f.decimal(x.volume), ' '),
     Field("min=", f.decimal(x.minPrice), ' '),
     Field("max=", f.decimal(x.maxPrice), ' '),
     Field("buy=", f.number(x.buys), ' '),
     Field("sell=", f.number(x.sells), '\n')]
  }

  ghost function LineText(f: Format, x: WindowStats): string {
    FieldsText(LineFields(f, x))
  }

  ghost function LinesText(f: Format, lines: seq<WindowStats>): string {
    if lines == [] then "" else LineText(f, lines[0]) + LinesText(f, lines[1..])
  }

  ghost function Header(f: Format, start: nat): Field {
    Field("timestamp=", f.stamp(start / 1000), '\n')
  }

  ghost function BlockText(f: Format, s: Snapshot): string {
    if s.lines == [] then "" else Header(f, s.start).Text() + (LinesText(f, s.lines) + "\n")
  }

  /** Everything the sink has received. */
  ghost function SinkText(f: Format, blocks: seq<Snapshot>): string {
    if blocks == [] then "" else BlockText(f, blocks[0]) + SinkText(f, blocks[1..])
  }

  // ------------------------------------------------------------ unique decoding

  /** A text is cut at the first end mark in one way only. */
  lemma CutUnique(a: string, b: string, x: string, y: string, end: char)
    requires a + ([end] + x) == b + ([end] + y) && end !in a && end !in b
    ensures a == b && x == y
  {
    var t := a + ([end] + x);
    assert t[|a|] == end && t[|b|] == end;
    assert |a| == |b|;
    assert a == t[..|a|] && b == t[..|b|];
    assert x == t[|a| + 1..] && y == t[|b| + 1..];
  }

  lemma FieldUnique(a: Field, b: Field, x: string, y: string)
    requires a.name == b.name && a.end == b.end && a.end !in a.value && b.end !in b.value
    requires a.Text() + x == b.Text() + y
    ensures a == b && x == y
  {
    var t, u := a.Text() + x, b.Text() + y;
    assert t[|a.name|..] == a.value + ([a.end] + x);
    assert u[|b.name|..] == b.value + ([b.end] + y);
    CutUnique(a.value, b.value, x, y, a.end);
  }

  /** Field sequences of one shape, with values free of their end marks. */
  ghost predicate SameShape(a: seq<Field>, b: seq<Field>) {
    |a| == |b| && forall i :: 0 <= i < |a| ==>
      a[i].name == b[i].name && a[i].end == b[i].end && a[i].end !in a[i].value && b[i].end !in b[i].value
  }

  lemma {:induction false} FieldsUnique(a: seq<Field>, b: seq<Field>, x: string, y: string)
    requires SameShape(a, b) && FieldsText(a) + x == FieldsText(b) + y
    ensures a == b && x == y
  {
    if a == [] {
      assert FieldsText(a) + x == x && FieldsText(b) + y == y;
    } else {
      var restA, restB := FieldsText(a[1..]) + x, FieldsText(b[1..]) + y;
      assert FieldsText(a) + x == a[0].Text() + restA;
      assert FieldsText(b) + y == b[0].Text() + restB;
      FieldUnique(a[0], b[0], restA, restB);
      FieldsUnique(a[1..], b[1..], x, y);
      assert a == [a[0]] + a[1..] && b == [b[0]] + b[1..];
    }
  }

  /** The three decimals can be printed: their negation is a 64-bit value. */
  predicate Printable(x: WindowStats) {
    x.volume != -TWO63 && x.minPrice != -TWO63 && x.maxPrice != -TWO63
  }

  /** A symbol without the field separator, and decimals that can be printed. */
  predicate Decodable(x: WindowStats) {
    ' ' !in x.symbol && Printable(x)
  }

  /** Different values look different, and no value contains the character that ends it. */
  ghost predicate Good(f: Format) {
    && (forall s :: '\n' !in f.stamp(s))
    && (forall s, t :: f.stamp(s) == f.stamp(t) ==> s == t)
    && (forall n :: ' ' !in f.number(n) && '\n' !in f.number(n))
    && (forall m, n :: f.number(m) == f.number(n) ==> m == n)
    && (forall d: Int64 :: ' ' !in f.decimal(d))
    && (forall c: Int64, d: Int64 :: c != -TWO63 && d != -TWO63 && f.decimal(c) == f.decimal(d) ==> c == d)
  }

  /** What a line shows: everything but the window start. */
  ghost predicate SameLine(a: WindowStats, b: WindowStats) {
    a == b.(start := a.start)
  }

  /** A line can be read off the front of any text in one way only. */
  lemma LineDecodable(f: Format, a: WindowStats, b: WindowStats, x: string, y: string)
    requires Good(f) && Decodable(a) && Decodable(b) && LineText(f, a) + x == LineText(f, b) + y
    ensures SameLine(a, b) && x == y
  {
    var fa, fb := LineFields(f, a), LineFields(f, b);
    FieldsUnique(fa, fb, x, y);
    assert fa[0] == fb[0] && fa[1] == fb[1] && fa[2] == fb[2] && fa[3] == fb[3];
    assert fa[4] == fb[4] && fa[5] == fb[5] && fa[6] == fb[6];
  }

  ghost predicate AllDecodable(lines: seq<WindowStats>) {
    forall i :: 0 <= i < |lines| ==> Decodable(lines[i])
  }

  ghost predicate SameLines(a: seq<WindowStats>, b: seq<WindowStats>) {
    |a| == |b| && forall i :: 0 <= i < |a| ==> SameLine(a[i], b[i])
  }

  /** Lines start with a letter, the end of a block with a newline. */
  lemma FirstCharacter(f: Format, lines: seq<WindowStats>, x: string)
    ensures var t := LinesText(f, lines) + (['\n'] + x);
            t[0] == if lines == [] then '\n' else 's'
  {
  }

  lemma SplitLines(f: Format, lines: seq<WindowStats>, end: string)
    requires lines != []
    ensures LinesText(f, lines) + end == LineText(f, lines[0]) + (LinesText(f, lines[1..]) + end)
  {
  }

  /** The lines of a block end at the blank line. */
  lemma {:induction false} LinesDecodable(f: Format, a: seq<WindowStats>, b: seq<WindowStats>, x: string, y: string)
    requires Good(f) && AllDecodable(a) && AllDecodable(b)
    requires LinesText(f, a) + (['\n'] + x) == LinesText(f, b) + (['\n'] + y)
    ensures SameLines(a, b) && x == y
  {
    var endA, endB := ['\n'] + x, ['\n'] + y;
    assert (a == []) == (b == []) by {
      FirstCharacter(f, a, x);
      FirstCharacter(f, b, y);
    }
    if a == [] {
      assert LinesText(f, a) + endA == endA && LinesText(f, b) + endB == endB;
      assert x == endA[1..] && y == endB[1..];
    } else {
      SplitLines(f, a, endA);
      SplitLines(f, b, endB);
      LineDecodable(f, a[0], b[0], LinesText(f, a[1..]) + endA, LinesText(f, b[1..]) + endB);
      LinesDecodable(f, a[1..], b[1..], x, y);
      SameLinesCons(a, b);
    }
  }

  lemma SameLinesCons(a: seq<WindowStats>, b: seq<WindowStats>)
    requires a != [] && b != [] && SameLine(a[0], b[0]) && SameLines(a[1..], b[1..])
    ensures SameLines(a, b)
  {
  }

  ghost predicate SameBlock(a: Snapshot, b: Snapshot) {
    a.start / 1000 == b.start / 1000 && SameLines(a.lines, b.lines)
  }

  lemma SplitBlock(f: Format, s: Snapshot, x: string)
    requires s.lines != []
    ensures BlockText(f, s) + x == Header(f, s.start).Text() + (LinesText(f, s.lines) + (['\n'] + x))
  {
    hide LinesText;
    hide Header;
  }

  lemma BlockDecodable(f: Format, a: Snapshot, b: Snapshot, x: string, y: string)
    requires Good(f) && a.lines != [] && b.lines != [] && AllDecodable(a.lines) && AllDecodable(b.lines)
    requires BlockText(f, a) + x == BlockText(f, b) + y
    ensures SameBlock(a, b) && x == y
  {
    hide LinesText;
    hide BlockText;
    hide AllDecodable;
    hide SameLines;
    var bodyA, bodyB := LinesText(f, a.lines) + (['\n'] + x), LinesText(f, b.lines) + (['\n'] + y);
    SplitBlock(f, a, x);
    SplitBlock(f, b, y);
    FieldUnique(Header(f, a.start), Header(f, b.start), bodyA, bodyB);
    LinesDecodable(f, a.lines, b.lines, x, y);
  }

  ghost predicate AllReadable(blocks: seq<Snapshot>) {
    forall i :: 0 <= i < |blocks| ==> blocks[i].lines != [] && AllDecodable(blocks[i].lines)
  }

  ghost predicate SameBlocks(a: seq<Snapshot>, b: seq<Snapshot>) {
    |a| == |b| && forall i :: 0 <= i < |a| ==> SameBlock(a[i], b[i])
  }

  /** The text of the sink determines every block: its second, and every value of every line. */
  lemma {:induction false} SinkDecodable(f: Format, a: seq<Snapshot>, b: seq<Snapshot>)
    requires Good(f) && AllReadable(a) && AllReadable(b)
    requires SinkText(f, a) == SinkText(f, b)
    ensures SameBlocks(a, b)
  {
    hide Good, SameBlock, AllDecodable;
    if a != [] && b != [] {
      BlockDecodable(f, a[0], b[0], SinkText(f, a[1..]), SinkText(f, b[1..]));
      SinkDecodable(f, a[1..], b[1..]);
      SameBlocksCons(a, b);
    }
  }

  lemma SameBlocksCons(a: seq<Snapshot>, b: seq<Snapshot>)
    requires a != [] && b != [] && SameBlock(a[0], b[0]) && SameBlocks(a[1..], b[1..])
    ensures SameBlocks(a, b)
  {
  }

  // ------------------------------------------------------------ the program's format

  ghost function Standard(stamp: nat -> string): Format {
    Format(stamp, (n: nat) => Digits(n), (d: Int64) => Print(d))
  }

  lemma PrintClean(raw: int)
    ensures ' ' !in Print(raw)
  {
    var n := Printed(raw);
    PrintedIsCanonical(raw);
    assert ' ' !in n.whole && ' ' !in n.frac;
    assert ' ' !in FracText(n.frac);
    assert ' ' !in n.SignText();
  }

  /** The program's format is good as soon as its time stamps are. */
  lemma StandardIsGood(stamp: nat -> string)
    requires forall s :: '\n' !in stamp(s)
    requires forall s, t :: stamp(s) == stamp(t) ==> s == t
    ensures Good(Standard(stamp))
  {
    var f := Standard(stamp);
    forall m: nat, n: nat | f.number(m) == f.number(n)
      ensures m == n
    {
      assert Number(Digits(m)) == m && Number(Digits(n)) == n;
    }
    forall d: Int64
      ensures ' ' !in f.decimal(d)
    {
      PrintClean(d);
    }
    forall c: Int64, d: Int64 | c != -TWO63 && d != -TWO63 && f.decimal(c) == f.decimal(d)
      ensures c == d
    {
      PrintInjective(c, d);
    }
  }

  // ------------------------------------------------------------ serialize

  lemma SevenFields(a: Field, b: Field, c: Field, d: Field, e: Field, f: Field, g: Field)
    ensures FieldsText([a, b, c, d, e, f, g]) ==
              a.Text() + (b.Text() + (c.Text() + (d.Text() + (e.Text() + (f.Text() + g.Text())))))
  {
    var t := "";
    assert g.Text() + t == g.Text();
    assert [g][1..] == [] && [f, g][1..] == [g] && [e, f, g][1..] == [f, g] && [d, e, f, g][1..] == [e, f, g];
    assert [c, d, e, f, g][1..] == [d, e, f, g] && [b, c, d, e, f, g][1..] == [c, d, e, f, g];
    assert [a, b, c, d, e, f, g][1..] == [b, c, d, e, f, g];
    assert FieldsText([g]) == g.Text() + FieldsText([]);
    assert FieldsText([f, g]) == f.Text() + FieldsText([g]);
    assert FieldsText([e, f, g]) == e.Text() + FieldsText([f, g]);
    assert FieldsText([d, e, f, g]) == d.Text() + FieldsText([e, f, g]);
    assert FieldsText([c, d, e, f, g]) == c.Text() + FieldsText([d, e, f, g]);
    assert FieldsText([b, c, d, e, f, g]) == b.Text() + FieldsText([c, d, e, f, g]);
  }

  /** A line, written out. */
  lemma LineShape(f: Format, x: WindowStats)
    ensures LineText(f, x) ==
              "symbol=" + (x.symbol + [' ']) + ("trades=" + (f.number(x.count) + [' ']) + (
              "volume=" + (f.decimal(x.volume) + [' ']) + ("min=" + (f.decimal(x.minPrice) + [' ']) + (
              "max=" + (f.decimal(x.maxPrice) + [' ']) + ("buy=" + (f.number(x.buys) + [' ']) + (
              "sell=" + (f.number(x.sells) + ['\n'])))))))
  {
    hide FieldsText;
    var fs := LineFields(f, x);
    SevenFields(fs[0], fs[1], fs[2], fs[3], fs[4], fs[5], fs[6]);
    assert fs == [fs[0], fs[1], fs[2], fs[3], fs[4], fs[5], fs[6]];
  }

  lemma {:induction false} LinesTextSnoc(f: Format, lines: seq<WindowStats>, x: WindowStats)
    ensures LinesText(f, lines + [x]) == LinesText(f, lines) + LineText(f, x)
  {
    if lines == [] {
      assert lines + [x] == [x];
      assert [x][1..] == [];
    } else {
      assert (lines + [x])[0] == lines[0] && (lines + [x])[1..] == lines[1..] + [x];
      LinesTextSnoc(f, lines[1..], x);
    }
  }

  method SerializeLine(stamp: nat -> string, x: WindowStats) returns (text: string)
    requires Printable(x)
    ensures text == LineText(Standard(stamp), x)
  {
    var volume := ToString(x.volume);
    var minPrice := ToString(x.minPrice);
    var maxPrice := ToString(x.maxPrice);
    var trades, buys, sells := Digits(x.count), Digits(x.buys), Digits(x.sells);
    text := "symbol=" + x.symbol + " trades=" + trades + " volume=" + volume + " min=" + minPrice
      + " max=" + maxPrice + " buy=" + buys + " sell=" + sells + "\n";
    LineShape(Standard(stamp), x);
    Regroup(x.symbol, trades, volume, minPrice, maxPrice, buys, sells);
  }

  /** The text as the program concatenates it, from the left and with the separators before the labels. */
  lemma Regroup(a: string, b: string, c: string, d: string, e: string, f: string, g: string)
    ensures "symbol=" + a + " trades=" + b + " volume=" + c + " min=" + d + " max=" + e + " buy=" + f + " sell=" + g + "\n"
         == "symbol=" + (a + [' ']) + ("trades=" + (b + [' ']) + ("volume=" + (c + [' ']) + ("min=" + (d + [' ']) + (
            "max=" + (e + [' ']) + ("buy=" + (f + [' ']) + ("sell=" + (g + ['\n'])))))))
  {
    var r7 := "sell=" + (g + ['\n']);
    var r6 := "buy=" + (f + [' ']) + r7;
    var r5 := "max=" + (e + [' ']) + r6;
    var r4 := "min=" + (d + [' ']) + r5;
    var r3 := "volume=" + (c + [' ']) + r4;
    var l1 := "symbol=" + a;
    var l2 := l1 + " trades=" + b;
    var l3 := l2 + " volume=" + c;
    var l4 := l3 + " min=" + d;
    var l5 := l4 + " max=" + e;
    var l6 := l5 + " buy=" + f;
    assert l6 + " sell=" + g + "\n" == l6 + ([' '] + r7);
    MoveSpace(l5, "buy=", " buy=", f, r7);
    MoveSpace(l4, "max=", " max=", e, r6);
    MoveSpace(l3, "min=", " min=", d, r5);
    MoveSpace(l2, "volume=", " volume=", c, r4);
    MoveSpace(l1, "trades=", " trades=", b, r3);
  }

  lemma MoveSpace(left: string, name: string, spaced: string, value: string, right: string)
    requires spaced == [' '] + name
    ensures left + spaced + value + ([' '] + right) == left + ([' '] + (name + (value + [' ']) + right))
  {
  }

  ghost predicate AllPrintable(lines: seq<WindowStats>) {
    forall i :: 0 <= i < |lines| ==> Printable(lines[i])
  }

  /** One more line. */
  method AppendLine(stamp: nat -> string, output: string, ghost lines: seq<WindowStats>, x: WindowStats)
    returns (r: string)
    requires Printable(x) && output == LinesText(Standard(stamp), lines)
    ensures r == LinesText(Standard(stamp), lines + [x])
  {
    LinesTextSnoc(Standard(stamp), lines, x);
    var line := SerializeLine(stamp, x);
    r := output + line;
  }

  /** The loop over the lines. */
  method SerializeLines(stamp: nat -> string, lines: seq<WindowStats>) returns (output: string)
    requires AllPrintable(lines)
    ensures output == LinesText(Standard(stamp), lines)
  {
    hide Standard, LineText;
    output := "";
    ghost var done: seq<WindowStats> := [];
    var i := 0;
    while i < |lines|
      invariant 0 <= i <= |lines| && |done| == i && done <= lines
      invariant output == LinesText(Standard(stamp), done)
    {
      output := AppendLine(stamp, output, done, lines[i]);
      done := done + [lines[i]];
      i := i + 1;
    }
    assert done == lines;
  }

  /** A block, written out: the second its window starts in, its lines, and a blank line. */
  lemma BlockShape(f: Format, s: Snapshot, second: nat)
    requires s.lines != [] && second * 1000 <= s.start < (second + 1) * 1000
    ensures BlockText(f, s) == "timestamp=" + f.stamp(second) + "\n" + LinesText(f, s.lines) + "\n"
  {
    hide LinesText;
    assert second == s.start / 1000;
    var stamp, body := f.stamp(second), LinesText(f, s.lines);
    assert "timestamp=" + (stamp + ['\n']) + (body + "\n") == "timestamp=" + stamp + "\n" + body + "\n";
  }

  method Serialize(stamp: nat -> string, s: Snapshot) returns (output: string)
    requires AllPrintable(s.lines)
    ensures output == BlockText(Standard(stamp), s)
  {
    if s.lines == [] {
      return "";
    }
    output := Field("timestamp=", stamp(s.start / 1000), '\n').Text();
    var body := SerializeLines(stamp, s.lines);
    output := output + (body + "\n");
  }
}
