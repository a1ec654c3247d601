/** The ten-by-ten example schematic of day 3: its tokens, its part sum 4361
    and its gear ratio sum 467835. */
module SchematicSample {
  import opened Text
  import opened Seqs
  import opened Schematic

  // ---------------------------------------------------------------------------
  // Tokenizing the example, row by row

  /** A part whose digits occupy the columns `lo .. hi - 1`. */
  function SpanPart(n: nat, row: nat, lo: nat, hi: nat): Part
    requires lo <= hi
  {
    Part(n, row, Range(lo, hi))
  }

  /** A run of digits from `lo` up to `hi` (and no further) becomes one part
      holding its decimal value and its columns. */
  lemma ScanRun(line: string, row: nat, lo: nat, hi: nat, n: nat)
    requires lo < hi <= |line| && AllDigits(line[lo..hi])
    requires hi == |line| || !IsAsciiDigit(line[hi])
    requires Decimal(line[lo..hi]) == n
    ensures ScanLine(line, row, lo)
         == Tokens([SpanPart(n, row, lo, hi)] + ScanLine(line, row, hi).parts, ScanLine(line, row, hi).symbols)
  {
    forall j | lo <= j < hi ensures IsAsciiDigit(line[j]) {
      assert line[lo..hi][j - lo] == line[j];
    }
    assert RunEnd(line, lo) == hi;
  }

  lemma Decimal2(s: string)
    requires |s| == 2 && AllDigits(s)
    ensures Decimal(s) == 10 * DigitValue(s[0]) + DigitValue(s[1])
  {
    assert s[..1][..0] == [] && s[..1][0] == s[0];
    assert Decimal(s[..1]) == DigitValue(s[0]);
  }

  lemma Decimal3(s: string)
    requires |s| == 3 && AllDigits(s)
    ensures Decimal(s) == 100 * DigitValue(s[0]) + 10 * DigitValue(s[1]) + DigitValue(s[2])
  {
    Decimal2(s[..2]);
  }

  /** A symbol cell becomes one symbol. */
  lemma ScanSymbol(line: string, row: nat, col: nat)
    requires col < |line| && line[col] != '.' && !IsAsciiDigit(line[col])
    ensures ScanLine(line, row, col)
         == Tokens(ScanLine(line, row, col + 1).parts, [Symbol(line[col], row, col)] + ScanLine(line, row, col + 1).symbols)
  {
  }

  /** A stretch of `.` cells yields nothing. */
  lemma {:induction false} ScanDots(line: string, row: nat, lo: nat, hi: nat)
    requires lo <= hi <= |line|
    requires forall j :: lo <= j < hi ==> line[j] == '.'
    ensures ScanLine(line, row, lo) == ScanLine(line, row, hi)
    decreases hi - lo
  {
    if lo < hi {
      ScanDots(line, row, lo + 1, hi);
    }
  }

  lemma Row0(line: string)
    requires line == "467..114.."
    ensures ScanLine(line, 0, 0) == Tokens([SpanPart(467, 0, 0, 3), SpanPart(114, 0, 5, 8)], [])
  {
    ScanDots(line, 0, 8, 10);
    Decimal3(line[5..8]);
    ScanRun(line, 0, 5, 8, 114);
    ScanDots(line, 0, 3, 5);
    Decimal3(line[0..3]);
    ScanRun(line, 0, 0, 3, 467);
  }

  lemma Row1(line: string)
    requires line == "...*......"
    ensures ScanLine(line, 1, 0) == Tokens([], [Symbol('*', 1, 3)])
  {
    ScanDots(line, 1, 4, 10);
    ScanSymbol(line, 1, 3);
    ScanDots(line, 1, 0, 3);
  }

  lemma Row2(line: string)
    requires line == "..35..633."
    ensures ScanLine(line, 2, 0) == Tokens([SpanPart(35, 2, 2, 4), SpanPart(633, 2, 6, 9)], [])
  {
    ScanDots(line, 2, 9, 10);
    Decimal3(line[6..9]);
    ScanRun(line, 2, 6, 9, 633);
    ScanDots(line, 2, 4, 6);
    Decimal2(line[2..4]);
    ScanRun(line, 2, 2, 4, 35);
    ScanDots(line, 2, 0, 2);
  }

  lemma Row3(line: string)
    requires line == "......#..."
    ensures ScanLine(line, 3, 0) == Tokens([], [Symbol('#', 3, 6)])
  {
    ScanDots(line, 3, 7, 10);
    ScanSymbol(line, 3, 6);
    ScanDots(line, 3, 0, 6);
  }

  lemma Row4(line: string)
    requires line == "617*......"
    ensures ScanLine(line, 4, 0) == Tokens([SpanPart(617, 4, 0, 3)], [Symbol('*', 4, 3)])
  {
    ScanDots(line, 4, 4, 10);
    ScanSymbol(line, 4, 3);
    Decimal3(line[0..3]);
    ScanRun(line, 4, 0, 3, 617);
  }

  lemma Row5(line: string)
    requires line == ".....+.58."
    ensures ScanLine(line, 5, 0) == Tokens([SpanPart(58, 5, 7, 9)], [Symbol('+', 5, 5)])
  {
    ScanDots(line, 5, 9, 10);
    Decimal2(line[7..9]);
    ScanRun(line, 5, 7, 9, 58);
    ScanDots(line, 5, 6, 7);
    ScanSymbol(line, 5, 5);
    ScanDots(line, 5, 0, 5);
  }

  lemma Row6(line: string)
    requires line == "..592....."
    ensures ScanLine(line, 6, 0) == Tokens([SpanPart(592, 6, 2, 5)], [])
  {
    ScanDots(line, 6, 5, 10);
    Decimal3(line[2..5]);
    ScanRun(line, 6, 2, 5, 592);
    ScanDots(line, 6, 0, 2);
  }

  lemma Row7(line: string)
    requires line == "......755."
    ensures ScanLine(line, 7, 0) == Tokens([SpanPart(755, 7, 6, 9)], [])
  {
    ScanDots(line, 7, 9, 10);
    Decimal3(line[6..9]);
    ScanRun(line, 7, 6, 9, 755);
    ScanDots(line, 7, 0, 6);
  }

  lemma Row8(line: string)
    requires line == "...$.*...."
    ensures ScanLine(line, 8, 0) == Tokens([], [Symbol('$', 8, 3), Symbol('*', 8, 5)])
  {
    ScanDots(line, 8, 6, 10);
    ScanSymbol(line, 8, 5);
    ScanDots(line, 8, 4, 5);
    ScanSymbol(line, 8, 3);
    ScanDots(line, 8, 0, 3);
  }

  lemma Row9(line: string)
    requires line == ".664.598.."
    ensures ScanLine(line, 9, 0) == Tokens([SpanPart(664, 9, 1, 4), SpanPart(598, 9, 5, 8)], [])
  {
    ScanDots(line, 9, 8, 10);
    Decimal3(line[5..8]);
    ScanRun(line, 9, 5, 8, 598);
    ScanDots(line, 9, 4, 5);
    Decimal3(line[1..4]);
    ScanRun(line, 9, 1, 4, 664);
    ScanDots(line, 9, 0, 1);
  }

  // ---------------------------------------------------------------------------
  // The whole example

  const SampleRows: seq<string> :=
    ["467..114..", "...*......", "..35..633.", "......#...", "617*......",
     ".....+.58.", "..592.....", "......755.", "...$.*....", ".664.598.."]

  /** The example as the tests hold it, each row ended by a line feed. */
  const Sample: string := Unlines(SampleRows)

  const SampleParts: seq<Part> :=
    [SpanPart(467, 0, 0, 3), SpanPart(114, 0, 5, 8), SpanPart(35, 2, 2, 4), SpanPart(633, 2, 6, 9),
     SpanPart(617, 4, 0, 3), SpanPart(58, 5, 7, 9), SpanPart(592, 6, 2, 5), SpanPart(755, 7, 6, 9),
     SpanPart(664, 9, 1, 4), SpanPart(598, 9, 5, 8)]

  const SampleSymbols: seq<Symbol> :=
    [Symbol('*', 1, 3), Symbol('#', 3, 6), Symbol('*', 4, 3), Symbol('+', 5, 5), Symbol('$', 8, 3), Symbol('*', 8, 5)]

  lemma SampleLines()
    ensures Lines(Sample) == SampleRows
  {
    var rows := SampleRows;
    forall k | 0 <= k < |rows| ensures '\n' !in rows[k] && rows[k][|rows[k]| - 1] != '\r' {
    }
    LinesOfUnlines(rows);
  }

  /** The tokens of every row, joined in row order. */
  function Concat(ts: seq<Tokens>): Tokens
    decreases |ts|
  {
    if |ts| == 0 then Tokens([], []) else Append(ts[0], Concat(ts[1..]))
  }

  /** Once the tokens of each row are known, the tokens of the grid are their concatenation. */
  lemma {:induction false} ScanRowsOf(lines: seq<string>, ts: seq<Tokens>, row: nat)
    requires |ts| == |lines| && row <= |lines|
    requires forall r :: row <= r < |lines| ==> ScanLine(lines[r], r, 0) == ts[r]
    ensures ScanRows(lines, row) == Concat(ts[row..])
    decreases |lines| - row
  {
    if row < |lines| {
      ScanRowsOf(lines, ts, row + 1);
      assert ts[row..][1..] == ts[row + 1..];
    }
  }

  /** One step of `Concat` over slices: the tokens of row `k` are the parts
      `a .. c - 1` and the symbols `b .. d - 1`, and later rows hold the rest. */
  lemma ConcatStep(ts: seq<Tokens>, k: nat, ps: seq<Part>, ss: seq<Symbol>, a: nat, c: nat, b: nat, d: nat)
    requires k < |ts| && a <= c <= |ps| && b <= d <= |ss|
    requires ts[k] == Tokens(ps[a..c], ss[b..d])
    requires Concat(ts[k + 1..]) == Tokens(ps[c..], ss[d..])
    ensures Concat(ts[k..]) == Tokens(ps[a..], ss[b..])
  {
    assert ts[k..][1..] == ts[k + 1..];
    assert ps[a..c] + ps[c..] == ps[a..];
    assert ss[b..d] + ss[d..] == ss[b..];
  }

  /** The tokens of each row of the example, as slices of its parts and symbols. */
  const RowTokens: seq<Tokens> :=
    [Tokens(SampleParts[0..2], SampleSymbols[0..0]), Tokens(SampleParts[2..2], SampleSymbols[0..1]),
     Tokens(SampleParts[2..4], SampleSymbols[1..1]), Tokens(SampleParts[4..4], SampleSymbols[1..2]),
     Tokens(SampleParts[4..5], SampleSymbols[2..3]), Tokens(SampleParts[5..6], SampleSymbols[3..4]),
     Tokens(SampleParts[6..7], SampleSymbols[4..4]), Tokens(SampleParts[7..8], SampleSymbols[4..4]),
     Tokens(SampleParts[8..8], SampleSymbols[4..6]), Tokens(SampleParts[8..10], SampleSymbols[6..6])]

  lemma RowTableTop(r: nat)
    requires r < 3
    ensures ScanLine(SampleRows[r], r, 0) == RowTokens[r]
  {
    var line := SampleRows[r];
    if r == 0 { Row0(line); }
    else if r == 1 { Row1(line); }
    else { Row2(line); }
  }

  lemma RowTableMiddle(r: nat)
    requires 3 <= r < 5
    ensures ScanLine(SampleRows[r], r, 0) == RowTokens[r]
  {
    var line := SampleRows[r];
    if r == 3 { Row3(line); }
    else { Row4(line); }
  }

  lemma RowTableLower(r: nat)
    requires 5 <= r < 10
    ensures ScanLine(SampleRows[r], r, 0) == RowTokens[r]
  {
    var line := SampleRows[r];
    if r == 5 { Row5(line); }
    else if r == 6 { Row6(line); }
    else if r == 7 { Row7(line); }
    else if r == 8 { Row8(line); }
    else { Row9(line); }
  }

  /** Rows 5 to 9 hold the parts from 58 on and the symbols from `+` on. */
  lemma ConcatLowerRows()
    ensures Concat(RowTokens[5..]) == Tokens(SampleParts[5..], SampleSymbols[3..])
  {
    var ts, ps, ss := RowTokens, SampleParts, SampleSymbols;
    assert Concat(ts[10..]) == Tokens(ps[10..], ss[6..]);
    ConcatStep(ts, 9, ps, ss, 8, 10, 6, 6);
    ConcatStep(ts, 8, ps, ss, 8, 8, 4, 6);
    ConcatStep(ts, 7, ps, ss, 7, 8, 4, 4);
    ConcatStep(ts, 6, ps, ss, 6, 7, 4, 4);
    ConcatStep(ts, 5, ps, ss, 5, 6, 3, 4);
  }

  lemma ConcatRowTokens()
    ensures Concat(RowTokens) == Tokens(SampleParts, SampleSymbols)
  {
    var ts, ps, ss := RowTokens, SampleParts, SampleSymbols;
    ConcatLowerRows();
    ConcatStep(ts, 4, ps, ss, 4, 5, 2, 3);
    ConcatStep(ts, 3, ps, ss, 4, 4, 1, 2);
    ConcatStep(ts, 2, ps, ss, 2, 4, 1, 1);
    ConcatStep(ts, 1, ps, ss, 2, 2, 0, 1);
    ConcatStep(ts, 0, ps, ss, 0, 2, 0, 0);
    assert ts[0..] == ts;
  }

  /** `read_parts_symbols` on the example finds ten parts and six symbols. */
  lemma SampleTokens()
    ensures Tokenize(Lines(Sample)) == Tokens(SampleParts, SampleSymbols)
  {
    SampleLines();
    forall r | 0 <= r < |SampleRows| ensures ScanLine(SampleRows[r], r, 0) == RowTokens[r] {
      if r < 3 { RowTableTop(r); } else if r < 5 { RowTableMiddle(r); } else { RowTableLower(r); }
    }
    ScanRowsOf(SampleRows, RowTokens, 0);
    assert RowTokens[0..] == RowTokens;
    ConcatRowTokens();
  }

  // ---------------------------------------------------------------------------
  // Part 1 on the example

  /** Adjacency to a part spanning the columns `lo .. hi - 1`, as a window. */
  lemma SpanAdjacent(n: nat, row: nat, lo: nat, hi: nat, s: Symbol)
    requires lo < hi
    ensures Adjacent(SpanPart(n, row, lo, hi), s) <==>
      AbsDiff(row, s.row) <= 1 && lo <= s.column + 1 && s.column <= hi
  {
    AdjacentSpan(SpanPart(n, row, lo, hi), s, lo, hi);
  }

  lemma NearBy(p: Part, k: nat)
    requires k < |SampleSymbols| && Adjacent(p, SampleSymbols[k])
    ensures NearSymbol(p, SampleSymbols)
  {
    assert SampleSymbols[k] in SampleSymbols;
  }

  lemma FarFromAll(p: Part)
    requires forall k :: 0 <= k < |SampleSymbols| ==> !Adjacent(p, SampleSymbols[k])
    ensures !NearSymbol(p, SampleSymbols)
  {
  }

  /** Every part of the example touches a symbol except 114 (top right) and
      58 (middle right). */
  lemma SampleNear(k: nat)
    requires k < |SampleParts|
    ensures NearSymbol(SampleParts[k], SampleSymbols) <==> k != 1 && k != 5
  {
    var p, ss := SampleParts[k], SampleSymbols;
    if k == 0 { SpanAdjacent(467, 0, 0, 3, ss[0]); NearBy(p, 0); }
    else if k == 1 {
      forall j | 0 <= j < |ss| ensures !Adjacent(p, ss[j]) { SpanAdjacent(114, 0, 5, 8, ss[j]); }
      FarFromAll(p);
    }
    else if k == 2 { SpanAdjacent(35, 2, 2, 4, ss[0]); NearBy(p, 0); }
    else if k == 3 { SpanAdjacent(633, 2, 6, 9, ss[1]); NearBy(p, 1); }
    else if k == 4 { SpanAdjacent(617, 4, 0, 3, ss[2]); NearBy(p, 2); }
    else if k == 5 {
      forall j | 0 <= j < |ss| ensures !Adjacent(p, ss[j]) { SpanAdjacent(58, 5, 7, 9, ss[j]); }
      FarFromAll(p);
    }
    else if k == 6 { SpanAdjacent(592, 6, 2, 5, ss[3]); NearBy(p, 3); }
    else if k == 7 { SpanAdjacent(755, 7, 6, 9, ss[5]); NearBy(p, 5); }
    else if k == 8 { SpanAdjacent(664, 9, 1, 4, ss[4]); NearBy(p, 4); }
    else { SpanAdjacent(598, 9, 5, 8, ss[5]); NearBy(p, 5); }
  }

  lemma SumOfAt<T>(xs: seq<T>, f: T -> nat, k: nat)
    requires k < |xs|
    ensures SumOf(xs[k..], f) == f(xs[k]) + SumOf(xs[k + 1..], f)
  {
    assert xs[k..][1..] == xs[k + 1..];
  }

  lemma WeightAt(k: nat)
    requires k < |SampleParts|
    ensures NearWeight(SampleSymbols)(SampleParts[k]) == if k == 1 || k == 5 then 0 else SampleParts[k].number
  {
    SampleNear(k);
  }

  /** The parts from 58 on add 592 + 755 + 664 + 598. */
  lemma LowerWeights()
    ensures SumOf(SampleParts[5..], NearWeight(SampleSymbols)) == 2609
  {
    var ps, w := SampleParts, NearWeight(SampleSymbols);
    WeightAt(5); WeightAt(6); WeightAt(7); WeightAt(8); WeightAt(9);
    SumOfAt(ps, w, 9);
    SumOfAt(ps, w, 8);
    SumOfAt(ps, w, 7);
    SumOfAt(ps, w, 6);
    SumOfAt(ps, w, 5);
  }

  lemma SampleWeights()
    ensures SumOf(SampleParts, NearWeight(SampleSymbols)) == 4361
  {
    var ps, w := SampleParts, NearWeight(SampleSymbols);
    WeightAt(0); WeightAt(1); WeightAt(2); WeightAt(3); WeightAt(4);
    LowerWeights();
    SumOfAt(ps, w, 4);
    SumOfAt(ps, w, 3);
    SumOfAt(ps, w, 2);
    SumOfAt(ps, w, 1);
    SumOfAt(ps, w, 0);
    assert ps[0..] == ps;
  }

  /** The part-1 test: on the example, the parts next to a symbol sum to 4361. */
  lemma SamplePartSum()
    ensures var t := Tokenize(Lines(Sample)); PartSum(AdjacentParts(t.parts, t.symbols)) == 4361
  {
    SampleTokens();
    PartSumOfAdjacent(SampleParts, SampleSymbols);
    SampleWeights();
  }

  // ---------------------------------------------------------------------------
  // Part 2 on the example

  /** Which parts touch the three `*` symbols of the example: 467 and 35
      the first, 617 alone the second, 755 and 598 the third. */
  lemma StarTouches(k: nat, j: nat)
    requires k < |SampleParts| && (j == 0 || j == 2 || j == 5)
    ensures Touches(SampleSymbols[j])(SampleParts[k]) <==>
      (j == 0 && (k == 0 || k == 2)) || (j == 2 && k == 4) || (j == 5 && (k == 7 || k == 9))
  {
    var s := SampleSymbols[j];
    if k == 0 { SpanAdjacent(467, 0, 0, 3, s); }
    else if k == 1 { SpanAdjacent(114, 0, 5, 8, s); }
    else if k == 2 { SpanAdjacent(35, 2, 2, 4, s); }
    else if k == 3 { SpanAdjacent(633, 2, 6, 9, s); }
    else if k == 4 { SpanAdjacent(617, 4, 0, 3, s); }
    else if k == 5 { SpanAdjacent(58, 5, 7, 9, s); }
    else if k == 6 { SpanAdjacent(592, 6, 2, 5, s); }
    else if k == 7 { SpanAdjacent(755, 7, 6, 9, s); }
    else if k == 8 { SpanAdjacent(664, 9, 1, 4, s); }
    else { SpanAdjacent(598, 9, 5, 8, s); }
  }

  /** The `*` a row below 467 touches 467 and 35 only: a gear of ratio 16345. */
  lemma FirstGear()
    ensures GearAt(SampleSymbols[0], SampleParts) == Some(Gear(467, 35))
  {
    var ps, s := SampleParts, SampleSymbols[0];
    forall k | 0 <= k < |ps| ensures Touches(s)(ps[k]) <==> k == 0 || k == 2 { StarTouches(k, 0); }
    assert OnlyHits(ps, Touches(s), 0, 2);
    GearAtExactlyTwo(s, ps, Gear(467, 35));
  }

  /** The `*` next to 617 touches no other part, so it is no gear. */
  lemma LonelyStar()
    ensures GearAt(SampleSymbols[2], SampleParts) == None
  {
    var ps, s := SampleParts, SampleSymbols[2];
    forall k | 0 <= k < |ps| ensures Touches(s)(ps[k]) <==> k == 4 { StarTouches(k, 2); }
    forall i: nat, j: nat ensures !OnlyHits(ps, Touches(s), i, j) { }
    if GearAt(s, ps).Some? {
      GearAtExactlyTwo(s, ps, GearAt(s, ps).value);
      assert false;
    }
  }

  /** The `*` between 755 and 598 is a gear of ratio 451490. */
  lemma LastGear()
    ensures GearAt(SampleSymbols[5], SampleParts) == Some(Gear(755, 598))
  {
    var ps, s := SampleParts, SampleSymbols[5];
    forall k | 0 <= k < |ps| ensures Touches(s)(ps[k]) <==> k == 7 || k == 9 { StarTouches(k, 5); }
    assert OnlyHits(ps, Touches(s), 7, 9);
    GearAtExactlyTwo(s, ps, Gear(755, 598));
  }

  lemma GearsOfAt(parts: seq<Part>, xs: seq<Symbol>, n: nat)
    requires n < |xs|
    ensures GearsOf(parts, xs[n..]) ==
      (if GearAt(xs[n], parts).Some? then [GearAt(xs[n], parts).value] else []) + GearsOf(parts, xs[n + 1..])
  {
    assert xs[n..][1..] == xs[n + 1..];
  }

  /** Only the first and the last symbol of the example are gears; the
      others are not `*` or, like the `*` next to 617, have one neighbour. */
  lemma GearTable(j: nat)
    requires j < |SampleSymbols|
    ensures GearAt(SampleSymbols[j], SampleParts) == GearsTable[j]
  {
    if j == 0 { FirstGear(); }
    else if j == 2 { LonelyStar(); }
    else if j == 5 { LastGear(); }
    else { NotStar(SampleSymbols[j], SampleParts); }
  }

  lemma NotStar(symbol: Symbol, parts: seq<Part>)
    requires symbol.value != '*'
    ensures GearAt(symbol, parts) == None
  {
  }

  /** The values inside the `Some`s of `table`, in order. */
  function Somes<T>(table: seq<Option<T>>): seq<T> {
    if |table| == 0 then []
    else (if table[0].Some? then [table[0].value] else []) + Somes(table[1..])
  }

  /** `GearsOf` only depends on the gear each symbol makes. */
  lemma {:induction false} GearsOfTable(parts: seq<Part>, xs: seq<Symbol>, table: seq<Option<Gear>>)
    requires |table| == |xs|
    requires forall n :: 0 <= n < |xs| ==> GearAt(xs[n], parts) == table[n]
    ensures GearsOf(parts, xs) == Somes(table)
    decreases |xs|
  {
    if |xs| > 0 {
      GearsOfTable(parts, xs[1..], table[1..]);
    }
  }

  /** What each symbol of the example makes. */
  const GearsTable: seq<Option<Gear>> := [Some(Gear(467, 35)), None, None, None, None, Some(Gear(755, 598))]

  lemma GearsTableHolds()
    ensures forall n :: 0 <= n < |SampleSymbols| ==> GearAt(SampleSymbols[n], SampleParts) == GearsTable[n]
  {
    forall n | 0 <= n < |SampleSymbols| ensures GearAt(SampleSymbols[n], SampleParts) == GearsTable[n] {
      GearTable(n);
    }
  }

  lemma SomesOfGearsTable()
    ensures Somes(GearsTable) == [Gear(467, 35), Gear(755, 598)]
  {
    assert Somes(GearsTable[5..]) == [Gear(755, 598)] by {
      assert GearsTable[5..][1..] == [];
    }
    assert GearsTable[1..][1..][1..][1..][1..] == GearsTable[5..];
  }

  /** The example has two gears, in symbol order. */
  lemma SampleGears()
    ensures GearsOf(SampleParts, SampleSymbols) == [Gear(467, 35), Gear(755, 598)]
  {
    GearsTableHolds();
    GearsOfTable(SampleParts, SampleSymbols, GearsTable);
    SomesOfGearsTable();
  }

  /** The part-2 test: on the example, the gear ratios sum to 467835. */
  lemma SampleRatioSum()
    ensures var t := Tokenize(Lines(Sample)); RatioSum(GearsOf(t.parts, t.symbols)) == 467835
  {
    SampleTokens();
    SampleGears();
    var g := [Gear(467, 35), Gear(755, 598)];
    assert g[1..][1..] == [];
  }
}
