/** Day 3: the engine schematic. A grid of text is tokenized into part numbers
    (maximal horizontal runs of ASCII digits) and symbols (every other
    character except `.`); parts next to a symbol, and `*` symbols next to
    exactly two parts ("gears"), are then aggregated. */
module Schematic {
  import opened Text
  import opened Seqs

  /** A part number: its value, its row and every column its digits occupy. */
  datatype Part = Part(number: nat, row: nat, columns: seq<nat>)

  /** A single-cell symbol. */
  datatype Symbol = Symbol(value: char, row: nat, column: nat)

  /** A `*` with exactly two neighbouring parts, carrying their numbers. */
  datatype Gear = Gear(a: nat, b: nat)

  /** What the tokenizer yields: parts and symbols, each in discovery order. */
  datatype Tokens = Tokens(parts: seq<Part>, symbols: seq<Symbol>)

  function Append(t: Tokens, u: Tokens): Tokens {
    Tokens(t.parts + u.parts, t.symbols + u.symbols)
  }

  function AbsDiff(x: nat, y: nat): nat {
    if x < y then y - x else x - y
  }

  /** The columns `lo, lo + 1, ..., hi - 1`. */
  function Range(lo: nat, hi: nat): seq<nat>
    requires lo <= hi
  {
    seq(hi - lo, k requires 0 <= k < hi - lo => lo + k)
  }

  // ---------------------------------------------------------------------------
  // Tokenizer

  /** The first column at or after `col` that does not hold an ASCII digit. */
  function RunEnd(line: string, col: nat): (end: nat)
    requires col <= |line|
    ensures col <= end <= |line|
    ensures forall j :: col <= j < end ==> IsAsciiDigit(line[j])
    ensures end == |line| || !IsAsciiDigit(line[end])
    decreases |line| - col
  {
    if col < |line| && IsAsciiDigit(line[col]) then RunEnd(line, col + 1) else col
  }

  /** The tokens of `line`, which is row `row`, from column `col` on: `.` is
      skipped, a digit starts a part that takes the whole run of digits, any
      other character is a symbol. */
  function ScanLine(line: string, row: nat, col: nat): Tokens
    requires col <= |line|
    decreases |line| - col
  {
    if col == |line| then Tokens([], [])
    else if line[col] == '.' then ScanLine(line, row, col + 1)
    else if IsAsciiDigit(line[col]) then
      var end := RunEnd(line, col);
      var rest := ScanLine(line, row, end);
      Tokens([Part(Decimal(line[col..end]), row, Range(col, end))] + rest.parts, rest.symbols)
    else
      var rest := ScanLine(line, row, col + 1);
      Tokens(rest.parts, [Symbol(line[col], row, col)] + rest.symbols)
  }

  /** The tokens of rows `row`, `row + 1`, ... of `lines`. */
  function ScanRows(lines: seq<string>, row: nat): Tokens
    requires row <= |lines|
    decreases |lines| - row
  {
    if row == |lines| then Tokens([], [])
    else Append(ScanLine(lines[row], row, 0), ScanRows(lines, row + 1))
  }

  function Tokenize(lines: seq<string>): Tokens {
    ScanRows(lines, 0)
  }

  /** `read_parts_symbols`: every line in turn, numbered from 0. */
  method ReadPartsSymbols(input: string) returns (parts: seq<Part>, symbols: seq<Symbol>)
    ensures Tokens(parts, symbols) == Tokenize(Lines(input))
  {
    parts, symbols := ReadRows(Lines(input));
  }

  /** The loop of `read_parts_symbols` over the lines of the input. */
  method ReadRows(lines: seq<string>) returns (parts: seq<Part>, symbols: seq<Symbol>)
    ensures Tokens(parts, symbols) == Tokenize(lines)
  {
    ghost var all := Tokenize(lines);
    parts, symbols := [], [];
    for row := 0 to |lines|
      invariant parts + ScanRows(lines, row).parts == all.parts
      invariant symbols + ScanRows(lines, row).symbols == all.symbols
    {
      ghost var line := ScanLine(lines[row], row, 0);
      ghost var later := ScanRows(lines, row + 1);
      ghost var before := Tokens(parts, symbols);
      assert ScanRows(lines, row) == Append(line, later);
      parts, symbols := ReadLine(lines[row], row, parts, symbols);
      assert parts + later.parts == all.parts by {
        assert (before.parts + line.parts) + later.parts == before.parts + (line.parts + later.parts);
      }
      assert symbols + later.symbols == all.symbols by {
        assert (before.symbols + line.symbols) + later.symbols == before.symbols + (line.symbols + later.symbols);
      }
    }
    assert ScanRows(lines, |lines|) == Tokens([], []);
  }

  /** The body of `read_parts_symbols` for one line: a single pass with a
      one-character lookahead that extends a run of digits, pushing onto the
      `parts` and `symbols` collected so far. */
  method ReadLine(line: string, row: nat, parts0: seq<Part>, symbols0: seq<Symbol>)
    returns (parts: seq<Part>, symbols: seq<Symbol>)
    ensures parts == parts0 + ScanLine(line, row, 0).parts
    ensures symbols == symbols0 + ScanLine(line, row, 0).symbols
  {
    parts, symbols := parts0, symbols0;
    var column := 0;
    while column < |line|
      invariant column <= |line|
      invariant column == 0 || !IsAsciiDigit(line[column - 1]) || column == |line| || !IsAsciiDigit(line[column])
      invariant parts + ScanLine(line, row, column).parts == parts0 + ScanLine(line, row, 0).parts
      invariant symbols + ScanLine(line, row, column).symbols == symbols0 + ScanLine(line, row, 0).symbols
    {
      ghost var here := ScanLine(line, row, column);
      var character := line[column];
      column := column + 1;
      if character == '.' {
        assert here == ScanLine(line, row, column);
        continue;
      }
      if IsAsciiDigit(character) {
        var start := column - 1;
        var digits, columns;
        digits, columns, column := ReadDigits(line, start);
        var number := ParseUsize(digits).value;
        ghost var rest := ScanLine(line, row, column);
        assert here == Tokens([Part(number, row, columns)] + rest.parts, rest.symbols);
        assert parts + [Part(number, row, columns)] + rest.parts == parts + here.parts;
        parts := parts + [Part(number, row, columns)];
        continue;
      }
      ghost var rest := ScanLine(line, row, column);
      assert here == Tokens(rest.parts, [Symbol(character, row, column - 1)] + rest.symbols);
      assert symbols + [Symbol(character, row, column - 1)] + rest.symbols == symbols + here.symbols;
      symbols := symbols + [Symbol(character, row, column - 1)];
    }
  }

  /** The digit-run part of `read_parts_symbols`: starting from the digit at
      `start`, takes digits while the next character is one. */
  method ReadDigits(line: string, start: nat) returns (digits: string, columns: seq<nat>, column: nat)
    requires start < |line| && IsAsciiDigit(line[start])
    ensures column == RunEnd(line, start)
    ensures digits == line[start..column] && columns == Range(start, column)
  {
    column := start + 1;
    digits, columns := [line[start]], [start];
    while column < |line|
      invariant start < column <= |line|
      invariant digits == line[start..column] && columns == Range(start, column)
      invariant RunEnd(line, column) == RunEnd(line, start)
    {
      if IsAsciiDigit(line[column]) {
        assert line[start..column + 1] == line[start..column] + [line[column]];
        assert Range(start, column + 1) == Range(start, column) + [column];
        digits := digits + [line[column]];
        columns := columns + [column];
        column := column + 1;
      } else {
        break;
      }
    }
  }

  /** `p` is a maximal run of digits of `lines`: at least one column, the
      columns consecutive, every one a digit, neither neighbour a digit, and
      `number` the run's decimal value (so `|columns|` is its digit count). */
  predicate IsPartOf(lines: seq<string>, p: Part) {
    && p.row < |lines|
    && |p.columns| > 0
    && var line, lo := lines[p.row], p.columns[0];
    && lo + |p.columns| <= |line|
    && p.columns == Range(lo, lo + |p.columns|)
    && AllDigits(line[lo..lo + |p.columns|])
    && p.number == Decimal(line[lo..lo + |p.columns|])
    && (lo == 0 || !IsAsciiDigit(line[lo - 1]))
    && (lo + |p.columns| == |line| || !IsAsciiDigit(line[lo + |p.columns|]))
  }

  /** `s` is a cell of `lines` holding neither `.` nor a digit, and its character. */
  predicate IsSymbolOf(lines: seq<string>, s: Symbol) {
    && s.row < |lines|
    && s.column < |lines[s.row]|
    && lines[s.row][s.column] == s.value
    && s.value != '.'
    && !IsAsciiDigit(s.value)
  }

  /** Column `col` of `line` is not inside a run of digits (the scan is never
      resumed in the middle of a number). */
  predicate AtBoundary(line: string, col: nat)
    requires col <= |line|
  {
    col == 0 || col == |line| || !IsAsciiDigit(line[col - 1]) || !IsAsciiDigit(line[col])
  }

  lemma {:induction false} ScanLineSound(lines: seq<string>, row: nat, col: nat)
    requires row < |lines| && col <= |lines[row]| && AtBoundary(lines[row], col)
    ensures forall p :: p in ScanLine(lines[row], row, col).parts ==>
      IsPartOf(lines, p) && p.row == row && p.columns[0] >= col
    ensures forall s :: s in ScanLine(lines[row], row, col).symbols ==>
      IsSymbolOf(lines, s) && s.row == row && s.column >= col
    decreases |lines[row]| - col
  {
    var line := lines[row];
    if col < |line| {
      if line[col] == '.' {
        ScanLineSound(lines, row, col + 1);
      } else if IsAsciiDigit(line[col]) {
        var end := RunEnd(line, col);
        ScanLineSound(lines, row, end);
        var p := Part(Decimal(line[col..end]), row, Range(col, end));
        assert IsPartOf(lines, p);
      } else {
        ScanLineSound(lines, row, col + 1);
      }
    }
  }

  lemma {:induction false} ScanRowsSound(lines: seq<string>, row: nat)
    requires row <= |lines|
    ensures forall p :: p in ScanRows(lines, row).parts ==> IsPartOf(lines, p) && p.row >= row
    ensures forall s :: s in ScanRows(lines, row).symbols ==> IsSymbolOf(lines, s) && s.row >= row
    decreases |lines| - row
  {
    if row < |lines| {
      ScanLineSound(lines, row, 0);
      ScanRowsSound(lines, row + 1);
    }
  }

  /** Every token the tokenizer yields is where it claims to be: a part is a
      maximal digit run with its decimal value, a symbol a cell that is
      neither `.` nor a digit. In particular no token covers a `.` cell. */
  lemma TokenizeSound(lines: seq<string>)
    ensures forall p :: p in Tokenize(lines).parts ==> IsPartOf(lines, p)
    ensures forall s :: s in Tokenize(lines).symbols ==> IsSymbolOf(lines, s)
  {
    ScanRowsSound(lines, 0);
  }

  lemma {:induction false} ScanLineComplete(lines: seq<string>, row: nat, col: nat)
    requires row < |lines| && col <= |lines[row]| && AtBoundary(lines[row], col)
    ensures forall c :: col <= c < |lines[row]| && lines[row][c] != '.' && !IsAsciiDigit(lines[row][c]) ==>
      Symbol(lines[row][c], row, c) in ScanLine(lines[row], row, col).symbols
    ensures forall c :: col <= c < |lines[row]| && IsAsciiDigit(lines[row][c]) ==>
      exists p :: p in ScanLine(lines[row], row, col).parts && c in p.columns
    decreases |lines[row]| - col
  {
    var line := lines[row];
    if col < |line| {
      if line[col] == '.' {
        ScanLineComplete(lines, row, col + 1);
      } else if IsAsciiDigit(line[col]) {
        var end := RunEnd(line, col);
        ScanLineComplete(lines, row, end);
        var t := ScanLine(line, row, col);
        var p := t.parts[0];
        assert forall c :: col <= c < end ==> c in p.columns by {
          forall c | col <= c < end ensures c in p.columns {
            assert p.columns[c - col] == c;
          }
        }
        assert forall c :: end <= c < |line| && IsAsciiDigit(line[c]) ==> exists q :: q in t.parts && c in q.columns by {
          forall c | end <= c < |line| && IsAsciiDigit(line[c]) ensures exists q :: q in t.parts && c in q.columns {
            var q :| q in ScanLine(line, row, end).parts && c in q.columns;
            assert q in t.parts;
          }
        }
      } else {
        ScanLineComplete(lines, row, col + 1);
      }
    }
  }

  lemma {:induction false} ScanRowsComplete(lines: seq<string>, row: nat)
    requires row <= |lines|
    ensures forall r, c :: row <= r < |lines| && 0 <= c < |lines[r]| && lines[r][c] != '.' && !IsAsciiDigit(lines[r][c]) ==>
      Symbol(lines[r][c], r, c) in ScanRows(lines, row).symbols
    ensures forall r, c :: row <= r < |lines| && 0 <= c < |lines[r]| && IsAsciiDigit(lines[r][c]) ==>
      exists p :: p in ScanRows(lines, row).parts && p.row == r && c in p.columns
    decreases |lines| - row
  {
    if row < |lines| {
      ScanLineComplete(lines, row, 0);
      ScanLineSound(lines, row, 0);
      ScanRowsComplete(lines, row + 1);
      var t := ScanRows(lines, row);
      forall r, c | row <= r < |lines| && 0 <= c < |lines[r]| && IsAsciiDigit(lines[r][c])
        ensures exists p :: p in t.parts && p.row == r && c in p.columns
      {
        if r == row {
          var p :| p in ScanLine(lines[row], row, 0).parts && c in p.columns;
          assert p in t.parts;
        } else {
          var p :| p in ScanRows(lines, row + 1).parts && p.row == r && c in p.columns;
          assert p in t.parts;
        }
      }
    }
  }

  /** Nothing is missed: every cell that is neither `.` nor a digit yields a
      symbol with its character, row and column, and every digit cell lies in
      a part on its row. */
  lemma TokenizeComplete(lines: seq<string>)
    ensures forall r, c :: 0 <= r < |lines| && 0 <= c < |lines[r]| && lines[r][c] != '.' && !IsAsciiDigit(lines[r][c]) ==>
      Symbol(lines[r][c], r, c) in Tokenize(lines).symbols
    ensures forall r, c :: 0 <= r < |lines| && 0 <= c < |lines[r]| && IsAsciiDigit(lines[r][c]) ==>
      exists p :: p in Tokenize(lines).parts && p.row == r && c in p.columns
  {
    ScanRowsComplete(lines, 0);
  }

  /** `p` ends before `q` starts, in reading order (row by row, left to right). */
  predicate PartBefore(p: Part, q: Part) {
    p.row < q.row || (p.row == q.row && |p.columns| > 0 && |q.columns| > 0 && p.columns[|p.columns| - 1] < q.columns[0])
  }

  predicate SymbolBefore(s: Symbol, t: Symbol) {
    s.row < t.row || (s.row == t.row && s.column < t.column)
  }

  lemma {:induction false} ScanLineOrdered(line: string, row: nat, col: nat)
    requires col <= |line|
    ensures var t := ScanLine(line, row, col);
      && (forall p :: p in t.parts ==> p.row == row && |p.columns| > 0 && p.columns[0] >= col)
      && (forall s :: s in t.symbols ==> s.row == row && s.column >= col)
      && (forall i, j :: 0 <= i < j < |t.parts| ==> PartBefore(t.parts[i], t.parts[j]))
      && (forall i, j :: 0 <= i < j < |t.symbols| ==> SymbolBefore(t.symbols[i], t.symbols[j]))
    decreases |line| - col
  {
    if col < |line| {
      if line[col] == '.' {
        ScanLineOrdered(line, row, col + 1);
      } else if IsAsciiDigit(line[col]) {
        ScanLineOrdered(line, row, RunEnd(line, col));
      } else {
        ScanLineOrdered(line, row, col + 1);
      }
    }
  }

  lemma {:induction false} ScanRowsOrdered(lines: seq<string>, row: nat)
    requires row <= |lines|
    ensures var t := ScanRows(lines, row);
      && (forall p :: p in t.parts ==> p.row >= row)
      && (forall s :: s in t.symbols ==> s.row >= row)
      && (forall i, j :: 0 <= i < j < |t.parts| ==> PartBefore(t.parts[i], t.parts[j]))
      && (forall i, j :: 0 <= i < j < |t.symbols| ==> SymbolBefore(t.symbols[i], t.symbols[j]))
    decreases |lines| - row
  {
    if row < |lines| {
      ScanLineOrdered(lines[row], row, 0);
      ScanRowsOrdered(lines, row + 1);
      var here, later := ScanLine(lines[row], row, 0), ScanRows(lines, row + 1);
      var t := ScanRows(lines, row);
      assert t.parts == here.parts + later.parts;
      assert t.symbols == here.symbols + later.symbols;
      forall i, j | 0 <= i < j < |t.parts| ensures PartBefore(t.parts[i], t.parts[j]) {
        if i < |here.parts| && j >= |here.parts| {
          assert t.parts[i] in here.parts && t.parts[j] in later.parts;
        }
      }
      forall i, j | 0 <= i < j < |t.symbols| ensures SymbolBefore(t.symbols[i], t.symbols[j]) {
        if i < |here.symbols| && j >= |here.symbols| {
          assert t.symbols[i] in here.symbols && t.symbols[j] in later.symbols;
        }
      }
    }
  }

  /** Tokens come out in reading order, so no part and no symbol is listed twice. */
  lemma TokenizeOrdered(lines: seq<string>)
    ensures forall i, j :: 0 <= i < j < |Tokenize(lines).parts| ==> PartBefore(Tokenize(lines).parts[i], Tokenize(lines).parts[j])
    ensures forall i, j :: 0 <= i < j < |Tokenize(lines).symbols| ==> SymbolBefore(Tokenize(lines).symbols[i], Tokenize(lines).symbols[j])
    ensures Distinct(Tokenize(lines).parts) && Distinct(Tokenize(lines).symbols)
  {
    ScanRowsOrdered(lines, 0);
    TokenizeSound(lines);
    assert Tokenize(lines) == ScanRows(lines, 0);
    var ps := Tokenize(lines).parts;
    forall i, j | 0 <= i < j < |ps| ensures ps[i] != ps[j] {
      var p := ps[i];
      assert PartBefore(p, ps[j]);
      assert IsPartOf(lines, p);
      assert p.columns[|p.columns| - 1] == p.columns[0] + |p.columns| - 1;
    }
  }

  // ---------------------------------------------------------------------------
  // Adjacency

  /** `adjacent`: the rows differ by at most one and some column of the part
      is within one of the symbol's column. */
  predicate Adjacent(part: Part, symbol: Symbol) {
    AbsDiff(part.row, symbol.row) <= 1 && exists c :: c in part.columns && AbsDiff(c, symbol.column) <= 1
  }

  /** The part touches at least one of `symbols`. */
  predicate NearSymbol(part: Part, symbols: seq<Symbol>) {
    exists s :: s in symbols && Adjacent(part, s)
  }

  /** For a part whose columns are `lo .. hi - 1`, adjacency is the
      inclusive column window `lo - 1 .. hi`: every column of the span counts,
      not only one representative cell. */
  lemma AdjacentSpan(part: Part, symbol: Symbol, lo: nat, hi: nat)
    requires lo < hi && part.columns == Range(lo, hi)
    ensures Adjacent(part, symbol) <==>
      AbsDiff(part.row, symbol.row) <= 1 && lo <= symbol.column + 1 && symbol.column <= hi
  {
    var window := lo <= symbol.column + 1 && symbol.column <= hi;
    if window {
      var c := if symbol.column < lo then lo else if symbol.column >= hi then hi - 1 else symbol.column;
      assert part.columns[c - lo] == c;
      assert c in part.columns && AbsDiff(c, symbol.column) <= 1;
    }
    if c :| c in part.columns && AbsDiff(c, symbol.column) <= 1 {
      var k :| 0 <= k < |part.columns| && part.columns[k] == c;
      assert c == lo + k && k < hi - lo;
      assert window;
    }
  }

  /** `adjacent_parts`: the parts that touch some symbol, in part order. */
  function AdjacentParts(parts: seq<Part>, symbols: seq<Symbol>): (r: seq<Part>)
    ensures forall p :: multiset(r)[p] == if NearSymbol(p, symbols) then multiset(parts)[p] else 0
    ensures SubsequenceOf(r, parts)
    ensures Distinct(parts) ==> Distinct(r)
  {
    Filter(parts, p => NearSymbol(p, symbols))
  }

  /** `part_sum`: the sum of the parts' numbers. */
  function PartSum(parts: seq<Part>): nat {
    SumOf(parts, (p: Part) => p.number)
  }

  /** What a part adds to the part sum: its number when it touches one of
      `symbols`, and 0 otherwise. */
  function NearWeight(symbols: seq<Symbol>): Part -> nat {
    p => if NearSymbol(p, symbols) then p.number else 0
  }

  /** The part sum counts each part once, with its number if it touches a
      symbol and 0 otherwise; with no adjacent part the total is 0. */
  lemma PartSumOfAdjacent(parts: seq<Part>, symbols: seq<Symbol>)
    ensures PartSum(AdjacentParts(parts, symbols)) == SumOf(parts, NearWeight(symbols))
  {
    var keep, number := (p: Part) => NearSymbol(p, symbols), (p: Part) => p.number;
    SumOfFilter(parts, keep, number);
    SumOfPointwise(parts, Masked(keep, number), NearWeight(symbols));
  }

  /** The part sum depends on neither the order of the parts nor that of the
      symbols. */
  lemma PartSumReorder(parts: seq<Part>, symbols: seq<Symbol>, parts': seq<Part>, symbols': seq<Symbol>)
    requires multiset(parts) == multiset(parts')
    requires forall s :: s in symbols <==> s in symbols'
    ensures PartSum(AdjacentParts(parts, symbols)) == PartSum(AdjacentParts(parts', symbols'))
  {
    var r, r' := AdjacentParts(parts, symbols), AdjacentParts(parts', symbols');
    assert forall p :: NearSymbol(p, symbols) == NearSymbol(p, symbols');
    assert multiset(r) == multiset(r') by {
      forall p ensures multiset(r)[p] == multiset(r')[p] { }
    }
    SumOfPermutation(r, r', (p: Part) => p.number);
  }

  /** Whether a part touches `symbol`. */
  function Touches(symbol: Symbol): Part -> bool {
    p => Adjacent(p, symbol)
  }

  /** The parts adjacent to one symbol, in part order (`adjacent_numbers`). */
  function Neighbours(symbol: Symbol, parts: seq<Part>): (r: seq<Part>)
    ensures forall p :: multiset(r)[p] == if Adjacent(p, symbol) then multiset(parts)[p] else 0
    ensures SubsequenceOf(r, parts)
  {
    Filter(parts, Touches(symbol))
  }

  /** `Gear::ratio`. */
  function Ratio(gear: Gear): nat {
    gear.a * gear.b
  }

  /** The gear a symbol makes, if it is a `*` with exactly two neighbours. */
  function GearAt(symbol: Symbol, parts: seq<Part>): Option<Gear> {
    var near := Neighbours(symbol, parts);
    if symbol.value == '*' && |near| == 2 then Some(Gear(near[0].number, near[1].number)) else None
  }

  /** A symbol makes a gear exactly when it is a `*` and exactly two parts,
      at indices `i < j`, touch it; the gear holds their numbers in part
      order. A `*` with 0, 1, 3 or more neighbours makes none. */
  lemma GearAtExactlyTwo(symbol: Symbol, parts: seq<Part>, g: Gear)
    ensures GearAt(symbol, parts) == Some(g) <==>
      symbol.value == '*' &&
      exists i: nat, j: nat :: OnlyHits(parts, Touches(symbol), i, j) && g == Gear(parts[i].number, parts[j].number)
  {
    var keep := Touches(symbol);
    FilterHits(parts, keep, 0);
    HitsOfTwo(parts, keep);
    assert parts[0..] == parts;
    var hits := Hits(parts, keep, 0);
    if GearAt(symbol, parts) == Some(g) {
      assert OnlyHits(parts, keep, hits[0], hits[1]);
    }
  }

  /** The gears of `symbols`, in symbol order. */
  function GearsOf(parts: seq<Part>, symbols: seq<Symbol>): seq<Gear>
    decreases |symbols|
  {
    if |symbols| == 0 then []
    else
      match GearAt(symbols[0], parts)
      case Some(g) => [g] + GearsOf(parts, symbols[1..])
      case None => GearsOf(parts, symbols[1..])
  }

  predicate IsGearSymbol(symbol: Symbol) {
    symbol.value == '*'
  }

  lemma {:induction false} GearsOfStars(parts: seq<Part>, symbols: seq<Symbol>)
    ensures GearsOf(parts, Filter(symbols, IsGearSymbol)) == GearsOf(parts, symbols)
    decreases |symbols|
  {
    if |symbols| > 0 {
      GearsOfStars(parts, symbols[1..]);
      var rest := Filter(symbols[1..], IsGearSymbol);
      if IsGearSymbol(symbols[0]) {
        assert ([symbols[0]] + rest)[1..] == rest;
      }
    }
  }

  /** `gears`: for every `*` symbol in turn, the parts adjacent to it; a
      gear is pushed when there are exactly two. */
  method Gears(parts: seq<Part>, symbols: seq<Symbol>) returns (gears: seq<Gear>)
    ensures gears == GearsOf(parts, symbols)
  {
    var gearSymbols := Filter(symbols, IsGearSymbol);
    gears := [];
    for n := 0 to |gearSymbols|
      invariant gears + GearsOf(parts, gearSymbols[n..]) == GearsOf(parts, gearSymbols)
    {
      var symbol := gearSymbols[n];
      GearsOfStep(parts, gearSymbols, n, gears);
      var adjacentNumbers := Neighbours(symbol, parts);
      if |adjacentNumbers| == 2 {
        var gear := Gear(adjacentNumbers[0].number, adjacentNumbers[1].number);
        StarGear(symbols, parts, n);
        gears := gears + [gear];
      }
    }
    GearsOfStars(parts, symbols);
  }

  /** A `*` kept by the filter in `Gears` with exactly two neighbours is a
      gear of their numbers. */
  lemma StarGear(symbols: seq<Symbol>, parts: seq<Part>, n: nat)
    requires n < |Filter(symbols, IsGearSymbol)|
    requires |Neighbours(Filter(symbols, IsGearSymbol)[n], parts)| == 2
    ensures var symbol := Filter(symbols, IsGearSymbol)[n]; var near := Neighbours(symbol, parts);
      GearAt(symbol, parts) == Some(Gear(near[0].number, near[1].number))
  {
    FilterKeeps(symbols, IsGearSymbol);
  }

  /** One step of the scan in `Gears`: the gears still to come from
      position `n` on are the one `xs[n]` makes, if any, then the rest. */
  lemma GearsOfStep(parts: seq<Part>, xs: seq<Symbol>, n: nat, acc: seq<Gear>)
    requires n < |xs|
    ensures GearAt(xs[n], parts).Some? ==>
      acc + GearsOf(parts, xs[n..]) == (acc + [GearAt(xs[n], parts).value]) + GearsOf(parts, xs[n + 1..])
    ensures GearAt(xs[n], parts).None? ==>
      acc + GearsOf(parts, xs[n..]) == acc + GearsOf(parts, xs[n + 1..])
  {
    assert xs[n..][1..] == xs[n + 1..];
  }

  /** What one symbol adds to the ratio sum: its gear's ratio, or 0. */
  function Contribution(symbol: Symbol, parts: seq<Part>): nat {
    match GearAt(symbol, parts)
    case Some(g) => Ratio(g)
    case None => 0
  }

  /** `ratio_sum`: the sum of the gears' ratios. */
  function RatioSum(gears: seq<Gear>): nat {
    SumOf(gears, Ratio)
  }

  /** The ratio sum is the sum, over all symbols, of the ratio of the gear
      each makes, and 0 for a symbol that is no gear. */
  lemma {:induction false} RatioSumOfGears(parts: seq<Part>, symbols: seq<Symbol>)
    ensures RatioSum(GearsOf(parts, symbols)) == SumOf(symbols, (s: Symbol) => Contribution(s, parts))
    decreases |symbols|
  {
    if |symbols| > 0 {
      RatioSumOfGears(parts, symbols[1..]);
      match GearAt(symbols[0], parts)
      case Some(g) =>
        assert ([g] + GearsOf(parts, symbols[1..]))[1..] == GearsOf(parts, symbols[1..]);
      case None =>
    }
  }

  /** The ratio sum does not depend on the order of the symbols. */
  lemma RatioSumReorder(parts: seq<Part>, symbols: seq<Symbol>, symbols': seq<Symbol>)
    requires multiset(symbols) == multiset(symbols')
    ensures RatioSum(GearsOf(parts, symbols)) == RatioSum(GearsOf(parts, symbols'))
  {
    RatioSumOfGears(parts, symbols);
    RatioSumOfGears(parts, symbols');
    SumOfPermutation(symbols, symbols', (s: Symbol) => Contribution(s, parts));
  }

  /** A grid of `.` cells only yields no token, so both answers are 0. */
  lemma BlankGrid(lines: seq<string>)
    requires forall r, c :: 0 <= r < |lines| && 0 <= c < |lines[r]| ==> lines[r][c] == '.'
    ensures Tokenize(lines) == Tokens([], [])
    ensures var t := Tokenize(lines);
      PartSum(AdjacentParts(t.parts, t.symbols)) == 0 && RatioSum(GearsOf(t.parts, t.symbols)) == 0
  {
    TokenizeSound(lines);
    var t := Tokenize(lines);
    forall p ensures !IsPartOf(lines, p) {
      BlankNoPart(lines, p);
    }
    HeadIn(t.parts);
    HeadIn(t.symbols);
  }

  lemma HeadIn<T>(xs: seq<T>)
    ensures |xs| > 0 ==> xs[0] in xs
  {
  }

  /** No run of digits lies in a grid of `.` cells. */
  lemma BlankNoPart(lines: seq<string>, p: Part)
    requires forall r, c :: 0 <= r < |lines| && 0 <= c < |lines[r]| ==> lines[r][c] == '.'
    ensures !IsPartOf(lines, p)
  {
    if p.row < |lines| && |p.columns| > 0 && p.columns[0] + |p.columns| <= |lines[p.row]| {
      var line, lo := lines[p.row], p.columns[0];
      assert line[lo..lo + |p.columns|][0] == line[lo] == '.';
    }
  }
}
