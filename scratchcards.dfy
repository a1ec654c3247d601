/** Day 4: scratchcards. Each card lists winning numbers and the numbers the
    player has; its matches score points, and in the second reading each
    match wins copies of the cards right after it. */
module Scratchcards {
  import opened Text
  import opened Seqs

  /** A card: its winning numbers and its scratched numbers, each a set. */
  datatype Card = Card(winning: set<nat>, scratch: set<nat>)

  // ---------------------------------------------------------------------------
  // Scoring

  /** `Card::count`: how many distinct numbers are both winning and scratched. */
  function Count(card: Card): (n: nat)
    ensures n <= |card.winning| && n <= |card.scratch|
    ensures n == 0 <==> forall x :: x in card.winning ==> x !in card.scratch
  {
    var both := card.winning * card.scratch;
    Disjoint(card.winning, card.scratch);
    assert both <= card.winning && both <= card.scratch;
    SubsetCardinality(both, card.winning);
    SubsetCardinality(both, card.scratch);
    |both|
  }

  lemma SubsetCardinality(a: set<nat>, b: set<nat>)
    requires a <= b
    ensures |a| <= |b|
  {
    assert b == a + (b - a);
  }

  /** Two sets share nothing exactly when their intersection is empty. */
  lemma Disjoint(a: set<nat>, b: set<nat>)
    ensures |a * b| == 0 <==> forall x :: x in a ==> x !in b
  {
    if |a * b| == 0 {
      assert a * b == {};
      forall x | x in a ensures x !in b {
        assert x !in a * b;
      }
    } else {
      var x :| x in a * b;
    }
  }

  function Pow2(e: nat): (p: nat)
    ensures p >= 1
  {
    if e == 0 then 1 else 2 * Pow2(e - 1)
  }

  /** `Card::points`: 0 without a match, 1 for the first match, doubled by
      each further one. */
  function Points(card: Card): (p: nat)
    ensures p == 0 <==> Count(card) == 0
    ensures Count(card) == 1 ==> p == 1
    ensures Count(card) > 0 ==> p == Pow2(Count(card) - 1)
  {
    PointsFor(Count(card))
  }

  /** The points of a card with `count` matches. */
  function PointsFor(count: nat): nat {
    if count == 0 then 0 else Pow2(count - 1)
  }

  /** One more match doubles a card's points. */
  lemma PointsDouble(card: Card, better: Card)
    requires Count(card) > 0 && Count(better) == Count(card) + 1
    ensures Points(better) == 2 * Points(card)
  {
    assert Pow2(Count(card)) == 2 * Pow2(Count(card) - 1);
  }

  /** The sum of all cards' points: nothing exactly when no card has a
      match, and at least the points of any one card. */
  function TotalPoints(cards: seq<Card>): (t: nat)
    ensures t == 0 <==> forall k :: 0 <= k < |cards| ==> Count(cards[k]) == 0
    ensures forall k :: 0 <= k < |cards| ==> Points(cards[k]) <= t
  {
    PointsSum(cards);
    SumOf(cards, Points)
  }

  lemma {:induction false} PointsSum(cards: seq<Card>)
    ensures SumOf(cards, Points) == 0 <==> forall k :: 0 <= k < |cards| ==> Count(cards[k]) == 0
    ensures forall k :: 0 <= k < |cards| ==> Points(cards[k]) <= SumOf(cards, Points)
    decreases |cards|
  {
    if |cards| > 0 {
      PointsSum(cards[1..]);
      assert forall k :: 1 <= k < |cards| ==> cards[k] == cards[1..][k - 1];
    }
    forall k | 0 <= k < |cards| ensures Points(cards[k]) <= SumOf(cards, Points) {
      SumOfTerm(cards, k, Points);
    }
  }

  /** The total depends on the cards only through their match counts. */
  lemma {:induction false} TotalPointsByCounts(cards: seq<Card>)
    ensures TotalPoints(cards) == SumOf(Counts(cards), PointsFor)
    decreases |cards|
  {
    if |cards| > 0 {
      TotalPointsByCounts(cards[1..]);
      assert Counts(cards)[1..] == Counts(cards[1..]);
    }
  }

  // ---------------------------------------------------------------------------
  // Parsing

  /** `collect::<HashSet<_>>()`: the distinct elements of `ns`. */
  function SetOf(ns: seq<nat>): (s: set<nat>)
    ensures forall n :: n in s <==> n in ns
  {
    set n | n in ns
  }

  /** The whitespace-separated numbers of `text`, collected into a set. */
  function NumberSet(text: string): Option<set<nat>> {
    match CollectAll(SplitWhitespace(text), ParseUsize)
    case None => None
    case Some(ns) => Some(SetOf(ns))
  }

  /** One line of `read_cards`: whatever precedes the first `:` is dropped,
      the rest is cut at the first `|` into winning and scratched numbers. */
  function ParseCard(line: string): Option<Card> {
    match SplitOnce(line, ":")
    case None => None
    case Some((_, numbers)) =>
      match SplitOnce(numbers, "|")
      case None => None
      case Some((winning, scratch)) =>
        match (NumberSet(winning), NumberSet(scratch))
        case (Some(w), Some(s)) => Some(Card(w, s))
        case _ => None
  }

  /** A line parses only if it has a `:` followed, later, by a `|`. */
  lemma ParseCardNeedsSeparators(line: string)
    ensures ParseCard(line).Some? ==>
      exists i, j :: 0 <= i < j < |line| && line[i] == ':' && line[j] == '|'
  {
    if ParseCard(line).Some? {
      var (id, numbers) := SplitOnce(line, ":").value;
      var (winning, scratch) := SplitOnce(numbers, "|").value;
      assert line == id + ":" + numbers;
      assert numbers == winning + "|" + scratch;
      var i, j := |id|, |id| + 1 + |winning|;
      assert line[i] == ':' && line[j] == '|';
    }
  }

  /** `read_cards`: one card per line, or nothing if some line does not parse. */
  method ReadCards(input: string) returns (cards: Option<seq<Card>>)
    ensures cards == CollectAll(Lines(input), ParseCard)
  {
    var lines := Lines(input);
    var parsed: seq<Card> := [];
    for i := 0 to |lines|
      invariant CollectAll(lines[..i], ParseCard) == Some(parsed)
    {
      var card := ParseCard(lines[i]);
      CollectAllStep(lines, ParseCard, i);
      if card.None? {
        return None;
      }
      parsed := parsed + [card.value];
    }
    assert lines[..|lines|] == lines;
    return Some(parsed);
  }

  // ---------------------------------------------------------------------------
  // The textual form of a card

  /** A number right-aligned in a two-character column after a space, as the
      puzzle input lays numbers out. */
  function Cell(n: nat): string {
    if n < 10 then "  " + Render(n) else " " + Render(n)
  }

  function Cells(ns: seq<nat>): (r: string)
    ensures |ns| > 0 ==> |r| > 0 && r[0] == ' '
    decreases |ns|
  {
    if |ns| == 0 then "" else Cell(ns[0]) + Cells(ns[1..])
  }

  /** The line for a card named `name` with the given numbers. */
  function FormatCard(name: string, winning: seq<nat>, scratch: seq<nat>): string {
    name + ":" + Cells(winning) + " |" + Cells(scratch)
  }

  lemma {:induction false} CellsChars(ns: seq<nat>)
    ensures forall i :: 0 <= i < |Cells(ns)| ==> Cells(ns)[i] == ' ' || IsAsciiDigit(Cells(ns)[i])
    decreases |ns|
  {
    if |ns| > 0 {
      CellsChars(ns[1..]);
      var cell := Cell(ns[0]);
      assert forall i :: 0 <= i < |cell| ==> cell[i] == ' ' || IsAsciiDigit(cell[i]);
    }
  }

  /** The decimal renderings of `ns`. */
  function Rendered(ns: seq<nat>): (r: seq<string>)
    ensures |r| == |ns| && forall k :: 0 <= k < |ns| ==> r[k] == Render(ns[k])
    decreases |ns|
  {
    if |ns| == 0 then [] else [Render(ns[0])] + Rendered(ns[1..])
  }

  /** Splitting the cells (and any trailing blank) at whitespace gives back
      the rendered numbers. */
  lemma {:induction false} SplitCells(ns: seq<nat>, blank: string)
    requires forall i :: 0 <= i < |blank| ==> IsWhitespace(blank[i])
    ensures SplitWhitespace(Cells(ns) + blank) == Rendered(ns)
    decreases |ns|
  {
    if |ns| == 0 {
      assert Cells(ns) + blank == blank + "";
      SplitWhitespaceBlank(blank, "");
    } else {
      SplitFirstCell(ns, blank);
      SplitCells(ns[1..], blank);
    }
  }

  /** The padding in front of a cell is whitespace. */
  lemma PadsAreBlank()
    ensures forall i :: 0 <= i < |" "| ==> IsWhitespace(" "[i])
    ensures forall i :: 0 <= i < |"  "| ==> IsWhitespace("  "[i])
  {
  }

  /** The first cell's number is the first word. */
  lemma SplitFirstCell(ns: seq<nat>, blank: string)
    requires |ns| > 0
    requires forall i :: 0 <= i < |blank| ==> IsWhitespace(blank[i])
    ensures SplitWhitespace(Cells(ns) + blank)
         == [Render(ns[0])] + SplitWhitespace(Cells(ns[1..]) + blank)
  {
    var word, tail := Render(ns[0]), Cells(ns[1..]);
    DigitsAreWords(word);
    PadsAreBlank();
    if ns[0] < 10 {
      assert Cells(ns) == "  " + word + tail;
      SplitWhitespacePadded("  ", word, tail, blank);
    } else {
      assert Cells(ns) == " " + word + tail;
      SplitWhitespacePadded(" ", word, tail, blank);
    }
  }

  /** Parsing the cells (and any trailing blank) gives back the set of the numbers. */
  lemma NumberSetOfCells(ns: seq<nat>, blank: string)
    requires forall i :: 0 <= i < |blank| ==> IsWhitespace(blank[i])
    ensures NumberSet(Cells(ns) + blank) == Some(SetOf(ns))
  {
    SplitCells(ns, blank);
    var words := SplitWhitespace(Cells(ns) + blank);
    forall k | 0 <= k < |words| ensures ParseUsize(words[k]) == Some(ns[k]) {
      ParseRender(ns[k]);
    }
    var r := CollectAll(words, ParseUsize);
    assert r.Some?;
    assert r.value == ns;

  }

  /** `read_cards` reads back what `FormatCard` writes: the name is
      discarded, and numbers repeated on one side collapse into one. */
  lemma ParseFormatCard(name: string, winning: seq<nat>, scratch: seq<nat>)
    requires ':' !in name
    ensures ParseCard(FormatCard(name, winning, scratch))
         == Some(Card(SetOf(winning), SetOf(scratch)))
  {
    var w, sc := Cells(winning), Cells(scratch);
    assert '|' !in w by { CellsChars(winning); }
    SplitCardLine(name, w, sc);
    NumberSetOfCells(winning, " ");
    NumberSetOfCells(scratch, "");
    assert sc + "" == sc;
  }

  /** Where `read_cards` cuts a card line: after the name, then before the
      scratched numbers. */
  lemma SplitCardLine(name: string, w: string, sc: string)
    requires ':' !in name && '|' !in w
    ensures SplitOnce(name + ":" + w + " |" + sc, ":") == Some((name, w + " |" + sc))
    ensures SplitOnce(w + " |" + sc, "|") == Some((w + " ", sc))
  {
    assert name + ":" + w + " |" + sc == name + ":" + (w + " |" + sc);
    SplitOnceAt(name, ":", w + " |" + sc);
    assert w + " |" + sc == (w + " ") + "|" + sc;
    assert '|' !in w + " ";
    SplitOnceAt(w + " ", "|", sc);
  }

  // ---------------------------------------------------------------------------
  // Copies

  /** The match count of every card. */
  function Counts(cards: seq<Card>): seq<nat> {
    seq(|cards|, i requires 0 <= i < |cards| => Count(cards[i]))
  }

  /** Every card's won copies stay inside the pile. */
  predicate InBounds(counts: seq<nat>) {
    forall i :: 0 <= i < |counts| ==> i + counts[i] < |counts|
  }

  /** `c` with `m` added to the entries `lo .. hi - 1`. */
  function AddRange(c: seq<nat>, lo: nat, hi: nat, m: nat): (r: seq<nat>)
    ensures |r| == |c|
  {
    seq(|c|, j requires 0 <= j < |c| => if lo <= j < hi then c[j] + m else c[j])
  }

  /** Widening the range by one entry adds `m` to that entry. */
  lemma AddRangeExtend(c: seq<nat>, lo: nat, hi: nat, m: nat)
    requires lo <= hi < |c|
    ensures AddRange(c, lo, hi + 1, m) == AddRange(c, lo, hi, m)[hi := c[hi] + m]
  {
  }

  /** The copy counts after the first `k` rounds of `copies`: round `index`
      adds the copies of card `index` to the next `counts[index]` cards. */
  function CopiesAfter(counts: seq<nat>, k: nat): (r: seq<nat>)
    requires k <= |counts|
    ensures |r| == |counts|
    decreases k
  {
    if k == 0 then seq(|counts|, _ => 1)
    else
      var c := CopiesAfter(counts, k - 1);
      AddRange(c, k, k + counts[k - 1], c[k - 1])
  }

  /** The total number of cards once every copy is won: at least one of each. */
  function CopyTotal(cards: seq<Card>): (total: nat)
    ensures total >= |cards|
  {
    var pile := CopiesAfter(Counts(cards), |cards|);
    CopiesAtLeastOne(Counts(cards), |cards|);
    SumAtLeastLength(pile);
    SumOf(pile, Identity)
  }

  /** `copies`: one of each card to begin with; each card in turn adds its
      number of copies to each of the next `count` cards. */
  method Copies(cards: seq<Card>) returns (total: nat)
    requires InBounds(Counts(cards))
    ensures total == CopyTotal(cards)
    ensures total >= |cards|
  {
    var copies := WinCopies(cards);
    total := Total(copies);
  }

  /** The pile of `copies` once every card has paid out its wins. */
  method WinCopies(cards: seq<Card>) returns (copies: array<nat>)
    requires InBounds(Counts(cards))
    ensures fresh(copies)
    ensures copies[..] == CopiesAfter(Counts(cards), |cards|)
  {
    ghost var counts := Counts(cards);
    copies := new nat[|cards|](_ => 1);
    assert copies[..] == CopiesAfter(counts, 0);
    for index := 0 to copies.Length
      invariant copies[..] == CopiesAfter(counts, index)
    {
      var copyN := Count(cards[index]);
      var copyM := copies[index];
      assert counts[index] == copyN && index + copyN < copies.Length;
      AddCopies(copies, index, copyN, copyM);
    }
  }

  /** The closing `sum` of `copies`. */
  method Total(copies: array<nat>) returns (total: nat)
    ensures total == SumOf(copies[..], Identity)
  {
    total := 0;
    for i := 0 to copies.Length
      invariant total == SumOf(copies[..i], Identity)
    {
      assert copies[..i + 1] == copies[..i] + [copies[i]];
      SumOfAppend(copies[..i], [copies[i]], Identity);
      total := total + copies[i];
    }
    assert copies[..copies.Length] == copies[..];
  }

  /** The inner loop of `copies`: each of the `copyN` cards after `index`
      gains `copyM` copies. */
  method AddCopies(copies: array<nat>, index: nat, copyN: nat, copyM: nat)
    requires index + copyN < copies.Length
    modifies copies
    ensures copies[..] == AddRange(old(copies[..]), index + 1, index + 1 + copyN, copyM)
  {
    ghost var before := copies[..];
    for copy := 1 to copyN + 1
      invariant copies[..] == AddRange(before, index + 1, index + copy, copyM)
    {
      AddRangeExtend(before, index + 1, index + copy, copyM);
      copies[index + copy] := copies[index + copy] + copyM;
    }
  }

  /** Copies are only ever added: every card keeps at least its original. */
  lemma {:induction false} CopiesAtLeastOne(counts: seq<nat>, k: nat)
    requires k <= |counts|
    ensures forall j :: 0 <= j < |counts| ==> CopiesAfter(counts, k)[j] >= 1
    decreases k
  {
    if k > 0 {
      CopiesAtLeastOne(counts, k - 1);
    }
  }

  lemma {:induction false} SumAtLeastLength(xs: seq<nat>)
    requires forall j :: 0 <= j < |xs| ==> xs[j] >= 1
    ensures SumOf(xs, Identity) >= |xs|
    decreases |xs|
  {
    if |xs| > 0 {
      SumAtLeastLength(xs[1..]);
    }
  }

  /** Round `index` changes only the entries `index + 1 .. index + count`,
      each by the copies of card `index`; the others, in particular every
      entry at or before `index`, stay as they were. */
  lemma CopiesStep(counts: seq<nat>, index: nat, j: nat)
    requires index < |counts| && j < |counts|
    ensures CopiesAfter(counts, index + 1)[j] ==
      CopiesAfter(counts, index)[j] +
      (if index < j <= index + counts[index] then CopiesAfter(counts, index)[index] else 0)
  {
  }

  /** Once its own round has passed, a card's count never changes. */
  lemma {:induction false} CopiesSettled(counts: seq<nat>, j: nat, k: nat)
    requires j < k <= |counts|
    ensures CopiesAfter(counts, k)[j] == CopiesAfter(counts, j + 1)[j]
    decreases k
  {
    if k > j + 1 {
      CopiesSettled(counts, j, k - 1);
    }
  }

  /** How many copies of card `i` end up in the pile, defined directly: the
      original, plus one for every copy of each earlier card `j` whose
      matches reach `i`. */
  function Won(counts: seq<nat>, i: nat): nat
    requires i < |counts|
    decreases i, 1
  {
    1 + WonBefore(counts, i, i)
  }

  /** The copies of card `i` won from the cards `0 .. n - 1`. */
  function WonBefore(counts: seq<nat>, i: nat, n: nat): nat
    requires n <= i < |counts|
    decreases n, 0
  {
    if n == 0 then 0
    else WonBefore(counts, i, n - 1) + (if i <= n - 1 + counts[n - 1] then Won(counts, n - 1) else 0)
  }

  /** After `k` rounds, the cards already visited hold their final counts and
      the others hold the copies won from the first `k` cards. */
  lemma {:induction false} CopiesAfterWon(counts: seq<nat>, k: nat)
    requires k <= |counts|
    ensures forall i :: 0 <= i < k ==> CopiesAfter(counts, k)[i] == Won(counts, i)
    ensures forall i :: k <= i < |counts| ==> CopiesAfter(counts, k)[i] == 1 + WonBefore(counts, i, k)
    decreases k
  {
    if k > 0 {
      CopiesAfterWon(counts, k - 1);
    }
  }

  /** The loop in `copies` computes `Won` for every card. */
  lemma CopiesAreWon(cards: seq<Card>)
    ensures forall i :: 0 <= i < |cards| ==> CopiesAfter(Counts(cards), |cards|)[i] == Won(Counts(cards), i)
  {
    CopiesAfterWon(Counts(cards), |cards|);
  }

  /** The lines of cards named `names` with the given numbers. */
  function Rows(names: seq<string>, winning: seq<seq<nat>>, scratch: seq<seq<nat>>): seq<string>
    requires |names| == |winning| == |scratch|
  {
    seq(|names|, k requires 0 <= k < |names| => FormatCard(names[k], winning[k], scratch[k]))
  }

  /** The cards with the given numbers. */
  function CardsOf(winning: seq<seq<nat>>, scratch: seq<seq<nat>>): seq<Card>
    requires |winning| == |scratch|
  {
    seq(|winning|, k requires 0 <= k < |winning| => Card(SetOf(winning[k]), SetOf(scratch[k])))
  }

  /** `read_cards` reads back a whole text of formatted cards. */
  lemma ReadFormattedCards(names: seq<string>, winning: seq<seq<nat>>, scratch: seq<seq<nat>>)
    requires |names| == |winning| == |scratch|
    requires forall k :: 0 <= k < |names| ==> ':' !in names[k] && '\n' !in names[k] && '\r' !in names[k]
    ensures CollectAll(Lines(Unlines(Rows(names, winning, scratch))), ParseCard) == Some(CardsOf(winning, scratch))
  {
    var rows, cards := Rows(names, winning, scratch), CardsOf(winning, scratch);
    forall k | 0 <= k < |rows|
      ensures '\n' !in rows[k] && '\r' !in rows[k]
      ensures ParseCard(rows[k]) == Some(cards[k])
    {
      FormatCardChars(names[k], winning[k], scratch[k]);
      ParseFormatCard(names[k], winning[k], scratch[k]);
    }
    LinesOfUnlines(rows);
    var r := CollectAll(rows, ParseCard);
    assert r.Some?;
    assert r.value == cards;
  }

  // ---------------------------------------------------------------------------
  // The six-card example

  lemma {:induction false} FormatCardChars(name: string, winning: seq<nat>, scratch: seq<nat>)
    requires '\n' !in name && '\r' !in name
    ensures '\n' !in FormatCard(name, winning, scratch) && '\r' !in FormatCard(name, winning, scratch)
  {
    CellsPlain(winning);
    CellsPlain(scratch);
  }

  lemma CellsPlain(ns: seq<nat>)
    ensures '\n' !in Cells(ns) && '\r' !in Cells(ns)
  {
    CellsChars(ns);
  }

  const SampleNames: seq<string> := ["Card 1", "Card 2", "Card 3", "Card 4", "Card 5", "Card 6"]
  const SampleWinning: seq<seq<nat>> :=
    [[41, 48, 83, 86, 17], [13, 32, 20, 16, 61], [1, 21, 53, 59, 44],
     [41, 92, 73, 84, 69], [87, 83, 26, 28, 32], [31, 18, 13, 56, 72]]
  const SampleScratch: seq<seq<nat>> :=
    [[83, 86, 6, 31, 17, 9, 48, 53], [61, 30, 68, 82, 17, 32, 24, 19], [69, 82, 63, 72, 16, 21, 14, 1],
     [59, 84, 76, 51, 58, 5, 54, 83], [88, 30, 70, 12, 93, 22, 82, 36], [74, 77, 10, 23, 35, 67, 36, 11]]

  /** The example's lines, `Card 1: 41 48 83 86 17 | 83 86  6 31 17  9 48 53` and so on. */
  const SampleRows: seq<string> := Rows(SampleNames, SampleWinning, SampleScratch)

  const SampleCards: seq<Card> := CardsOf(SampleWinning, SampleScratch)

  lemma SampleParses()
    ensures CollectAll(Lines(Unlines(SampleRows)), ParseCard) == Some(SampleCards)
  {
    ReadFormattedCards(SampleNames, SampleWinning, SampleScratch);
  }

  lemma SampleCount1()
    ensures |SetOf([41, 48, 83, 86, 17]) * SetOf([83, 86, 6, 31, 17, 9, 48, 53])| == 4
  {
    assert SetOf([41, 48, 83, 86, 17]) * SetOf([83, 86, 6, 31, 17, 9, 48, 53]) == {48, 83, 86, 17};
  }

  lemma SampleCount2()
    ensures |SetOf([13, 32, 20, 16, 61]) * SetOf([61, 30, 68, 82, 17, 32, 24, 19])| == 2
  {
    assert SetOf([13, 32, 20, 16, 61]) * SetOf([61, 30, 68, 82, 17, 32, 24, 19]) == {32, 61};
  }

  lemma SampleCount3()
    ensures |SetOf([1, 21, 53, 59, 44]) * SetOf([69, 82, 63, 72, 16, 21, 14, 1])| == 2
  {
    assert SetOf([1, 21, 53, 59, 44]) * SetOf([69, 82, 63, 72, 16, 21, 14, 1]) == {1, 21};
  }

  lemma SampleCount4()
    ensures |SetOf([41, 92, 73, 84, 69]) * SetOf([59, 84, 76, 51, 58, 5, 54, 83])| == 1
  {
    assert SetOf([41, 92, 73, 84, 69]) * SetOf([59, 84, 76, 51, 58, 5, 54, 83]) == {84};
  }

  lemma SampleCount5()
    ensures |SetOf([87, 83, 26, 28, 32]) * SetOf([88, 30, 70, 12, 93, 22, 82, 36])| == 0
  {
    assert SetOf([87, 83, 26, 28, 32]) * SetOf([88, 30, 70, 12, 93, 22, 82, 36]) == {};
  }

  lemma SampleCount6()
    ensures |SetOf([31, 18, 13, 56, 72]) * SetOf([74, 77, 10, 23, 35, 67, 36, 11])| == 0
  {
    assert SetOf([31, 18, 13, 56, 72]) * SetOf([74, 77, 10, 23, 35, 67, 36, 11]) == {};
  }

  lemma SampleCounts()
    ensures Counts(SampleCards) == [4, 2, 2, 1, 0, 0]
  {
    forall i | 0 <= i < 6 ensures Counts(SampleCards)[i] == [4, 2, 2, 1, 0, 0][i] {
      if i == 0 {
        SampleCount1();
      } else if i == 1 {
        SampleCount2();
      } else if i == 2 {
        SampleCount3();
      } else if i == 3 {
        SampleCount4();
      } else if i == 4 {
        SampleCount5();
      } else if i == 5 {
        SampleCount6();
      }
    }
  }

  lemma SampleRounds()
    ensures InBounds([4, 2, 2, 1, 0, 0])
    ensures CopiesAfter([4, 2, 2, 1, 0, 0], 6) == [1, 2, 4, 8, 14, 1]
  {
    var counts := [4, 2, 2, 1, 0, 0];
    assert CopiesAfter(counts, 1) == [1, 2, 2, 2, 2, 1];
    assert CopiesAfter(counts, 2) == [1, 2, 4, 4, 2, 1];
    assert CopiesAfter(counts, 3) == [1, 2, 4, 8, 6, 1];
    assert CopiesAfter(counts, 4) == [1, 2, 4, 8, 14, 1];
    assert CopiesAfter(counts, 5) == [1, 2, 4, 8, 14, 1];
  }

  lemma SampleCopiesSum()
    ensures SumOf<nat>([1, 2, 4, 8, 14, 1], Identity) == 30
  {
    assert SumOf<nat>([1], Identity) == 1;
    assert SumOf<nat>([14, 1], Identity) == 15 by { assert [14, 1][1..] == [1]; }
    assert SumOf<nat>([8, 14, 1], Identity) == 23 by { assert [8, 14, 1][1..] == [14, 1]; }
    assert SumOf<nat>([4, 8, 14, 1], Identity) == 27 by { assert [4, 8, 14, 1][1..] == [8, 14, 1]; }
    assert SumOf<nat>([2, 4, 8, 14, 1], Identity) == 29 by { assert [2, 4, 8, 14, 1][1..] == [4, 8, 14, 1]; }
    assert [1, 2, 4, 8, 14, 1][1..] == [2, 4, 8, 14, 1];
  }

  lemma SamplePointsSum()
    ensures SumOf<nat>([4, 2, 2, 1, 0, 0], PointsFor) == 13
  {
    assert PointsFor(4) == 8 && PointsFor(2) == 2 && PointsFor(1) == 1 && PointsFor(0) == 0 by {
      assert Pow2(3) == 8 && Pow2(1) == 2;
    }
    assert SumOf<nat>([0], PointsFor) == 0;
    assert SumOf<nat>([0, 0], PointsFor) == 0 by { assert [0, 0][1..] == [0]; }
    assert SumOf<nat>([1, 0, 0], PointsFor) == 1 by { assert [1, 0, 0][1..] == [0, 0]; }
    assert SumOf<nat>([2, 1, 0, 0], PointsFor) == 3 by { assert [2, 1, 0, 0][1..] == [1, 0, 0]; }
    assert SumOf<nat>([2, 2, 1, 0, 0], PointsFor) == 5 by { assert [2, 2, 1, 0, 0][1..] == [2, 1, 0, 0]; }
    assert [4, 2, 2, 1, 0, 0][1..] == [2, 2, 1, 0, 0];
  }

  /** The example scores 13 points. */
  lemma SamplePoints()
    ensures TotalPoints(SampleCards) == 13
  {
    SampleCounts();
    SamplePointsSum();
    TotalPointsByCounts(SampleCards);
  }

  /** The example ends with 30 cards; every card's copies stay inside the pile. */
  lemma SampleCopyTotal()
    ensures InBounds(Counts(SampleCards))
    ensures CopyTotal(SampleCards) == 30
  {
    SampleCounts();
    SampleRounds();
    SampleCopiesSum();
    assert |SampleCards| == |Counts(SampleCards)| == 6;
  }
}
