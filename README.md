# Advent of Code 2023, days 1 to 4, in Dafny

This project models the four puzzle solutions of the repository. Each one reads
a text and computes integers from it:

- **Day 1, "Trebuchet?!"** (`calibration.dfy`, module `Calibration`).
  - Every line is worth ten times its first ASCII digit plus its last.
  - The document's calibration is the sum over its lines.
  - Part 2 first rewrites each line into the digits it spells. A scan goes
    backwards over the suffixes of the line. At each position it tries an
    anchored alternation of the digits `1`–`9` and the words `one`–`nine`.
    Every match is pushed, then the list is reversed and joined.
  - Because the scan looks at every position, overlapping words such as
    `eighthree` both count.
- **Day 2, "Cube Conundrum"** (`cube_games.dfy`, module `CubeGames`).
  - `parse_games` reads `Game <id>: <n> <colour>, ...; ...` lines. The counts
    of a repeated colour within one reveal are added together.
  - `validate` compares a reveal or a game with a bound, colour by colour.
  - `minimum` takes the largest count of each colour over a game's rounds.
  - `power` multiplies the three counts.
  - Part 1 sums the ids of the games possible with 12 red, 13 green and 14
    blue cubes. Part 2 sums the powers of the games' minimums.
- **Day 3, "Gear Ratios"** (`schematic.dfy`, module `Schematic`, and the
  example grid in `schematic_sample.dfy`, module `SchematicSample`).
  - `read_parts_symbols` walks every line with a one-character lookahead. It
    skips `.` and merges each maximal run of digits into a part with its
    number, row and columns. Any other character becomes a one-cell symbol.
  - `adjacent` holds when the rows differ by at most one and some column of
    the part is within one of the symbol's column.
  - Part 1 sums the parts next to some symbol.
  - Part 2 keeps every `*` with exactly two neighbouring parts as a gear and
    sums the products of their numbers.
- **Day 4, "Scratchcards"** (`scratchcards.dfy`, module `Scratchcards`).
  - A card's count is the size of the intersection of its winning and
    scratched number sets. Its points are 0 without a match and `2^(count-1)`
    otherwise.
  - `read_cards` drops the name before `:`, cuts the rest at `|` and reads
    whitespace-separated numbers into sets.
  - `copies` starts from one copy of each card. Card `index` adds its own
    copy count to each of the `count` cards after it, updating the vector in
    place. The result is the total.

Two helper modules model the parts of the Rust standard library that the
solutions rely on:

- `text.dfy` (module `Text`) models `str::parse::<usize>`, `str::split`,
  `str::split_once`, `str::lines` and `str::split_whitespace`.
- `seqs.dfy` (module `Seqs`) models `filter`, `sum` and `fold` over a mapped
  sequence.

The pure parts of the code are pure functions here: iterator chains, `match`
expressions and the arithmetic on cards, reveals and gears. The loops are
methods, and each is proved equal to a specification function:

- `parse_games` → `CubeGames.ParseGames`, `ReadGame`, `ReadReveal`, `ReadItem`;
- `read_parts_symbols` → `Schematic.ReadPartsSymbols`, `ReadRows`, `ReadLine`, `ReadDigits`;
- `gears` → `Schematic.Gears`;
- `read_cards` → `Scratchcards.ReadCards`;
- `parse_human_digits` → `Calibration.ParseHumanDigits`, `HumanDigitsOfLine`.

`copies` keeps its `array`, updated in place by `Scratchcards.WinCopies` and
`AddCopies` and summed by `Total`.

A `unwrap()` or `unreachable!()` that the parsers reach on malformed input
becomes `None` of an `Option`. A panic that well-formed input can still reach
becomes a precondition:

- a line without a digit in `calibration`;
- a game without rounds in `minimum`;
- a card whose copies would run past the last card in `copies`.

Each test of the repository is a lemma about the same example input.

## Model

| member | source | states |
|---|---|---|
| `Text.ParseUsize` | day-02/src/main.rs:40 | `parse::<usize>` succeeds exactly on a non-empty run of ASCII digits, optionally after one `+`, and yields its decimal value |
| `Text.ParseRender` | day-04/src/main.rs:45 | parsing the decimal rendering of any number gives that number back |
| `Text.DecimalOfRender` | day-03/src/main.rs:55-56 | the decimal value of a number's rendering is the number |
| `Text.Split` | day-02/src/main.rs:42 | `split` with a non-empty pattern yields at least one piece, and joining the pieces with the pattern gives the input back |
| `Text.SplitJoin` | day-02/src/main.rs:42-45 | `split` undoes joining when no piece holds the separator's first character |
| `Text.SplitOnce` | day-02/src/main.rs:37 | when `split_once` succeeds, the two halves with the separator between them are the input |
| `Text.SplitOnceFirst` | day-02/src/main.rs:37 | `split_once` cuts at the first occurrence of the separator and fails exactly when there is none |
| `Text.SplitOnceAt` | day-04/src/main.rs:41-42 | `split_once` undoes gluing two texts with a separator whose first character does not occur in the first text |
| `Text.SplitWhitespace` | day-04/src/main.rs:43-44 | `split_whitespace` yields non-empty words without whitespace |
| `Text.SplitWhitespaceWord` | day-04/src/main.rs:43-44 | a word followed by whitespace or by nothing is split off whole |
| `Text.SplitWhitespaceBlank` | day-04/src/main.rs:43-44 | leading whitespace yields no word |
| `Text.Lines` | day-02/src/main.rs:36 | `lines` yields no line exactly for the empty text, and no line holds a `\n`; its round trips are `LinesOfUnlines` and `LinesOfJoin` |
| `Text.CollectAll` | day-02/src/main.rs:36-59 | reading every line succeeds exactly when every line parses, and then yields one result per line, in order |
| `Text.CollectAllStep` | day-04/src/main.rs:39-56 | one more line either fails the whole read or appends its result |
| `Text.LinesOfUnlines` | day-02/src/main.rs:36 | `lines` gives back lines that were each terminated by `\n`, when none holds `\n` or ends in `\r` |
| `Text.LinesOfJoin` | day-01/src/main.rs:78 | `lines` gives back lines joined by `\n` when the last is non-empty |
| `Seqs.Filter` | day-03/src/main.rs:22-26 | `filter` keeps each element that satisfies the predicate as often as it occurs, drops the rest, keeps the order and keeps distinct elements distinct |
| `Seqs.FilterHits` | day-03/src/main.rs:118 | the kept elements are exactly those at the increasing indices where the predicate holds |
| `Seqs.HitsOfTwo` | day-03/src/main.rs:118-119 | exactly two hits means exactly two indices `i < j` satisfy the predicate, and conversely |
| `Seqs.SumOf` | day-03/src/main.rs:13-19 | `map(f).sum()` and the `fold` of `+` from 0; characterised by `SumOfAppend`, `SumOfPermutation`, `SumOfFilter` and `SumOfTerm` |
| `Seqs.SumOfTerm` | day-04/src/main.rs:74 | no term of a sum exceeds the sum |
| `Seqs.SumOfFilter` | day-03/src/main.rs:17-28 | summing the kept elements is summing all elements with 0 for the dropped ones |
| `Seqs.SumOfPermutation` | day-03/src/main.rs:18 | a sum does not depend on the order of its terms |
| `Seqs.SumOfAppend` | day-01/src/main.rs:65 | the sum over a concatenation is the sum of the two sums |
| `Calibration.Digits` | day-01/src/main.rs:59-64 | every digit value taken from a line is below 10, and there is one exactly when the line holds an ASCII digit, so the `unwrap`s at line 64 fail exactly on a line without one |
| `Calibration.DigitsHits` | day-01/src/main.rs:59-62 | from any column on, the digit values are those of the ASCII digits at the listed positions, one per position, in order |
| `Calibration.DigitsPositions` | day-01/src/main.rs:59-62 | the digit values are those of the line's ASCII digits, one per digit position, in increasing position order |
| `Calibration.DigitsFirst` | day-01/src/main.rs:64 | the first digit taken is the one at the line's first digit position |
| `Calibration.DigitsLast` | day-01/src/main.rs:64 | the last digit taken is the one at the line's last digit position |
| `Calibration.LineValue` | day-01/src/main.rs:64 | a line's value is below 100; it requires the line to hold a digit |
| `Calibration.LineValueFirstLast` | day-01/src/main.rs:58-64 | a line's value is ten times its first digit plus its last digit |
| `Calibration.LineValueEnds` | day-01/src/main.rs:64 | a line that starts and ends with a digit is worth those two digits |
| `Calibration.LineValueSingle` | day-01/src/main.rs:64 | a line with a single digit `d` is worth `11 * d` |
| `Calibration.Calibration` | day-01/src/main.rs:55-66 | the calibration of `n` lines is at most `99 * n` |
| `Calibration.CalibrationAppend` | day-01/src/main.rs:55-66 | the calibration of a document is the sum of the calibrations of any split of its lines |
| `Calibration.MatchFrom` | day-01/src/main.rs:19 | the anchored alternation matches an alternative that the text starts with, and fails exactly when it starts with none |
| `Calibration.Match` | day-01/src/main.rs:19 | `find` with the anchored alternation yields an alternative the text starts with, and nothing exactly when it starts with none |
| `Calibration.Digitizer` | day-01/src/main.rs:40-53 | `digitizer` answers exactly for the 18 alternatives, and then with a single digit `1`–`9`; any other text is `unreachable!` |
| `Calibration.DigitizerDigits` | day-01/src/main.rs:42-50 | each digit `1`–`9` stands for itself |
| `Calibration.DigitizerWords` | day-01/src/main.rs:42-50 | each word `one`–`nine` stands for its digit |
| `Calibration.LiteralsPrefixFree` | day-01/src/main.rs:19 | no alternative is a prefix of another |
| `Calibration.MatchIsUnique` | day-01/src/main.rs:19 | a text that starts with an alternative matches exactly that alternative, so the order of the alternation does not matter |
| `Calibration.DigitOf` | day-01/src/main.rs:27-29 | the digit a matching suffix yields is one of `1`–`9` |
| `Calibration.DigitAtLiteral` | day-01/src/main.rs:26-30 | where the `k`-th alternative starts, the scan contributes the digit that alternative names |
| `Calibration.HumanDigits` | day-01/src/main.rs:24-34 | the rewritten line is no longer than the line and holds only the characters `1`–`9`; `HumanDigitsPositions` says which digits, in which order |
| `Calibration.HumanDigitsPositions` | day-01/src/main.rs:25-34 | the rewritten line holds one digit per position whose suffix matches, in increasing position order |
| `Calibration.HumanDigitsHaveDigit` | day-01/src/main.rs:17-38 | the rewritten line has a digit exactly when some position of the original matches |
| `Calibration.ReversedPush` | day-01/src/main.rs:30-33 | pushing and then reversing puts the pushed digit in front |
| `Calibration.JoinNothingPrepend` | day-01/src/main.rs:34 | joining with `""` concatenates, front piece first |
| `Calibration.HumanDigitsOfLine` | day-01/src/main.rs:22-35 | the backward scan with push, reverse and join computes the rewritten line |
| `Calibration.HumanLines` | day-01/src/main.rs:20-36 | each line is rewritten separately, in order |
| `Calibration.ParseHumanDigits` | day-01/src/main.rs:17-38 | `parse_human_digits` rewrites every line |
| `Calibration.LiteralShape` | day-01/src/main.rs:19 | the first nine alternatives are single digits, the other nine words of three or more letters |
| `Calibration.RuledOutNoMatch` | day-01/src/main.rs:19 | a suffix whose first two characters begin no alternative does not match |
| `Calibration.LiteralDigit` | day-01/src/main.rs:27-29 | a suffix that starts with the `k`-th alternative matches and yields its digit |
| `Calibration.HumanDigitsFirst` | day-01/src/main.rs:25-34 | the first digit of the rewritten line comes from the first matching position |
| `Calibration.HumanDigitsLast` | day-01/src/main.rs:25-34 | the last digit of the rewritten line comes from the last matching position |
| `Calibration.HumanEnds` | day-01/src/main.rs:25-34 | the rewritten line starts with the digit named at the first matching position and ends with the one named at the last |
| `Calibration.HumanDigitsValue` | day-01/src/main.rs:17-66 | the part 2 value of a line is ten times the digit of its first match plus the digit of its last match |
| `Calibration.HumanFirstOf` | day-01/src/main.rs:25-34 | the first digit found is the one named by the alternative at the first matching position |
| `Calibration.HumanLastOf` | day-01/src/main.rs:25-34 | the last digit found is the one named by the alternative at the last matching position |
| `Calibration.RuledOutBetweenSuffixes` | day-01/src/main.rs:25-27 | positions ruled out by their first two characters do not match |
| `Calibration.HumanValueInPlace` | day-01/src/main.rs:17-66 | the part 2 value of a line, read off where the first and last alternatives occur |
| `Calibration.HumanFirstInPlace` | day-01/src/main.rs:25-34 | an alternative at position `i`, with no match before it, gives the first digit of the rewritten line |
| `Calibration.HumanLastInPlace` | day-01/src/main.rs:25-34 | an alternative at position `j`, with no match after it, gives the last digit of the rewritten line |
| `Calibration.Part1Value1` | day-01/src/main.rs:74 | `1abc2` is worth 12 |
| `Calibration.Part1Value2` | day-01/src/main.rs:75 | `pqr3stu8vwx` is worth 38 |
| `Calibration.Part1Value3` | day-01/src/main.rs:76 | `a1b2c3d4e5f` is worth 15 |
| `Calibration.Part1Value4` | day-01/src/main.rs:77 | `treb7uchet` is worth 77 |
| `Calibration.CalibrationOf` | day-01/src/main.rs:55-66 | the calibration of lines with known values is the sum of those values |
| `Calibration.Part1Sample` | day-01/src/main.rs:72-81 | the first example document calibrates to 142 |
| `Calibration.Part2Value1` | day-01/src/main.rs:85 | `two1nine` is worth 29 after rewriting |
| `Calibration.Part2Value2` | day-01/src/main.rs:86 | `eightwothree` is worth 83 after rewriting |
| `Calibration.Part2Value3` | day-01/src/main.rs:87 | `abcone2threexyz` is worth 13 after rewriting |
| `Calibration.Part2Value4` | day-01/src/main.rs:88 | `xtwone3four` is worth 24 after rewriting |
| `Calibration.Part2Value5` | day-01/src/main.rs:89 | `4nineeightseven2` is worth 42 after rewriting |
| `Calibration.Part2Value6` | day-01/src/main.rs:90 | `zoneight234` is worth 14 after rewriting |
| `Calibration.Part2Value7` | day-01/src/main.rs:91 | `7pqrstsixteen` is worth 76 after rewriting |
| `Calibration.Part2Rewritten` | day-01/src/main.rs:93-95 | the rewritten lines of the second example calibrate to 281 |
| `Calibration.Part2Sample` | day-01/src/main.rs:83-96 | the second example document, read by lines and rewritten, calibrates to 281 |
| `Calibration.OverlapValue` | day-01/src/main.rs:100-104 | `eighthree` is worth 83: both overlapping words count |
| `Calibration.OverlapSample` | day-01/src/main.rs:98-105 | the document `eighthree` calibrates to 83 |
| `CubeGames.RevealValid` | day-02/src/main.rs:102-104 | `Reveal::validate`: each colour within the bound, so the reveal has no more power than the bound |
| `CubeGames.GameValid` | day-02/src/main.rs:71-73 | `Game::validate`: every round validates; characterised by `ValidIffCoversMinimum` |
| `CubeGames.MaxKey` | day-02/src/main.rs:77 | `max_by_key` over non-empty rounds yields a key that some round has and that no round exceeds |
| `CubeGames.Minimum` | day-02/src/main.rs:75-91 | a game is possible with its own minimum, and each colour of the minimum is shown by some round |
| `CubeGames.Power` | day-02/src/main.rs:106-108 | the power is 0 exactly when some colour is 0 |
| `CubeGames.ValidIffCoversMinimum` | day-02/src/main.rs:71-104 | a game validates against a bound exactly when its minimum does, so every such bound is at least the minimum in each colour |
| `CubeGames.MinimumLeastPower` | day-02/src/main.rs:75-108 | no bound the game validates against has a smaller power than its minimum |
| `CubeGames.Part1` | day-02/src/main.rs:14-26 | part 1 adds the id of every game valid with 12 red, 13 green and 14 blue cubes and nothing for the others |
| `CubeGames.Minimums` | day-02/src/main.rs:29 | one minimum per game, in order, each making its game possible |
| `CubeGames.Part2` | day-02/src/main.rs:28-32 | part 2 is at least the power of each game's minimum; `Part2Least` and `Part2Of` pin it down |
| `CubeGames.Part2Least` | day-02/src/main.rs:28-32 | part 2 is at most the total power of any per-game choice of bounds the games validate against |
| `CubeGames.Part2Of` | day-02/src/main.rs:28-32 | part 2 is the sum of the powers of the games' minimums |
| `CubeGames.ParseItem` | day-02/src/main.rs:47-54 | an item parses only when it is a number, one space and `red`, `green` or `blue`, and yields that count and colour |
| `CubeGames.TallyOfPush` | day-02/src/main.rs:49-54 | one more item adds its count to its own colour only |
| `CubeGames.TallyFromItems` | day-02/src/main.rs:44-56 | tallying fails exactly when some item fails, and otherwise adds the per-colour sums of the items to the starting counts |
| `CubeGames.ParseReveal` | day-02/src/main.rs:44-57 | a reveal is the per-colour sum of its `", "`-separated items, starting from 0, or fails exactly when an item does |
| `CubeGames.ParseGame` | day-02/src/main.rs:37-58 | a parsed game has at least one round, and its line contains `": "` |
| `CubeGames.ParsedGamesHaveRounds` | day-02/src/main.rs:34-62 | every parsed game has a round, so part 2 may take its minimum |
| `CubeGames.ReadItem` | day-02/src/main.rs:47-54 | the item step of the inner loop computes the item's cubes or fails |
| `CubeGames.ReadReveal` | day-02/src/main.rs:44-57 | the inner loop with its three accumulators computes the reveal's counts or fails |
| `CubeGames.ReadGame` | day-02/src/main.rs:37-59 | the body of the outer loop computes the line's game or fails |
| `CubeGames.ParseGames` | day-02/src/main.rs:34-62 | `parse_games` reads one game per line, or fails when some line does not parse |
| `CubeGames.ParseFormatItem` | day-02/src/main.rs:47-54 | a rendered `<count> <colour>` item parses back to its cubes |
| `CubeGames.ParseItems` | day-02/src/main.rs:45-55 | a list of rendered items parses back item by item |
| `CubeGames.ParseFormatReveal` | day-02/src/main.rs:44-57 | a rendered reveal parses back to the per-colour sums of its items |
| `CubeGames.ParseTexts` | day-02/src/main.rs:42-58 | the `"; "`-separated reveals of a line parse back in order |
| `CubeGames.ParseFormatGame` | day-02/src/main.rs:37-59 | a rendered `Game <id>: ...` line parses back to its id and its reveals |
| `CubeGames.FormattedRow` | day-02/src/main.rs:36-59 | each rendered game line is a single line that parses back to its game |
| `CubeGames.ReadFormattedGames` | day-02/src/main.rs:34-62 | a whole text of rendered games parses back to those games |
| `CubeGames.SampleTallies` | day-02/src/main.rs:116-121 | the example's reveals hold the expected per-colour counts |
| `CubeGames.SampleParses` | day-02/src/main.rs:116-121 | `parse_games` reads the example into its five games |
| `CubeGames.SampleValid` | day-02/src/main.rs:116-128 | games 1, 2 and 5 are possible with the bag; games 3 and 4 are not |
| `CubeGames.SamplePart1` | day-02/src/main.rs:123-128 | part 1 of the example is 8 |
| `CubeGames.SampleMinimumsAll` | day-02/src/main.rs:116-121 | the example's minimums are 4/2/6, 1/3/4, 20/13/6, 14/3/15 and 6/3/2 |
| `CubeGames.SamplePowers` | day-02/src/main.rs:130-135 | those minimums have a total power of 2286 |
| `CubeGames.SamplePart2` | day-02/src/main.rs:130-135 | part 2 of the example is 2286 |
| `Schematic.RunEnd` | day-03/src/main.rs:46-54 | the lookahead stops at the first non-digit at or after the start, or at the end of the line |
| `Schematic.ReadDigits` | day-03/src/main.rs:43-56 | the digit loop collects the maximal run of digits and exactly its columns |
| `Schematic.ReadLine` | day-03/src/main.rs:35-73 | the scan of one line appends exactly that line's parts and symbols |
| `Schematic.ReadRows` | day-03/src/main.rs:34-74 | the loop over the lines appends each line's tokens in row order |
| `Schematic.ReadPartsSymbols` | day-03/src/main.rs:30-77 | `read_parts_symbols` computes the tokens of the input's lines |
| `Schematic.ScanLine` | day-03/src/main.rs:35-73 | the scan of one line; characterised by `ScanLineSound`, `ScanLineComplete` and `ScanLineOrdered` |
| `Schematic.Tokenize` | day-03/src/main.rs:30-77 | the tokens of all lines; characterised by `TokenizeSound`, `TokenizeComplete` and `TokenizeOrdered` |
| `Schematic.ScanLineSound` | day-03/src/main.rs:36-73 | each part of a line is a maximal digit run with its decimal value; each symbol is a non-`.` non-digit cell with its character |
| `Schematic.ScanRowsSound` | day-03/src/main.rs:34-74 | every token of the later rows is where it claims to be |
| `Schematic.TokenizeSound` | day-03/src/main.rs:37-72 | every part is a maximal digit run, `number` is its decimal value and `columns` its consecutive cells; every symbol is a non-`.` non-digit cell; no token covers a `.` |
| `Schematic.ScanLineComplete` | day-03/src/main.rs:36-73 | every symbol cell of a line yields its symbol and every digit cell lies in one of its parts |
| `Schematic.ScanRowsComplete` | day-03/src/main.rs:34-74 | nothing in the later rows is missed |
| `Schematic.TokenizeComplete` | day-03/src/main.rs:34-72 | every non-`.` non-digit cell yields a symbol with its character, row and column, and every digit cell lies in a part on its row |
| `Schematic.ScanLineOrdered` | day-03/src/main.rs:35-73 | a line's tokens come left to right and do not overlap |
| `Schematic.ScanRowsOrdered` | day-03/src/main.rs:34-74 | tokens come in reading order, row by row |
| `Schematic.TokenizeOrdered` | day-03/src/main.rs:34-74 | parts and symbols come in reading order, so none is listed twice |
| `Schematic.BlankGrid` | day-03/src/main.rs:37-40 | a grid of `.` cells yields no token, and both sums are 0 |
| `Schematic.BlankNoPart` | day-03/src/main.rs:37-40 | no part lies in a grid of `.` cells |
| `Schematic.Adjacent` | day-03/src/main.rs:93-101 | `adjacent`: rows at most one apart and some column of the part within one of the symbol's; characterised by `AdjacentSpan` |
| `Schematic.AdjacentSpan` | day-03/src/main.rs:93-101 | a part spanning columns `lo .. hi - 1` touches a symbol exactly when the rows differ by at most one and the symbol's column is in `lo - 1 .. hi` |
| `Schematic.AdjacentParts` | day-03/src/main.rs:21-28 | the parts next to some symbol, each as often as in the input, in input order, with no duplicate when the input has none |
| `Schematic.PartSum` | day-03/src/main.rs:17-19 | `part_sum` folds `+` over the numbers; characterised by `PartSumOfAdjacent` and `PartSumReorder` |
| `Schematic.PartSumOfAdjacent` | day-03/src/main.rs:17-28 | the part sum adds every part's number when it touches a symbol and 0 otherwise |
| `Schematic.PartSumReorder` | day-03/src/main.rs:17-28 | the part sum depends on neither the order of the parts nor that of the symbols |
| `Schematic.Neighbours` | day-03/src/main.rs:118 | the parts adjacent to a symbol, each as often as in the input, in part order |
| `Schematic.Ratio` | day-03/src/main.rs:109-111 | `Gear::ratio`, the product of the two numbers; summed by `RatioSumOfGears` |
| `Schematic.GearAt` | day-03/src/main.rs:118-125 | the gear a symbol makes; characterised by `GearAtExactlyTwo` |
| `Schematic.GearAtExactlyTwo` | day-03/src/main.rs:114-126 | a symbol is a gear exactly when it is `*` and exactly two parts `i < j` touch it; the gear holds their numbers in part order |
| `Schematic.GearsOf` | day-03/src/main.rs:114-128 | the gears of the symbols, in symbol order; computed by `Gears` and characterised by `GearsOfStep` and `GearsOfStars` |
| `Schematic.GearsOfStars` | day-03/src/main.rs:115-117 | first keeping the `*` symbols does not change the gears |
| `Schematic.StarGear` | day-03/src/main.rs:118-123 | a kept `*` with two neighbours makes the gear of their numbers |
| `Schematic.GearsOfStep` | day-03/src/main.rs:117-126 | each `*` in turn pushes its gear, if it has one |
| `Schematic.Gears` | day-03/src/main.rs:114-128 | `gears` computes one gear per two-neighbour `*`, in symbol order |
| `Schematic.RatioSum` | day-03/src/main.rs:13-15 | `ratio_sum` folds `+` over the ratios; characterised by `RatioSumOfGears` and `RatioSumReorder` |
| `Schematic.RatioSumOfGears` | day-03/src/main.rs:13-15 | the ratio sum adds, over all symbols, the ratio of the gear each makes, and 0 for the others |
| `Schematic.RatioSumReorder` | day-03/src/main.rs:13-15 | the ratio sum does not depend on the order of the symbols |
| `SchematicSample.Row0` | day-03/src/main.rs:134 | row 0 of the example holds parts 467 and 114 |
| `SchematicSample.Row1` | day-03/src/main.rs:135 | row 1 holds a `*` at column 3 |
| `SchematicSample.Row2` | day-03/src/main.rs:136 | row 2 holds parts 35 and 633 |
| `SchematicSample.Row3` | day-03/src/main.rs:137 | row 3 holds a `#` at column 6 |
| `SchematicSample.Row4` | day-03/src/main.rs:138 | row 4 holds part 617 and a `*` at column 3 |
| `SchematicSample.Row5` | day-03/src/main.rs:139 | row 5 holds a `+` at column 5 and part 58 |
| `SchematicSample.Row6` | day-03/src/main.rs:140 | row 6 holds part 592 |
| `SchematicSample.Row7` | day-03/src/main.rs:141 | row 7 holds part 755 |
| `SchematicSample.Row8` | day-03/src/main.rs:142 | row 8 holds a `$` at column 3 and a `*` at column 5 |
| `SchematicSample.Row9` | day-03/src/main.rs:143 | row 9 holds parts 664 and 598 |
| `SchematicSample.SampleLines` | day-03/src/main.rs:134-144 | the example text has the ten expected lines |
| `SchematicSample.SampleTokens` | day-03/src/main.rs:146-148 | `read_parts_symbols` finds ten parts and six symbols in the example |
| `SchematicSample.SampleNear` | day-03/src/main.rs:146-149 | every part of the example touches a symbol except 114 and 58 |
| `SchematicSample.SamplePartSum` | day-03/src/main.rs:146-152 | the part sum of the example is 4361 |
| `SchematicSample.FirstGear` | day-03/src/main.rs:154-157 | the `*` in row 1 is a gear of 467 and 35 |
| `SchematicSample.LonelyStar` | day-03/src/main.rs:154-157 | the `*` next to 617 is no gear |
| `SchematicSample.LastGear` | day-03/src/main.rs:154-157 | the `*` in row 8 is a gear of 755 and 598 |
| `SchematicSample.SampleGears` | day-03/src/main.rs:154-157 | the example has exactly the two gears, in symbol order |
| `SchematicSample.SampleRatioSum` | day-03/src/main.rs:154-160 | the ratio sum of the example is 467835 |
| `Scratchcards.Count` | day-04/src/main.rs:21-25 | the count is at most the size of either side, and 0 exactly when no winning number was scratched |
| `Scratchcards.Points` | day-04/src/main.rs:27-34 | the points are 0 exactly when the count is 0, and `2^(count-1)` otherwise |
| `Scratchcards.PointsDouble` | day-04/src/main.rs:27-34 | one more match doubles a winning card's points |
| `Scratchcards.TotalPoints` | day-04/src/main.rs:7-8 | the points total is 0 exactly when no card matches, and at least the points of each card |
| `Scratchcards.TotalPointsByCounts` | day-04/src/main.rs:94-95 | the points total is the sum, over the cards' counts, of the points for that count |
| `Scratchcards.SetOf` | day-04/src/main.rs:45-46 | collecting into a set keeps exactly the numbers that occur |
| `Scratchcards.ParseCard` | day-04/src/main.rs:39-55 | one card line; characterised by `ParseCardNeedsSeparators` and `ParseFormatCard` |
| `Scratchcards.ParseCardNeedsSeparators` | day-04/src/main.rs:41-42 | a line parses only when it holds a `:` followed later by a `|` |
| `Scratchcards.ReadCards` | day-04/src/main.rs:37-58 | `read_cards` reads one card per line, or fails when some line does not parse |
| `Scratchcards.SplitCardLine` | day-04/src/main.rs:41-42 | a card line is cut after the name and then before the scratched numbers |
| `Scratchcards.SplitCells` | day-04/src/main.rs:43-44 | the padded numbers of one side split into their renderings |
| `Scratchcards.NumberSetOfCells` | day-04/src/main.rs:43-50 | parsing the padded numbers of one side yields the set of the numbers |
| `Scratchcards.ParseFormatCard` | day-04/src/main.rs:39-55 | a card line parses back to its two number sets, whatever its name; repeated numbers collapse |
| `Scratchcards.ReadFormattedCards` | day-04/src/main.rs:37-58 | a whole text of card lines parses back to its cards |
| `Scratchcards.AddCopies` | day-04/src/main.rs:69-71 | the inner loop adds `copies[index]` to the next `count` entries and changes nothing else |
| `Scratchcards.InBounds` | day-04/src/main.rs:70 | the index `index + copy` stays below the number of cards for every card; `SampleRounds` shows the example meets it |
| `Scratchcards.AddRangeExtend` | day-04/src/main.rs:69-71 | one more inner step adds to one more entry |
| `Scratchcards.CopiesAfter` | day-04/src/main.rs:62-72 | the pile keeps one entry per card through every round |
| `Scratchcards.WinCopies` | day-04/src/main.rs:62-72 | the outer loop leaves in the fresh array the pile after every card has paid out |
| `Scratchcards.Total` | day-04/src/main.rs:74 | the closing sum adds up the pile |
| `Scratchcards.CopyTotal` | day-04/src/main.rs:60-76 | the total number of cards once every copy is won is at least the number of cards |
| `Scratchcards.Copies` | day-04/src/main.rs:60-76 | `copies` returns the total number of cards, which is at least the number of cards |
| `Scratchcards.CopiesStep` | day-04/src/main.rs:64-71 | round `index` adds `copies[index]` to entries `index + 1 ..= index + count` and changes no other entry |
| `Scratchcards.CopiesSettled` | day-04/src/main.rs:64-72 | once its own round has passed, a card's count never changes |
| `Scratchcards.CopiesAtLeastOne` | day-04/src/main.rs:62-72 | every card keeps at least its original copy |
| `Scratchcards.SumAtLeastLength` | day-04/src/main.rs:74 | a sum of positive entries is at least their number |
| `Scratchcards.CopiesAfterWon` | day-04/src/main.rs:64-72 | after `k` rounds, the visited cards hold their final counts and the others 1 plus what the visited cards won for them |
| `Scratchcards.CopiesAreWon` | day-04/src/main.rs:60-76 | the loop computes for every card one plus the copies won from the cards before it |
| `Scratchcards.SampleParses` | day-04/src/main.rs:83-89 | `read_cards` reads the example into its six cards |
| `Scratchcards.SampleCount1` | day-04/src/main.rs:83 | card 1 has 4 matches |
| `Scratchcards.SampleCount2` | day-04/src/main.rs:84 | card 2 has 2 matches |
| `Scratchcards.SampleCount3` | day-04/src/main.rs:85 | card 3 has 2 matches |
| `Scratchcards.SampleCount4` | day-04/src/main.rs:86 | card 4 has 1 match |
| `Scratchcards.SampleCount5` | day-04/src/main.rs:87 | card 5 has no match |
| `Scratchcards.SampleCount6` | day-04/src/main.rs:88 | card 6 has no match |
| `Scratchcards.SampleCounts` | day-04/src/main.rs:83-89 | the example's counts are 4, 2, 2, 1, 0, 0 |
| `Scratchcards.SamplePoints` | day-04/src/main.rs:91-98 | the example scores 13 points |
| `Scratchcards.SampleRounds` | day-04/src/main.rs:100-106 | the example's copies stay inside the pile and end as 1, 2, 4, 8, 14, 1 |
| `Scratchcards.SampleCopyTotal` | day-04/src/main.rs:100-106 | the example ends with 30 cards |

## Left out

- The `main` functions read `input.txt` with `include_str!` and print with `println!`. This I/O is not modelled.
- The test harness is not modelled as such. Each test is a lemma about the same input and the same expected value.
- Machine integers are not modelled: every `usize` and `u32` is an unbounded `nat`. The model has no overflow panic in `parse`, in the `+=` of `parse_games` and `copies`, in `power`, in `2_usize.pow` or in the sums.
- The `regex` crate is not modelled. The anchored alternation of day 1 is a first-match search over its 18 literals. No literal is a prefix of another, so at most one can match (`Calibration.MatchIsUnique`).
- `HashSet` is modelled as `set<nat>`; its hashing and iteration order are not modelled.
- Only ASCII text is modelled. Day 1 slices `&line[i..]` by byte offset, and day 3 numbers its columns with `chars().enumerate()`; these agree only on ASCII.
- `char::is_whitespace` is restricted to space, tab, line feed, vertical tab, form feed and carriage return. Unicode whitespace is not modelled.
- `str::lines` is modelled for `\n` and `\r\n` endings. A trailing `\r` on the last line is kept, as in Rust.
- Panics become `None` in the parsers: `split_once(...).unwrap()`, `parse().unwrap()`, the `unreachable!()` for an unknown colour, and the slice `&game[5..]` of a too-short name. Each makes the whole read return `None`.
- Panics that well-formed parsed input can still reach become preconditions:
  - `Calibration.LineValue` and `Calibration.Calibration` require a digit on every line, as the `unwrap` at day-01/src/main.rs:64 demands;
  - `CubeGames.Minimum` requires a round, as the `unwrap` at day-02/src/main.rs:77 demands (`CubeGames.ParsedGamesHaveRounds` shows that every parsed game has one);
  - `Scratchcards.Copies` requires every card's copies to stay inside the pile, as the index at day-04/src/main.rs:70 demands.
- `parse_games` takes the id as `&game[5..]` without checking that the name is `Game `. The model does the same, so `Xxxxx7: 1 red` is game 7.
- `parse::<usize>` also accepts a leading `+` (`Text.ParseUsize`). The model keeps this, so `Game +3: ...` is game 3.
- `digitizer` is never called on a text outside the alternation. Its `unreachable!()` arm is `None` in `Calibration.Digitizer`.
- The peekable iterator of `read_parts_symbols` is modelled by a column index: peeking is reading `line[column]`.
- The rows of the `enumerate` in `read_parts_symbols` are unbounded naturals.
