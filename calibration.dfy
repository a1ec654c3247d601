/** Day 1, "Trebuchet?!": each line of the calibration document yields the
    two-digit number made of its first and last digit, and the document's
    value is the sum over its lines. Part 2 first rewrites each line into the
    digits it spells, where a digit may also be written as a word (`one` to
    `nine`) and overlapping words each count. */
module Calibration {
  import opened Text
  import opened Seqs

  // ---------------------------------------------------------------------------
  // Part 1: first and last digit

  predicate HasDigit(line: string) {
    exists i :: 0 <= i < |line| && IsAsciiDigit(line[i])
  }

  /** `line.chars().filter(is_ascii_digit).map(to_digit(10))`: there are
      digits to take exactly when the line holds an ASCII digit, so the
      `unwrap`s of `first()` and `last()` fail exactly on a line without one. */
  function Digits(line: string): (ds: seq<nat>)
    ensures forall k :: 0 <= k < |ds| ==> ds[k] < 10
    ensures |ds| > 0 <==> HasDigit(line)
    decreases |line|
  {
    if |line| == 0 then []
    else if IsAsciiDigit(line[0]) then [DigitValue(line[0])] + Digits(line[1..])
    else
      assert forall i :: 1 <= i < |line| ==> line[i] == line[1..][i - 1];
      Digits(line[1..])
  }

  /** `Digits` holds the value of each digit of the line, in the order of the
      digits' positions. */
  lemma {:induction false} DigitsHits(line: string, from: nat)
    requires from <= |line|
    ensures |Digits(line[from..])| == |Hits(line, IsAsciiDigit, from)|
    ensures forall k :: 0 <= k < |Digits(line[from..])| ==>
      Digits(line[from..])[k] == DigitValue(line[Hits(line, IsAsciiDigit, from)[k]])
    decreases |line| - from
  {
    if from < |line| {
      DigitsHits(line, from + 1);
      assert line[from..][1..] == line[from + 1..];
    }
  }

  lemma DigitsPositions(line: string)
    ensures |Digits(line)| == |Hits(line, IsAsciiDigit, 0)|
    ensures forall k :: 0 <= k < |Digits(line)| ==> Digits(line)[k] == DigitValue(line[Hits(line, IsAsciiDigit, 0)[k]])
  {
    DigitsHits(line, 0);
    assert line[0..] == line;
  }

  /** `i` is the position of the line's first digit. */
  predicate FirstDigitAt(line: string, i: nat) {
    i < |line| && IsAsciiDigit(line[i]) && forall k :: 0 <= k < i ==> !IsAsciiDigit(line[k])
  }

  /** `j` is the position of the line's last digit. */
  predicate LastDigitAt(line: string, j: nat) {
    j < |line| && IsAsciiDigit(line[j]) && forall k :: j < k < |line| ==> !IsAsciiDigit(line[k])
  }

  /** The digits are taken in the order of their positions: the first is the
      first digit of the line. */
  lemma DigitsFirst(line: string, i: nat)
    requires FirstDigitAt(line, i)
    ensures |Digits(line)| > 0 && Digits(line)[0] == DigitValue(line[i])
  {
    DigitsPositions(line);
    var hits := Hits(line, IsAsciiDigit, 0);
    HitsComplete(line, IsAsciiDigit, 0, i);
    assert IsAsciiDigit(line[hits[0]]);
  }

  /** ... and the last is the last digit of the line. */
  lemma DigitsLast(line: string, j: nat)
    requires LastDigitAt(line, j)
    ensures |Digits(line)| > 0 && Digits(line)[|Digits(line)| - 1] == DigitValue(line[j])
  {
    DigitsPositions(line);
    var hits := Hits(line, IsAsciiDigit, 0);
    HitsComplete(line, IsAsciiDigit, 0, j);
    assert IsAsciiDigit(line[hits[|hits| - 1]]);
  }

  /** The calibration value of one line, which must hold a digit (the source
      unwraps `first()` and `last()`). */
  function LineValue(line: string): (v: nat)
    requires HasDigit(line)
    ensures v < 100
  {
    var ds := Digits(line);
    10 * ds[0] + ds[|ds| - 1]
  }

  /** The value of a line is ten times its first digit plus its last digit. */
  lemma LineValueFirstLast(line: string, i: nat, j: nat)
    requires FirstDigitAt(line, i) && LastDigitAt(line, j)
    ensures HasDigit(line) && i <= j
    ensures LineValue(line) == 10 * DigitValue(line[i]) + DigitValue(line[j])
  {
    DigitsFirst(line, i);
    DigitsLast(line, j);
  }

  /** A line that starts and ends with a digit is worth those two digits. */
  lemma LineValueEnds(line: string)
    requires |line| > 0 && IsAsciiDigit(line[0]) && IsAsciiDigit(line[|line| - 1])
    ensures HasDigit(line)
    ensures LineValue(line) == 10 * DigitValue(line[0]) + DigitValue(line[|line| - 1])
  {
    LineValueFirstLast(line, 0, |line| - 1);
  }

  /** A line with a single digit `d` is worth `11 * d`. */
  lemma LineValueSingle(line: string, i: nat)
    requires i < |line| && IsAsciiDigit(line[i])
    requires forall k :: 0 <= k < |line| && k != i ==> !IsAsciiDigit(line[k])
    ensures LineValue(line) == 11 * DigitValue(line[i])
  {
    LineValueFirstLast(line, i, i);
  }

  predicate AllHaveDigits(lines: seq<string>) {
    forall k :: 0 <= k < |lines| ==> HasDigit(lines[k])
  }

  /** `calibration`: the sum of the lines' values. */
  function Calibration(lines: seq<string>): (total: nat)
    requires AllHaveDigits(lines)
    ensures total <= 99 * |lines|
    decreases |lines|
  {
    if |lines| == 0 then 0 else LineValue(lines[0]) + Calibration(lines[1..])
  }

  lemma AllHaveDigitsAppend(xs: seq<string>, ys: seq<string>)
    requires AllHaveDigits(xs) && AllHaveDigits(ys)
    ensures AllHaveDigits(xs + ys)
  {
    forall k | 0 <= k < |xs + ys| ensures HasDigit((xs + ys)[k]) {
      if k < |xs| {
        assert (xs + ys)[k] == xs[k];
      } else {
        assert (xs + ys)[k] == ys[k - |xs|];
      }
    }
  }

  /** The calibration of a document is the sum over any split of its lines. */
  lemma {:induction false} CalibrationAppend(xs: seq<string>, ys: seq<string>)
    requires AllHaveDigits(xs) && AllHaveDigits(ys)
    ensures AllHaveDigits(xs + ys)
    ensures Calibration(xs + ys) == Calibration(xs) + Calibration(ys)
    decreases |xs|
  {
    AllHaveDigitsAppend(xs, ys);
    if |xs| > 0 {
      var zs := xs + ys;
      assert zs[0] == xs[0];
      assert zs[1..] == xs[1..] + ys;
      CalibrationAppend(xs[1..], ys);
      assert Calibration(zs) == LineValue(xs[0]) + Calibration(xs[1..] + ys);
    } else {
      assert xs + ys == ys;
    }
  }

  // ---------------------------------------------------------------------------
  // Part 2: digits spelled out

  /** The alternatives of the anchored pattern
      `^(1|2|3|4|5|6|7|8|9|one|two|three|four|five|six|seven|eight|nine)`, in order. */
  const Literals: seq<string> :=
    ["1", "2", "3", "4", "5", "6", "7", "8", "9",
     "one", "two", "three", "four", "five", "six", "seven", "eight", "nine"]

  predicate StartsWith(s: string, prefix: string) {
    |prefix| <= |s| && s[..|prefix|] == prefix
  }

  /** The anchored pattern's match at the start of `s`: the first alternative,
      from the `from`-th on, that `s` starts with. */
  function MatchFrom(s: string, from: nat): (m: Option<string>)
    requires from <= |Literals|
    ensures m.Some? ==> m.value in Literals && StartsWith(s, m.value)
    ensures m.None? <==> forall k :: from <= k < |Literals| ==> !StartsWith(s, Literals[k])
    decreases |Literals| - from
  {
    if from == |Literals| then None
    else if StartsWith(s, Literals[from]) then Some(Literals[from])
    else MatchFrom(s, from + 1)
  }

  /** `digit_words.find(suffix)`: an alternative that `s` starts with, or
      nothing exactly when `s` starts with none. */
  function Match(s: string): (m: Option<string>)
    ensures m.Some? ==> m.value in Literals && StartsWith(s, m.value)
    ensures m.None? <==> forall k :: 0 <= k < |Literals| ==> !StartsWith(s, Literals[k])
  {
    MatchFrom(s, 0)
  }

  /** `digitizer`: the digit a pattern alternative stands for; any other text
      is `unreachable!()` in the source. */
  function Digitizer(text: string): (d: Option<string>)
    ensures d.Some? <==> text in Literals
    ensures d.Some? ==> |d.value| == 1 && '1' <= d.value[0] <= '9'
  {
    match text
    case "one" | "1" => Some("1")
    case "two" | "2" => Some("2")
    case "three" | "3" => Some("3")
    case "four" | "4" => Some("4")
    case "five" | "5" => Some("5")
    case "six" | "6" => Some("6")
    case "seven" | "7" => Some("7")
    case "eight" | "8" => Some("8")
    case "nine" | "9" => Some("9")
    case _ => None
  }

  /** A digit stands for itself: the `n`-th alternative is the `n`-th of `1` to `9`. */
  lemma DigitizerDigits(n: nat)
    requires n < 9
    ensures Digitizer(Literals[n]) == Some(["123456789"[n]])
  {
    if n == 0 {
    } else if n == 1 {
    } else if n == 2 {
    } else if n == 3 {
    } else if n == 4 {
    } else if n == 5 {
    } else if n == 6 {
    } else if n == 7 {
    } else {
    }
  }

  /** A digit's name stands for that digit: the `n + 9`-th alternative is the
      `n`-th of `1` to `9`. */
  lemma DigitizerWords(n: nat)
    requires n < 9
    ensures Digitizer(Literals[n + 9]) == Some(["123456789"[n]])
  {
    if n == 0 {
    } else if n == 1 {
    } else if n == 2 {
    } else if n == 3 {
    } else if n == 4 {
    } else if n == 5 {
    } else if n == 6 {
    } else if n == 7 {
    } else {
    }
  }

  predicate Matches(s: string) {
    Match(s).Some?
  }

  /** No alternative of the pattern is a prefix of another, so at most one
      can match at a position. */
  lemma LiteralsPrefixFree(j: nat, k: nat)
    requires j < |Literals| && k < |Literals| && j != k
    ensures !StartsWith(Literals[j], Literals[k])
  {
    var a, b := Literals[j], Literals[k];
    assert |b| > |a| || a[0] != b[0] || (|b| > 1 && a[1] != b[1]);
    if |b| <= |a| {
      assert a[..|b|][0] == a[0];
      assert |b| > 1 ==> a[..|b|][1] == a[1];
    }
  }

  lemma StartsWithBoth(s: string, a: string, b: string)
    requires StartsWith(s, a) && StartsWith(s, b) && |b| <= |a|
    ensures StartsWith(a, b)
  {
    assert a[..|b|] == s[..|a|][..|b|];
  }

  /** The order of the alternation does not matter: the match is the one
      alternative the text starts with, if any. */
  lemma MatchIsUnique(s: string, k: nat)
    requires k < |Literals| && StartsWith(s, Literals[k])
    ensures Match(s) == Some(Literals[k])
  {
    var m := Match(s);
    assert m.Some?;
    var j :| 0 <= j < |Literals| && Literals[j] == m.value;
    if j != k {
      if |Literals[k]| <= |Literals[j]| {
        StartsWithBoth(s, Literals[j], Literals[k]);
        LiteralsPrefixFree(j, k);
      } else {
        StartsWithBoth(s, Literals[k], Literals[j]);
        LiteralsPrefixFree(k, j);
      }
    }
  }

  /** The digit a suffix that matches starts with, spelled or not. */
  function DigitOf(s: string): (c: char)
    requires Matches(s)
    ensures '1' <= c <= '9'
  {
    Digitizer(Match(s).value).value[0]
  }

  /** What the scan contributes at the start of `s`: its digit, or nothing. */
  function DigitAt(s: string): string {
    if Matches(s) then [DigitOf(s)] else ""
  }

  /** Where the `k`-th alternative starts, the scan contributes the digit it
      stands for, whatever follows. */
  lemma DigitAtLiteral(s: string, k: nat)
    requires k < |Literals| && StartsWith(s, Literals[k])
    ensures DigitAt(s) == ["123456789"[k % 9]]
  {
    var n := k % 9;
    if k < 9 {
      assert n == k;
      DigitizerDigits(k);
    } else {
      assert n == k - 9;
      DigitizerWords(k - 9);
    }
    assert Digitizer(Literals[k]) == Some(["123456789"[n]]);
    MatchIsUnique(s, k);
    assert DigitOf(s) == "123456789"[n];
  }

  /** The text `parse_human_digits` builds for one line: the digit found at
      each position, from the first position to the last. */
  function HumanDigits(line: string): (digits: string)
    ensures |digits| <= |line|
    ensures forall k :: 0 <= k < |digits| ==> '1' <= digits[k] <= '9'
    decreases |line|
  {
    if |line| == 0 then "" else DigitAt(line) + HumanDigits(line[1..])
  }

  /** The suffixes of `line`, one per starting position. */
  function Suffixes(line: string): seq<string> {
    seq(|line|, i requires 0 <= i < |line| => line[i..])
  }

  /** `HumanDigits` holds one digit per position whose suffix matches, in
      increasing order of position. */
  lemma {:induction false} HumanDigitsFrom(line: string, from: nat)
    requires from <= |line|
    ensures |HumanDigits(line[from..])| == |Hits(Suffixes(line), Matches, from)|
    ensures forall k :: 0 <= k < |HumanDigits(line[from..])| ==>
      HumanDigits(line[from..])[k] == DigitOf(line[Hits(Suffixes(line), Matches, from)[k]..])
    decreases |line| - from
  {
    if from < |line| {
      HumanDigitsFrom(line, from + 1);
      assert line[from..][1..] == line[from + 1..];
      assert Suffixes(line)[from] == line[from..];
    }
  }

  lemma HumanDigitsPositions(line: string)
    ensures |HumanDigits(line)| == |Hits(Suffixes(line), Matches, 0)|
    ensures forall k :: 0 <= k < |HumanDigits(line)| ==>
      HumanDigits(line)[k] == DigitOf(line[Hits(Suffixes(line), Matches, 0)[k]..])
  {
    HumanDigitsFrom(line, 0);
    assert line[0..] == line;
  }

  /** Part 2 can take a line's value exactly when some position of it matches. */
  lemma HumanDigitsHaveDigit(line: string)
    ensures HasDigit(HumanDigits(line)) <==> exists i :: 0 <= i < |line| && Matches(line[i..])
  {
    var digits, suffixes := HumanDigits(line), Suffixes(line);
    assert HasDigit(digits) <==> |digits| > 0 by {
      if |digits| > 0 {
        assert IsAsciiDigit(digits[0]);
      }
    }
    assert |digits| == |Hits(suffixes, Matches, 0)| by { HumanDigitsPositions(line); }
    SuffixHitsNonEmpty(line, Matches);
  }

  /** Some suffix is listed exactly when some suffix satisfies `keep`. */
  lemma SuffixHitsNonEmpty(line: string, keep: string -> bool)
    ensures |Hits(Suffixes(line), keep, 0)| > 0 <==> exists i :: 0 <= i < |line| && keep(line[i..])
  {
    var suffixes := Suffixes(line);
    HitsNonEmpty(suffixes, keep);
    assert forall i :: 0 <= i < |line| ==> suffixes[i] == line[i..];
  }

  function Reversed<T>(xs: seq<T>): (r: seq<T>)
    ensures |r| == |xs|
    decreases |xs|
  {
    if |xs| == 0 then [] else Reversed(xs[1..]) + [xs[0]]
  }

  lemma {:induction false} ReversedPush<T>(xs: seq<T>, x: T)
    ensures Reversed(xs + [x]) == [x] + Reversed(xs)
    decreases |xs|
  {
    if |xs| > 0 {
      ReversedPush(xs[1..], x);
      assert (xs + [x])[1..] == xs[1..] + [x];
    }
  }

  lemma JoinNothingPrepend(piece: string, pieces: seq<string>)
    ensures Join([piece] + pieces, "") == piece + Join(pieces, "")
  {
    if |pieces| > 0 {
      assert ([piece] + pieces)[1..] == pieces;
    }
  }

  /** The body of the `map` in `parse_human_digits`: scans the positions of
      the line from the last to the first, pushing the digit found at each,
      then reverses the digits and joins them. */
  method HumanDigitsOfLine(line: string) returns (digits: string)
    ensures digits == HumanDigits(line)
  {
    var parsed: seq<string> := [];
    var i := |line|;
    while i > 0
      invariant 0 <= i <= |line|
      invariant Join(Reversed(parsed), "") == HumanDigits(line[i..])
    {
      i := i - 1;
      var suffix := line[i..];
      assert suffix[1..] == line[i + 1..];
      var mat := Match(suffix);
      if mat.Some? {
        var digit := Digitizer(mat.value).value;
        ReversedPush(parsed, digit);
        JoinNothingPrepend(digit, Reversed(parsed));
        parsed := parsed + [digit];
      }
    }
    parsed := Reversed(parsed);
    digits := Join(parsed, "");
  }

  /** Every line rewritten into the digits it spells. */
  function HumanLines(lines: seq<string>): (r: seq<string>)
    ensures |r| == |lines|
    ensures forall k :: 0 <= k < |lines| ==> r[k] == HumanDigits(lines[k])
    decreases |lines|
  {
    if |lines| == 0 then [] else [HumanDigits(lines[0])] + HumanLines(lines[1..])
  }

  /** `parse_human_digits`: every line rewritten. */
  method ParseHumanDigits(lines: seq<string>) returns (result: seq<string>)
    ensures result == HumanLines(lines)
  {
    result := [];
    for i := 0 to |lines|
      invariant |result| == i
      invariant forall k :: 0 <= k < i ==> result[k] == HumanDigits(lines[k])
    {
      var digits := HumanDigitsOfLine(lines[i]);
      result := result + [digits];
    }
    assert forall k :: 0 <= k < |lines| ==> result[k] == HumanLines(lines)[k];
  }

  // ---------------------------------------------------------------------------
  // The examples

  // The scan at a position of the line, without taking the suffix

  /** Whether `lit`, from its `j`-th character on, occurs in `line` at
      position `i + j`. */
  predicate LiteralAt(line: string, i: nat, lit: string, j: nat)
    decreases |lit| - j
  {
    j >= |lit| || (i + j < |line| && line[i + j] == lit[j] && LiteralAt(line, i, lit, j + 1))
  }

  lemma {:induction false} LiteralAtChars(line: string, i: nat, lit: string, j: nat)
    ensures LiteralAt(line, i, lit, j) <==>
      (j >= |lit| || (i + |lit| <= |line| && forall t :: j <= t < |lit| ==> line[i + t] == lit[t]))
    decreases |lit| - j
  {
    if j < |lit| {
      LiteralAtChars(line, i, lit, j + 1);
    }
  }

  /** Comparing in place is comparing with the start of the suffix. */
  lemma LiteralAtStartsWith(line: string, i: nat, lit: string)
    requires i <= |line|
    ensures LiteralAt(line, i, lit, 0) <==> StartsWith(line[i..], lit)
  {
    LiteralAtChars(line, i, lit, 0);
    var s := line[i..];
    if |lit| <= |s| {
      assert forall t :: 0 <= t < |lit| ==> s[..|lit|][t] == line[i + t];
    }
  }

  /** The characters an alternative of the pattern begins with. */
  predicate IsLead(c: char) {
    '1' <= c <= '9' || c == 'o' || c == 't' || c == 'f' || c == 's' || c == 'e' || c == 'n'
  }

  /** The first two letters of the spelled-out alternatives. */
  predicate IsWordStart(c: char, d: char) {
    || (c == 'o' && d == 'n')
    || (c == 't' && (d == 'w' || d == 'h'))
    || (c == 'f' && (d == 'o' || d == 'i'))
    || (c == 's' && (d == 'i' || d == 'e'))
    || (c == 'e' && d == 'i')
    || (c == 'n' && d == 'i')
  }

  /** Whether the first two characters of `s` already rule out every
      alternative: the first begins none, or it is a letter that, with the
      next character (if any), begins no spelled-out digit. */
  predicate RuledOut(s: string) {
    |s| == 0 || !IsLead(s[0]) || (!IsAsciiDigit(s[0]) && (|s| == 1 || !IsWordStart(s[0], s[1])))
  }

  /** The alternatives `1` to `9` are single digits; the spelled-out ones
      have at least three letters, the first two a word start. */
  lemma LiteralShape(k: nat)
    requires k < |Literals|
    ensures k < 9 ==> |Literals[k]| == 1 && '1' <= Literals[k][0] <= '9'
    ensures k >= 9 ==> |Literals[k]| >= 3 && IsWordStart(Literals[k][0], Literals[k][1])
  {
    if k < 9 {
      assert Literals[k] == ["123456789"[k]];
    } else if k < 13 {
      assert k == 9 || k == 10 || k == 11 || k == 12;
    } else {
      assert k == 13 || k == 14 || k == 15 || k == 16 || k == 17;
    }
  }

  /** A suffix whose first two characters rule out every alternative does not match. */
  lemma RuledOutNoMatch(s: string)
    requires RuledOut(s)
    ensures !Matches(s)
  {
    forall k | 0 <= k < |Literals|
      ensures !StartsWith(s, Literals[k])
    {
      var w := Literals[k];
      LiteralShape(k);
      if |w| <= |s| {
        assert s[..|w|][0] == s[0];
        assert |w| > 1 ==> s[..|w|][1] == s[1];
      }
    }
  }

  /** The `n`-th of the digits `1` to `9` is worth `n + 1`. */
  lemma NamedDigitValue(n: nat)
    requires n < 9
    ensures IsAsciiDigit("123456789"[n]) && DigitValue("123456789"[n]) == n + 1
  {
    assert "123456789"[n] == "0123456789"[n + 1];
  }

  /** A suffix that starts with the `k`-th alternative matches and yields
      the digit that alternative stands for. */
  lemma LiteralDigit(s: string, k: nat)
    requires k < |Literals| && StartsWith(s, Literals[k])
    ensures Matches(s) && DigitOf(s) == "123456789"[k % 9]
  {
    DigitAtLiteral(s, k);
  }

  /** The first digit part 2 finds is the one at the first matching position. */
  lemma HumanDigitsFirst(line: string, i: nat)
    requires i < |line| && Matches(line[i..])
    requires forall p :: 0 <= p < i ==> !Matches(line[p..])
    ensures |HumanDigits(line)| > 0 && HumanDigits(line)[0] == DigitOf(line[i..])
  {
    var suffixes := Suffixes(line);
    HumanDigitsPositions(line);
    assert forall p :: 0 <= p < |line| ==> suffixes[p] == line[p..];
    HitsFirst(suffixes, Matches, i);
  }

  /** The last digit part 2 finds is the one at the last matching position. */
  lemma HumanDigitsLast(line: string, j: nat)
    requires j < |line| && Matches(line[j..])
    requires forall p :: j < p < |line| ==> !Matches(line[p..])
    ensures |HumanDigits(line)| > 0 && HumanDigits(line)[|HumanDigits(line)| - 1] == DigitOf(line[j..])
  {
    var suffixes := Suffixes(line);
    HumanDigitsPositions(line);
    assert forall p :: 0 <= p < |line| ==> suffixes[p] == line[p..];
    HitsLast(suffixes, Matches, j);
  }

  /** The part 2 value of a line is ten times the digit the alternative at
      its first matching position stands for, plus the digit the alternative
      at its last matching position stands for. */
  lemma HumanDigitsValue(line: string, i: nat, ki: nat, j: nat, kj: nat)
    requires i <= j < |line| && ki < |Literals| && kj < |Literals|
    requires StartsWith(line[i..], Literals[ki]) && StartsWith(line[j..], Literals[kj])
    requires forall p :: 0 <= p < i ==> !Matches(line[p..])
    requires forall p :: j < p < |line| ==> !Matches(line[p..])
    ensures HasDigit(HumanDigits(line))
    ensures LineValue(HumanDigits(line)) == 10 * (ki % 9 + 1) + (kj % 9 + 1)
  {
    HumanEnds(line, i, ki, j, kj);
    NamedEnds(HumanDigits(line), ki % 9, kj % 9);
  }

  /** The rewritten line starts with the digit of the first match and ends
      with the digit of the last. */
  lemma HumanEnds(line: string, i: nat, ki: nat, j: nat, kj: nat)
    requires i <= j < |line| && ki < |Literals| && kj < |Literals|
    requires StartsWith(line[i..], Literals[ki]) && StartsWith(line[j..], Literals[kj])
    requires forall p :: 0 <= p < i ==> !Matches(line[p..])
    requires forall p :: j < p < |line| ==> !Matches(line[p..])
    ensures |HumanDigits(line)| > 0
    ensures HumanDigits(line)[0] == "123456789"[ki % 9]
    ensures HumanDigits(line)[|HumanDigits(line)| - 1] == "123456789"[kj % 9]
  {
    HumanFirstOf(line, i, ki);
    HumanLastOf(line, j, kj);
  }

  /** A text that starts with the `a`-th and ends with the `b`-th of the
      digits `1` to `9` is worth `10 * (a + 1) + (b + 1)`. */
  lemma NamedEnds(text: string, a: nat, b: nat)
    requires a < 9 && b < 9
    requires |text| > 0 && text[0] == "123456789"[a] && text[|text| - 1] == "123456789"[b]
    ensures HasDigit(text) && LineValue(text) == 10 * (a + 1) + (b + 1)
  {
    NamedDigitValue(a);
    NamedDigitValue(b);
    LineValueEnds(text);
  }

  /** The first digit part 2 finds is the one the alternative at the first
      matching position stands for. */
  lemma HumanFirstOf(line: string, i: nat, k: nat)
    requires i < |line| && k < |Literals| && StartsWith(line[i..], Literals[k])
    requires forall p :: 0 <= p < i ==> !Matches(line[p..])
    ensures |HumanDigits(line)| > 0 && HumanDigits(line)[0] == "123456789"[k % 9]
  {
    LiteralDigit(line[i..], k);
    HumanDigitsFirst(line, i);
  }

  /** The last digit part 2 finds is the one the alternative at the last
      matching position stands for. */
  lemma HumanLastOf(line: string, j: nat, k: nat)
    requires j < |line| && k < |Literals| && StartsWith(line[j..], Literals[k])
    requires forall p :: j < p < |line| ==> !Matches(line[p..])
    ensures |HumanDigits(line)| > 0
    ensures HumanDigits(line)[|HumanDigits(line)| - 1] == "123456789"[k % 9]
  {
    LiteralDigit(line[j..], k);
    HumanDigitsLast(line, j);
  }

  /** `RuledOut` of the suffix at position `p`, read in place. */
  predicate RuledOutAt(line: string, p: nat) {
    && p < |line|
    && (|| !IsLead(line[p])
        || (!IsAsciiDigit(line[p]) && (p + 1 == |line| || !IsWordStart(line[p], line[p + 1]))))
  }

  /** No alternative occurs at the positions of `line` from `lo` up to `hi`,
      as the first two characters at each show. */
  predicate RuledOutBetween(line: string, lo: nat, hi: nat)
    decreases hi - lo
  {
    lo >= hi || (RuledOutAt(line, lo) && RuledOutBetween(line, lo + 1, hi))
  }

  lemma {:induction false} RuledOutBetweenSuffixes(line: string, lo: nat, hi: nat)
    requires hi <= |line| && RuledOutBetween(line, lo, hi)
    ensures forall p :: lo <= p < hi ==> !Matches(line[p..])
    decreases hi - lo
  {
    if lo < hi {
      RuledOutBetweenSuffixes(line, lo + 1, hi);
      var s := line[lo..];
      assert s[0] == line[lo];
      assert |s| > 1 ==> s[1] == line[lo + 1];
      RuledOutNoMatch(s);
    }
  }

  /** The first digit part 2 finds, read off in place: the alternative at
      `i`, with none before it. */
  lemma HumanFirstInPlace(line: string, i: nat, k: nat)
    requires i < |line| && k < |Literals| && LiteralAt(line, i, Literals[k], 0)
    requires RuledOutBetween(line, 0, i)
    ensures |HumanDigits(line)| > 0 && HumanDigits(line)[0] == "123456789"[k % 9]
  {
    LiteralAtStartsWith(line, i, Literals[k]);
    RuledOutBetweenSuffixes(line, 0, i);
    HumanFirstOf(line, i, k);
  }

  /** The last digit part 2 finds, read off in place: the alternative at
      `j`, with none after it. */
  lemma HumanLastInPlace(line: string, j: nat, k: nat)
    requires j < |line| && k < |Literals| && LiteralAt(line, j, Literals[k], 0)
    requires RuledOutBetween(line, j + 1, |line|)
    ensures |HumanDigits(line)| > 0
    ensures HumanDigits(line)[|HumanDigits(line)| - 1] == "123456789"[k % 9]
  {
    LiteralAtStartsWith(line, j, Literals[k]);
    RuledOutBetweenSuffixes(line, j + 1, |line|);
    HumanLastOf(line, j, k);
  }

  /** The part 2 value of a line, read off in place: the alternatives found
      at the first and at the last matching position, with no alternative
      before the first or after the last. */
  lemma HumanValueInPlace(line: string, i: nat, ki: nat, j: nat, kj: nat)
    requires i <= j < |line| && ki < |Literals| && kj < |Literals|
    requires LiteralAt(line, i, Literals[ki], 0) && LiteralAt(line, j, Literals[kj], 0)
    requires RuledOutBetween(line, 0, i) && RuledOutBetween(line, j + 1, |line|)
    ensures HasDigit(HumanDigits(line))
    ensures LineValue(HumanDigits(line)) == 10 * (ki % 9 + 1) + (kj % 9 + 1)
  {
    var digits := HumanDigits(line);
    HumanFirstInPlace(line, i, ki);
    HumanLastInPlace(line, j, kj);
    NamedDigitValue(ki % 9);
    NamedDigitValue(kj % 9);
    LineValueEnds(digits);
  }

  const Part1Rows: seq<string> := ["1abc2", "pqr3stu8vwx", "a1b2c3d4e5f", "treb7uchet"]

  lemma Part1Value1(line: string)
    requires line == Part1Rows[0]
    ensures HasDigit(line) && LineValue(line) == 12
  {
    assert line[0] == '1' && line[4] == '2';
    assert FirstDigitAt(line, 0) && LastDigitAt(line, 4);
    LineValueFirstLast(line, 0, 4);
  }

  lemma Part1Value2(line: string)
    requires line == Part1Rows[1]
    ensures HasDigit(line) && LineValue(line) == 38
  {
    assert line[3] == '3' && line[7] == '8';
    assert FirstDigitAt(line, 3) && LastDigitAt(line, 7);
    LineValueFirstLast(line, 3, 7);
  }

  lemma Part1Value3(line: string)
    requires line == Part1Rows[2]
    ensures HasDigit(line) && LineValue(line) == 15
  {
    assert line[1] == '1' && line[9] == '5';
    assert FirstDigitAt(line, 1) && LastDigitAt(line, 9);
    LineValueFirstLast(line, 1, 9);
  }

  lemma Part1Value4(line: string)
    requires line == Part1Rows[3]
    ensures HasDigit(line) && LineValue(line) == 77
  {
    assert line[4] == '7' && line[4] == '7';
    assert FirstDigitAt(line, 4) && LastDigitAt(line, 4);
    LineValueFirstLast(line, 4, 4);
  }

  /** The calibration of lines whose values are known. */
  lemma {:induction false} CalibrationOf(lines: seq<string>, values: seq<nat>)
    requires |lines| == |values|
    requires forall k :: 0 <= k < |lines| ==> HasDigit(lines[k]) && LineValue(lines[k]) == values[k]
    ensures AllHaveDigits(lines) && Calibration(lines) == SumOf(values, Identity)
    decreases |lines|
  {
    if |lines| > 0 {
      CalibrationOf(lines[1..], values[1..]);
    }
  }

  lemma Part1Calibration(rows: seq<string>)
    requires |rows| == 4
    requires HasDigit(rows[0]) && HasDigit(rows[1]) && HasDigit(rows[2]) && HasDigit(rows[3])
    requires LineValue(rows[0]) == 12 && LineValue(rows[1]) == 38
    requires LineValue(rows[2]) == 15 && LineValue(rows[3]) == 77
    ensures AllHaveDigits(rows) && Calibration(rows) == 142
  {
    var front, back := rows[..2], rows[2..];
    CalibrationOf(front, [12, 38]);
    CalibrationOf(back, [15, 77]);
    CalibrationAppend(front, back);
    assert front + back == rows;
  }

  /** The first example document, read with `str::lines`, calibrates to 142. */
  lemma Part1Sample(input: string)
    requires input == Join(Part1Rows, "\n")
    ensures AllHaveDigits(Lines(input)) && Calibration(Lines(input)) == 142
  {
    LinesOfJoin(Part1Rows);
    var rows := Lines(input);
    Part1Value1(rows[0]);
    Part1Value2(rows[1]);
    Part1Value3(rows[2]);
    Part1Value4(rows[3]);
    Part1Calibration(rows);
  }

  // The second example document, and the overlapping words

  const Part2Rows: seq<string> :=
    ["two1nine", "eightwothree", "abcone2threexyz", "xtwone3four",
     "4nineeightseven2", "zoneight234", "7pqrstsixteen"]

  /** `two1nine` is worth 29. */
  lemma Part2Value1(line: string)
    requires line == "two1nine"
    ensures HasDigit(HumanDigits(line)) && LineValue(HumanDigits(line)) == 29
  {
    assert RuledOutBetween(line, 7, 8);
    assert RuledOutBetween(line, 6, 8);
    assert RuledOutBetween(line, 5, 8);
    assert 10 * (10 % 9 + 1) + (17 % 9 + 1) == 29;
    HumanValueInPlace(line, 0, 10, 4, 17);
  }

  /** `eightwothree` is worth 83. */
  lemma Part2Value2(line: string)
    requires line == "eightwothree"
    ensures HasDigit(HumanDigits(line)) && LineValue(HumanDigits(line)) == 83
  {
    assert RuledOutBetween(line, 11, 12);
    assert RuledOutBetween(line, 10, 12);
    assert RuledOutBetween(line, 9, 12);
    assert RuledOutBetween(line, 8, 12);
    assert 10 * (16 % 9 + 1) + (11 % 9 + 1) == 83;
    HumanValueInPlace(line, 0, 16, 7, 11);
  }

  /** `abcone2threexyz` is worth 13. */
  lemma Part2Value3(line: string)
    requires line == "abcone2threexyz"
    ensures HasDigit(HumanDigits(line)) && LineValue(HumanDigits(line)) == 13
  {
    assert RuledOutBetween(line, 2, 3);
    assert RuledOutBetween(line, 1, 3);
    assert RuledOutBetween(line, 0, 3);
    assert RuledOutBetween(line, 14, 15);
    assert RuledOutBetween(line, 13, 15);
    assert RuledOutBetween(line, 12, 15);
    assert RuledOutBetween(line, 11, 15);
    assert RuledOutBetween(line, 10, 15);
    assert RuledOutBetween(line, 9, 15);
    assert RuledOutBetween(line, 8, 15);
    assert 10 * (9 % 9 + 1) + (11 % 9 + 1) == 13;
    HumanValueInPlace(line, 3, 9, 7, 11);
  }

  /** `xtwone3four` is worth 24. */
  lemma Part2Value4(line: string)
    requires line == "xtwone3four"
    ensures HasDigit(HumanDigits(line)) && LineValue(HumanDigits(line)) == 24
  {
    assert RuledOutBetween(line, 0, 1);
    assert RuledOutBetween(line, 10, 11);
    assert RuledOutBetween(line, 9, 11);
    assert RuledOutBetween(line, 8, 11);
    assert 10 * (10 % 9 + 1) + (12 % 9 + 1) == 24;
    HumanValueInPlace(line, 1, 10, 7, 12);
  }

  /** `4nineeightseven2` is worth 42. */
  lemma Part2Value5(line: string)
    requires line == "4nineeightseven2"
    ensures HasDigit(HumanDigits(line)) && LineValue(HumanDigits(line)) == 42
  {
    assert 10 * (3 % 9 + 1) + (1 % 9 + 1) == 42;
    HumanValueInPlace(line, 0, 3, 15, 1);
  }

  /** `zoneight234` is worth 14. */
  lemma Part2Value6(line: string)
    requires line == "zoneight234"
    ensures HasDigit(HumanDigits(line)) && LineValue(HumanDigits(line)) == 14
  {
    assert RuledOutBetween(line, 0, 1);
    assert 10 * (9 % 9 + 1) + (3 % 9 + 1) == 14;
    HumanValueInPlace(line, 1, 9, 10, 3);
  }

  /** `7pqrstsixteen` is worth 76. */
  lemma Part2Value7(line: string)
    requires line == "7pqrstsixteen"
    ensures HasDigit(HumanDigits(line)) && LineValue(HumanDigits(line)) == 76
  {
    assert RuledOutBetween(line, 12, 13);
    assert RuledOutBetween(line, 11, 13);
    assert RuledOutBetween(line, 10, 13);
    assert RuledOutBetween(line, 9, 13);
    assert RuledOutBetween(line, 8, 13);
    assert RuledOutBetween(line, 7, 13);
    assert 10 * (6 % 9 + 1) + (14 % 9 + 1) == 76;
    HumanValueInPlace(line, 0, 6, 6, 14);
  }

  /** `eighthree` is worth 83: the `t` that ends `eight` also begins `three`. */
  lemma OverlapValue(line: string)
    requires line == "eighthree"
    ensures HasDigit(HumanDigits(line)) && LineValue(HumanDigits(line)) == 83
  {
    assert RuledOutBetween(line, 8, 9);
    assert RuledOutBetween(line, 7, 9);
    assert RuledOutBetween(line, 6, 9);
    assert RuledOutBetween(line, 5, 9);
    assert 10 * (16 % 9 + 1) + (11 % 9 + 1) == 83;
    HumanValueInPlace(line, 0, 16, 4, 11);
  }


  lemma Part2Calibration(human: seq<string>)
    requires |human| == 7
    requires HasDigit(human[0]) && HasDigit(human[1]) && HasDigit(human[2]) && HasDigit(human[3])
    requires HasDigit(human[4]) && HasDigit(human[5]) && HasDigit(human[6])
    requires LineValue(human[0]) == 29 && LineValue(human[1]) == 83 && LineValue(human[2]) == 13
    requires LineValue(human[3]) == 24 && LineValue(human[4]) == 42 && LineValue(human[5]) == 14
    requires LineValue(human[6]) == 76
    ensures AllHaveDigits(human) && Calibration(human) == 281
  {
    var front, back := human[..4], human[4..];
    CalibrationOf(front, [29, 83, 13, 24]);
    CalibrationOf(back, [42, 14, 76]);
    CalibrationAppend(front, back);
    assert front + back == human;
  }

  /** The lines of the second example, rewritten, calibrate to 281. */
  lemma Part2Rewritten(rows: seq<string>)
    requires |rows| == 7
    requires rows[0] == "two1nine" && rows[1] == "eightwothree" && rows[2] == "abcone2threexyz"
    requires rows[3] == "xtwone3four" && rows[4] == "4nineeightseven2" && rows[5] == "zoneight234"
    requires rows[6] == "7pqrstsixteen"
    ensures AllHaveDigits(HumanLines(rows)) && Calibration(HumanLines(rows)) == 281
  {
    var human := HumanLines(rows);
    assert HasDigit(human[0]) && LineValue(human[0]) == 29 by { Part2Value1(rows[0]); }
    assert HasDigit(human[1]) && LineValue(human[1]) == 83 by { Part2Value2(rows[1]); }
    assert HasDigit(human[2]) && LineValue(human[2]) == 13 by { Part2Value3(rows[2]); }
    assert HasDigit(human[3]) && LineValue(human[3]) == 24 by { Part2Value4(rows[3]); }
    assert HasDigit(human[4]) && LineValue(human[4]) == 42 by { Part2Value5(rows[4]); }
    assert HasDigit(human[5]) && LineValue(human[5]) == 14 by { Part2Value6(rows[5]); }
    assert HasDigit(human[6]) && LineValue(human[6]) == 76 by { Part2Value7(rows[6]); }
    Part2Calibration(human);
  }

  /** The second example document, read with `str::lines`, rewritten and
      calibrated, gives 281. */
  lemma Part2Sample(input: string)
    requires input == Join(Part2Rows, "\n")
    ensures AllHaveDigits(HumanLines(Lines(input))) && Calibration(HumanLines(Lines(input))) == 281
  {
    Part2RowsPlain();
    LinesOfJoin(Part2Rows);
    Part2Rewritten(Lines(input));
  }

  /** No row of the second example holds a line feed or ends in a carriage return. */
  lemma Part2RowsPlain()
    ensures |Part2Rows| > 0 && |Part2Rows[|Part2Rows| - 1]| > 0
    ensures forall k :: 0 <= k < |Part2Rows| ==> '\n' !in Part2Rows[k]
    ensures forall k :: 0 <= k < |Part2Rows| ==> |Part2Rows[k]| == 0 || Part2Rows[k][|Part2Rows[k]| - 1] != '\r'
  {
  }

  /** Overlapping words both count: a document of the one line `eighthree`
      calibrates to 83. */
  lemma OverlapSample(input: string)
    requires input == "eighthree"
    ensures AllHaveDigits(HumanLines(Lines(input))) && Calibration(HumanLines(Lines(input))) == 83
  {
    LinesOfJoin([input]);
    var rows := Lines(input);
    OverlapValue(rows[0]);
    CalibrationOf(HumanLines(rows), [83]);
  }
}
