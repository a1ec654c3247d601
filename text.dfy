/** Text primitives shared by the four puzzle solutions: ASCII digits, decimal
    numbers as parsed by `str::parse::<usize>`, and the `str` splitting helpers
    `split`, `split_once`, `split_whitespace` and `lines`. Strings are ASCII. */
module Text {

  datatype Option<+T> = None | Some(value: T)

  predicate IsAsciiDigit(c: char) {
    '0' <= c <= '9'
  }

  predicate AllDigits(s: string) {
    forall i :: 0 <= i < |s| ==> IsAsciiDigit(s[i])
  }

  function DigitValue(c: char): (d: nat)
    requires IsAsciiDigit(c)
    ensures d < 10
    ensures c == "0123456789"[d]
  {
    c as int - '0' as int
  }

  /** The base-10 value of a run of digits, most significant digit first. */
  function Decimal(s: string): (n: nat)
    requires AllDigits(s)
    decreases |s|
  {
    if |s| == 0 then 0 else 10 * Decimal(s[..|s| - 1]) + DigitValue(s[|s| - 1])
  }

  /** The decimal rendering of `n` without leading zeros (`"0"` for zero). */
  function Render(n: nat): (s: string)
    ensures |s| > 0 && AllDigits(s)
    decreases n
  {
    if n < 10 then ["0123456789"[n]] else Render(n / 10) + ["0123456789"[n % 10]]
  }

  lemma {:induction false} DecimalOfRender(n: nat)
    ensures Decimal(Render(n)) == n
    decreases n
  {
    var s := Render(n);
    if n >= 10 {
      DecimalOfRender(n / 10);
      assert s[..|s| - 1] == Render(n / 10);
    }
  }

  /** `str::parse::<usize>`: an optional `+` sign followed by one or more
      ASCII digits; anything else is an error. */
  function ParseUsize(s: string): (r: Option<nat>)
    ensures r.Some? <==> (|s| > 0 && AllDigits(s)) || (|s| > 1 && s[0] == '+' && AllDigits(s[1..]))
    ensures |s| > 0 && AllDigits(s) ==> r == Some(Decimal(s))
  {
    if |s| > 0 && AllDigits(s) then Some(Decimal(s))
    else if |s| > 1 && s[0] == '+' && AllDigits(s[1..]) then Some(Decimal(s[1..]))
    else None
  }

  lemma ParseRender(n: nat)
    ensures ParseUsize(Render(n)) == Some(n)
  {
    DecimalOfRender(n);
  }

  /** `collect::<Option<Vec<_>>>()` over `f`: every element's result, or
      nothing if any element fails (where the source would `unwrap` and panic). */
  function CollectAll<A, B>(xs: seq<A>, f: A -> Option<B>): (r: Option<seq<B>>)
    ensures r.Some? <==> forall k :: 0 <= k < |xs| ==> f(xs[k]).Some?
    ensures r.Some? ==> |r.value| == |xs| && forall k :: 0 <= k < |xs| ==> r.value[k] == f(xs[k]).value
    decreases |xs|
  {
    if |xs| == 0 then Some([])
    else match (f(xs[0]), CollectAll(xs[1..], f))
      case (Some(y), Some(ys)) => Some([y] + ys)
      case _ => None
  }

  /** Collecting one more element: it fails if that element fails, and
      otherwise appends its result. */
  lemma CollectAllStep<A, B>(xs: seq<A>, f: A -> Option<B>, i: nat)
    requires i < |xs| && CollectAll(xs[..i], f).Some?
    ensures f(xs[i]).None? ==> CollectAll(xs, f).None?
    ensures f(xs[i]).Some? ==> CollectAll(xs[..i + 1], f) == Some(CollectAll(xs[..i], f).value + [f(xs[i]).value])
  {
    var next := CollectAll(xs[..i + 1], f);
    if f(xs[i]).Some? {
      assert forall k :: 0 <= k < i + 1 ==> xs[..i + 1][k] == xs[k] && (k < i ==> xs[..i][k] == xs[k]);
      assert next.Some?;
      var prev := CollectAll(xs[..i], f).value;
      assert |next.value| == |prev + [f(xs[i]).value]|;
      forall k | 0 <= k < i + 1 ensures next.value[k] == (prev + [f(xs[i]).value])[k] {
      }
      assert next.value == prev + [f(xs[i]).value];
    }
  }

  /** `sep` occurs in `s` starting at index `i`. */
  predicate OccursAt(s: string, sep: string, i: nat) {
    i + |sep| <= |s| && s[i..i + |sep|] == sep
  }

  /** Joins `parts` with `sep` between neighbours: the inverse of `Split`. */
  function Join(parts: seq<string>, sep: string): string
    decreases |parts|
  {
    if |parts| == 0 then "" else if |parts| == 1 then parts[0] else parts[0] + sep + Join(parts[1..], sep)
  }

  /** A character in neither the parts nor the separator is not in their join. */
  lemma {:induction false} JoinAvoids(parts: seq<string>, sep: string, c: char)
    requires c !in sep && forall k :: 0 <= k < |parts| ==> c !in parts[k]
    ensures c !in Join(parts, sep)
    decreases |parts|
  {
    if |parts| > 1 {
      JoinAvoids(parts[1..], sep, c);
    }
  }

  /** `str::split` with a non-empty string pattern: cuts `s` at each
      non-overlapping occurrence of `sep`, scanning left to right. */
  function Split(s: string, sep: string): (r: seq<string>)
    requires |sep| > 0
    ensures |r| > 0
    ensures Join(r, sep) == s
    ensures |sep| == 1 ==> forall k :: 0 <= k < |r| ==> sep[0] !in r[k]
    decreases |s|
  {
    if |s| == 0 then [""]
    else if OccursAt(s, sep, 0) then
      var rest := Split(s[|sep|..], sep);
      assert s == "" + sep + Join(rest, sep);
      [""] + rest
    else
      var rest := Split(s[1..], sep);
      JoinExtendFirst(s[0], rest, sep);
      [[s[0]] + rest[0]] + rest[1..]
  }

  /** Prepending a character to the first part prepends it to the joined text. */
  lemma JoinExtendFirst(c: char, parts: seq<string>, sep: string)
    requires |parts| > 0
    ensures Join([[c] + parts[0]] + parts[1..], sep) == [c] + Join(parts, sep)
  {
    var r := [[c] + parts[0]] + parts[1..];
    if |parts| > 1 {
      assert r[1..] == parts[1..];
    }
  }

  /** `str::split_once`: splits at the first occurrence of `sep`, or fails. */
  function SplitOnce(s: string, sep: string): (r: Option<(string, string)>)
    requires |sep| > 0
    ensures r.Some? ==> r.value.0 + sep + r.value.1 == s
    decreases |s|
  {
    if |s| < |sep| then None
    else if OccursAt(s, sep, 0) then Some(("", s[|sep|..]))
    else match SplitOnce(s[1..], sep)
      case None => None
      case Some((a, b)) => Some(([s[0]] + a, b))
  }

  lemma ShiftOccurs(s: string, sep: string, i: nat)
    requires |s| > 0
    ensures OccursAt(s[1..], sep, i) <==> OccursAt(s, sep, i + 1)
  {
    if i + 1 + |sep| <= |s| {
      assert s[1..][i..i + |sep|] == s[i + 1..i + 1 + |sep|];
    }
  }

  /** `SplitOnce` cuts at the FIRST occurrence, and fails exactly when there is none. */
  lemma {:induction false} SplitOnceFirst(s: string, sep: string)
    requires |sep| > 0
    ensures SplitOnce(s, sep).Some? ==>
      OccursAt(s, sep, |SplitOnce(s, sep).value.0|) &&
      forall i :: 0 <= i < |SplitOnce(s, sep).value.0| ==> !OccursAt(s, sep, i)
    ensures SplitOnce(s, sep).None? <==> forall i :: 0 <= i < |s| ==> !OccursAt(s, sep, i)
    decreases |s|
  {
    if |s| < |sep| {
    } else if OccursAt(s, sep, 0) {
    } else {
      SplitOnceFirst(s[1..], sep);
      forall i | 0 <= i < |s| - 1 {
        ShiftOccurs(s, sep, i);
      }
      var r := SplitOnce(s[1..], sep);
      if r.Some? {
        assert OccursAt(s, sep, |r.value.0| + 1);
        assert SplitOnce(s, sep).value.0 == [s[0]] + r.value.0;
        forall i | 1 <= i < |r.value.0| + 1 ensures !OccursAt(s, sep, i) {
          assert !OccursAt(s[1..], sep, i - 1);
        }
      } else {
        assert forall i :: 0 <= i < |s| ==> !OccursAt(s, sep, i) by {
          forall i | 1 <= i < |s| ensures !OccursAt(s, sep, i) {
            assert !OccursAt(s[1..], sep, i - 1);
          }
        }
      }
    }
  }

  /** Splitting once at `sep` undoes gluing `a` and `b` with it, provided
      `a` cannot hold an earlier occurrence of `sep`. */
  lemma {:induction false} SplitOnceAt(a: string, sep: string, b: string)
    requires |sep| > 0 && sep[0] !in a
    ensures SplitOnce(a + sep + b, sep) == Some((a, b))
    decreases |a|
  {
    var s := a + sep + b;
    if |a| == 0 {
      assert s == sep + b;
      assert s[..|sep|] == sep && s[|sep|..] == b;
    } else {
      assert !OccursAt(s, sep, 0) by { assert s[0..|sep|][0] == a[0]; }
      assert s[1..] == a[1..] + sep + b;
      SplitOnceAt(a[1..], sep, b);
      assert [a[0]] + a[1..] == a;
    }
  }

  /** The ASCII characters that `char::is_whitespace` accepts. */
  predicate IsWhitespace(c: char) {
    c == ' ' || c == '\t' || c == '\n' || c == '\r' || c == '\U{0B}' || c == '\U{0C}'
  }

  /** `str::split_whitespace`: the maximal runs of non-whitespace characters. */
  function SplitWhitespace(s: string): (r: seq<string>)
    ensures forall k :: 0 <= k < |r| ==> |r[k]| > 0
    ensures forall k, j :: 0 <= k < |r| && 0 <= j < |r[k]| ==> !IsWhitespace(r[k][j])
    decreases |s|
  {
    if |s| == 0 then []
    else if IsWhitespace(s[0]) then SplitWhitespace(s[1..])
    else
      var rest := SplitWhitespace(s[1..]);
      if |s| > 1 && !IsWhitespace(s[1]) then
        // s[1] starts the first word of `rest`, which s[0] extends
        ([[s[0]] + rest[0]] + rest[1..])
      else [[s[0]]] + rest
  }

  /** Leading whitespace is dropped. */
  lemma {:induction false} SplitWhitespaceBlank(blank: string, rest: string)
    requires forall i :: 0 <= i < |blank| ==> IsWhitespace(blank[i])
    ensures SplitWhitespace(blank + rest) == SplitWhitespace(rest)
    decreases |blank|
  {
    if |blank| > 0 {
      assert (blank + rest)[1..] == blank[1..] + rest;
      SplitWhitespaceBlank(blank[1..], rest);
    } else {
      assert blank + rest == rest;
    }
  }

  /** A word followed by whitespace (or by nothing) is split off whole. */
  lemma {:induction false} SplitWhitespaceWord(word: string, rest: string)
    requires |word| > 0 && forall i :: 0 <= i < |word| ==> !IsWhitespace(word[i])
    requires |rest| == 0 || IsWhitespace(rest[0])
    ensures SplitWhitespace(word + rest) == [word] + SplitWhitespace(rest)
    decreases |word|
  {
    var s := word + rest;
    assert s[1..] == word[1..] + rest;
    if |word| > 1 {
      SplitWhitespaceWord(word[1..], rest);
      assert [word[0]] + word[1..] == word;
    } else {
      assert s[1..] == rest && [s[0]] == word;
      assert |s| > 1 ==> s[1] == rest[0];
    }
  }

  /** Digits are not whitespace. */
  lemma DigitsAreWords(s: string)
    requires AllDigits(s)
    ensures forall i :: 0 <= i < |s| ==> !IsWhitespace(s[i])
  {
  }

  /** A word between leading whitespace and a tail that starts with whitespace
      (or is empty), with more whitespace after it, is split off whole. */
  lemma SplitWhitespacePadded(pad: string, word: string, tail: string, blank: string)
    requires forall i :: 0 <= i < |pad| ==> IsWhitespace(pad[i])
    requires |word| > 0 && forall i :: 0 <= i < |word| ==> !IsWhitespace(word[i])
    requires |tail| == 0 || IsWhitespace(tail[0])
    requires forall i :: 0 <= i < |blank| ==> IsWhitespace(blank[i])
    ensures SplitWhitespace(pad + word + tail + blank) == [word] + SplitWhitespace(tail + blank)
  {
    var rest := tail + blank;
    assert pad + word + tail + blank == pad + (word + rest);
    assert |rest| == 0 || IsWhitespace(rest[0]) by {
      if |tail| == 0 { assert rest == blank; }
    }
    SplitWhitespaceBlank(pad, word + rest);
    SplitWhitespaceWord(word, rest);
  }

  /** Drops one trailing carriage return. */
  function StripCr(line: string): (r: string)
    ensures |r| <= |line| && r == line[..|r|]
  {
    if |line| > 0 && line[|line| - 1] == '\r' then line[..|line| - 1] else line
  }

  /** `StripCr` applied to every piece. */
  function StripCrs(pieces: seq<string>): (r: seq<string>)
    ensures |r| == |pieces|
    ensures forall k :: 0 <= k < |r| ==> r[k] == StripCr(pieces[k])
    decreases |pieces|
  {
    if |pieces| == 0 then [] else [StripCr(pieces[0])] + StripCrs(pieces[1..])
  }

  /** `str::lines`: splits at `\n` (a `\r` right before it belongs to the line
      ending); a final line ending does not start an extra empty line. */
  function Lines(s: string): (lines: seq<string>)
    ensures |lines| == 0 <==> |s| == 0
    ensures forall k :: 0 <= k < |lines| ==> '\n' !in lines[k]
  {
    var pieces := Split(s, "\n");
    var last := pieces[|pieces| - 1];
    assert |pieces| == 1 && last == "" ==> s == "";
    assert forall k :: 0 <= k < |pieces| - 1 ==> '\n' !in StripCr(pieces[k]) by {
      forall k | 0 <= k < |pieces| - 1 ensures '\n' !in StripCr(pieces[k]) {
        var line := StripCr(pieces[k]);
        assert forall i :: 0 <= i < |line| ==> line[i] == pieces[k][i];
      }
    }
    if last == "" then StripCrs(pieces[..|pieces| - 1]) else StripCrs(pieces[..|pieces| - 1]) + [last]
  }

  /** Text made of `lines`, each followed by a line feed. */
  function Unlines(lines: seq<string>): string
    decreases |lines|
  {
    if |lines| == 0 then "" else lines[0] + "\n" + Unlines(lines[1..])
  }

  /** A piece that cannot hold `sep` is not split. */
  lemma {:induction false} SplitNoSep(a: string, sep: string)
    requires |sep| > 0 && sep[0] !in a
    ensures Split(a, sep) == [a]
    decreases |a|
  {
    if |a| > 0 {
      assert !OccursAt(a, sep, 0) by { assert |a| >= |sep| ==> a[0..|sep|][0] == a[0]; }
      SplitNoSep(a[1..], sep);
      assert [a[0]] + a[1..] == a;
    }
  }

  /** A piece that cannot hold `sep`, followed by `sep`, is split off first. */
  lemma {:induction false} SplitAtSep(a: string, sep: string, rest: string)
    requires |sep| > 0 && sep[0] !in a
    ensures Split(a + sep + rest, sep) == [a] + Split(rest, sep)
    decreases |a|
  {
    var s := a + sep + rest;
    if |a| == 0 {
      assert s == sep + rest;
      assert OccursAt(s, sep, 0) by { assert s[0..|sep|] == sep; }
      assert s[|sep|..] == rest;
    } else {
      assert !OccursAt(s, sep, 0) by { assert s[0..|sep|][0] == a[0]; }
      assert s[1..] == a[1..] + sep + rest;
      SplitAtSep(a[1..], sep, rest);
      assert [a[0]] + a[1..] == a;
    }
  }

  /** `Split` undoes `Join` when no part can hold the separator. */
  lemma {:induction false} SplitJoin(parts: seq<string>, sep: string)
    requires |parts| > 0 && |sep| > 0
    requires forall k :: 0 <= k < |parts| ==> sep[0] !in parts[k]
    ensures Split(Join(parts, sep), sep) == parts
    decreases |parts|
  {
    if |parts| == 1 {
      SplitNoSep(parts[0], sep);
    } else {
      SplitJoin(parts[1..], sep);
      SplitAtSep(parts[0], sep, Join(parts[1..], sep));
      assert [parts[0]] + parts[1..] == parts;
    }
  }

  /** `str::lines` undoes `Unlines` on lines free of line endings. */
  lemma {:induction false} LinesOfUnlines(lines: seq<string>)
    requires forall k :: 0 <= k < |lines| ==> '\n' !in lines[k]
    requires forall k :: 0 <= k < |lines| ==> |lines[k]| == 0 || lines[k][|lines[k]| - 1] != '\r'
    ensures Lines(Unlines(lines)) == lines
  {
    SplitUnlines(lines);
    StripCrsNoCr(lines);
    assert (lines + [""])[..|lines|] == lines;
  }

  /** `str::lines` undoes joining lines with line feeds, when the last line
      is not empty (so there is no final line ending). */
  lemma LinesOfJoin(lines: seq<string>)
    requires |lines| > 0 && |lines[|lines| - 1]| > 0
    requires forall k :: 0 <= k < |lines| ==> '\n' !in lines[k]
    requires forall k :: 0 <= k < |lines| ==> |lines[k]| == 0 || lines[k][|lines[k]| - 1] != '\r'
    ensures Lines(Join(lines, "\n")) == lines
  {
    var init, last := lines[..|lines| - 1], lines[|lines| - 1];
    InitLast(lines);
    assert forall k :: 0 <= k < |lines| ==> "\n"[0] !in lines[k];
    SplitJoin(lines, "\n");
    LinesOfSplit(Join(lines, "\n"), init, last);
    StripCrsNoCr(init);
  }

  lemma InitLast<T>(xs: seq<T>)
    requires |xs| > 0
    ensures xs[..|xs| - 1] + [xs[|xs| - 1]] == xs
  {
  }

  /** How `Lines` reads the pieces between line feeds when the last piece
      is not empty. */
  lemma LinesOfSplit(s: string, init: seq<string>, last: string)
    requires Split(s, "\n") == init + [last] && last != ""
    ensures Lines(s) == StripCrs(init) + [last]
  {
    assert (init + [last])[..|init|] == init;
  }

  lemma {:induction false} SplitUnlines(lines: seq<string>)
    requires forall k :: 0 <= k < |lines| ==> '\n' !in lines[k]
    ensures Split(Unlines(lines), "\n") == lines + [""]
    decreases |lines|
  {
    if |lines| == 0 {
    } else {
      SplitUnlines(lines[1..]);
      SplitAtSep(lines[0], "\n", Unlines(lines[1..]));
      assert [lines[0]] + (lines[1..] + [""]) == lines + [""];
    }
  }

  lemma {:induction false} StripCrsNoCr(lines: seq<string>)
    requires forall k :: 0 <= k < |lines| ==> |lines[k]| == 0 || lines[k][|lines[k]| - 1] != '\r'
    ensures StripCrs(lines) == lines
    decreases |lines|
  {
    if |lines| > 0 {
      StripCrsNoCr(lines[1..]);
      assert [lines[0]] + lines[1..] == lines;
    }
  }
}
