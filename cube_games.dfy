/** Day 2, "Cube Conundrum": an elf reaches into a bag of red, green and blue
    cubes several times per game and shows a handful each time. Part 1 sums
    the ids of the games possible with 12 red, 13 green and 14 blue cubes;
    part 2 sums, over the games, the power (product of the counts) of the
    fewest cubes of each colour that make the game possible. */
module CubeGames {
  import opened Text
  import opened Seqs

  /** The cubes of each colour shown in one reveal. */
  datatype Reveal = Reveal(red: nat, green: nat, blue: nat)

  /** A bound on the cubes of each colour has the shape of a reveal. */
  type Constraint = Reveal

  datatype Game = Game(id: nat, rounds: seq<Reveal>)

  // ---------------------------------------------------------------------------
  // Validation, minimum and power

  /** `Reveal::validate`: no colour shows more cubes than the bound allows,
      so the reveal has no more power than the bound. */
  predicate RevealValid(shown: Reveal, constraint: Constraint)
    ensures RevealValid(shown, constraint) ==> Power(shown) <= Power(constraint)
  {
    if shown.red <= constraint.red && shown.green <= constraint.green && shown.blue <= constraint.blue then
      ProductMonotone(shown.red, shown.green, shown.blue, constraint.red, constraint.green, constraint.blue);
      true
    else false
  }

  /** `Game::validate`: every round of the game fits the bound. */
  predicate GameValid(game: Game, constraint: Constraint) {
    forall k :: 0 <= k < |game.rounds| ==> RevealValid(game.rounds[k], constraint)
  }

  /** The largest `key` over `rounds`: the key of `max_by_key(key).unwrap()`. */
  function MaxKey(rounds: seq<Reveal>, key: Reveal -> nat): (m: nat)
    requires |rounds| > 0
    ensures exists k :: 0 <= k < |rounds| && key(rounds[k]) == m
    ensures forall k :: 0 <= k < |rounds| ==> key(rounds[k]) <= m
    decreases |rounds|
  {
    if |rounds| == 1 then key(rounds[0])
    else
      var rest := MaxKey(rounds[1..], key);
      assert forall k :: 1 <= k < |rounds| ==> rounds[k] == rounds[1..][k - 1];
      if key(rounds[0]) > rest then key(rounds[0]) else rest
  }

  /** `Game::minimum`, which panics on a game without rounds: per colour, the
      most cubes any round shows. */
  function Minimum(game: Game): (c: Constraint)
    requires |game.rounds| > 0
    ensures GameValid(game, c)
    ensures exists k :: 0 <= k < |game.rounds| && game.rounds[k].red == c.red
    ensures exists k :: 0 <= k < |game.rounds| && game.rounds[k].green == c.green
    ensures exists k :: 0 <= k < |game.rounds| && game.rounds[k].blue == c.blue
  {
    Reveal(MaxKey(game.rounds, (r: Reveal) => r.red), MaxKey(game.rounds, (r: Reveal) => r.green), MaxKey(game.rounds, (r: Reveal) => r.blue))
  }

  /** `Reveal::power`. */
  function Power(shown: Reveal): (p: nat)
    ensures p == 0 <==> shown.red == 0 || shown.green == 0 || shown.blue == 0
  {
    shown.red * shown.green * shown.blue
  }

  /** A game is possible under a bound exactly when the bound covers the game's
      minimum: `Minimum` is the fewest cubes of each colour that will do. */
  lemma ValidIffCoversMinimum(game: Game, constraint: Constraint)
    requires |game.rounds| > 0
    ensures GameValid(game, constraint) <==> RevealValid(Minimum(game), constraint)
  {
    var m := Minimum(game);
    if GameValid(game, constraint) {
      var r :| 0 <= r < |game.rounds| && game.rounds[r].red == m.red;
      var g :| 0 <= g < |game.rounds| && game.rounds[g].green == m.green;
      var b :| 0 <= b < |game.rounds| && game.rounds[b].blue == m.blue;
      assert RevealValid(game.rounds[r], constraint) && RevealValid(game.rounds[g], constraint);
      assert RevealValid(game.rounds[b], constraint);
    }
  }

  lemma {:induction false} MulMonotone(a: nat, x: nat, b: nat)
    requires a <= x
    ensures a * b <= x * b
    decreases b
  {
    if b > 0 {
      MulMonotone(a, x, b - 1);
      assert a * b == a * (b - 1) + a && x * b == x * (b - 1) + x;
    }
  }

  lemma ProductMonotone(a: nat, b: nat, c: nat, x: nat, y: nat, z: nat)
    requires a <= x && b <= y && c <= z
    ensures a * b * c <= x * y * z
  {
    MulMonotone(a, x, b);
    MulMonotone(b, y, x);
    MulMonotone(a * b, x * y, c);
    MulMonotone(c, z, x * y);
  }

  /** No bag that makes a game possible has a smaller power than its minimum. */
  lemma MinimumLeastPower(game: Game, constraint: Constraint)
    requires |game.rounds| > 0 && GameValid(game, constraint)
    ensures Power(Minimum(game)) <= Power(constraint)
  {
    var m := Minimum(game);
    ValidIffCoversMinimum(game, constraint);
  }

  /** The bag of part 1. */
  const Bag: Constraint := Reveal(12, 13, 14)

  function Id(game: Game): nat {
    game.id
  }

  predicate PossibleWithBag(game: Game) {
    GameValid(game, Bag)
  }

  /** `part1`: the sum of the ids of the games possible with `Bag`; a game
      adds its id when it is possible and nothing otherwise. */
  function Part1(games: seq<Game>): (total: nat)
    ensures total == SumOf(games, (g: Game) => if GameValid(g, Bag) then g.id else 0)
  {
    SumOfFilter(games, PossibleWithBag, Id);
    SumOfPointwise(games, Masked(PossibleWithBag, Id), (g: Game) => if GameValid(g, Bag) then g.id else 0);
    SumOf(Filter(games, PossibleWithBag), Id)
  }

  predicate AllHaveRounds(games: seq<Game>) {
    forall k :: 0 <= k < |games| ==> |games[k].rounds| > 0
  }

  /** The minimum of every game, in order. */
  function Minimums(games: seq<Game>): (ms: seq<Constraint>)
    requires AllHaveRounds(games)
    ensures |ms| == |games|
    ensures forall k :: 0 <= k < |games| ==> GameValid(games[k], ms[k])
  {
    seq(|games|, k requires 0 <= k < |games| => Minimum(games[k]))
  }

  /** `part2`: the sum of the powers of the games' minimums, so at least the
      power of each game's minimum. */
  function Part2(games: seq<Game>): (total: nat)
    requires AllHaveRounds(games)
    ensures forall k :: 0 <= k < |games| ==> Power(Minimum(games[k])) <= total
  {
    var ms := Minimums(games);
    forall k | 0 <= k < |games| ensures Power(Minimum(games[k])) <= SumOf(ms, Power) {
      SumOfTerm(ms, k, Power);
    }
    SumOf(ms, Power)
  }

  /** Any choice of a bag per game that makes every game possible has at
      least the total power of part 2. */
  lemma Part2Least(games: seq<Game>, bags: seq<Constraint>)
    requires AllHaveRounds(games)
    requires |bags| == |games| && forall k :: 0 <= k < |games| ==> GameValid(games[k], bags[k])
    ensures Part2(games) <= SumOf(bags, Power)
  {
    var ms := Minimums(games);
    forall k | 0 <= k < |games| ensures Power(ms[k]) <= Power(bags[k]) {
      MinimumLeastPower(games[k], bags[k]);
    }
    SumOfBelow(ms, bags, Power);
  }

  /** Part 2 from the games' minimums, once they are known. */
  lemma Part2Of(games: seq<Game>, minimums: seq<Constraint>)
    requires AllHaveRounds(games) && |minimums| == |games|
    requires forall k :: 0 <= k < |games| ==> Minimum(games[k]) == minimums[k]
    ensures Part2(games) == SumOf(minimums, Power)
  {
    assert Minimums(games) == minimums;
  }

  // ---------------------------------------------------------------------------
  // Parsing

  datatype Colour = Red | Green | Blue

  /** Some cubes of one colour, as one `<count> <colour>` item names them. */
  datatype Cubes = Cubes(count: nat, colour: Colour)

  function ColourName(colour: Colour): string {
    match colour
    case Red => "red"
    case Green => "green"
    case Blue => "blue"
  }

  /** One `<count> <colour>` item: `split_once(' ')`, a `usize`, then one of
      the three colour names; any other name is `unreachable!()` in the source. */
  function ParseItem(item: string): (r: Option<Cubes>)
    ensures r.Some? ==>
      exists num :: item == num + " " + ColourName(r.value.colour) && ParseUsize(num) == Some(r.value.count)
  {
    match SplitOnce(item, " ")
    case None => None
    case Some((num, col)) =>
      assert item == num + " " + col;
      match ParseUsize(num)
      case None => None
      case Some(n) =>
        if col == "red" then Some(Cubes(n, Red))
        else if col == "green" then Some(Cubes(n, Green))
        else if col == "blue" then Some(Cubes(n, Blue))
        else None
  }

  /** Adds the item's cubes to the running counts of its colour. */
  function AddCubes(totals: Reveal, cubes: Cubes): Reveal {
    match cubes.colour
    case Red => totals.(red := totals.red + cubes.count)
    case Green => totals.(green := totals.green + cubes.count)
    case Blue => totals.(blue := totals.blue + cubes.count)
  }

  /** The inner loop of `parse_games` from `totals` on: each item is added in turn. */
  function TallyFrom(totals: Reveal, items: seq<string>): Option<Reveal>
    decreases |items|
  {
    if |items| == 0 then Some(totals)
    else match ParseItem(items[0])
      case None => None
      case Some(cubes) => TallyFrom(AddCubes(totals, cubes), items[1..])
  }

  /** One reveal: its `", "`-separated items, counted from zero per colour.
      It is the per-colour sum of its items, or nothing when one of them is
      malformed or names another colour. */
  function ParseReveal(shown: string): (r: Option<Reveal>)
    ensures r.Some? <==> CollectAll(Split(shown, ", "), ParseItem).Some?
    ensures r.Some? ==> r.value == TallyOf(CollectAll(Split(shown, ", "), ParseItem).value)
  {
    TallyFromItems(Reveal(0, 0, 0), Split(shown, ", "));
    TallyFrom(Reveal(0, 0, 0), Split(shown, ", "))
  }

  /** One line of `parse_games`: `split_once(": ")`, the id after the first
      five characters of the head (which are not checked to be `"Game "`), and
      the `"; "`-separated shows. */
  function ParseGame(line: string): (r: Option<Game>)
    ensures r.Some? ==> |r.value.rounds| > 0
    ensures r.Some? ==> exists i :: OccursAt(line, ": ", i)
  {
    match SplitOnce(line, ": ")
    case None => None
    case Some((game, shows)) =>
      SplitOnceFirst(line, ": ");
      if |game| < 5 then None
      else match (ParseUsize(game[5..]), CollectAll(Split(shows, "; "), ParseReveal))
        case (Some(id), Some(rounds)) => Some(Game(id, rounds))
        case _ => None
  }

  // A reference definition of a reveal's counts: the sum, per colour, of the
  // counts of the items of that colour.

  function CountOf(cubes: seq<Cubes>, colour: Colour): nat {
    SumOf(cubes, (c: Cubes) => if c.colour == colour then c.count else 0)
  }

  function TallyOf(cubes: seq<Cubes>): Reveal {
    Reveal(CountOf(cubes, Red), CountOf(cubes, Green), CountOf(cubes, Blue))
  }

  function Plus(a: Reveal, b: Reveal): Reveal {
    Reveal(a.red + b.red, a.green + b.green, a.blue + b.blue)
  }

  /** One more item adds its cubes to the count of its colour. */
  lemma TallyOfPush(cubes: seq<Cubes>, c: Cubes)
    ensures TallyOf(cubes + [c]) == AddCubes(TallyOf(cubes), c)
  {
    forall colour | colour in {Red, Green, Blue}
      ensures CountOf(cubes + [c], colour)
           == CountOf(cubes, colour) + (if c.colour == colour then c.count else 0)
    {
      SumOfAppend(cubes, [c], (d: Cubes) => if d.colour == colour then d.count else 0);
    }
  }

  /** Tallying fails exactly when some item does not parse, and otherwise adds
      to `totals` the cubes of each colour the items name. */
  lemma {:induction false} TallyFromItems(totals: Reveal, items: seq<string>)
    ensures TallyFrom(totals, items).Some? <==> CollectAll(items, ParseItem).Some?
    ensures TallyFrom(totals, items).Some? ==>
      TallyFrom(totals, items).value == Plus(totals, TallyOf(CollectAll(items, ParseItem).value))
    decreases |items|
  {
    if |items| > 0 && ParseItem(items[0]).Some? {
      var cubes := ParseItem(items[0]).value;
      TallyFromItems(AddCubes(totals, cubes), items[1..]);
      var all := CollectAll(items, ParseItem);
      if all.Some? {
        assert all.value == [cubes] + CollectAll(items[1..], ParseItem).value;
        assert all.value[1..] == CollectAll(items[1..], ParseItem).value;
      }
    }
  }

  lemma ParsedGamesHaveRounds(lines: seq<string>)
    ensures CollectAll(lines, ParseGame).Some? ==> AllHaveRounds(CollectAll(lines, ParseGame).value)
  {
  }

  /** The inner loop of `parse_games`: the counts of one reveal. */
  method ReadReveal(shown: string) returns (r: Option<Reveal>)
    ensures r == ParseReveal(shown)
  {
    var red, green, blue := 0, 0, 0;
    var colors := Split(shown, ", ");
    ghost var items: seq<Cubes> := [];
    for i := 0 to |colors|
      invariant CollectAll(colors[..i], ParseItem) == Some(items)
      invariant Reveal(red, green, blue) == TallyOf(items)
    {
      CollectAllStep(colors, ParseItem, i);
      var cubes := ReadItem(colors[i]);
      if cubes.None? {
        return None;
      }
      var Cubes(n, colour) := cubes.value;
      match colour {
        case Red => red := red + n;
        case Green => green := green + n;
        case Blue => blue := blue + n;
      }
      TallyOfPush(items, cubes.value);
      items := items + [cubes.value];
    }
    assert colors[..|colors|] == colors;
    return Some(Reveal(red, green, blue));
  }

  /** One `<count> <colour>` item of the inner loop of `parse_games`. */
  method ReadItem(item: string) returns (cubes: Option<Cubes>)
    ensures cubes == ParseItem(item)
  {
    var split := SplitOnce(item, " ");
    if split.None? {
      return None;
    }
    var (num, col) := split.value;
    var n := ParseUsize(num);
    if n.None? {
      return None;
    }
    if col == "red" {
      return Some(Cubes(n.value, Red));
    } else if col == "green" {
      return Some(Cubes(n.value, Green));
    } else if col == "blue" {
      return Some(Cubes(n.value, Blue));
    }
    return None;
  }

  /** The body of the outer loop of `parse_games`: one game. */
  method ReadGame(line: string) returns (g: Option<Game>)
    ensures g == ParseGame(line)
  {
    var split := SplitOnce(line, ": ");
    if split.None? {
      return None;
    }
    var (game, text) := split.value;
    if |game| < 5 {
      return None;
    }
    var id := ParseUsize(game[5..]);
    if id.None? {
      return None;
    }
    var shows := Split(text, "; ");
    var rounds: seq<Reveal> := [];
    for i := 0 to |shows|
      invariant CollectAll(shows[..i], ParseReveal) == Some(rounds)
    {
      var shown := ReadReveal(shows[i]);
      CollectAllStep(shows, ParseReveal, i);
      if shown.None? {
        return None;
      }
      rounds := rounds + [shown.value];
    }
    assert shows[..|shows|] == shows;
    return Some(Game(id.value, rounds));
  }

  /** `parse_games`: one game per line, or nothing if some line does not parse. */
  method ParseGames(input: string) returns (games: Option<seq<Game>>)
    ensures games == CollectAll(Lines(input), ParseGame)
  {
    var lines := Lines(input);
    var parsed: seq<Game> := [];
    for i := 0 to |lines|
      invariant CollectAll(lines[..i], ParseGame) == Some(parsed)
    {
      var game := ReadGame(lines[i]);
      CollectAllStep(lines, ParseGame, i);
      if game.None? {
        return None;
      }
      parsed := parsed + [game.value];
    }
    assert lines[..|lines|] == lines;
    return Some(parsed);
  }

  // ---------------------------------------------------------------------------
  // The textual form of a game

  function FormatItem(cubes: Cubes): string {
    Render(cubes.count) + " " + ColourName(cubes.colour)
  }

  function Items(cubes: seq<Cubes>): seq<string> {
    seq(|cubes|, k requires 0 <= k < |cubes| => FormatItem(cubes[k]))
  }

  /** `<count> <colour>, <count> <colour>, ...`. */
  function FormatReveal(cubes: seq<Cubes>): string {
    Join(Items(cubes), ", ")
  }

  function Texts(shows: seq<seq<Cubes>>): seq<string> {
    seq(|shows|, k requires 0 <= k < |shows| => FormatReveal(shows[k]))
  }

  /** `Game <id>: <reveal>; <reveal>; ...`. */
  function FormatGame(id: nat, shows: seq<seq<Cubes>>): string {
    "Game " + Render(id) + ": " + Join(Texts(shows), "; ")
  }

  /** The counts of each reveal. */
  function Tallies(shows: seq<seq<Cubes>>): seq<Reveal> {
    seq(|shows|, k requires 0 <= k < |shows| => TallyOf(shows[k]))
  }

  /** Rendered digits hold none of the separators. */
  lemma RenderAvoids(n: nat)
    ensures ' ' !in Render(n) && ',' !in Render(n) && ';' !in Render(n) && ':' !in Render(n)
    ensures '\n' !in Render(n) && '\r' !in Render(n)
  {
    var s := Render(n);
    assert forall i :: 0 <= i < |s| ==> IsAsciiDigit(s[i]);
  }

  lemma FormatItemAvoids(cubes: Cubes)
    ensures ',' !in FormatItem(cubes) && ';' !in FormatItem(cubes)
    ensures '\n' !in FormatItem(cubes) && '\r' !in FormatItem(cubes)
  {
    RenderAvoids(cubes.count);
  }

  lemma ParseFormatItem(cubes: Cubes)
    ensures ParseItem(FormatItem(cubes)) == Some(cubes)
  {
    RenderAvoids(cubes.count);
    SplitOnceAt(Render(cubes.count), " ", ColourName(cubes.colour));
    ParseRender(cubes.count);
  }

  lemma ParseItems(cubes: seq<Cubes>)
    ensures CollectAll(Items(cubes), ParseItem) == Some(cubes)
  {
    var items := Items(cubes);
    forall k | 0 <= k < |cubes| ensures ParseItem(items[k]) == Some(cubes[k]) {
      ParseFormatItem(cubes[k]);
    }
    var all := CollectAll(items, ParseItem);
    assert all.Some?;
    assert all.value == cubes;
  }

  lemma FormatRevealAvoids(cubes: seq<Cubes>)
    ensures ';' !in FormatReveal(cubes) && '\n' !in FormatReveal(cubes) && '\r' !in FormatReveal(cubes)
  {
    var items := Items(cubes);
    forall k | 0 <= k < |items| ensures ';' !in items[k] && '\n' !in items[k] && '\r' !in items[k] {
      FormatItemAvoids(cubes[k]);
    }
    JoinAvoids(items, ", ", ';');
    JoinAvoids(items, ", ", '\n');
    JoinAvoids(items, ", ", '\r');
  }

  /** `parse_games` reads back a formatted reveal as the per-colour sums of its items. */
  lemma ParseFormatReveal(cubes: seq<Cubes>)
    requires |cubes| > 0
    ensures ParseReveal(FormatReveal(cubes)) == Some(TallyOf(cubes))
  {
    var items := Items(cubes);
    forall k | 0 <= k < |items| ensures ',' !in items[k] {
      FormatItemAvoids(cubes[k]);
    }
    SplitJoin(items, ", ");
    ParseItems(cubes);
  }

  lemma ParseTexts(shows: seq<seq<Cubes>>)
    requires forall k :: 0 <= k < |shows| ==> |shows[k]| > 0
    ensures CollectAll(Texts(shows), ParseReveal) == Some(Tallies(shows))
  {
    var texts := Texts(shows);
    forall k | 0 <= k < |shows| ensures ParseReveal(texts[k]) == Some(TallyOf(shows[k])) {
      ParseFormatReveal(shows[k]);
    }
    var all := CollectAll(texts, ParseReveal);
    assert all.Some?;
    assert all.value == Tallies(shows);
  }

  lemma FormatGameAvoids(id: nat, shows: seq<seq<Cubes>>)
    ensures '\n' !in FormatGame(id, shows) && '\r' !in FormatGame(id, shows)
  {
    var texts := Texts(shows);
    forall k | 0 <= k < |texts| ensures '\n' !in texts[k] && '\r' !in texts[k] {
      FormatRevealAvoids(shows[k]);
    }
    RenderAvoids(id);
    JoinAvoids(texts, "; ", '\n');
    JoinAvoids(texts, "; ", '\r');
  }

  /** `parse_games` reads back a formatted game. */
  lemma ParseFormatGame(id: nat, shows: seq<seq<Cubes>>)
    requires WellFormed(shows)
    ensures ParseGame(FormatGame(id, shows)) == Some(Game(id, Tallies(shows)))
  {
    var texts := Texts(shows);
    forall k | 0 <= k < |texts| ensures ';' !in texts[k] {
      FormatRevealAvoids(shows[k]);
    }
    var head := "Game " + Render(id);
    RenderAvoids(id);
    assert ':' !in head;
    SplitOnceAt(head, ": ", Join(texts, "; "));
    assert head[5..] == Render(id);
    ParseRender(id);
    SplitJoin(texts, "; ");
    ParseTexts(shows);
  }

  predicate WellFormed(shows: seq<seq<Cubes>>) {
    |shows| > 0 && forall k :: 0 <= k < |shows| ==> |shows[k]| > 0
  }

  /** The lines of games `1, 2, ...` with the given shows. */
  function Rows(games: seq<seq<seq<Cubes>>>): seq<string> {
    seq(|games|, k requires 0 <= k < |games| => FormatGame(k + 1, games[k]))
  }

  function GamesOf(games: seq<seq<seq<Cubes>>>): seq<Game> {
    seq(|games|, k requires 0 <= k < |games| => Game(k + 1, Tallies(games[k])))
  }

  /** The `k`-th row of a formatted text is a single line that reads back as the `k`-th game. */
  lemma FormattedRow(games: seq<seq<seq<Cubes>>>, k: nat)
    requires k < |games| && WellFormed(games[k])
    ensures '\n' !in Rows(games)[k] && '\r' !in Rows(games)[k]
    ensures ParseGame(Rows(games)[k]) == Some(GamesOf(games)[k])
  {
    var row, game := FormatGame(k + 1, games[k]), Game(k + 1, Tallies(games[k]));
    assert Rows(games)[k] == row && GamesOf(games)[k] == game;
    FormatGameAvoids(k + 1, games[k]);
    ParseFormatGame(k + 1, games[k]);
  }

  /** `parse_games` reads back a whole text of formatted games. */
  lemma ReadFormattedGames(games: seq<seq<seq<Cubes>>>)
    requires forall k :: 0 <= k < |games| ==> WellFormed(games[k])
    ensures CollectAll(Lines(Unlines(Rows(games))), ParseGame) == Some(GamesOf(games))
  {
    var rows, parsed := Rows(games), GamesOf(games);
    forall k | 0 <= k < |rows|
      ensures '\n' !in rows[k] && '\r' !in rows[k]
      ensures ParseGame(rows[k]) == Some(parsed[k])
    {
      FormattedRow(games, k);
    }
    LinesOfUnlines(rows);
    var r := CollectAll(rows, ParseGame);
    assert r.Some?;
    assert r.value == parsed;
  }

  // ---------------------------------------------------------------------------
  // The five-game example

  const SampleShows: seq<seq<seq<Cubes>>> := [
    [[Cubes(3, Blue), Cubes(4, Red)], [Cubes(1, Red), Cubes(2, Green), Cubes(6, Blue)], [Cubes(2, Green)]],
    [[Cubes(1, Blue), Cubes(2, Green)], [Cubes(3, Green), Cubes(4, Blue), Cubes(1, Red)], [Cubes(1, Green), Cubes(1, Blue)]],
    [[Cubes(8, Green), Cubes(6, Blue), Cubes(20, Red)], [Cubes(5, Blue), Cubes(4, Red), Cubes(13, Green)], [Cubes(5, Green), Cubes(1, Red)]],
    [[Cubes(1, Green), Cubes(3, Red), Cubes(6, Blue)], [Cubes(3, Green), Cubes(6, Red)], [Cubes(3, Green), Cubes(15, Blue), Cubes(14, Red)]],
    [[Cubes(6, Red), Cubes(1, Blue), Cubes(3, Green)], [Cubes(2, Blue), Cubes(1, Red), Cubes(2, Green)]]
  ]

  /** The example's lines, `Game 1: 3 blue, 4 red; 1 red, 2 green, 6 blue; 2 green` and so on. */
  const SampleRows: seq<string> := Rows(SampleShows)

  /** The games as `parse_games` reads them. */
  const SampleGames: seq<Game> := [
    Game(1, [Reveal(4, 0, 3), Reveal(1, 2, 6), Reveal(0, 2, 0)]),
    Game(2, [Reveal(0, 2, 1), Reveal(1, 3, 4), Reveal(0, 1, 1)]),
    Game(3, [Reveal(20, 8, 6), Reveal(4, 13, 5), Reveal(1, 5, 0)]),
    Game(4, [Reveal(3, 1, 6), Reveal(6, 3, 0), Reveal(14, 3, 15)]),
    Game(5, [Reveal(6, 3, 1), Reveal(1, 2, 2)])
  ]

  lemma SampleTallies1()
    ensures Tallies(SampleShows[0]) == SampleGames[0].rounds
  {
  }

  lemma SampleTallies2()
    ensures Tallies(SampleShows[1]) == SampleGames[1].rounds
  {
  }

  lemma SampleTallies3()
    ensures Tallies(SampleShows[2]) == SampleGames[2].rounds
  {
  }

  lemma SampleTallies4()
    ensures Tallies(SampleShows[3]) == SampleGames[3].rounds
  {
  }

  lemma SampleTallies5()
    ensures Tallies(SampleShows[4]) == SampleGames[4].rounds
  {
  }

  lemma SampleTallies()
    ensures GamesOf(SampleShows) == SampleGames
  {
    SampleTallies1();
    SampleTallies2();
    SampleTallies3();
    SampleTallies4();
    SampleTallies5();
    var games := GamesOf(SampleShows);
    assert |games| == |SampleGames| == 5;
    forall k | 0 <= k < 5 ensures games[k] == SampleGames[k] {
    }
  }

  lemma SampleParses()
    ensures CollectAll(Lines(Unlines(SampleRows)), ParseGame) == Some(SampleGames)
  {
    ReadFormattedGames(SampleShows);
    SampleTallies();
  }

  /** Games 1, 2 and 5 are possible with `Bag`; game 3 shows 20 red cubes
      in its first round and game 4 shows 15 blue cubes in its last. */
  lemma SampleValid()
    ensures GameValid(SampleGames[0], Bag) && GameValid(SampleGames[1], Bag) && GameValid(SampleGames[4], Bag)
    ensures !GameValid(SampleGames[2], Bag) && !GameValid(SampleGames[3], Bag)
  {
    assert !RevealValid(SampleGames[2].rounds[0], Bag);
    assert !RevealValid(SampleGames[3].rounds[2], Bag);
  }

  lemma SamplePart1()
    ensures Part1(SampleGames) == 8
  {
    SampleValid();
  }

  /** The fewest cubes for each example game. */
  const SampleMinimums: seq<Constraint> := [Reveal(4, 2, 6), Reveal(1, 3, 4), Reveal(20, 13, 6), Reveal(14, 3, 15), Reveal(6, 3, 2)]

  lemma SampleMinimum1()
    ensures Minimum(SampleGames[0]) == SampleMinimums[0]
  {
  }

  lemma SampleMinimum2()
    ensures Minimum(SampleGames[1]) == SampleMinimums[1]
  {
  }

  lemma SampleMinimum3()
    ensures Minimum(SampleGames[2]) == SampleMinimums[2]
  {
  }

  lemma SampleMinimum4()
    ensures Minimum(SampleGames[3]) == SampleMinimums[3]
  {
  }

  lemma SampleMinimum5()
    ensures Minimum(SampleGames[4]) == SampleMinimums[4]
  {
  }

  lemma SampleHaveRounds()
    ensures AllHaveRounds(SampleGames)
  {
  }

  lemma SampleMinimumsAll()
    ensures forall k :: 0 <= k < 5 ==> Minimum(SampleGames[k]) == SampleMinimums[k]
  {
    forall k | 0 <= k < 5 ensures Minimum(SampleGames[k]) == SampleMinimums[k] {
      if k == 0 {
        SampleMinimum1();
      } else if k == 1 {
        SampleMinimum2();
      } else if k == 2 {
        SampleMinimum3();
      } else if k == 3 {
        SampleMinimum4();
      } else {
        SampleMinimum5();
      }
    }
  }

  /** Their powers are 48, 12, 1560, 630 and 36. */
  lemma SamplePowers()
    ensures SumOf(SampleMinimums, Power) == 2286
  {
  }

  lemma SamplePart2()
    ensures AllHaveRounds(SampleGames) && Part2(SampleGames) == 2286
  {
    SampleHaveRounds();
    SampleMinimumsAll();
    Part2Of(SampleGames, SampleMinimums);
    SamplePowers();
  }
}
