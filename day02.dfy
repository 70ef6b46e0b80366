/**
 * Cube games (src/day-02.cc): each game is a list of grabs, each grab a count
 * of red, green and blue cubes.  Part one keeps the games possible with 12
 * red, 13 green and 14 blue cubes; part two takes the componentwise maximum
 * of a game's grabs and multiplies its three counts.
 */
module CubeGames {
  import opened Common
  import opened Splitting

  /** `struct cubes`: three `uint32_t` counts. */
  datatype Cubes = Cubes(red: u32, green: u32, blue: u32)

  /** A parsed input line: the game number and its grabs in order. */
  datatype Game = Game(id: u32, grabs: seq<Cubes>)

  const NoCubes := Cubes(0, 0, 0)

  lemma ModMul(a: int, b: int, c: int)
    requires a >= 0 && b >= 0 && c >= 0
    ensures ((a * b) % U32_MODULUS * c) % U32_MODULUS == (a * b * c) % U32_MODULUS
  {
    ModTimes(a * b, c);
  }

  /** Reducing a factor modulo 2^32 first leaves the product's residue unchanged. */
  lemma ModTimes(x: int, c: int)
    requires x >= 0 && c >= 0
    ensures ((x % U32_MODULUS) * c) % U32_MODULUS == (x * c) % U32_MODULUS
  {
    var q := x / U32_MODULUS;
    var r := x % U32_MODULUS;
    assert x * c == r * c + (q * c) * U32_MODULUS by {
      assert x == q * U32_MODULUS + r;
      assert x * c == (q * U32_MODULUS + r) * c;
    }
    AddMultiple(r * c, q * c);
  }

  /** Adding `k` multiples of 2^32 does not change a residue modulo 2^32. */
  lemma AddMultiple(y: int, k: int)
    requires y >= 0 && k >= 0
    ensures (y + k * U32_MODULUS) % U32_MODULUS == y % U32_MODULUS
  {
  }

  lemma BelowModulus(x: int)
    requires x >= 0
    ensures x < U32_MODULUS ==> x % U32_MODULUS == x
  {
  }

  /**
   * `cubes::power`: `red * green * blue`, each product taken in `uint32_t`,
   * so the result is the true product modulo 2^32.
   */
  function Power(c: Cubes): (p: u32)
    ensures p == (c.red * c.green * c.blue) % U32_MODULUS
    ensures c.red * c.green * c.blue < U32_MODULUS ==> p == c.red * c.green * c.blue
  {
    ModMul(c.red, c.green, c.blue);
    BelowModulus(c.red * c.green * c.blue);
    (((c.red * c.green) % U32_MODULUS) * c.blue) % U32_MODULUS
  }

  /** `is_possible<red, green, blue>`: `std::all_of` over the grabs. */
  function IsPossible(grabs: seq<Cubes>, red: nat, green: nat, blue: nat): (b: bool)
    ensures b <==> forall i :: 0 <= i < |grabs| ==> grabs[i].red <= red && grabs[i].green <= green && grabs[i].blue <= blue
  {
    if grabs == [] then true
    else
      var g := grabs[0];
      g.red <= red && g.green <= green && g.blue <= blue && IsPossible(grabs[1..], red, green, blue)
  }

  /** `part1`: the game's number when the bag of 12 red, 13 green and 14 blue cubes allows every grab, else 0. */
  function Part1(game: Game): (r: nat)
    ensures (forall i :: 0 <= i < |game.grabs| ==>
               game.grabs[i].red <= 12 && game.grabs[i].green <= 13 && game.grabs[i].blue <= 14) ==> r == game.id
    ensures (exists i :: 0 <= i < |game.grabs| &&
               (game.grabs[i].red > 12 || game.grabs[i].green > 13 || game.grabs[i].blue > 14)) ==> r == 0
  {
    if IsPossible(game.grabs, 12, 13, 14) then game.id else 0
  }

  function Max(a: u32, b: u32): u32 {
    if a < b then b else a
  }

  /** The componentwise maximum of the grabs, starting from zero counts. */
  function Maximum(grabs: seq<Cubes>): Cubes {
    if grabs == [] then NoCubes
    else
      var m := Maximum(grabs[..|grabs| - 1]);
      var g := grabs[|grabs| - 1];
      Cubes(Max(m.red, g.red), Max(m.green, g.green), Max(m.blue, g.blue))
  }

  /**
   * Each component of `Maximum` bounds that component of every grab and is
   * attained by some grab; with no grabs all three are 0.
   */
  lemma {:induction false} MaximumIsLeastUpperBound(grabs: seq<Cubes>)
    ensures var m := Maximum(grabs);
            forall i :: 0 <= i < |grabs| ==> grabs[i].red <= m.red && grabs[i].green <= m.green && grabs[i].blue <= m.blue
    ensures grabs == [] ==> Maximum(grabs) == NoCubes
    ensures grabs != [] ==> exists i :: 0 <= i < |grabs| && grabs[i].red == Maximum(grabs).red
    ensures grabs != [] ==> exists i :: 0 <= i < |grabs| && grabs[i].green == Maximum(grabs).green
    ensures grabs != [] ==> exists i :: 0 <= i < |grabs| && grabs[i].blue == Maximum(grabs).blue
  {
    if grabs != [] {
      var init := grabs[..|grabs| - 1];
      var last := |grabs| - 1;
      MaximumIsLeastUpperBound(init);
      assert forall i :: 0 <= i < |init| ==> init[i] == grabs[i];
      var m := Maximum(init);
      if init == [] {
        assert Maximum(grabs) == grabs[last];
      } else {
        var ir :| 0 <= ir < |init| && init[ir].red == m.red;
        var ig :| 0 <= ig < |init| && init[ig].green == m.green;
        var ib :| 0 <= ib < |init| && init[ib].blue == m.blue;
        assert grabs[if m.red < grabs[last].red then last else ir].red == Maximum(grabs).red;
        assert grabs[if m.green < grabs[last].green then last else ig].green == Maximum(grabs).green;
        assert grabs[if m.blue < grabs[last].blue then last else ib].blue == Maximum(grabs).blue;
      }
    }
  }

  /** `part2`: the loop raising `max` grab by grab, then its power. */
  method Part2(game: Game) returns (p: u32)
    ensures p == Power(Maximum(game.grabs))
  {
    var max := NoCubes;
    var i := 0;
    while i < |game.grabs|
      invariant 0 <= i <= |game.grabs|
      invariant max == Maximum(game.grabs[..i])
    {
      var cb := game.grabs[i];
      assert game.grabs[..i + 1][..i] == game.grabs[..i];
      if cb.red > max.red {
        max := max.(red := cb.red);
      }
      if cb.green > max.green {
        max := max.(green := cb.green);
      }
      if cb.blue > max.blue {
        max := max.(blue := cb.blue);
      }
      i := i + 1;
    }
    assert game.grabs[..i] == game.grabs;
    p := Power(max);
  }

  /** What one game contributes to the answer of the selected part. */
  function Score(game: Game, part2: bool): nat {
    if part2 then Power(Maximum(game.grabs)) else Part1(game)
  }

  function TotalScore(games: seq<Game>, part2: bool): nat {
    if games == [] then 0 else TotalScore(games[..|games| - 1], part2) + Score(games[|games| - 1], part2)
  }

  /** The summing loop at the end of `main`. */
  method SumScores(games: seq<Game>, part2: bool) returns (sum: nat)
    ensures sum == TotalScore(games, part2)
  {
    sum := 0;
    var i := 0;
    while i < |games|
      invariant 0 <= i <= |games|
      invariant sum == TotalScore(games[..i], part2)
    {
      assert games[..i + 1][..i] == games[..i];
      var s: nat;
      if part2 {
        s := Part2(games[i]);
      } else {
        s := Part1(games[i]);
      }
      sum := sum + s;
      i := i + 1;
    }
    assert games[..i] == games;
  }

  // ---------------------------------------------------------------------
  // Parsing "Game 7: 3 blue, 4 red; 1 red, 2 green, 6 blue; 2 green"
  // ---------------------------------------------------------------------

  /** A mention "<count> <colour>": the count in `uint32_t` and the colour word. */
  datatype Mention = Mention(count: u32, colour: string)

  function MentionOf(repr: string): Mention {
    var (countRepr, colour) := SplitOnce(repr, " ");
    Mention(ParseU32(countRepr), colour)
  }

  /** One mention added to the grab: "red" and "green" name their counter, any other colour counts as blue. */
  function Add(cb: Cubes, m: Mention): Cubes {
    if m.colour == "red" then cb.(red := AddU32(cb.red, m.count))
    else if m.colour == "green" then cb.(green := AddU32(cb.green, m.count))
    else cb.(blue := AddU32(cb.blue, m.count))
  }

  function Tally(ms: seq<Mention>): Cubes {
    if ms == [] then NoCubes else Add(Tally(ms[..|ms| - 1]), ms[|ms| - 1])
  }

  /** The sum of the counts of the mentions that name colour `c` (for blue: neither "red" nor "green"). */
  function ColourTotal(ms: seq<Mention>, c: string): nat {
    if ms == [] then 0
    else
      var m := ms[|ms| - 1];
      var named := if c == "red" || c == "green" then m.colour == c else m.colour != "red" && m.colour != "green";
      ColourTotal(ms[..|ms| - 1], c) + (if named then m.count else 0)
  }

  /** Repeated mentions of a colour add up (in `uint32_t`); unknown colours add to blue. */
  lemma {:induction false} TallyAddsUp(ms: seq<Mention>)
    ensures Tally(ms).red == ColourTotal(ms, "red") % U32_MODULUS
    ensures Tally(ms).green == ColourTotal(ms, "green") % U32_MODULUS
    ensures Tally(ms).blue == ColourTotal(ms, "blue") % U32_MODULUS
    decreases |ms|
  {
    if ms != [] {
      var pre, m := ms[..|ms| - 1], ms[|ms| - 1];
      TallyAddsUp(pre);
      if m.colour == "red" {
        AddMod(ColourTotal(pre, "red"), m.count);
      } else if m.colour == "green" {
        AddMod(ColourTotal(pre, "green"), m.count);
      } else {
        AddMod(ColourTotal(pre, "blue"), m.count);
      }
    }
  }

  /** Adding in `uint32_t` to a total kept modulo 2^32. */
  lemma AddMod(total: nat, count: u32)
    ensures AddU32((total % U32_MODULUS) as u32, count) == (total + count) % U32_MODULUS
  {
  }

  function Mentions(grab: string): (ms: seq<Mention>)
    ensures |ms| == |Tokens(grab, ", ")|
    ensures forall k :: 0 <= k < |ms| ==> ms[k] == MentionOf(Tokens(grab, ", ")[k])
  {
    var ts := Tokens(grab, ", ");
    seq(|ts|, k requires 0 <= k < |ts| => MentionOf(ts[k]))
  }

  /** The inner loop of the parser: the grab's mentions added into a fresh `cubes`. */
  method ParseGrab(grab: string) returns (cb: Cubes)
    ensures cb == Tally(Mentions(grab))
  {
    var parts := Collect(grab, ", ");
    ghost var ms := Mentions(grab);
    cb := NoCubes;
    var i := 0;
    while i < |parts|
      invariant 0 <= i <= |parts| && |ms| == |parts|
      invariant cb == Tally(ms[..i])
    {
      assert ms[..i + 1][..i] == ms[..i];
      var (countRepr, colour) := SplitOnce(parts[i], " ");
      var count := ParseU32(countRepr);
      if colour == "red" {
        cb := cb.(red := AddU32(cb.red, count));
      } else if colour == "green" {
        cb := cb.(green := AddU32(cb.green, count));
      } else {
        cb := cb.(blue := AddU32(cb.blue, count));
      }
      i := i + 1;
    }
    assert ms[..i] == ms;
  }

  /** The outer loop of the parser: one `cubes` record per "; "-separated grab, in order. */
  method ParseGrabs(list: string) returns (grabs: seq<Cubes>)
    ensures |grabs| == |Tokens(list, "; ")|
    ensures forall k {:trigger grabs[k]} :: 0 <= k < |grabs| ==> grabs[k] == Tally(Mentions(Tokens(list, "; ")[k]))
  {
    var parts := Collect(list, "; ");
    grabs := [];
    var i := 0;
    while i < |parts|
      invariant 0 <= i <= |parts|
      invariant |grabs| == i
      invariant forall k {:trigger grabs[k]} :: 0 <= k < i ==> grabs[k] == Tally(Mentions(parts[k]))
    {
      var cb := ParseGrab(parts[i]);
      grabs := grabs + [cb];
      i := i + 1;
    }
  }

  /** One input line: "Game <n>: <grabs>". */
  method ParseGame(line: string) returns (game: Game)
    ensures game.id == ParseU32(SplitOnce(SplitOnce(line, ": ").0, " ").1)
    ensures |game.grabs| == |Tokens(SplitOnce(line, ": ").1, "; ")|
    ensures forall k :: 0 <= k < |game.grabs| ==>
              game.grabs[k] == Tally(Mentions(Tokens(SplitOnce(line, ": ").1, "; ")[k]))
  {
    var (pre, list) := SplitOnce(line, ": ");
    var (_, numRepr) := SplitOnce(pre, " ");
    var grabs := ParseGrabs(list);
    game := Game(ParseU32(numRepr), grabs);
  }
}
