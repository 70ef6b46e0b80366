/**
 * Pipe maze (src/day-10.cc): from the tile 'S' the walk follows the pipes
 * of the layout, each tile turning the direction of travel, until it is
 * back on 'S'; the farthest point of the loop is half its length away.
 */
module PipeMaze {
  import opened Common

  /** `enum class displacement`. */
  datatype Displacement = Top | Right | Bottom | Left

  function Opposite(d: Displacement): Displacement {
    match d
    case Top => Bottom
    case Right => Left
    case Bottom => Top
    case Left => Right
  }

  /** The position one unit away in direction `d`: top is y - 1, right x + 1, bottom y + 1, left x - 1. */
  function Moved(x: int, y: int, d: Displacement): (r: (int, int))
    ensures d == Top ==> r == (x, y - 1)
    ensures d == Right ==> r == (x + 1, y)
    ensures d == Bottom ==> r == (x, y + 1)
    ensures d == Left ==> r == (x - 1, y)
  {
    match d
    case Top => (x, y - 1)
    case Right => (x + 1, y)
    case Bottom => (x, y + 1)
    case Left => (x - 1, y)
  }

  /** Moving one way and then back returns to the same position. */
  lemma MoveBack(x: int, y: int, d: Displacement)
    ensures var (x1, y1) := Moved(x, y, d); Moved(x1, y1, Opposite(d)) == (x, y)
  {
  }

  /** `struct coordinate`. */
  class Coordinate {
    var x: int
    var y: int

    constructor(x0: int, y0: int)
      ensures x == x0 && y == y0
    {
      x := x0;
      y := y0;
    }

    /** `coordinate::apply`, also `operator+=`: one coordinate changes by one unit. */
    method Apply(d: Displacement)
      modifies this
      ensures (x, y) == Moved(old(x), old(y), d)
    {
      match d
      case Top => y := y - 1;
      case Right => x := x + 1;
      case Bottom => y := y + 1;
      case Left => x := x - 1;
    }

    /** `operator+`: a moved copy; this coordinate is left as it is. */
    method Plus(d: Displacement) returns (res: Coordinate)
      ensures fresh(res) && (res.x, res.y) == Moved(x, y, d)
    {
      res := new Coordinate(x, y);
      res.Apply(d);
    }

    /** `coordinate::operator!=`: compares the positions, not the objects. */
    function Differs(other: Coordinate): (b: bool)
      reads this, other
      ensures b <==> (x, y) != (other.x, other.y)
      ensures other == this ==> !b
    {
      x != other.x || y != other.y
    }
  }

  // ---------------------------------------------------------------------
  // Tiles
  // ---------------------------------------------------------------------

  /** The two openings of each pipe tile; other tiles have none. */
  function Exits(tile: char): set<Displacement> {
    if tile == '|' then {Top, Bottom}
    else if tile == '-' then {Left, Right}
    else if tile == 'L' then {Top, Right}
    else if tile == 'J' then {Top, Left}
    else if tile == '7' then {Bottom, Left}
    else if tile == 'F' then {Bottom, Right}
    else {}
  }

  /**
   * `next_displacement`: the direction out of `tile` after arriving by
   * moving in direction `prev`; a tile that is not a pipe is an error.
   */
  function NextDisplacement(tile: char, prev: Displacement): Option<Displacement> {
    if tile == '|' then Some(if prev == Top then Top else Bottom)
    else if tile == '-' then Some(if prev == Right then Right else Left)
    else if tile == 'F' then Some(if prev == Top then Right else Bottom)
    else if tile == '7' then Some(if prev == Top then Left else Bottom)
    else if tile == 'L' then Some(if prev == Bottom then Right else Top)
    else if tile == 'J' then Some(if prev == Bottom then Left else Top)
    else None
  }

  /**
   * Entering a pipe through one of its openings, `next_displacement` leaves
   * through the other; it fails exactly on tiles that are not pipes.
   */
  lemma NextFollowsPipe(tile: char, prev: Displacement)
    ensures NextDisplacement(tile, prev).None? <==> Exits(tile) == {}
    ensures Opposite(prev) in Exits(tile) ==>
              var next := NextDisplacement(tile, prev);
              next.Some? && Exits(tile) == {Opposite(prev), next.value} && next.value != Opposite(prev)
  {
  }

  // ---------------------------------------------------------------------
  // The layout
  // ---------------------------------------------------------------------

  /** `line[x]` on a `std::string`: the terminating '\0' at and, in this model, beyond `size()`. */
  function TileAt(line: string, x: int): char {
    if 0 <= x < |line| then line[x] else '\0'
  }

  predicate InGrid(layout: seq<string>, x: int, y: int) {
    0 <= y < |layout| && 0 <= x < |layout[y]|
  }

  /** `std::string::find`: the first position of `c` in `line`, if any. */
  function FindChar(line: string, c: char): (r: Option<nat>)
    ensures r.Some? ==> r.value < |line| && line[r.value] == c && forall j :: 0 <= j < r.value ==> line[j] != c
    ensures r.None? ==> forall j :: 0 <= j < |line| ==> line[j] != c
  {
    if line == [] then None
    else if line[0] == c then Some(0)
    else
      match FindChar(line[1..], c)
      case None => None
      case Some(k) => Some(k + 1)
  }

  /** (x, y) holds an 'S', and no 'S' comes before it row by row. */
  predicate FirstStart(layout: seq<string>, x: int, y: int) {
    InGrid(layout, x, y) && layout[y][x] == 'S' &&
    (forall i, j :: 0 <= i < y && 0 <= j < |layout[i]| ==> layout[i][j] != 'S') &&
    (forall j :: 0 <= j < x ==> layout[y][j] != 'S')
  }

  /**
   * `get_start`: the first row holding an 'S' and the first 'S' in it;
   * with no 'S' at all it fails.
   */
  method GetStart(layout: seq<string>) returns (r: Option<Coordinate>)
    ensures r.Some? ==> fresh(r.value)
    ensures r.Some? ==> InGrid(layout, r.value.x, r.value.y) && layout[r.value.y][r.value.x] == 'S'
    ensures r.Some? ==> forall i, j :: 0 <= i < r.value.y && 0 <= j < |layout[i]| ==> layout[i][j] != 'S'
    ensures r.Some? ==> forall j :: 0 <= j < r.value.x ==> layout[r.value.y][j] != 'S'
    ensures r.None? ==> forall i, j :: 0 <= i < |layout| && 0 <= j < |layout[i]| ==> layout[i][j] != 'S'
  {
    var res := new Coordinate(0, 0);
    var i := 0;
    while i < |layout|
      invariant 0 <= i <= |layout| && res.y == i && res.x == 0 && fresh(res)
      invariant forall i', j :: 0 <= i' < i && 0 <= j < |layout[i']| ==> layout[i'][j] != 'S'
    {
      var pos := FindChar(layout[i], 'S');
      if pos.Some? {
        res.x := pos.value;
        return Some(res);
      }
      res.y := res.y + 1;
      i := i + 1;
    }
    return None;
  }

  /** The neighbour of (x, y) in direction `d` opens back towards (x, y). */
  predicate ConnectsBack(layout: seq<string>, x: int, y: int, d: Displacement) {
    var (nx, ny) := Moved(x, y, d);
    InGrid(layout, nx, ny) && Opposite(d) in Exits(layout[ny][nx])
  }

  /**
   * The tiles each neighbour must hold to open back towards (x, y); a row
   * above or below that is too short to reach column x holds no pipe there.
   */
  lemma ConnectsBackTiles(layout: seq<string>, x: int, y: int)
    requires InGrid(layout, x, y)
    ensures ConnectsBack(layout, x, y, Left) <==>
              x > 0 && (layout[y][x - 1] == '-' || layout[y][x - 1] == 'F' || layout[y][x - 1] == 'L')
    ensures ConnectsBack(layout, x, y, Right) <==>
              x < |layout[y]| - 1 && (layout[y][x + 1] == '-' || layout[y][x + 1] == '7' || layout[y][x + 1] == 'J')
    ensures ConnectsBack(layout, x, y, Top) <==>
              y > 0 && (TileAt(layout[y - 1], x) == '|' || TileAt(layout[y - 1], x) == '7' || TileAt(layout[y - 1], x) == 'F')
    ensures ConnectsBack(layout, x, y, Bottom) <==>
              y < |layout| - 1 && (TileAt(layout[y + 1], x) == '|' || TileAt(layout[y + 1], x) == 'J' || TileAt(layout[y + 1], x) == 'L')
  {
  }

  /**
   * `step_after_start`: left, right, top, bottom in that order, the first
   * neighbour whose tile opens back towards the start, or an error.
   */
  function StepAfterStart(layout: seq<string>, x: int, y: int): (r: Option<Displacement>)
    requires InGrid(layout, x, y)
    ensures r.Some? ==> ConnectsBack(layout, x, y, r.value)
    ensures r == Some(Right) ==> !ConnectsBack(layout, x, y, Left)
    ensures r == Some(Top) ==> !ConnectsBack(layout, x, y, Left) && !ConnectsBack(layout, x, y, Right)
    ensures r == Some(Bottom) ==> !ConnectsBack(layout, x, y, Left) && !ConnectsBack(layout, x, y, Right) && !ConnectsBack(layout, x, y, Top)
    ensures r.None? <==> forall d :: !ConnectsBack(layout, x, y, d)
  {
    ConnectsBackTiles(layout, x, y);
    var row := layout[y];
    var above := if y > 0 then TileAt(layout[y - 1], x) else '\0';
    var below := if y < |layout| - 1 then TileAt(layout[y + 1], x) else '\0';
    if x > 0 && (row[x - 1] == '-' || row[x - 1] == 'F' || row[x - 1] == 'L') then Some(Left)
    else if x < |row| - 1 && (row[x + 1] == '-' || row[x + 1] == '7' || row[x + 1] == 'J') then Some(Right)
    else if y > 0 && (above == '|' || above == '7' || above == 'F') then Some(Top)
    else if y < |layout| - 1 && (below == '|' || below == 'J' || below == 'L') then Some(Bottom)
    else None
  }

  // ---------------------------------------------------------------------
  // The walk
  // ---------------------------------------------------------------------

  /** Where the walk is and the direction of its last move. */
  datatype State = State(x: int, y: int, displ: Displacement)

  /** One turn of the loop of `steps_to_farthest_point`: read the tile, turn, move. */
  function Step(layout: seq<string>, s: State): Option<State> {
    if !InGrid(layout, s.x, s.y) then None
    else
      match NextDisplacement(layout[s.y][s.x], s.displ)
      case None => None
      case Some(d) =>
        var (nx, ny) := Moved(s.x, s.y, d);
        Some(State(nx, ny, d))
  }

  /** The state after `k` more turns from `first`, or None once a turn has failed. */
  function After(layout: seq<string>, first: State, k: nat): Option<State> {
    if k == 0 then Some(first)
    else
      match After(layout, first, k - 1)
      case None => None
      case Some(s) => Step(layout, s)
  }

  /** The first `k` states exist and none of them is on the start. */
  ghost predicate AwayBefore(layout: seq<string>, first: State, sx: int, sy: int, k: nat) {
    forall j :: 0 <= j < k ==>
      (After(layout, first, j).Some? &&
       (After(layout, first, j).value.x, After(layout, first, j).value.y) != (sx, sy))
  }

  /** After `k` turns the walk is back on the start for the first time. */
  ghost predicate ClosesAt(layout: seq<string>, first: State, sx: int, sy: int, k: nat) {
    AwayBefore(layout, first, sx, sy, k) && After(layout, first, k).Some? &&
    (After(layout, first, k).value.x, After(layout, first, k).value.y) == (sx, sy)
  }

  /** Turn `k` fails (off the grid or not a pipe) before the walk is back on the start. */
  ghost predicate BreaksAt(layout: seq<string>, first: State, sx: int, sy: int, k: nat) {
    AwayBefore(layout, first, sx, sy, k) && After(layout, first, k).None?
  }

  /** How `steps_to_farthest_point` ends. */
  datatype Result10 = Farthest(steps: u32) | NoStart | NoFirstStep | Broken | OutOfFuel

  /**
   * What `steps_to_farthest_point` computes from the first state: when the
   * loop closes after `k` turns it is `k + 1` moves long and the answer is
   * `(distance + 1) / 2` in `uint32_t`.
   */
  ghost predicate WalkOutcome(layout: seq<string>, first: State, sx: int, sy: int, fuel: nat, r: Result10) {
    (r.Farthest? <==> exists k: nat :: k <= fuel && ClosesAt(layout, first, sx, sy, k)) &&
    (r.Farthest? ==> forall k: nat :: ClosesAt(layout, first, sx, sy, k) ==> r.steps == ((k + 2) % U32_MODULUS) / 2) &&
    (r.Broken? <==> exists k: nat :: k <= fuel && BreaksAt(layout, first, sx, sy, k)) &&
    (r.OutOfFuel? <==> AwayBefore(layout, first, sx, sy, fuel + 1)) &&
    !r.NoStart? && !r.NoFirstStep?
  }

  lemma AwayStep(layout: seq<string>, first: State, sx: int, sy: int, k: nat)
    requires AwayBefore(layout, first, sx, sy, k)
    requires After(layout, first, k).Some? && (After(layout, first, k).value.x, After(layout, first, k).value.y) != (sx, sy)
    ensures AwayBefore(layout, first, sx, sy, k + 1)
  {
  }

  lemma ClosedOutcome(layout: seq<string>, first: State, sx: int, sy: int, fuel: nat, k: nat)
    requires k <= fuel && ClosesAt(layout, first, sx, sy, k)
    ensures WalkOutcome(layout, first, sx, sy, fuel, Farthest((((k + 2) % U32_MODULUS) / 2) as u32))
  {
    forall k' : nat | k' <= fuel ensures !BreaksAt(layout, first, sx, sy, k') {
      if k' > k {
        assert After(layout, first, k).Some?;
      }
    }
  }

  lemma BrokenOutcome(layout: seq<string>, first: State, sx: int, sy: int, fuel: nat, k: nat)
    requires k <= fuel && BreaksAt(layout, first, sx, sy, k)
    ensures WalkOutcome(layout, first, sx, sy, fuel, Broken)
  {
    forall k': nat | k' <= fuel ensures !ClosesAt(layout, first, sx, sy, k') {
      if k' >= k {
        assert After(layout, first, k).None?;
      }
    }
  }

  lemma FuelOutcome(layout: seq<string>, first: State, sx: int, sy: int, fuel: nat)
    requires AwayBefore(layout, first, sx, sy, fuel + 1)
    ensures WalkOutcome(layout, first, sx, sy, fuel, OutOfFuel)
  {
    forall k: nat | k <= fuel ensures !BreaksAt(layout, first, sx, sy, k) && !ClosesAt(layout, first, sx, sy, k) {
      assert After(layout, first, k).Some?;
    }
  }

  /** Every move changes x + y by one. */
  lemma MoveParity(x: int, y: int, d: Displacement)
    ensures var (nx, ny) := Moved(x, y, d); nx + ny == x + y + 1 || nx + ny == x + y - 1
  {
  }

  /** After `k` turns the parity of x + y has flipped `k` times. */
  lemma {:induction false} AfterParity(layout: seq<string>, first: State, k: nat)
    requires After(layout, first, k).Some?
    ensures (After(layout, first, k).value.x + After(layout, first, k).value.y + k - first.x - first.y) % 2 == 0
  {
    if k > 0 {
      var prev := After(layout, first, k - 1).value;
      AfterParity(layout, first, k - 1);
      var d := NextDisplacement(layout[prev.y][prev.x], prev.displ).value;
      MoveParity(prev.x, prev.y, d);
    }
  }

  /**
   * The grid is two-coloured and every move changes colour, so a walk
   * from the start back to it makes an even number of moves, and the
   * answer `(distance + 1) / 2` is exactly half the loop length.
   */
  lemma FarthestIsHalfLoop(layout: seq<string>, sx: int, sy: int, d: Displacement, k: nat)
    requires var (fx, fy) := Moved(sx, sy, d); ClosesAt(layout, State(fx, fy, d), sx, sy, k)
    ensures (k + 1) % 2 == 0
    ensures k + 2 < U32_MODULUS ==> ((k + 2) % U32_MODULUS) / 2 == (k + 1) / 2
  {
    var (fx, fy) := Moved(sx, sy, d);
    AfterParity(layout, State(fx, fy, d), k);
    MoveParity(sx, sy, d);
  }

  /**
   * A newline-terminated input ends with an empty row: on "F7", "SJ", "" the
   * first step goes right and the loop closes after three more turns, so the
   * answer is 2.
   */
  lemma TrailingEmptyRow()
    ensures var layout := ["F7", "SJ", ""];
            StepAfterStart(layout, 0, 1) == Some(Right) &&
            ClosesAt(layout, State(1, 1, Right), 0, 1, 3) && ((3 + 2) % U32_MODULUS) / 2 == 2
  {
    var layout := ["F7", "SJ", ""];
    var first := State(1, 1, Right);
    assert After(layout, first, 1) == Some(State(1, 0, Top));
    assert After(layout, first, 2) == Some(State(0, 0, Left));
    assert After(layout, first, 3) == Some(State(0, 1, Bottom));
  }

  /** The walk from the first move on, with `current` the moving coordinate. */
  method Walk(layout: seq<string>, start: Coordinate, current: Coordinate, displ0: Displacement, fuel: nat) returns (r: Result10)
    requires start != current
    modifies current
    ensures WalkOutcome(layout, State(old(current.x), old(current.y), displ0), start.x, start.y, fuel, r)
  {
    ghost var first := State(current.x, current.y, displ0);
    var displ := displ0;
    var distance: u32 := 1;
    var k: nat := 0;
    while current.Differs(start)
      invariant k <= fuel && After(layout, first, k) == Some(State(current.x, current.y, displ))
      invariant AwayBefore(layout, first, start.x, start.y, k)
      invariant distance == Low32(k + 1)
      invariant start.x == old(start.x) && start.y == old(start.y)
      decreases fuel - k
    {
      AwayStep(layout, first, start.x, start.y, k);
      if k == fuel {
        FuelOutcome(layout, first, start.x, start.y, fuel);
        return OutOfFuel;
      }
      if !InGrid(layout, current.x, current.y) {
        BrokenOutcome(layout, first, start.x, start.y, fuel, k + 1);
        return Broken;
      }
      var next := NextDisplacement(layout[current.y][current.x], displ);
      if next.None? {
        BrokenOutcome(layout, first, start.x, start.y, fuel, k + 1);
        return Broken;
      }
      displ := next.value;
      current.Apply(displ);
      Low32Step(k + 1);
      distance := IncU32(distance);
      k := k + 1;
    }
    ClosedOutcome(layout, first, start.x, start.y, fuel, k);
    Low32Step(k + 1);
    return Farthest(IncU32(distance) / 2);
  }

  /**
   * `steps_to_farthest_point`: find the start, take the first step, then
   * follow the pipes back to the start; at most `fuel` turns are made.
   */
  method StepsToFarthestPoint(layout: seq<string>, fuel: nat) returns (r: Result10)
    ensures r.NoStart? <==> forall i, j :: 0 <= i < |layout| && 0 <= j < |layout[i]| ==> layout[i][j] != 'S'
    ensures !r.NoStart? ==> exists sx, sy ::
              FirstStart(layout, sx, sy) &&
              (r.NoFirstStep? <==> StepAfterStart(layout, sx, sy).None?) &&
              (StepAfterStart(layout, sx, sy).Some? ==>
                 var d := StepAfterStart(layout, sx, sy).value;
                 var (fx, fy) := Moved(sx, sy, d);
                 WalkOutcome(layout, State(fx, fy, d), sx, sy, fuel, r))
  {
    var start := GetStart(layout);
    if start.None? {
      return NoStart;
    }
    var s := start.value;
    var displ := StepAfterStart(layout, s.x, s.y);
    if displ.None? {
      return NoFirstStep;
    }
    var current := s.Plus(displ.value);
    r := Walk(layout, s, current, displ.value, fuel);
  }
}
