/**
 * The canvas layout of the numbers: a ceil(sqrt(n)) x ceil(sqrt(n)) grid of
 * cells is shuffled with the room's seeded stream, number i takes cell i-1,
 * and its position is the cell centre moved by a jitter of at most a quarter
 * cell and clamped to a 6% margin.  Also the click hit-test over the laid-out
 * numbers.
 */
module CanvasGrid {
  import opened GameTypes
  import opened GameUtils

  datatype GridCell = GridCell(row: int, col: int)

  const Padding: real := 6.0
  const JitterFraction: real := 0.25
  const CellSizePercent: real := 5.5

  // ---------------------------------------------------------------------
  // Grid geometry

  /** `Math.ceil(Math.sqrt(n))`: the least `g` with `g * g >= n`. */
  function GridSize(n: nat): (g: nat)
    ensures g * g >= n
    ensures g > 0 ==> (g - 1) * (g - 1) < n
  {
    LeastSquareFrom(n, 0)
  }

  function LeastSquareFrom(n: nat, g: nat): (r: nat)
    requires g == 0 || (g - 1) * (g - 1) < n
    ensures r * r >= n
    ensures r > 0 ==> (r - 1) * (r - 1) < n
    decreases n - g
  {
    if g * g >= n then g
    else
      assert g <= g * g;
      LeastSquareFrom(n, g + 1)
  }

  /** `100 / gridSize`: the side of one cell, in percent of the canvas. */
  function CellExtent(g: nat): (w: real)
    requires g > 0
    ensures w > 0.0
  {
    PositiveQuotient(100.0, g as real);
    100.0 / g as real
  }

  /** `(index + 0.5) * cellWidth`: the centre of a cell along one axis. */
  function Centre(index: int, g: nat): real
    requires g > 0
  {
    (index as real + 0.5) * CellExtent(g)
  }

  /** `Math.max(padding, Math.min(100 - padding, v))`. */
  function Clamp(v: real): (c: real)
    ensures Padding <= c <= 100.0 - Padding
    ensures Padding <= v <= 100.0 - Padding ==> c == v
  {
    Max(Padding, Min(100.0 - Padding, v))
  }

  /** Row `row` of a grid with `g` columns, left to right. */
  function Row(row: nat, g: nat): (cells: seq<GridCell>)
    ensures |cells| == g
    ensures forall c :: 0 <= c < g ==> cells[c] == GridCell(row, c)
  {
    seq(g, c requires 0 <= c < g => GridCell(row, c))
  }

  /** The first `rows` rows of a grid with `g` columns, in row-major order. */
  function Rows(rows: nat, g: nat): (cells: seq<GridCell>)
    ensures |cells| == rows * g
  {
    if rows == 0 then [] else Rows(rows - 1, g) + Row(rows - 1, g)
  }

  /** The cells of a `g` x `g` grid in row-major order. */
  function RowMajor(g: nat): seq<GridCell> {
    Rows(g, g)
  }

  /** The first `rows` rows hold each cell `(r, c)` with `r < rows`, `c < g` exactly once, and nothing else. */
  lemma {:induction false} RowsCells(rows: nat, g: nat)
    ensures Distinct(Rows(rows, g))
    ensures forall cell :: cell in Rows(rows, g) <==> 0 <= cell.row < rows && 0 <= cell.col < g
  {
    if rows > 0 {
      RowsCells(rows - 1, g);
      var prefix, last := Rows(rows - 1, g), Row(rows - 1, g);
      assert Rows(rows, g) == prefix + last;
      forall cell ensures cell in last <==> cell.row == rows - 1 && 0 <= cell.col < g {
        if cell.row == rows - 1 && 0 <= cell.col < g {
          assert last[cell.col] == cell;
        }
      }
    }
  }

  /** Every cell of the `g` x `g` grid occurs exactly once in row-major order. */
  lemma RowMajorCells(g: nat)
    ensures |RowMajor(g)| == g * g
    ensures Distinct(RowMajor(g))
    ensures forall cell :: cell in RowMajor(g) <==> 0 <= cell.row < g && 0 <= cell.col < g
  {
    RowsCells(g, g);
  }

  /** The nested loops that push every `{ row, col }` of the grid. */
  method GridPositions(g: nat) returns (cells: seq<GridCell>)
    ensures cells == RowMajor(g)
  {
    cells := [];
    for row := 0 to g
      invariant cells == Rows(row, g)
    {
      for col := 0 to g
        invariant cells == Rows(row, g) + Row(row, g)[..col]
      {
        assert Row(row, g)[..col + 1] == Row(row, g)[..col] + [GridCell(row, col)];
        cells := cells + [GridCell(row, col)];
      }
      assert Row(row, g)[..g] == Row(row, g);
    }
  }

  // ---------------------------------------------------------------------
  // Number positions

  lemma PositiveQuotient(a: real, b: real)
    requires a > 0.0 && b > 0.0
    ensures a / b > 0.0
  {
  }

  lemma NonNegativeProduct(x: real, y: real)
    requires x >= 0.0 && y >= 0.0
    ensures x * y >= 0.0
  {
  }

  /** `(random() - 0.5) * jitter * 2`: a draw in [0, 1) moves by at most `jitter` either way. */
  function Jitter(r: real, jitter: real): (d: real)
    requires 0.0 <= r < 1.0 && jitter >= 0.0
    ensures Abs(d) <= jitter
  {
    var d := (r - 0.5) * jitter * 2.0;
    var a := (r - 0.5) * 2.0;
    assert d == a * jitter;
    NonNegativeProduct(1.0 - a, jitter);
    NonNegativeProduct(a + 1.0, jitter);
    d
  }

  /** Clamping keeps the order of its arguments. */
  lemma ClampMonotone(a: real, b: real)
    requires a <= b
    ensures Clamp(a) <= Clamp(b)
  {
  }

  /** The number of draws the shuffle of `g * g` cells takes: one per index from the last down to 1. */
  function ShuffleDraws(g: nat): nat {
    if g * g > 1 then g * g - 1 else 0
  }

  lemma PermutedCellsInGrid(cells: seq<GridCell>, grid: seq<GridCell>, g: nat)
    requires multiset(cells) == multiset(grid)
    requires forall cell :: cell in grid <==> 0 <= cell.row < g && 0 <= cell.col < g
    ensures forall i :: 0 <= i < |cells| ==> 0 <= cells[i].row < g && 0 <= cells[i].col < g
  {
    forall i | 0 <= i < |cells| ensures 0 <= cells[i].row < g && 0 <= cells[i].col < g {
      assert cells[i] in multiset(grid);
    }
  }

  /** The grid cells after the Fisher–Yates shuffle whose first draw is number `k` of the stream: each cell exactly once. */
  function ShuffledGrid(g: nat, start: real, step: real -> real, k: nat): (cells: seq<GridCell>)
    ensures |cells| == g * g
    ensures multiset(cells) == multiset(RowMajor(g))
    ensures Distinct(cells)
    ensures forall i :: 0 <= i < |cells| ==> 0 <= cells[i].row < g && 0 <= cells[i].col < g
  {
    var grid := RowMajor(g);
    RowMajorCells(g);
    ShuffledPermutes(grid, |grid| - 1, step, start, k);
    ShuffledKeepsDistinct(grid, |grid| - 1, step, start, k);
    var cells := Shuffled(grid, |grid| - 1, step, start, k);
    PermutedCellsInGrid(cells, grid, g);
    cells
  }

  /** Number `number` placed in `cell`, with draws `k`, `k + 1`, `k + 2` of the stream for x, y and rotation. */
  function PositionAt(number: int, cell: GridCell, g: nat, step: real -> real, start: real, k: nat): NumberPosition
    requires g > 0
  {
    var jitter := CellExtent(g) * JitterFraction;
    NumberPosition(
      number,
      Clamp(Centre(cell.col, g) + Jitter(Draw(step, start, k), jitter)),
      Clamp(Centre(cell.row, g) + Jitter(Draw(step, start, k + 1), jitter)),
      (Draw(step, start, k + 2) - 0.5) * 30.0)
  }

  /**
   * Numbers 1..`count` placed in the first `count` of `cells`, number `i`
   * taking draws `d + 3 * (i - 1)` onwards: what the placement loop has built
   * after `count` turns.
   */
  function Placements(cells: seq<GridCell>, g: nat, step: real -> real, start: real, d: nat, count: nat): (ps: seq<NumberPosition>)
    requires g > 0 && count <= |cells|
    ensures |ps| == count
  {
    if count == 0 then []
    else Placements(cells, g, step, start, d, count - 1) + [PositionAt(count, cells[count - 1], g, step, start, d + 3 * (count - 1))]
  }

  /** Entry `k` of the placements is number `k + 1` in cell `k`, drawn from `d + 3 * k`. */
  lemma {:induction false} PlacementsEntries(cells: seq<GridCell>, g: nat, step: real -> real, start: real, d: nat, count: nat)
    requires g > 0 && count <= |cells|
    ensures forall k :: 0 <= k < count ==>
              Placements(cells, g, step, start, d, count)[k] == PositionAt(k + 1, cells[k], g, step, start, d + 3 * k)
  {
    if count > 0 {
      PlacementsEntries(cells, g, step, start, d, count - 1);
    }
  }

  /** The positions `numberPositions` computes for `n` numbers from the stream state `start`. */
  function Layout(n: nat, start: real, step: real -> real): (ps: seq<NumberPosition>)
    ensures |ps| == n
  {
    var g := GridSize(n);
    if g == 0 then [] else Placements(ShuffledGrid(g, start, step, 0), g, step, start, ShuffleDraws(g), n)
  }

  /** Entry `k` of the layout is number `k + 1` in the `k`-th shuffled cell. */
  lemma LayoutEntries(n: nat, start: real, step: real -> real)
    ensures forall k :: 0 <= k < n ==> Layout(n, start, step)[k].number == k + 1
    ensures var g := GridSize(n);
      forall k :: 0 <= k < n ==>
        && g > 0
        && Layout(n, start, step)[k] == PositionAt(k + 1, ShuffledGrid(g, start, step, 0)[k], g, step, start, ShuffleDraws(g) + 3 * k)
  {
    var g := GridSize(n);
    if g > 0 {
      PlacementsEntries(ShuffledGrid(g, start, step, 0), g, step, start, ShuffleDraws(g), n);
    }
  }

  /**
   * Where a number laid out in `cell` may lie: inside the 6% margin, tilted
   * by at least -15 and less than 15 degrees, and on each axis at most a
   * quarter cell from the cell centre, up to the clamp.
   */
  predicate PlacedIn(p: NumberPosition, cell: GridCell, g: nat)
    requires g > 0
  {
    var q := CellExtent(g) * JitterFraction;
    && Padding <= p.x <= 100.0 - Padding
    && Padding <= p.y <= 100.0 - Padding
    && -15.0 <= p.rotation < 15.0
    && Clamp(Centre(cell.col, g) - q) <= p.x <= Clamp(Centre(cell.col, g) + q)
    && Clamp(Centre(cell.row, g) - q) <= p.y <= Clamp(Centre(cell.row, g) + q)
  }

  /** Every placement satisfies `PlacedIn` for its cell, whatever the draws. */
  lemma PositionAtPlaced(number: int, cell: GridCell, g: nat, step: real -> real, start: real, k: nat)
    requires g > 0
    ensures PlacedIn(PositionAt(number, cell, g, step, start, k), cell, g)
  {
    var q := CellExtent(g) * JitterFraction;
    var cx, cy := Centre(cell.col, g), Centre(cell.row, g);
    var dx, dy := Jitter(Draw(step, start, k), q), Jitter(Draw(step, start, k + 1), q);
    ClampMonotone(cx - q, cx + dx);
    ClampMonotone(cx + dx, cx + q);
    ClampMonotone(cy - q, cy + dy);
    ClampMonotone(cy + dy, cy + q);
  }

  /**
   * What the layout guarantees: number `i + 1` is entry `i`, placed in the
   * `i`-th shuffled cell as `PlacedIn` says, and distinct numbers get
   * distinct cells.
   */
  lemma LayoutProperties(n: nat, start: real, step: real -> real)
    ensures var ps, g := Layout(n, start, step), GridSize(n);
      var cells := ShuffledGrid(g, start, step, 0);
      && n <= |cells|
      && (forall i, j :: 0 <= i < j < n ==> cells[i] != cells[j])
      && forall i :: 0 <= i < n ==> ps[i].number == i + 1 && g > 0 && PlacedIn(ps[i], cells[i], g)
  {
    var ps, g := Layout(n, start, step), GridSize(n);
    var cells := ShuffledGrid(g, start, step, 0);
    LayoutEntries(n, start, step);
    forall i | 0 <= i < n ensures g > 0 && PlacedIn(ps[i], cells[i], g) {
      PositionAtPlaced(i + 1, cells[i], g, step, start, ShuffleDraws(g) + 3 * i);
    }
  }

  /**
   * The `numberPositions` computation of the canvas grid: seed the stream,
   * build and shuffle the grid cells, then place numbers 1..n.
   */
  method NumberPositions(maxNumbers: nat, gridSeed: string, step: real -> real)
    returns (positions: seq<NumberPosition>)
    ensures positions == Layout(maxNumbers, StartOf(gridSeed), step)
  {
    var random := new SeededRandom(gridSeed, step);
    positions := [];
    var gridSize := GridSize(maxNumbers);
    if gridSize == 0 {
      return;
    }

    var gridPositions := ShuffleGridPositions(gridSize, random);
    positions := PlaceNumbers(maxNumbers, gridPositions, gridSize, random);
  }

  /** Build the grid cells row by row into an array and shuffle it in place with `random`. */
  method ShuffleGridPositions(gridSize: nat, random: SeededRandom) returns (cells: seq<GridCell>)
    requires random.Valid()
    modifies random
    ensures random.Valid() && random.drawn == old(random.drawn) + ShuffleDraws(gridSize)
    ensures cells == ShuffledGrid(gridSize, random.start, random.step, old(random.drawn))
  {
    var gridList := GridPositions(gridSize);
    RowMajorCells(gridSize);
    var gridPositions := new GridCell[|gridList|](k requires 0 <= k < |gridList| => gridList[k]);
    assert gridPositions[..] == gridList;
    FisherYatesInPlace(gridPositions, random);
    cells := gridPositions[..];
  }

  /** The placement loop `for (i = 1; i <= maxNumbers; i++)` over the shuffled cells. */
  method PlaceNumbers(maxNumbers: nat, gridPositions: seq<GridCell>, gridSize: nat, random: SeededRandom)
    returns (positions: seq<NumberPosition>)
    requires gridSize > 0 && maxNumbers <= |gridPositions| && random.Valid()
    modifies random
    ensures positions == Placements(gridPositions, gridSize, random.step, random.start, old(random.drawn), maxNumbers)
  {
    positions := [];
    ghost var d := random.drawn;
    ghost var start := random.start;
    var step := random.step;
    for i := 0 to maxNumbers
      invariant random.Valid() && random.drawn == d + 3 * i
      invariant |positions| == i
      invariant forall k :: 0 <= k < i ==> positions[k] == PositionAt(k + 1, gridPositions[k], gridSize, step, start, d + 3 * k)
      modifies random
    {
      var position := PlaceNumber(i + 1, gridPositions[i], gridSize, random);
      positions := positions + [position];
    }
    PlacementsEntries(gridPositions, gridSize, step, start, d, maxNumbers);
  }

  /** One turn of the placement loop: draw x, y and rotation for number `number` in `cell`. */
  method PlaceNumber(number: int, cell: GridCell, gridSize: nat, random: SeededRandom)
    returns (position: NumberPosition)
    requires gridSize > 0 && random.Valid()
    modifies random
    ensures random.Valid() && random.drawn == old(random.drawn) + 3
    ensures position == PositionAt(number, cell, gridSize, random.step, random.start, old(random.drawn))
  {
    var cellWidth := CellExtent(gridSize);
    var cellHeight := CellExtent(gridSize);
    var jitterX := cellWidth * JitterFraction;
    var jitterY := cellHeight * JitterFraction;
    var baseX := Centre(cell.col, gridSize);
    var baseY := Centre(cell.row, gridSize);
    var r1 := random.Next();
    var x := Clamp(baseX + Jitter(r1, jitterX));
    var r2 := random.Next();
    var y := Clamp(baseY + Jitter(r2, jitterY));
    var r3 := random.Next();
    position := NumberPosition(number, x, y, (r3 - 0.5) * 30.0);
  }


  // ---------------------------------------------------------------------
  // Click hit-test

  /** An unclaimed number whose box of half-width 5.5 contains the click. */
  predicate Hit(p: NumberPosition, claimed: map<int, ClaimInfo>, x: real, y: real) {
    && p.number !in claimed
    && Abs(x - p.x) < CellSizePercent
    && Abs(y - p.y) < CellSizePercent
  }

  /** `handleClick`: the number clicked at (x, y) in percent, if any. */
  method HandleClick(disabled: bool, positions: seq<NumberPosition>, claimed: map<int, ClaimInfo>, x: real, y: real)
    returns (clicked: Option<int>)
    ensures disabled ==> clicked == None
    ensures !disabled ==>
              var k := FindIndex(positions, p => Hit(p, claimed, x, y));
              clicked == if k < |positions| then Some(positions[k].number) else None
    ensures clicked.Some? ==> clicked.value !in claimed
  {
    if disabled {
      return None;
    }
    for k := 0 to |positions|
      invariant forall j :: 0 <= j < k ==> !Hit(positions[j], claimed, x, y)
    {
      var pos := positions[k];
      if pos.number in claimed {
        continue;
      }
      var dx := x - pos.x;
      var dy := y - pos.y;
      if Abs(dx) < CellSizePercent && Abs(dy) < CellSizePercent {
        return Some(pos.number);
      }
    }
    return None;
  }

  datatype Cursor = Default | Pointer

  /** `handleMouseMove`: the pointer cursor exactly over an unclaimed number that a click would report. */
  method HandleMouseMove(disabled: bool, positions: seq<NumberPosition>, claimed: map<int, ClaimInfo>, x: real, y: real)
    returns (cursor: Cursor)
    ensures cursor == Pointer <==> !disabled && exists j :: 0 <= j < |positions| && Hit(positions[j], claimed, x, y)
    ensures cursor == Pointer <==> !disabled && FindIndex(positions, p => Hit(p, claimed, x, y)) < |positions|
  {
    if disabled {
      return Default;
    }
    for k := 0 to |positions|
      invariant forall j :: 0 <= j < k ==> !Hit(positions[j], claimed, x, y)
    {
      var pos := positions[k];
      if pos.number in claimed {
        continue;
      }
      var dx := x - pos.x;
      var dy := y - pos.y;
      if Abs(dx) < CellSizePercent && Abs(dy) < CellSizePercent {
        return Pointer;
      }
    }
    return Default;
  }
}
