/**
 * The scattered (non-canvas) layout of the numbers: each number draws random
 * spots in the playing area until it finds one that keeps clear of the
 * numbers already placed, giving up after 50 attempts; and the per-cell view
 * flags the grid hands to each number button.
 */
module NumberGrid {
  import opened GameTypes
  import opened GameUtils

  const CellSize: real := 12.0
  const Padding: real := 8.0
  const MaxAttempts: nat := 50

  /** `100 - 2 * padding - cellSize`: the width of the range a spot is drawn from. */
  const Span: real := 100.0 - 2.0 * Padding - CellSize

  /** A coordinate a spot can take: from the padding up to, not including, 80%. */
  predicate InArea(v: real) {
    Padding <= v < Padding + Span
  }

  /** `Math.abs(p.x - x) < cellSize * 0.8 && Math.abs(p.y - y) < cellSize * 0.8`. */
  predicate TooClose(p: NumberPosition, x: real, y: real) {
    Abs(p.x - x) < CellSize * 0.8 && Abs(p.y - y) < CellSize * 0.8
  }

  /** `positions.some(p => tooClose(p, x, y))`. */
  predicate AnyTooClose(positions: seq<NumberPosition>, x: real, y: real) {
    if positions == [] then false
    else TooClose(positions[0], x, y) || AnyTooClose(positions[1..], x, y)
  }

  /** `some` holds exactly when some placed number is too close to the spot. */
  lemma {:induction false} AnyTooCloseExactly(positions: seq<NumberPosition>, x: real, y: real)
    ensures AnyTooClose(positions, x, y) <==> exists j :: 0 <= j < |positions| && TooClose(positions[j], x, y)
  {
    if positions != [] {
      AnyTooCloseExactly(positions[1..], x, y);
      if !TooClose(positions[0], x, y) && AnyTooClose(positions[1..], x, y) {
        var j :| 0 <= j < |positions| - 1 && TooClose(positions[1..][j], x, y);
        assert TooClose(positions[j + 1], x, y);
      }
    }
  }

  /** `padding + r * (100 - 2 * padding - cellSize)`: a draw scaled into the area. */
  function SpotCoord(r: real): (v: real)
    requires 0.0 <= r < 1.0
    ensures InArea(v)
  {
    Padding + r * Span
  }

  /** The x a spot takes from draw `j`. */
  function SpotX(step: real -> real, start: real, j: nat): real {
    SpotCoord(Draw(step, start, j))
  }

  /** The y a spot takes from draw `j + 1`. */
  function SpotY(step: real -> real, start: real, j: nat): real {
    SpotCoord(Draw(step, start, j + 1))
  }

  /** `(r - 0.5) * 30`: a draw turned into a tilt of at most 15 degrees either way. */
  function Rotation(r: real): (deg: real)
    requires 0.0 <= r < 1.0
    ensures -15.0 <= deg < 15.0
  {
    (r - 0.5) * 30.0
  }

  /** `padding + random() * (100 - 2 * padding - cellSize)`, once for x and once for y. */
  method DrawSpot(random: SeededRandom) returns (x: real, y: real)
    requires random.Valid()
    modifies random
    ensures random.Valid() && random.drawn == old(random.drawn) + 2
    ensures x == SpotX(random.step, random.start, old(random.drawn))
    ensures y == SpotY(random.step, random.start, old(random.drawn))
    ensures InArea(x) && InArea(y)
  {
    var r1 := random.Next();
    x := SpotCoord(r1);
    var r2 := random.Next();
    y := SpotCoord(r2);
  }

  /** The spot a search settles on and the number of attempts it took. */
  datatype Spot = Spot(x: real, y: real, attempts: nat)

  /**
   * The do-while loop for one number, from its attempt `a` on, which draws
   * its spot from draws `j` and `j + 1`: go on to the next attempt while
   * fewer than 50 were made and the spot is too close to a placed number.
   */
  function Search(placed: seq<NumberPosition>, step: real -> real, start: real, j: nat, a: nat): (s: Spot)
    requires 1 <= a <= MaxAttempts
    ensures a <= s.attempts <= MaxAttempts
    decreases MaxAttempts - a
  {
    var x, y := SpotX(step, start, j), SpotY(step, start, j);
    if a < MaxAttempts && AnyTooClose(placed, x, y) then Search(placed, step, start, j + 2, a + 1)
    else Spot(x, y, a)
  }

  /**
   * The search ends with a spot in the area that keeps clear of every
   * placed number, unless it used all 50 attempts.
   */
  lemma {:induction false} SearchBounds(placed: seq<NumberPosition>, step: real -> real, start: real, j: nat, a: nat)
    requires 1 <= a <= MaxAttempts
    ensures var s := Search(placed, step, start, j, a);
      && InArea(s.x) && InArea(s.y)
      && (s.attempts == MaxAttempts || !AnyTooClose(placed, s.x, s.y))
    decreases MaxAttempts - a
  {
    if a < MaxAttempts && AnyTooClose(placed, SpotX(step, start, j), SpotY(step, start, j)) {
      SearchBounds(placed, step, start, j + 2, a + 1);
    }
  }

  /** Attempt `b` (from 1) of a search whose first draw is draw `k` drew a spot too close to a placed number. */
  predicate RejectedAttempt(placed: seq<NumberPosition>, step: real -> real, start: real, k: nat, b: nat)
    requires b >= 1
  {
    AnyTooClose(placed, SpotX(step, start, k + 2 * (b - 1)), SpotY(step, start, k + 2 * (b - 1)))
  }

  /**
   * The search keeps the spot of its last attempt and stops at the first
   * clear one: every attempt before the last was rejected.
   */
  lemma {:induction false} SearchStopsAtFirstClear(placed: seq<NumberPosition>, step: real -> real, start: real, k: nat, a: nat)
    requires 1 <= a <= MaxAttempts
    ensures var s := Search(placed, step, start, k + 2 * (a - 1), a);
      && s.x == SpotX(step, start, k + 2 * (s.attempts - 1)) && s.y == SpotY(step, start, k + 2 * (s.attempts - 1))
      && forall b :: a <= b < s.attempts ==> RejectedAttempt(placed, step, start, k, b)
    decreases MaxAttempts - a
  {
    if a < MaxAttempts && RejectedAttempt(placed, step, start, k, a) {
      SearchStopsAtFirstClear(placed, step, start, k, a + 1);
      assert k + 2 * (a - 1) + 2 == k + 2 * (a + 1 - 1);
    }
  }

  /** A rejected attempt below the limit hands the search on to the next attempt. */
  lemma SearchGoesOn(placed: seq<NumberPosition>, step: real -> real, start: real, j: nat, a: nat)
    requires 1 <= a < MaxAttempts && AnyTooClose(placed, SpotX(step, start, j), SpotY(step, start, j))
    ensures Search(placed, step, start, j, a) == Search(placed, step, start, j + 2, a + 1)
  {
  }

  /** A clear attempt, or the 50th, ends the search with its own spot. */
  lemma SearchEnds(placed: seq<NumberPosition>, step: real -> real, start: real, j: nat, a: nat)
    requires 1 <= a <= MaxAttempts
    requires a == MaxAttempts || !AnyTooClose(placed, SpotX(step, start, j), SpotY(step, start, j))
    ensures Search(placed, step, start, j, a) == Spot(SpotX(step, start, j), SpotY(step, start, j), a)
  {
  }

  /**
   * The do-while loop for one number: draw a spot, and draw again while
   * fewer than 50 attempts were made and the spot is too close to a placed
   * number.
   */
  method FindSpot(positions: seq<NumberPosition>, random: SeededRandom)
    returns (x: real, y: real, used: nat)
    requires random.Valid()
    modifies random
    ensures random.Valid() && random.drawn == old(random.drawn) + 2 * used
    ensures Spot(x, y, used) == Search(positions, random.step, random.start, old(random.drawn), 1)
    ensures InArea(x) && InArea(y)
    ensures 1 <= used <= MaxAttempts
    ensures used == MaxAttempts || !AnyTooClose(positions, x, y)
  {
    ghost var start, step := random.start, random.step;
    ghost var found := Search(positions, step, start, random.drawn, 1);
    ghost var d := random.drawn;
    ghost var j := d;
    var attempts := 0;
    x, y := DrawSpot(random);
    attempts := attempts + 1;
    while attempts < MaxAttempts && AnyTooClose(positions, x, y)
      invariant 1 <= attempts <= MaxAttempts
      invariant random.Valid() && random.drawn == j + 2 && j == d + 2 * (attempts - 1)
      invariant random.start == start && random.step == step
      invariant x == SpotX(step, start, j) && y == SpotY(step, start, j)
      invariant Search(positions, step, start, j, attempts) == found
      decreases MaxAttempts - attempts
    {
      SearchGoesOn(positions, step, start, j, attempts);
      j := random.drawn;
      x, y := DrawSpot(random);
      attempts := attempts + 1;
    }
    SearchEnds(positions, step, start, j, attempts);
    SearchBounds(positions, step, start, d, 1);
    used := attempts;
  }

  /**
   * The entry of number `|placed| + 1` when its search starts at draw `k`:
   * the spot the search settles on, and the rotation drawn right after it.
   */
  function ScatterEntry(placed: seq<NumberPosition>, step: real -> real, start: real, k: nat): (p: NumberPosition)
    ensures p.number == |placed| + 1
  {
    var s := Search(placed, step, start, k, 1);
    NumberPosition(|placed| + 1, s.x, s.y, Rotation(Draw(step, start, k + 2 * s.attempts)))
  }

  /** The draw after that entry: two per attempt of its search, and one for its rotation. */
  function ScatterNext(placed: seq<NumberPosition>, step: real -> real, start: real, k: nat): (next: nat)
    ensures next > k
  {
    k + 2 * Search(placed, step, start, k, 1).attempts + 1
  }

  /**
   * The scattered layout of numbers `|placed| + 1` to `n`, continued from
   * the numbers already `placed` with the stream at draw `k`.
   */
  function ScatterFrom(placed: seq<NumberPosition>, n: nat, step: real -> real, start: real, k: nat): (ps: seq<NumberPosition>)
    ensures |ps| == if |placed| <= n then n else |placed|
    decreases n - |placed|
  {
    if |placed| >= n then placed
    else ScatterFrom(placed + [ScatterEntry(placed, step, start, k)], n, step, start, ScatterNext(placed, step, start, k))
  }

  /** The scattered layout of `n` numbers for the stream whose initial state is `start`. */
  function Scatter(n: nat, start: real, step: real -> real): (ps: seq<NumberPosition>)
    ensures |ps| == n
  {
    ScatterFrom([], n, step, start, 0)
  }

  /** Entry `i` of a scattered layout: number `i + 1`, in the area, tilted by less than 15 degrees. */
  predicate ScatteredAt(positions: seq<NumberPosition>, attempts: seq<nat>, i: nat)
    requires i < |positions| && i < |attempts|
  {
    && positions[i].number == i + 1
    && InArea(positions[i].x) && InArea(positions[i].y)
    && -15.0 <= positions[i].rotation < 15.0
    && 1 <= attempts[i] <= MaxAttempts
    && (attempts[i] == MaxAttempts || !AnyTooClose(positions[..i], positions[i].x, positions[i].y))
  }

  /** Appending an entry that meets `ScatteredAt` keeps every earlier entry's. */
  lemma ScatteredAppend(positions: seq<NumberPosition>, attempts: seq<nat>, p: NumberPosition, a: nat)
    requires |positions| == |attempts|
    requires forall i :: 0 <= i < |positions| ==> ScatteredAt(positions, attempts, i)
    requires p.number == |positions| + 1 && InArea(p.x) && InArea(p.y) && -15.0 <= p.rotation < 15.0
    requires 1 <= a <= MaxAttempts && (a == MaxAttempts || !AnyTooClose(positions, p.x, p.y))
    ensures forall i :: 0 <= i <= |positions| ==> ScatteredAt(positions + [p], attempts + [a], i)
  {
    var ps, tried := positions + [p], attempts + [a];
    forall i | 0 <= i < |positions|
      ensures ScatteredAt(ps, tried, i)
    {
      assert ScatteredAt(positions, attempts, i);
      assert ps[..i] == positions[..i];
    }
    assert ps[..|positions|] == positions;
  }

  /** One turn of the outer loop: search a spot for number `|positions| + 1`, then draw its rotation. */
  method ScatterOne(positions: seq<NumberPosition>, random: SeededRandom) returns (p: NumberPosition, tries: nat)
    requires random.Valid()
    modifies random
    ensures random.Valid() && random.drawn == old(random.drawn) + 2 * tries + 1
    ensures tries == Search(positions, random.step, random.start, old(random.drawn), 1).attempts
    ensures p == ScatterEntry(positions, random.step, random.start, old(random.drawn))
    ensures random.drawn == ScatterNext(positions, random.step, random.start, old(random.drawn))
  {
    var x, y;
    x, y, tries := FindSpot(positions, random);
    var r := random.Next();
    p := NumberPosition(|positions| + 1, x, y, Rotation(r));
  }

  /**
   * The `numberPositions` computation of the scattered grid.  `attempts[i]`
   * is how many spots number `i + 1` drew; each number either keeps clear
   * of every number placed before it or used up its 50 attempts.  The
   * layout is the one `Scatter` specifies for the seed, so every client
   * with the same seed and count computes the same positions.
   */
  method ScatterPositions(maxNumbers: nat, gridSeed: string, step: real -> real)
    returns (positions: seq<NumberPosition>, ghost attempts: seq<nat>)
    ensures |positions| == maxNumbers && |attempts| == maxNumbers
    ensures forall i :: 0 <= i < maxNumbers ==> ScatteredAt(positions, attempts, i)
    ensures positions == Scatter(maxNumbers, StartOf(gridSeed), step)
  {
    var random := new SeededRandom(gridSeed, step);
    positions, attempts := [], [];
    ghost var start := random.start;
    ghost var scattered := Scatter(maxNumbers, start, step);
    for i := 1 to maxNumbers + 1
      invariant |positions| == i - 1 && |attempts| == i - 1
      invariant random.Valid() && random.step == step && random.start == start
      invariant forall k :: 0 <= k < i - 1 ==> ScatteredAt(positions, attempts, k)
      invariant ScatterFrom(positions, maxNumbers, step, start, random.drawn) == scattered
      modifies random
    {
      ghost var d := random.drawn;
      var p, tries := ScatterOne(positions, random);
      SearchBounds(positions, step, start, d, 1);
      ScatteredAppend(positions, attempts, p, tries);
      positions := positions + [p];
      attempts := attempts + [tries];
    }
  }

  /**
   * In a scattered layout the numbers increase along the list, and a number
   * that found its spot in under 50 attempts keeps clear of every number
   * placed before it.
   */
  lemma ScatteredSpacing(positions: seq<NumberPosition>, attempts: seq<nat>)
    requires |positions| == |attempts|
    requires forall i :: 0 <= i < |positions| ==> ScatteredAt(positions, attempts, i)
    ensures forall i, j :: 0 <= i < j < |positions| ==> positions[i].number < positions[j].number
    ensures forall i, j :: 0 <= i < j < |positions| && attempts[j] < MaxAttempts ==>
              !TooClose(positions[i], positions[j].x, positions[j].y)
  {
    forall i, j | 0 <= i < j < |positions|
      ensures positions[i].number < positions[j].number
    {
      assert ScatteredAt(positions, attempts, i) && ScatteredAt(positions, attempts, j);
    }
    forall i, j | 0 <= i < j < |positions| && attempts[j] < MaxAttempts
      ensures !TooClose(positions[i], positions[j].x, positions[j].y)
    {
      assert ScatteredAt(positions, attempts, j);
      AnyTooCloseExactly(positions[..j], positions[j].x, positions[j].y);
      assert positions[..j][i] == positions[i];
    }
  }

  // ---------------------------------------------------------------------
  // The cells handed to each number button

  /** What one number button is given: its number, claim state and colour, target flag and whether it can be pressed. */
  datatype CellView = CellView(number: int, isClaimed: bool, claimedColor: Option<string>, isTarget: bool, enabled: bool)

  function CellViewOf(p: NumberPosition, claimed: map<int, ClaimInfo>, currentTarget: int, disabled: bool): CellView {
    var isClaimed := p.number in claimed;
    CellView(
      p.number,
      isClaimed,
      if isClaimed then Some(claimed[p.number].playerColor) else None,
      p.number == currentTarget,
      !(disabled || isClaimed))
  }

  /** `numberPositions.map(...)`: one button per position, in order. */
  function CellViews(positions: seq<NumberPosition>, claimed: map<int, ClaimInfo>, currentTarget: int, disabled: bool)
    : (views: seq<CellView>)
    ensures |views| == |positions|
    ensures forall i :: 0 <= i < |positions| ==>
              && views[i].number == positions[i].number
              && (views[i].isClaimed <==> positions[i].number in claimed)
              && (views[i].isClaimed ==> views[i].claimedColor == Some(claimed[positions[i].number].playerColor))
              && (!views[i].isClaimed ==> views[i].claimedColor == None)
              && (views[i].isTarget <==> positions[i].number == currentTarget)
              && (views[i].enabled <==> !disabled && positions[i].number !in claimed)
  {
    seq(|positions|, i requires 0 <= i < |positions| => CellViewOf(positions[i], claimed, currentTarget, disabled))
  }

  /** With numbers 1..n in order and a target among them, exactly the target's button is flagged. */
  lemma ExactlyOneTarget(positions: seq<NumberPosition>, claimed: map<int, ClaimInfo>, currentTarget: int, disabled: bool)
    requires forall i :: 0 <= i < |positions| ==> positions[i].number == i + 1
    requires 1 <= currentTarget <= |positions|
    ensures var views := CellViews(positions, claimed, currentTarget, disabled);
      && views[currentTarget - 1].isTarget
      && forall i :: 0 <= i < |views| && i != currentTarget - 1 ==> !views[i].isTarget
  {
  }
}
