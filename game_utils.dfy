/**
 * The game's shared helpers: the seeded pseudo-random stream, the
 * Fisher–Yates shuffle, room codes, the player palette, the time display
 * and the grid dimensions.
 */
module GameUtils {
  import opened Text
  import opened GameTypes

  // ---------------------------------------------------------------------
  // 32-bit integers, as JavaScript's bitwise operators see numbers

  const TwoTo31: int := 0x8000_0000
  const TwoTo32: int := 0x1_0000_0000

  predicate IsInt32(x: int) {
    -TwoTo31 <= x < TwoTo31
  }

  /** ECMAScript ToInt32: reduce modulo 2^32 into the signed range. */
  function ToInt32(x: int): (r: int)
    ensures IsInt32(r)
    ensures (r - x) % TwoTo32 == 0
    ensures IsInt32(x) ==> r == x
  {
    var m := x % TwoTo32;
    if m >= TwoTo31 then m - TwoTo32 else m
  }

  /** ToInt32 only depends on its argument modulo 2^32. */
  lemma ToInt32Congruent(x: int, y: int)
    requires (x - y) % TwoTo32 == 0
    ensures ToInt32(x) == ToInt32(y)
  {
    var q := (x - y) / TwoTo32;
    assert x == y + q * TwoTo32;
    ModShift(y, q);
  }

  lemma {:induction false} ModShift(y: int, q: int)
    ensures (y + q * TwoTo32) % TwoTo32 == y % TwoTo32
    decreases if q < 0 then -q else q
  {
    if q > 0 {
      ModShift(y, q - 1);
      assert y + q * TwoTo32 == (y + (q - 1) * TwoTo32) + TwoTo32;
    } else if q < 0 {
      ModShift(y, q + 1);
      assert y + q * TwoTo32 == (y + (q + 1) * TwoTo32) - TwoTo32;
    }
  }

  /** One step of the seed hash: `hash = int32(31 * hash + char)`. */
  function HashStep(hash: int, unit: int): (h: int)
    ensures IsInt32(h)
  {
    ToInt32(31 * hash + unit)
  }

  /**
   * The statements `hash = ((hash << 5) - hash) + char; hash = hash & hash`
   * compute exactly one `HashStep`: the shift wraps `32 * hash` to 32 bits,
   * and `hash & hash` wraps the sum.
   */
  lemma ShiftFormIsHashStep(hash: int, unit: int)
    ensures ToInt32(ToInt32(hash * 32) - hash + unit) == HashStep(hash, unit)
  {
    var w := ToInt32(hash * 32);
    assert (w - hash + unit) - (31 * hash + unit) == w - hash * 32;
    ToInt32Congruent(w - hash + unit, 31 * hash + unit);
  }

  // ---------------------------------------------------------------------
  // The seed hash of `seededRandom`

  /** The UTF-16 code units of one character, which `charCodeAt` reads one at a time. */
  function CodeUnits(c: char): (u: seq<int>)
    ensures 1 <= |u| <= 2
    ensures forall k :: 0 <= k < |u| ==> 0 <= u[k] < 0x1_0000
    ensures c as int < 0x1_0000 ==> u == [c as int]
  {
    var v := c as int;
    if v < 0x1_0000 then [v]
    else [0xD800 + (v - 0x1_0000) / 0x400, 0xDC00 + (v - 0x1_0000) % 0x400]
  }

  /** A string as JavaScript sees it: its sequence of UTF-16 code units. */
  function Utf16(s: string): (u: seq<int>)
    ensures |u| >= |s|
    ensures s == [] <==> u == []
  {
    if s == [] then [] else CodeUnits(s[0]) + Utf16(s[1..])
  }

  /** The hash after folding `HashStep` over the code units, starting from 0. */
  function HashOf(units: seq<int>): (h: int)
    ensures IsInt32(h)
    ensures units == [] ==> h == 0
  {
    if units == [] then 0 else HashStep(HashOf(units[..|units| - 1]), units[|units| - 1])
  }

  /** The initial state of the stream `seededRandom(seed)` returns. */
  function SeedHash(seed: string): (h: int)
    ensures IsInt32(h)
    ensures seed == "" ==> h == 0
  {
    HashOf(Utf16(seed))
  }

  /** The loop at the head of `seededRandom`. */
  method HashSeed(seed: string) returns (hash: int)
    ensures hash == SeedHash(seed)
  {
    var units := Utf16(seed);
    hash := 0;
    for i := 0 to |units|
      invariant hash == HashOf(units[..i])
    {
      var ch := units[i];
      ShiftFormIsHashStep(hash, ch);
      hash := ToInt32(hash * 32) - hash + ch;  // (hash << 5) - hash + char
      hash := ToInt32(hash);                   // hash & hash
      assert units[..i + 1][..i] == units[..i];
    }
    assert units[..|units|] == units;
  }

  // ---------------------------------------------------------------------
  // The stream of draws

  /** `v - Math.floor(v)`. */
  function Frac(v: real): (f: real)
    ensures 0.0 <= f < 1.0
    ensures (v - f).Floor as real == v - f
  {
    v - v.Floor as real
  }

  /** The generator state after `k` steps from `start`. */
  function StateAfter(step: real -> real, start: real, k: nat): real
  {
    if k == 0 then start else step(StateAfter(step, start, k - 1))
  }

  /**
   * The `k`-th value (from 0) drawn from the stream whose initial state is
   * `start`.  `step` stands for the generator's floating-point update
   * `Math.sin(hash) * 10000`.
   */
  function Draw(step: real -> real, start: real, k: nat): (r: real)
    ensures 0.0 <= r < 1.0
  {
    Frac(StateAfter(step, start, k + 1))
  }

  /** The initial state of `seededRandom(seed)`: the seed hash, as a number. */
  function StartOf(seed: string): real {
    SeedHash(seed) as real
  }

  /** The closure `seededRandom(seed)` returns, with its captured `hash`. */
  class SeededRandom {
    ghost const start: real
    const step: real -> real
    var hash: real
    ghost var drawn: nat

    ghost predicate Valid()
      reads this
    {
      hash == StateAfter(step, start, drawn)
    }

    constructor (seed: string, step: real -> real)
      ensures start == StartOf(seed) && this.step == step
      ensures Valid() && drawn == 0
    {
      var h := HashSeed(seed);
      start := h as real;
      this.step := step;
      hash := h as real;
      drawn := 0;
    }

    /** One call of the closure: advance the state, return its fractional part. */
    method Next() returns (r: real)
      requires Valid()
      modifies this
      ensures Valid() && drawn == old(drawn) + 1
      ensures r == Draw(step, start, old(drawn))
      ensures 0.0 <= r < 1.0
    {
      hash := step(hash);
      drawn := drawn + 1;
      r := Frac(hash);
    }
  }

  /** `Math.floor(r * n)` for a draw `r`: an index below `n`. */
  function ScaledIndex(r: real, n: nat): (j: int)
    requires 0.0 <= r < 1.0 && n > 0
    ensures 0 <= j < n
  {
    ScaledBelow(r, n);
    (r * n as real).Floor
  }

  lemma ScaledBelow(r: real, n: nat)
    requires 0.0 <= r < 1.0 && n > 0
    ensures 0.0 <= r * n as real < n as real
  {
    assert (1.0 - r) * n as real > 0.0;
  }

  // ---------------------------------------------------------------------
  // Fisher–Yates

  predicate Distinct<T(==)>(s: seq<T>) {
    forall i, j :: 0 <= i < j < |s| ==> s[i] != s[j]
  }

  /** `[s[i], s[j]] = [s[j], s[i]]`. */
  function Swap<T>(s: seq<T>, i: nat, j: nat): (t: seq<T>)
    requires i < |s| && j < |s|
    ensures |t| == |s| && t[i] == s[j] && t[j] == s[i]
    ensures forall k :: 0 <= k < |s| && k != i && k != j ==> t[k] == s[k]
  {
    s[i := s[j]][j := s[i]]
  }

  lemma SwapPermutes<T>(s: seq<T>, i: nat, j: nat)
    requires i < |s| && j < |s|
    ensures multiset(Swap(s, i, j)) == multiset(s)
  {
    var t := s[i := s[j]];
    assert multiset(t) == multiset(s) - multiset{s[i]} + multiset{s[j]};
    assert multiset(t[j := s[i]]) == multiset(t) - multiset{t[j]} + multiset{s[i]};
  }

  lemma SwapKeepsDistinct<T>(s: seq<T>, i: nat, j: nat)
    requires i < |s| && j < |s| && Distinct(s)
    ensures Distinct(Swap(s, i, j))
  {
    var t := Swap(s, i, j);
    forall a, b | 0 <= a < b < |t| ensures t[a] != t[b] {
      var a' := if a == i then j else if a == j then i else a;
      var b' := if b == i then j else if b == j then i else b;
      assert t[a] == s[a'] && t[b] == s[b'] && a' != b';
    }
  }

  /**
   * The result of the loop `for (i = n - 1; i > 0; i--) swap(i, floor(random() * (i + 1)))`
   * on `s` from index `i` down, when its next draw is number `k` of the stream.
   */
  function Shuffled<T>(s: seq<T>, i: int, step: real -> real, start: real, k: nat): seq<T>
    requires i < |s|
    decreases i
  {
    if i <= 0 then s
    else Shuffled(Swap(s, i, ScaledIndex(Draw(step, start, k), i + 1)), i - 1, step, start, k + 1)
  }

  /** The shuffle is a permutation of its input. */
  lemma {:induction false} ShuffledPermutes<T>(s: seq<T>, i: int, step: real -> real, start: real, k: nat)
    requires i < |s|
    ensures |Shuffled(s, i, step, start, k)| == |s|
    ensures multiset(Shuffled(s, i, step, start, k)) == multiset(s)
    decreases i
  {
    if i > 0 {
      var j := ScaledIndex(Draw(step, start, k), i + 1);
      SwapPermutes(s, i, j);
      ShuffledPermutes(Swap(s, i, j), i - 1, step, start, k + 1);
    }
  }

  /** A list without repetitions stays without repetitions. */
  lemma {:induction false} ShuffledKeepsDistinct<T>(s: seq<T>, i: int, step: real -> real, start: real, k: nat)
    requires i < |s| && Distinct(s)
    ensures Distinct(Shuffled(s, i, step, start, k))
    decreases i
  {
    if i > 0 {
      var j := ScaledIndex(Draw(step, start, k), i + 1);
      SwapKeepsDistinct(s, i, j);
      ShuffledKeepsDistinct(Swap(s, i, j), i - 1, step, start, k + 1);
    }
  }

  /** One turn of the loop: swap at `i` with the next draw, then continue below `i`. */
  lemma ShuffledStep<T>(s: seq<T>, i: int, step: real -> real, start: real, k: nat)
    requires 0 < i < |s|
    ensures Shuffled(s, i, step, start, k)
         == Shuffled(Swap(s, i, ScaledIndex(Draw(step, start, k), i + 1)), i - 1, step, start, k + 1)
  {
  }

  /**
   * One turn of the shuffle loop: `j = floor(random() * (i + 1))`, then swap
   * `i` and `j`; what is left of the shuffle is then the turns from `i - 1` on.
   */
  method DrawAndSwap<T>(a: array<T>, i: nat, random: SeededRandom)
    requires 0 < i < a.Length && random.Valid()
    modifies a, random
    ensures random.Valid() && random.drawn == old(random.drawn) + 1
    ensures a[..] == Swap(old(a[..]), i, ScaledIndex(Draw(random.step, random.start, old(random.drawn)), i + 1))
    ensures Shuffled(a[..], i - 1, random.step, random.start, random.drawn)
         == Shuffled(old(a[..]), i, random.step, random.start, old(random.drawn))
  {
    ShuffledStep(a[..], i, random.step, random.start, random.drawn);
    var r := random.Next();
    var j := ScaledIndex(r, i + 1);
    a[i], a[j] := a[j], a[i];
  }

  /** The in-place Fisher–Yates loop, drawing its indices from `random`. */
  method FisherYatesInPlace<T>(a: array<T>, random: SeededRandom)
    requires random.Valid()
    modifies a, random
    ensures random.Valid()
    ensures random.drawn == old(random.drawn) + (if a.Length > 1 then a.Length - 1 else 0)
    ensures a[..] == Shuffled(old(a[..]), a.Length - 1, random.step, random.start, old(random.drawn))
  {
    ghost var shuffled := Shuffled(a[..], a.Length - 1, random.step, random.start, random.drawn);
    var i := a.Length - 1;
    while i > 0
      invariant -1 <= i < a.Length
      invariant a.Length > 0 ==> i >= 0
      invariant random.Valid()
      invariant random.drawn == old(random.drawn) + (if a.Length > 0 then a.Length - 1 - i else 0)
      invariant Shuffled(a[..], i, random.step, random.start, random.drawn) == shuffled
    {
      DrawAndSwap(a, i, random);
      i := i - 1;
    }
  }

  /** `shuffleArray(array, seed)`: shuffle a copy; the input is left as it was. */
  method ShuffleArray<T>(input: array<T>, seed: string, step: real -> real) returns (result: array<T>)
    ensures fresh(result)
    ensures result[..] == Shuffled(input[..], input.Length - 1, step, StartOf(seed), 0)
    ensures multiset(result[..]) == multiset(input[..])
  {
    result := new T[input.Length](k requires 0 <= k < input.Length reads input => input[k]);
    assert result[..] == input[..];
    var random := new SeededRandom(seed, step);
    FisherYatesInPlace(result, random);
    ShuffledPermutes(input[..], input.Length - 1, step, StartOf(seed), 0);
  }

  // ---------------------------------------------------------------------
  // Room codes

  /** The code alphabet: upper-case letters and digits without I, O, 0 and 1. */
  const RoomCodeAlphabet: string := "ABCDEFGHJKLMNPQRSTUVWXYZ23456789"
  const RoomCodeLength: nat := 6

  predicate IsRoomCode(code: string) {
    |code| == RoomCodeLength && forall i :: 0 <= i < |code| ==> code[i] in RoomCodeAlphabet
  }

  /** 32 symbols, each an upper-case letter other than I and O or a digit from 2 to 9. */
  lemma RoomCodeAlphabetFacts()
    ensures |RoomCodeAlphabet| == 32
    ensures forall i :: 0 <= i < |RoomCodeAlphabet| ==>
              var c := RoomCodeAlphabet[i]; ('A' <= c <= 'Z' && c != 'I' && c != 'O') || '2' <= c <= '9'
  {
  }

  /** `generateRoomCode()`, with the six `Math.random()` values given as `draws`. */
  method GenerateRoomCode(draws: seq<real>) returns (code: string)
    requires |draws| >= RoomCodeLength
    requires forall k :: 0 <= k < |draws| ==> 0.0 <= draws[k] < 1.0
    ensures IsRoomCode(code)
    ensures forall k :: 0 <= k < RoomCodeLength ==>
              code[k] == RoomCodeAlphabet[ScaledIndex(draws[k], |RoomCodeAlphabet|)]
  {
    code := "";
    for i := 0 to RoomCodeLength
      invariant |code| == i
      invariant forall k :: 0 <= k < i ==> code[k] == RoomCodeAlphabet[ScaledIndex(draws[k], |RoomCodeAlphabet|)]
    {
      code := code + [RoomCodeAlphabet[ScaledIndex(draws[i], |RoomCodeAlphabet|)]];
    }
  }

  // ---------------------------------------------------------------------
  // The palette

  datatype PaletteEntry = PaletteEntry(name: string, cssClass: string, hsl: string)

  const PlayerColors: seq<PaletteEntry> := [
    PaletteEntry("Cyan", "player-1", "hsl(180, 100%, 50%)"),
    PaletteEntry("Pink", "player-2", "hsl(330, 100%, 60%)"),
    PaletteEntry("Green", "player-3", "hsl(150, 100%, 50%)"),
    PaletteEntry("Yellow", "player-4", "hsl(50, 100%, 55%)")
  ]

  lemma PlayerColorsFacts()
    ensures |PlayerColors| == 4
    ensures PlayerColors[0].name == "Cyan" && PlayerColors[0].hsl == FallbackColor
    ensures forall i, j :: 0 <= i < j < |PlayerColors| ==> PlayerColors[i].hsl != PlayerColors[j].hsl
  {
  }

  // ---------------------------------------------------------------------
  // formatTime

  /** JavaScript's `a % b` for `b > 0`: the remainder takes the sign of `a`. */
  function JsRemainder(a: int, b: int): (r: int)
    requires b > 0
    ensures a >= 0 ==> r == a % b
    ensures a < 0 ==> -b < r <= 0
  {
    if a >= 0 then a % b else -((-a) % b)
  }

  /** `n.toString().padStart(2, '0')`. */
  function Pad2(n: int): string {
    PadStart(IntToString(n), 2, '0')
  }

  /** `formatTime(ms)`: MM:SS.cc, each field zero-padded to two characters. */
  function FormatTime(ms: int): string {
    var totalSeconds := ms / 1000;            // Math.floor(ms / 1000)
    var minutes := totalSeconds / 60;         // Math.floor(totalSeconds / 60)
    var seconds := JsRemainder(totalSeconds, 60);
    var centis := JsRemainder(ms, 1000) / 10; // Math.floor((ms % 1000) / 10)
    Pad2(minutes) + ":" + Pad2(seconds) + "." + Pad2(centis)
  }

  /** A padded field below 100 is exactly two digits. */
  lemma Pad2Small(n: nat)
    requires n < 100
    ensures |Pad2(n)| == 2 && AllDigits(Pad2(n)) && DigitsValue(Pad2(n)) == n
  {
    PaddedValue(n, 2);
  }

  /** The three two-digit-or-longer fields of `m:s.c` read back from their positions. */
  lemma SplitDisplay(m: string, s: string, c: string)
    requires |m| >= 2 && |s| == 2 && |c| == 2
    requires AllDigits(m) && AllDigits(s) && AllDigits(c)
    ensures var t := m + ":" + s + "." + c;
      && |t| >= 8 && t[|t| - 6] == ':' && t[|t| - 3] == '.'
      && t[..|t| - 6] == m && t[|t| - 5..|t| - 3] == s && t[|t| - 2..] == c
  {
    var t := m + ":" + s + "." + c;
    assert t == (m + [':']) + (s + ['.']) + c;
    assert t[..|t| - 6] == m;
    assert t[|t| - 5..|t| - 3] == s;
    assert t[|t| - 2..] == c;
  }

  /** `t` has the shape `M:SS.cc` and its three fields read back as `m`, `s` and `c`. */
  predicate ReadsAs(t: string, m: nat, s: nat, c: nat) {
    && |t| >= 8 && t[|t| - 6] == ':' && t[|t| - 3] == '.'
    && AllDigits(t[..|t| - 6]) && AllDigits(t[|t| - 5..|t| - 3]) && AllDigits(t[|t| - 2..])
    && DigitsValue(t[..|t| - 6]) == m
    && DigitsValue(t[|t| - 5..|t| - 3]) == s
    && DigitsValue(t[|t| - 2..]) == c
  }

  /** The display of minutes `m`, seconds `s < 60` and hundredths `c < 100` reads back field by field. */
  lemma DisplayFields(m: nat, s: nat, c: nat)
    requires s < 60 && c < 100
    ensures ReadsAs(Pad2(m) + ":" + Pad2(s) + "." + Pad2(c), m, s, c)
  {
    PaddedValue(m, 2);
    Pad2Small(s);
    Pad2Small(c);
    SplitDisplay(Pad2(m), Pad2(s), Pad2(c));
  }

  /** For a non-negative time the JavaScript remainders are the mathematical ones. */
  lemma FormatTimeFields(ms: nat)
    ensures FormatTime(ms) == Pad2((ms / 1000) / 60) + ":" + Pad2((ms / 1000) % 60) + "." + Pad2((ms % 1000) / 10)
  {
  }

  /** The arithmetic behind the display: minutes, seconds and hundredths add up to the time. */
  lemma TimeDecomposition(ms: nat)
    ensures (ms / 1000) % 60 < 60 && (ms % 1000) / 10 < 100
    ensures ((ms / 1000) / 60) * 60000 + ((ms / 1000) % 60) * 1000 + ((ms % 1000) / 10) * 10 + ms % 10 == ms
  {
    var q := ms / 1000;
    var r := ms % 1000;
    assert ms == q * 1000 + r;
    assert q == (q / 60) * 60 + q % 60;
    assert r == (r / 10) * 10 + r % 10;
    assert r % 10 == ms % 10 by {
      assert ms == (q * 100) * 10 + r;
    }
  }

  /**
   * For a non-negative time, the display reads back as minutes, seconds below
   * 60 and hundredths below 100 that add up to the time, less its last digit.
   */
  lemma FormatTimeReadsBack(ms: int)
    requires ms >= 0
    ensures exists minutes: nat, seconds: nat, centis: nat ::
      && ReadsAs(FormatTime(ms), minutes, seconds, centis)
      && seconds < 60 && centis < 100
      && minutes * 60000 + seconds * 1000 + centis * 10 + ms % 10 == ms
  {
    var minutes, seconds, centis := (ms / 1000) / 60, (ms / 1000) % 60, (ms % 1000) / 10;
    TimeDecomposition(ms);
    FormatTimeFields(ms);
    DisplayFields(minutes, seconds, centis);
    assert ReadsAs(FormatTime(ms), minutes, seconds, centis);
  }

  // ---------------------------------------------------------------------
  // getGridDimensions

  datatype GridDims = GridDims(cols: int, rows: int)

  /** `getGridDimensions(totalNumbers)`: the square grid used for a number count. */
  function GetGridDimensions(totalNumbers: int): (d: GridDims)
    ensures d.cols == d.rows && 5 <= d.cols <= 10
    ensures totalNumbers <= 100 ==> d.cols * d.rows >= totalNumbers
    ensures d.cols > 5 ==> (d.cols - 1) * (d.rows - 1) < totalNumbers
  {
    if totalNumbers <= 25 then GridDims(5, 5)
    else if totalNumbers <= 36 then GridDims(6, 6)
    else if totalNumbers <= 49 then GridDims(7, 7)
    else if totalNumbers <= 64 then GridDims(8, 8)
    else if totalNumbers <= 81 then GridDims(9, 9)
    else GridDims(10, 10)
  }

  /** More numbers never give a smaller grid. */
  lemma GridDimensionsMonotone(a: int, b: int)
    requires a <= b
    ensures GetGridDimensions(a).cols <= GetGridDimensions(b).cols
  {
  }
}
