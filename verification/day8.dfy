/**
 * Day 8: treetop tree house. The input is a square grid of tree heights,
 * stored row by row in one flat sequence. Part 1 counts the trees visible
 * from outside the grid: four directional passes report the interior-edge
 * and interior trees that are taller than everything before them on their
 * line, and the four corners are added. Part 2 finds the highest scenic
 * score, the product of the four viewing distances of a tree, where viewing
 * distances are computed by jumping over trees already scored and memoised.
 */
module Day8 {
  import opened Common

  datatype Direction = Top | Bottom | Left | Right

  /** A line or a tree, tagged with the direction it is seen from. */
  datatype Location = FromTop(n: nat) | FromBottom(n: nat) | FromLeft(n: nat) | FromRight(n: nat) {
    function Dir(): Direction {
      match this
      case FromTop(_) => Top
      case FromBottom(_) => Bottom
      case FromLeft(_) => Left
      case FromRight(_) => Right
    }
  }

  /** `Location::from_direction`. */
  function FromDirection(dir: Direction, n: nat): (loc: Location)
    ensures loc.Dir() == dir && loc.n == n
  {
    match dir
    case Top => FromTop(n)
    case Bottom => FromBottom(n)
    case Left => FromLeft(n)
    case Right => FromRight(n)
  }

  /** Two locations are equal exactly when their directions and numbers are. */
  lemma {:induction false} FromDirectionInjective(dir1: Direction, n1: nat, dir2: Direction, n2: nat)
    ensures FromDirection(dir1, n1) == FromDirection(dir2, n2) <==> dir1 == dir2 && n1 == n2
  {
  }

  // ---------------------------------------------------------------------------
  // Grid geometry: index i is row i / d, column i % d of a d-by-d grid
  // ---------------------------------------------------------------------------

  /** How many trees lie beyond tree `i` in direction `dir`. */
  function Reach(d: nat, i: nat, dir: Direction): nat
    requires d > 0
  {
    match dir
    case Top => i / d
    case Bottom => if i / d < d then d - 1 - i / d else 0
    case Left => i % d
    case Right => d - 1 - i % d
  }

  /** The index `k` trees away from `i` in direction `dir`, as plain arithmetic. */
  function Offset(d: nat, i: nat, k: nat, dir: Direction): int {
    match dir
    case Top => i - d * k
    case Bottom => i + d * k
    case Left => i - k
    case Right => i + k
  }



  lemma {:induction false} BelowSquare(d: nat, q: nat, r: nat)
    requires q < d && r < d
    ensures q * d + r < d * d
  {
    MulMono(q, d - 1, d);
    assert (d - 1) * d == d * d - d;
  }

  lemma {:induction false} OffsetFacts(d: nat, i: nat, k: nat, dir: Direction)
    requires 0 < d && i < d * d && k <= Reach(d, i, dir)
    ensures 0 <= Offset(d, i, k, dir) < d * d
    ensures Reach(d, Offset(d, i, k, dir) as nat, dir) == Reach(d, i, dir) - k
  {
    match dir
    case Top => OffsetUp(d, i, k);
    case Bottom => OffsetDown(d, i, k);
    case Left => OffsetLeft(d, i, k);
    case Right => OffsetRight(d, i, k);
  }

  lemma {:induction false} OffsetUp(d: nat, i: nat, k: nat)
    requires 0 < d && i < d * d && k <= i / d
    ensures 0 <= i - d * k < d * d && (i - d * k) / d == i / d - k
  {
    GridCell(d, i);
    var back: int := -(k as int);
    StepRows(d, i, back);
    assert d * back == -(d * k);
  }

  lemma {:induction false} OffsetDown(d: nat, i: nat, k: nat)
    requires 0 < d && i < d * d && i / d < d && k <= d - 1 - i / d
    ensures 0 <= i + d * k < d * d && (i + d * k) / d == i / d + k
  {
    StepRows(d, i, k);
  }

  lemma {:induction false} OffsetLeft(d: nat, i: nat, k: nat)
    requires 0 < d && i < d * d && k <= i % d
    ensures 0 <= i - k < d * d && (i - k) % d == i % d - k
  {
    StepColumns(d, i, -(k as int));
  }

  lemma {:induction false} OffsetRight(d: nat, i: nat, k: nat)
    requires 0 < d && i < d * d && k <= d - 1 - i % d
    ensures 0 <= i + k < d * d && (i + k) % d == i % d + k
  {
    StepColumns(d, i, k);
  }

  /** Moving `k` whole rows keeps the column. */
  lemma {:induction false} StepRows(d: nat, i: nat, k: int)
    requires 0 < d && i < d * d
    requires 0 <= i / d + k < d
    ensures 0 <= i + d * k < d * d && (i + d * k) / d == i / d + k && (i + d * k) % d == i % d
  {
    GridCell(d, i);
    var q, r := i / d, i % d;
    Moved(d, i, q + k, r);
    assert i + d * k == (q + k) * d + r by {
      assert (q + k) * d == q * d + d * k;
    }
  }

  /** Moving `k` columns within the row keeps the row. */
  lemma {:induction false} StepColumns(d: nat, i: nat, k: int)
    requires 0 < d && i < d * d
    requires 0 <= i % d + k < d
    ensures 0 <= i + k < d * d && (i + k) / d == i / d && (i + k) % d == i % d + k
  {
    GridCell(d, i);
    var q, r := i / d, i % d;
    Moved(d, i, q, r + k);
  }

  /** Tree `i` lies in row `i / d`, which is inside the grid. */
  lemma {:induction false} GridCell(d: nat, i: nat)
    requires 0 < d && i < d * d
    ensures i == (i / d) * d + i % d && i / d < d
  {
    if i / d >= d {
      MulMono(d, i / d, d);
    }
  }

  /** The cell at row `q`, column `r`, as a flat index. */
  lemma {:induction false} Moved(d: nat, i: nat, q: int, r: int)
    requires 0 < d && 0 <= q < d && 0 <= r < d
    ensures 0 <= q * d + r < d * d && (q * d + r) / d == q && (q * d + r) % d == r
  {
    DivModUnique(q * d + r, d, q, r);
    BelowSquare(d, q, r);
  }

  /** The tree `k` trees away from `i` in direction `dir`, for `k` within reach. */
  function Pos(d: nat, i: nat, k: nat, dir: Direction): (p: nat)
    requires 0 < d && i < d * d && k <= Reach(d, i, dir)
    ensures p < d * d && Reach(d, p, dir) == Reach(d, i, dir) - k
  {
    OffsetFacts(d, i, k, dir);
    Offset(d, i, k, dir) as nat
  }

  /** Walking `k` trees and then `m` more is walking `k + m` trees. */
  lemma {:induction false} PosAdd(d: nat, i: nat, k: nat, m: nat, dir: Direction)
    requires 0 < d && i < d * d && k + m <= Reach(d, i, dir)
    ensures Pos(d, Pos(d, i, k, dir), m, dir) == Pos(d, i, k + m, dir)
  {
    assert d * (k + m) == d * k + d * m;
  }

  /**
   * `get_index_from_dir`: `checked_sub` going up, an unchecked add going
   * down, and left and right refused only when the start is on the first or
   * last column (a larger displacement would wrap to another row).
   */
  function GetIndexFromDir(d: nat, index: nat, displacement: nat, dir: Direction): (r: Option<nat>)
    requires d > 0
    ensures dir == Top ==> (r.None? <==> index < d * displacement)
    ensures dir == Bottom ==> r.Some?
    ensures dir == Left && index % d == 0 ==> r.None?
    ensures dir == Right && index % d == d - 1 ==> r.None?
  {
    match dir
    case Top => if index < d * displacement then None else Some(index - d * displacement)
    case Bottom => Some(index + d * displacement)
    case Left => if index % d == 0 then None else if index < displacement then None else Some(index - displacement)
    case Right => if index % d == d - 1 then None else Some(index + displacement)
  }

  /**
   * Within reach, `get_index_from_dir` finds the tree that many steps away;
   * with nothing beyond a tree, a step of one finds nothing in the grid.
   */
  lemma {:induction false} GetIndexOnRay(d: nat, index: nat, displacement: nat, dir: Direction)
    requires 0 < d && index < d * d
    ensures 1 <= displacement <= Reach(d, index, dir) ==>
      GetIndexFromDir(d, index, displacement, dir) == Some(Pos(d, index, displacement, dir))
    ensures Reach(d, index, dir) == 0 ==>
      GetIndexFromDir(d, index, 1, dir).None? || GetIndexFromDir(d, index, 1, dir).value >= d * d
  {
    if 1 <= displacement <= Reach(d, index, dir) {
      OffsetFacts(d, index, displacement, dir);
      if dir == Top {
        assert d * displacement <= index by {
          MulMono(displacement, index / d, d);
        }
      } else if dir == Left {
        assert index % d != 0;
      }
    }
    if Reach(d, index, dir) == 0 && dir == Bottom {
      var q, r := index / d, index % d;
      assert q >= d - 1;
      assert index + d == (q + 1) * d + r;
      MulMono(d, q + 1, d);
    }
    if Reach(d, index, dir) == 0 && dir == Top {
      assert index < d;
    }
  }

  // ---------------------------------------------------------------------------
  // Viewing distances
  // ---------------------------------------------------------------------------

  /** The first tree from step `k` on that is at least as tall as tree `i`, or the edge. */
  function Blocker(h: seq<nat>, d: nat, i: nat, dir: Direction, k: nat): (r: nat)
    requires 0 < d && |h| == d * d && i < d * d && 1 <= k
    ensures r <= Reach(d, i, dir)
    ensures k <= Reach(d, i, dir) ==> k <= r
    ensures forall m | k <= m < r :: h[Pos(d, i, m, dir)] < h[i]
    ensures 1 <= r < Reach(d, i, dir) ==> h[Pos(d, i, r, dir)] >= h[i]
    decreases Reach(d, i, dir) + 1 - k
  {
    if k > Reach(d, i, dir) then Reach(d, i, dir)
    else if h[Pos(d, i, k, dir)] >= h[i] then k
    else Blocker(h, d, i, dir, k + 1)
  }

  /**
   * The viewing distance of tree `i` towards `dir`: the trees up to and
   * including the first one at least as tall, or up to the edge.
   */
  function ViewingDistance(h: seq<nat>, d: nat, i: nat, dir: Direction): (v: nat)
    requires 0 < d && |h| == d * d && i < d * d
    ensures v <= Reach(d, i, dir) && (v == 0 <==> Reach(d, i, dir) == 0)
    ensures forall m | 1 <= m < v :: h[Pos(d, i, m, dir)] < h[i]
    ensures 1 <= v < Reach(d, i, dir) ==> h[Pos(d, i, v, dir)] >= h[i]
  {
    Blocker(h, d, i, dir, 1)
  }

  /** Every tree passed before the blocker is shorter; the view stops at the first tree at least as tall. */
  lemma {:induction false} ViewingDistanceIsFirstBlocker(h: seq<nat>, d: nat, i: nat, dir: Direction, v: nat)
    requires 0 < d && |h| == d * d && i < d * d && v <= Reach(d, i, dir)
    requires (forall m | 1 <= m < v :: h[Pos(d, i, m, dir)] < h[i])
    requires (v == 0 <==> Reach(d, i, dir) == 0)
    requires 1 <= v < Reach(d, i, dir) ==> h[Pos(d, i, v, dir)] >= h[i]
    ensures v == ViewingDistance(h, d, i, dir)
  {
  }

  /** The scenic score of tree `i`: the product of its four viewing distances. */
  function ScenicScore(h: seq<nat>, d: nat, i: nat): nat
    requires 0 < d && |h| == d * d && i < d * d
  {
    Product(ViewingDistance(h, d, i, Top), ViewingDistance(h, d, i, Bottom), ViewingDistance(h, d, i, Left), ViewingDistance(h, d, i, Right))
  }

  function Product(a: nat, b: nat, c: nat, e: nat): nat {
    a * b * c * e
  }

  /** A tree on the edge of the grid has scenic score 0. */
  lemma {:induction false} EdgeScoresZero(h: seq<nat>, d: nat, i: nat)
    requires 0 < d && |h| == d * d && i < d * d
    requires i / d == 0 || i / d == d - 1 || i % d == 0 || i % d == d - 1
    ensures ScenicScore(h, d, i) == 0
  {
    GridCell(d, i);
    var t, b, l, r := ViewingDistance(h, d, i, Top), ViewingDistance(h, d, i, Bottom), ViewingDistance(h, d, i, Left), ViewingDistance(h, d, i, Right);
    assert t == 0 || b == 0 || l == 0 || r == 0;
    ProductZero(t, b, l, r);
  }

  lemma {:induction false} ProductZero(a: nat, b: nat, c: nat, e: nat)
    requires a == 0 || b == 0 || c == 0 || e == 0
    ensures Product(a, b, c, e) == 0
  {
  }

  // ---------------------------------------------------------------------------
  // Visibility passes
  // ---------------------------------------------------------------------------

  const SUBTRACT_OVERFLOW := "attempt to subtract with overflow"
  const UNWRAP_NONE := "called `Option::unwrap()` on a `None` value"

  /**
   * The `t`-th index of the `i`-th run a pass visits: Top walks rows 0 to
   * d - 2 left to right, Bottom rows d - 1 to 1, Left columns 0 to d - 2
   * top to bottom, Right columns d - 1 to 1, each run skipping the corners.
   */
  function RunIndex(d: nat, dir: Direction, i: nat, t: nat): (index: nat)
    requires 2 <= d && i < d - 1 && t < d - 2
    ensures index < d * d && index !in Corners(d)
  {
    CornersAreCorners(d);
    var last: nat := d - 1 - i;
    match dir
    case Top => Cell(d, i, 1 + t)
    case Bottom => Cell(d, last, 1 + t)
    case Left => Cell(d, t + 1, i)
    case Right => Cell(d, t + 1, last)
  }

  /** The four corners, which no pass visits. */
  function Corners(d: nat): set<nat>
    requires d > 0
  {
    {0, d - 1, (d - 1) * d, (d - 1) * d + d - 1}
  }

  /** The flat index of row `q`, column `r`. */
  function Cell(d: nat, q: nat, r: nat): (index: nat)
    requires q < d && r < d
    ensures index < d * d && index / d == q && index % d == r
  {
    Moved(d, 0, q, r);
    q * d + r
  }

  /** The `i`-th run of a pass: a `(a..b).collect()` or `(a..b).step_by(d).collect()`. */
  function Run(d: nat, dir: Direction, i: nat): (run: seq<nat>)
    requires 2 <= d && i < d - 1
    ensures |run| == d - 2 && forall t | 0 <= t < |run| :: run[t] < d * d && run[t] !in Corners(d)
  {
    seq(d - 2, t requires 0 <= t < d - 2 => RunIndex(d, dir, i, t))
  }

  /** The first `n` runs of a pass, one after the other. */
  function Runs(d: nat, dir: Direction, n: nat): (order: seq<nat>)
    requires 2 <= d && n <= d - 1
    ensures forall k | 0 <= k < |order| :: order[k] < d * d && order[k] !in Corners(d)
  {
    if n == 0 then [] else Runs(d, dir, n - 1) + Run(d, dir, n - 1)
  }

  /** `indices_in_order`: the `d - 1` runs of a pass. */
  function Order(d: nat, dir: Direction): (order: seq<nat>)
    requires 2 <= d
    ensures forall k | 0 <= k < |order| :: order[k] < d * d && order[k] !in Corners(d)
  {
    Runs(d, dir, d - 1)
  }

  /** The building of `indices_in_order`, run after run. */
  method IndicesInOrder(d: nat, dir: Direction) returns (v: seq<nat>)
    requires 2 <= d
    ensures v == Order(d, dir)
  {
    var innerDim := d - 2;
    v := [];
    for i := 0 to innerDim + 1
      invariant v == Runs(d, dir, i)
    {
      v := v + Run(d, dir, i);
    }
  }

  /** The line a pass groups a tree in: its column going down or up, its row going across. */
  function LineOf(d: nat, dir: Direction, i: nat): nat
    requires d > 0
  {
    match dir
    case Top => i % d
    case Bottom => i % d
    case Left => i / d
    case Right => i / d
  }

  /** Every index visited so far on `line` holds a tree shorter than `x`. */
  predicate ShorterOnLine(h: seq<nat>, d: nat, dir: Direction, order: seq<nat>, line: nat, x: nat)
    requires d > 0 && forall k | 0 <= k < |order| :: order[k] < |h|
  {
    forall k | 0 <= k < |order| :: LineOf(d, dir, order[k]) == line ==> h[order[k]] < x
  }

  /**
   * The trees a pass reports: those that are the first on their line or
   * strictly taller than every tree before them on it.
   */
  function Reported(h: seq<nat>, d: nat, dir: Direction, order: seq<nat>): (visible: seq<nat>)
    requires d > 0 && forall k | 0 <= k < |order| :: order[k] < |h|
    ensures |visible| <= |order|
  {
    if |order| == 0 then []
    else
      var prefix, i := order[..|order| - 1], order[|order| - 1];
      Reported(h, d, dir, prefix) + (if ShorterOnLine(h, d, dir, prefix, LineOf(d, dir, i), h[i]) then [i] else [])
  }

  /** A tree is reported exactly when it is visited and is taller than all trees visited before it on its line. */
  lemma {:induction false} ReportedMembers(h: seq<nat>, d: nat, dir: Direction, order: seq<nat>, i: nat)
    requires d > 0 && forall k | 0 <= k < |order| :: order[k] < |h|
    ensures i in Reported(h, d, dir, order) <==>
      exists k | 0 <= k < |order| :: order[k] == i && ShorterOnLine(h, d, dir, order[..k], LineOf(d, dir, i), h[i])
  {
    if i in Reported(h, d, dir, order) {
      ReportedWitness(h, d, dir, order, i);
    }
    if exists k | 0 <= k < |order| :: order[k] == i && ShorterOnLine(h, d, dir, order[..k], LineOf(d, dir, i), h[i]) {
      var k :| 0 <= k < |order| && order[k] == i && ShorterOnLine(h, d, dir, order[..k], LineOf(d, dir, i), h[i]);
      ReportedAtWitness(h, d, dir, order, i, k);
    }
  }

  /** A reported tree was visited at some step where it was taller than every tree visited before it on its line. */
  lemma {:induction false} ReportedWitness(h: seq<nat>, d: nat, dir: Direction, order: seq<nat>, i: nat)
    requires d > 0 && forall k | 0 <= k < |order| :: order[k] < |h|
    requires i in Reported(h, d, dir, order)
    ensures exists k | 0 <= k < |order| :: order[k] == i && ShorterOnLine(h, d, dir, order[..k], LineOf(d, dir, i), h[i])
    decreases |order|
  {
    var prefix := order[..|order| - 1];
    if i in Reported(h, d, dir, prefix) {
      ReportedWitness(h, d, dir, prefix, i);
      var k :| 0 <= k < |prefix| && prefix[k] == i && ShorterOnLine(h, d, dir, prefix[..k], LineOf(d, dir, i), h[i]);
      assert order[..k] == prefix[..k];
    } else {
      assert order[..|order| - 1] == prefix;
    }
  }

  /** A tree visited at a step where it was taller than every earlier tree on its line is reported. */
  lemma {:induction false} ReportedAtWitness(h: seq<nat>, d: nat, dir: Direction, order: seq<nat>, i: nat, k: nat)
    requires d > 0 && forall j | 0 <= j < |order| :: order[j] < |h|
    requires k < |order| && order[k] == i && ShorterOnLine(h, d, dir, order[..k], LineOf(d, dir, i), h[i])
    ensures i in Reported(h, d, dir, order)
    decreases |order|
  {
    var prefix := order[..|order| - 1];
    if k < |prefix| {
      assert prefix[..k] == order[..k];
      ReportedAtWitness(h, d, dir, prefix, i, k);
    }
  }

  /** The tallest tree seen so far on each line, keyed as `max_heights` is. */
  function Maxima(h: seq<nat>, d: nat, dir: Direction, order: seq<nat>): map<Location, nat>
    requires d > 0 && forall k | 0 <= k < |order| :: order[k] < |h|
  {
    if |order| == 0 then map[]
    else
      var m, i := Maxima(h, d, dir, order[..|order| - 1]), order[|order| - 1];
      var loc := FromDirection(dir, LineOf(d, dir, i));
      if loc !in m || h[i] > m[loc] then m[loc := h[i]] else m
  }

  /** Comparing with the recorded maximum of a line is comparing with every tree visited on it. */
  lemma {:induction false} MaximaBound(h: seq<nat>, d: nat, dir: Direction, order: seq<nat>, line: nat, x: nat)
    requires d > 0 && forall k | 0 <= k < |order| :: order[k] < |h|
    ensures var m, loc := Maxima(h, d, dir, order), FromDirection(dir, line);
      ShorterOnLine(h, d, dir, order, line, x) <==> loc !in m || m[loc] < x
    decreases |order|
  {
    if |order| > 0 {
      var prefix, i := order[..|order| - 1], order[|order| - 1];
      MaximaBound(h, d, dir, prefix, line, x);
      FromDirectionInjective(dir, line, dir, LineOf(d, dir, i));
      assert forall k | 0 <= k < |prefix| :: prefix[k] == order[k];
    }
  }

  /** One step of a pass: report tree `i` and raise its line's maximum when it is the first or a new tallest. */
  method VisitTree(h: seq<nat>, d: nat, dir: Direction, prefix: seq<nat>, i: nat, visible: seq<nat>, maxHeights: map<Location, nat>)
    returns (visible': seq<nat>, maxHeights': map<Location, nat>)
    requires d > 0 && i < |h| && forall k | 0 <= k < |prefix| :: prefix[k] < |h|
    requires visible == Reported(h, d, dir, prefix) && maxHeights == Maxima(h, d, dir, prefix)
    ensures visible' == Reported(h, d, dir, prefix + [i]) && maxHeights' == Maxima(h, d, dir, prefix + [i])
  {
    var order := prefix + [i];
    assert order[..|order| - 1] == prefix && order[|order| - 1] == i;
    var loc := FromDirection(dir, LineOf(d, dir, i));
    MaximaBound(h, d, dir, prefix, LineOf(d, dir, i), h[i]);
    visible', maxHeights' := visible, maxHeights;
    if loc in maxHeights {
      if h[i] > maxHeights[loc] {
        maxHeights' := maxHeights[loc := h[i]];
        visible' := visible + [i];
      }
    } else {
      maxHeights' := maxHeights[loc := h[i]];
      visible' := visible + [i];
    }
  }

  /** The loop of `pass`: visit the trees in order, keeping the tallest tree seen on each line. */
  method VisitAll(h: seq<nat>, d: nat, dir: Direction, order: seq<nat>) returns (visibleIndices: seq<nat>)
    requires d > 0 && forall k | 0 <= k < |order| :: order[k] < |h|
    ensures visibleIndices == Reported(h, d, dir, order)
  {
    visibleIndices := [];
    var maxHeights: map<Location, nat> := map[];
    for k := 0 to |order|
      invariant visibleIndices == Reported(h, d, dir, order[..k])
      invariant maxHeights == Maxima(h, d, dir, order[..k])
    {
      assert order[..k + 1] == order[..k] + [order[k]];
      visibleIndices, maxHeights := VisitTree(h, d, dir, order[..k], order[k], visibleIndices, maxHeights);
    }
    assert order[..|order|] == order;
  }

  // ---------------------------------------------------------------------------
  // Jumping over scored trees
  // ---------------------------------------------------------------------------

  /** The first `k - 1` trees towards `dir` are all shorter than tree `i`, and the `k`-th is still in the grid. */
  predicate ShorterBefore(h: seq<nat>, d: nat, i: nat, dir: Direction, k: nat)
    requires 0 < d && |h| == d * d && i < d * d
  {
    1 <= k <= Reach(d, i, dir) && forall m | 1 <= m < k :: h[Pos(d, i, m, dir)] < h[i]
  }

  /**
   * The tree `k` steps away is shorter than tree `i`, as are all before it.
   * If that tree sees nothing, it is the last one and `i` sees exactly `k`
   * trees; otherwise jumping over its viewing distance lands on a tree that
   * is still within reach, with every tree passed shorter than tree `i`.
   */
  lemma {:induction false} JumpAhead(h: seq<nat>, d: nat, i: nat, dir: Direction, k: nat)
    requires 0 < d && |h| == d * d && i < d * d && ShorterBefore(h, d, i, dir, k)
    requires h[Pos(d, i, k, dir)] < h[i]
    ensures var c := Pos(d, i, k, dir); var disp := ViewingDistance(h, d, c, dir);
      (disp == 0 ==> ViewingDistance(h, d, i, dir) == k) &&
      (disp > 0 ==>
        ShorterBefore(h, d, i, dir, k + disp) &&
        GetIndexFromDir(d, c, disp, dir) == Some(Pos(d, i, k + disp, dir)))
  {
    var c := Pos(d, i, k, dir);
    var disp := ViewingDistance(h, d, c, dir);
    if disp == 0 {
      ViewingDistanceIsFirstBlocker(h, d, i, dir, k);
    } else {
      GetIndexOnRay(d, c, disp, dir);
      PosAdd(d, i, k, disp, dir);
      forall m | k < m < k + disp ensures h[Pos(d, i, m, dir)] < h[i] {
        PosAdd(d, i, k, m - k, dir);
      }
    }
  }

  /** The tree `k` steps away is the first one at least as tall as tree `i`: `i` sees exactly `k` trees. */
  lemma {:induction false} StopAt(h: seq<nat>, d: nat, i: nat, dir: Direction, k: nat)
    requires 0 < d && |h| == d * d && i < d * d && ShorterBefore(h, d, i, dir, k)
    requires h[Pos(d, i, k, dir)] >= h[i]
    ensures ViewingDistance(h, d, i, dir) == k
  {
    ViewingDistanceIsFirstBlocker(h, d, i, dir, k);
  }

  // ---------------------------------------------------------------------------
  // The tree patch
  // ---------------------------------------------------------------------------

  /** `TreePatch`: the heights row by row, the side length, and the memo of directional scores. */
  class TreePatch {
    const treeHeights: seq<nat>
    const dimension: nat
    var scenicScoreMemo: map<Location, nat>

    /** The grid is square and every memoised score is the viewing distance it stands for. */
    ghost predicate Valid()
      reads this
    {
      |treeHeights| == dimension * dimension &&
      forall loc | loc in scenicScoreMemo ::
        loc.n < dimension * dimension &&
        scenicScoreMemo[loc] == ViewingDistance(treeHeights, dimension, loc.n, loc.Dir())
    }

    /** `TreePatch::new`, with the side length the square root of the number of trees. */
    constructor (treeHeights: seq<nat>, dimension: nat)
      requires |treeHeights| == dimension * dimension
      ensures Valid()
      ensures this.treeHeights == treeHeights && this.dimension == dimension && scenicScoreMemo == map[]
    {
      this.treeHeights := treeHeights;
      this.dimension := dimension;
      scenicScoreMemo := map[];
    }

    /** `pass`: the trees the pass in direction `dir` reports; a side shorter than 2 underflows. */
    method Pass(dir: Direction) returns (r: Outcome<seq<nat>>)
      requires |treeHeights| == dimension * dimension
      ensures r.Panic? <==> dimension < 2
      ensures r.Panic? ==> r.reason == SUBTRACT_OVERFLOW
      ensures r.Ok? ==> r.value == Reported(treeHeights, dimension, dir, Order(dimension, dir))
    {
      if dimension < 2 {
        return Panic(SUBTRACT_OVERFLOW);
      }
      var indicesInOrder := IndicesInOrder(dimension, dir);
      var visibleIndices := VisitAll(treeHeights, dimension, dir, indicesInOrder);
      r := Ok(visibleIndices);
    }

    /**
     * `get_scenic_score_from_dir`: the viewing distance of tree `index`
     * towards `dir`, read from the memo when present; otherwise found by
     * stepping to the neighbour and, while the tree reached is shorter,
     * jumping over its own (recursively computed) viewing distance, and then
     * memoised.
     */
    method ScenicScoreFromDir(index: nat, dir: Direction) returns (score: nat)
      requires Valid() && index < dimension * dimension
      modifies this
      ensures Valid()
      ensures score == ViewingDistance(treeHeights, dimension, index, dir)
      ensures FromDirection(dir, index) in old(scenicScoreMemo) ==> score == old(scenicScoreMemo)[FromDirection(dir, index)]
      ensures FromDirection(dir, index) in scenicScoreMemo && scenicScoreMemo[FromDirection(dir, index)] == score
      decreases Reach(dimension, index, dir), 1
    {
      var d, h := dimension, treeHeights;
      var loc := FromDirection(dir, index);
      if loc in scenicScoreMemo {
        return scenicScoreMemo[loc];
      }
      var height := h[index];
      var reach := Reach(d, index, dir);
      GetIndexOnRay(d, index, 1, dir);
      var comparisonIndex := GetIndexFromDir(d, index, 1, dir);
      score := 0;
      var initialAdd := false;
      ghost var k: nat := 1;
      while true
        invariant Valid()
        invariant reach == 0 ==>
          k == 1 && score == 0 && !initialAdd && (comparisonIndex.None? || comparisonIndex.value >= d * d)
        invariant reach > 0 ==>
          ShorterBefore(h, d, index, dir, k) && score == k - 1 && initialAdd == (k > 1) &&
          comparisonIndex == Some(Pos(d, index, k, dir))
        decreases reach + 1 - k
      {
        var cnt, toAdd, seen;
        cnt, toAdd, comparisonIndex, seen := LookAt(index, dir, comparisonIndex, k);
        initialAdd := initialAdd || seen;
        score := score + toAdd;
        if !cnt || toAdd == 0 {
          break;
        }
        k := k + toAdd;
      }
      score := score + if initialAdd then 1 else 0;
      assert score == ViewingDistance(h, d, index, dir);
      Memoise(loc, score);
    }

    /** `scenic_score_memo.insert`, with a score that is the viewing distance it stands for. */
    method Memoise(loc: Location, score: nat)
      requires Valid() && loc.n < dimension * dimension
      requires score == ViewingDistance(treeHeights, dimension, loc.n, loc.Dir())
      modifies this
      ensures Valid() && scenicScoreMemo == old(scenicScoreMemo)[loc := score]
    {
      scenicScoreMemo := scenicScoreMemo[loc := score];
    }

    /**
     * One turn of the loop of `get_scenic_score_from_dir`: look at the tree
     * at `comparisonIndex` (`k` steps from `index`); if it is shorter, jump
     * over its viewing distance and go on (`cnt`), adding that distance.
     * `seen` says whether a tree was there at all (`initial_add`).
     */
    method LookAt(index: nat, dir: Direction, comparisonIndex: Option<nat>, ghost k: nat)
      returns (cnt: bool, toAdd: nat, next: Option<nat>, seen: bool)
      requires Valid() && index < dimension * dimension
      requires Reach(dimension, index, dir) == 0 ==>
        comparisonIndex.None? || comparisonIndex.value >= dimension * dimension
      requires Reach(dimension, index, dir) > 0 ==>
        ShorterBefore(treeHeights, dimension, index, dir, k) && comparisonIndex == Some(Pos(dimension, index, k, dir))
      modifies this
      ensures Valid()
      ensures !cnt ==> toAdd == 0
      ensures Reach(dimension, index, dir) == 0 ==> !seen && !cnt
      ensures Reach(dimension, index, dir) > 0 ==> seen
      ensures Reach(dimension, index, dir) > 0 && cnt && toAdd > 0 ==>
        ShorterBefore(treeHeights, dimension, index, dir, k + toAdd) && next == Some(Pos(dimension, index, k + toAdd, dir))
      ensures Reach(dimension, index, dir) > 0 && (!cnt || toAdd == 0) ==>
        ViewingDistance(treeHeights, dimension, index, dir) == k
      decreases Reach(dimension, index, dir), 0
    {
      var d, h := dimension, treeHeights;
      next := comparisonIndex;
      var comparisonHeight: Option<nat> := None;
      if comparisonIndex.Some? && comparisonIndex.value < |h| {
        comparisonHeight := Some(h[comparisonIndex.value]);
      }
      cnt, toAdd, seen := false, 0, false;
      // A height is only found at an index, so `comparison_index` is never `None` here.
      if comparisonHeight.Some? {
        seen := true;
        if h[index] > comparisonHeight.value {
          var c := comparisonIndex.value;
          JumpAhead(h, d, index, dir, k);
          var disp := ScenicScoreFromDir(c, dir);
          next := GetIndexFromDir(d, c, disp, dir);
          cnt := true;
          toAdd := disp;
        } else {
          StopAt(h, d, index, dir, k);
        }
      }
    }

    /** `get_scenic_score`: the product of the four directional scores, Top, Bottom, Left, Right. */
    method ScenicScoreAt(index: nat) returns (score: nat)
      requires Valid() && index < dimension * dimension
      modifies this
      ensures Valid() && score == ScenicScore(treeHeights, dimension, index)
    {
      var top := ScenicScoreFromDir(index, Top);
      var bottom := ScenicScoreFromDir(index, Bottom);
      var left := ScenicScoreFromDir(index, Left);
      var right := ScenicScoreFromDir(index, Right);
      score := Product(top, bottom, left, right);
    }

    /** `get_highest_scenic_score`: the first index with the strictly largest score, and that score. */
    method HighestScenicScore() returns (index: nat, highestScenicScore: nat)
      requires Valid()
      modifies this
      ensures Valid()
      ensures (index, highestScenicScore) == Best(Scores(treeHeights, dimension), |treeHeights|)
    {
      highestScenicScore, index := 0, 0;
      for i := 0 to |treeHeights|
        invariant Valid()
        invariant (index, highestScenicScore) == Best(Scores(treeHeights, dimension), i)
      {
        var scenicScore := ScenicScoreAt(i);
        if scenicScore > highestScenicScore {
          highestScenicScore := scenicScore;
          index := i;
        }
      }
    }

    /** `get_visible_trees`: every tree some pass reports; the first pass panics on a side shorter than 2. */
    method VisibleTrees() returns (r: Outcome<set<nat>>)
      requires |treeHeights| == dimension * dimension
      ensures r.Panic? <==> dimension < 2
      ensures r.Panic? ==> r.reason == SUBTRACT_OVERFLOW
      ensures r.Ok? ==> dimension >= 2 && r.value == VisibleSet(treeHeights, dimension)
    {
      // Only the first pass can panic: the later ones see the same side length.
      var top :- Pass(Top);
      var bottom := Pass(Bottom);
      var left := Pass(Left);
      var right := Pass(Right);
      var visibleTreeIndices: set<nat> := {};
      visibleTreeIndices := InsertAll(visibleTreeIndices, top);
      visibleTreeIndices := InsertAll(visibleTreeIndices, bottom.value);
      visibleTreeIndices := InsertAll(visibleTreeIndices, left.value);
      visibleTreeIndices := InsertAll(visibleTreeIndices, right.value);
      r := Ok(visibleTreeIndices);
    }
  }

  // ---------------------------------------------------------------------------
  // Results
  // ---------------------------------------------------------------------------

  /** `visible_tree_indices.insert(*i)` for every index of a pass. */
  method InsertAll(visible: set<nat>, indices: seq<nat>) returns (visible': set<nat>)
    ensures visible' == visible + Elems(indices)
  {
    visible' := visible;
    for k := 0 to |indices|
      invariant visible' == visible + Elems(indices[..k])
    {
      assert indices[..k + 1][..k] == indices[..k];
      visible' := visible' + {indices[k]};
    }
    assert indices[..|indices|] == indices;
  }

  /** The trees reported by any of the four passes. */
  function VisibleSet(h: seq<nat>, d: nat): set<nat>
    requires 2 <= d && |h| == d * d
  {
    Elems(Reported(h, d, Top, Order(d, Top))) + Elems(Reported(h, d, Bottom, Order(d, Bottom))) +
    Elems(Reported(h, d, Left, Order(d, Left))) + Elems(Reported(h, d, Right, Order(d, Right)))
  }

  /** The scenic score of every tree, in index order. */
  function Scores(h: seq<nat>, d: nat): (scores: seq<nat>)
    requires |h| == d * d
    ensures |scores| == |h| && forall i | 0 <= i < |h| :: scores[i] == ScenicScore(h, d, i)
  {
    seq(|h|, i requires 0 <= i < |h| => ScenicScore(h, d, i))
  }

  /**
   * The best of the first `n` scores, as `get_highest_scenic_score` keeps it:
   * a later tree replaces the best only when its score is strictly larger.
   */
  function Best(scores: seq<nat>, n: nat): (best: (nat, nat))
    requires n <= |scores|
  {
    if n == 0 then (0, 0)
    else
      var best := Best(scores, n - 1);
      if scores[n - 1] > best.1 then (n - 1, scores[n - 1]) else best
  }

  /** No score among the first `n` exceeds the best one. */
  lemma {:induction false} BestIsMaximum(scores: seq<nat>, n: nat)
    requires n <= |scores|
    ensures forall j | 0 <= j < n :: scores[j] <= Best(scores, n).1
  {
    if n > 0 {
      BestIsMaximum(scores, n - 1);
    }
  }

  /** A positive best score is the score of the first index that has it; a zero best is reported at index 0. */
  lemma {:induction false} BestIsFirst(scores: seq<nat>, n: nat)
    requires n <= |scores|
    ensures Best(scores, n).1 > 0 ==>
      Best(scores, n).0 < n && scores[Best(scores, n).0] == Best(scores, n).1 &&
      forall j | 0 <= j < Best(scores, n).0 :: scores[j] < Best(scores, n).1
    ensures Best(scores, n).1 == 0 ==> Best(scores, n).0 == 0
  {
    if n > 0 {
      BestIsFirst(scores, n - 1);
      BestIsMaximum(scores, n - 1);
    }
  }

  /** The trees every pass reports lie in the grid and are not corners, so at most `d * d - 4` are visible. */
  lemma {:induction false} VisibleSetBound(h: seq<nat>, d: nat)
    requires 2 <= d && |h| == d * d
    ensures |VisibleSet(h, d)| + 4 <= d * d
  {
    var inner := Below(d * d) - Corners(d);
    forall dir: Direction ensures Elems(Reported(h, d, dir, Order(d, dir))) <= inner {
      ReportedSubset(h, d, dir, Order(d, dir));
      OrderInGrid(d, dir);
    }
    CornersAreCorners(d);
    CornersCount(d);
    assert Corners(d) <= Below(d * d);
    assert |inner| == d * d - 4;
    SubsetCard(VisibleSet(h, d), inner);
  }

  /** A pass reports only trees it visits. */
  lemma {:induction false} ReportedSubset(h: seq<nat>, d: nat, dir: Direction, order: seq<nat>)
    requires d > 0 && forall k | 0 <= k < |order| :: order[k] < |h|
    ensures Elems(Reported(h, d, dir, order)) <= Elems(order)
    decreases |order|
  {
    if |order| > 0 {
      var prefix, i := order[..|order| - 1], order[|order| - 1];
      ReportedSubset(h, d, dir, prefix);
      var earlier := Reported(h, d, dir, prefix);
      assert Elems(order) == Elems(prefix) + {i};
      if ShorterOnLine(h, d, dir, prefix, LineOf(d, dir, i), h[i]) {
        assert (earlier + [i])[..|earlier|] == earlier;
        assert Elems(earlier + [i]) == Elems(earlier) + {i};
      } else {
        assert earlier + [] == earlier;
      }
    }
  }

  /** A pass visits only trees of the grid that are not corners. */
  lemma {:induction false} OrderInGrid(d: nat, dir: Direction)
    requires 2 <= d
    ensures Elems(Order(d, dir)) <= Below(d * d) - Corners(d)
  {
    var order := Order(d, dir);
    forall i | i in Elems(order) ensures i in Below(d * d) - Corners(d) {
      InElems(order, i);
    }
  }

  /** The corners lie in the grid, each in the first or last row and the first or last column. */
  lemma {:induction false} CornersAreCorners(d: nat)
    requires 2 <= d
    ensures forall i | i in Corners(d) :: i < d * d && (i / d == 0 || i / d == d - 1) && (i % d == 0 || i % d == d - 1)
  {
    Moved(d, 0, 0, 0);
    Moved(d, 0, 0, d - 1);
    Moved(d, 0, d - 1, 0);
    Moved(d, 0, d - 1, d - 1);
  }

  /** The four corners of a grid with side at least 2 are different. */
  lemma {:induction false} CornersCount(d: nat)
    requires 2 <= d
    ensures |Corners(d)| == 4
  {
    MulMono(1, d - 1, d);
  }

  /** The indices below `n`. */
  function Below(n: nat): (s: set<nat>)
    ensures |s| == n && forall i :: i in s <==> 0 <= i < n
  {
    if n == 0 then {}
    else
      var s := Below(n - 1);
      assert n - 1 !in s;
      s + {n - 1}
  }

  lemma {:induction false} SubsetCard<T>(a: set<T>, b: set<T>)
    requires a <= b
    ensures |a| <= |b|
  {
    assert b == a + (b - a);
  }

  /** `to_digit(10).unwrap()` of every character, in order. */
  function Digits(s: string): (r: Outcome<seq<nat>>)
    ensures r.Panic? <==> !AllDigits(s)
    ensures r.Panic? ==> r.reason == UNWRAP_NONE
    ensures r.Ok? ==> |r.value| == |s| && forall k | 0 <= k < |s| :: r.value[k] == DigitValue(s[k])
  {
    if |s| == 0 then Ok([])
    else if !IsDigit(s[|s| - 1]) then
      Panic(UNWRAP_NONE)
    else
      var init :- Digits(s[..|s| - 1]);
      Ok(init + [DigitValue(s[|s| - 1])])
  }


  /** Joining `n` lines of `d` characters with nothing between them gives `n * d` characters. */
  lemma {:induction false} JoinedLength(lines: seq<string>, d: nat)
    requires forall k | 0 <= k < |lines| :: |lines[k]| == d
    ensures |Join(lines, "")| == |lines| * d
    decreases |lines|
  {
    if |lines| > 1 {
      JoinedLength(lines[1..], d);
      assert |lines| * d == d + (|lines| - 1) * d;
    }
  }

  /**
   * The tree heights: every line joined into one text, one digit per tree,
   * read row by row into a square of side `d`, however the lines break it up.
   */
  function Heights(lines: seq<string>, d: nat): (r: Outcome<seq<nat>>)
    requires |Join(lines, "")| == d * d
    ensures r.Ok? ==> |r.value| == d * d
  {
    Digits(Join(lines, ""))
  }

  /** How the text is broken into lines does not matter: the heights are those of the one joined line. */
  lemma HeightsOfJoinedLine(lines: seq<string>, d: nat)
    requires |Join(lines, "")| == d * d
    ensures |Join([Join(lines, "")], "")| == d * d
    ensures Heights([Join(lines, "")], d) == Heights(lines, d)
  {
  }

  /** `part1`: the visible trees the passes find, plus the four corners. */
  function Part1Of(lines: seq<string>, d: nat): Outcome<nat>
    requires |Join(lines, "")| == d * d
  {
    var h :- Heights(lines, d);
    if d < 2 then Panic(SUBTRACT_OVERFLOW) else Ok(|VisibleSet(h, d)| + 4)
  }

  /** `part2`: the highest scenic score. */
  function Part2Of(lines: seq<string>, d: nat): Outcome<nat>
    requires |Join(lines, "")| == d * d
  {
    var h :- Heights(lines, d);
    Ok(Best(Scores(h, d), |h|).1)
  }

  /** `part1` never counts more trees than the grid holds. */
  lemma {:induction false} Part1AtMostAllTrees(lines: seq<string>, d: nat)
    requires |Join(lines, "")| == d * d
    ensures Part1Of(lines, d).Ok? ==> Part1Of(lines, d).value <= d * d
  {
    var h := Heights(lines, d);
    if h.Ok? && d >= 2 {
      VisibleSetBound(h.value, d);
    }
  }

  /** `part2` is the largest scenic score of any tree, and some tree has it (or it is 0). */
  lemma {:induction false} Part2IsMaximum(lines: seq<string>, d: nat)
    requires |Join(lines, "")| == d * d
    ensures Part2Of(lines, d).Ok? ==>
      var h := Heights(lines, d).value;
      (forall j | 0 <= j < d * d :: ScenicScore(h, d, j) <= Part2Of(lines, d).value) &&
      (Part2Of(lines, d).value == 0 || exists j | 0 <= j < d * d :: ScenicScore(h, d, j) == Part2Of(lines, d).value)
  {
    var h := Heights(lines, d);
    if h.Ok? {
      var scores := Scores(h.value, d);
      BestIsMaximum(scores, d * d);
      BestIsFirst(scores, d * d);
      var best := Best(scores, d * d);
      assert Part2Of(lines, d).value == best.1;
      if best.1 > 0 {
        assert ScenicScore(h.value, d, best.0) == best.1;
      }
    }
  }

  method Part1(lines: seq<string>, d: nat) returns (r: Outcome<nat>)
    requires |Join(lines, "")| == d * d
    ensures r.Ok? == Part1Of(lines, d).Ok?
    ensures r.Ok? ==> r.value == Part1Of(lines, d).value
    ensures r.Panic? ==> r.reason == Part1Of(lines, d).reason
  {
    var treeHeights :- Heights(lines, d);
    var treePatch := new TreePatch(treeHeights, d);
    var visibleTreeIndices :- treePatch.VisibleTrees();
    r := Ok(|visibleTreeIndices| + 4);
  }

  method Part2(lines: seq<string>, d: nat) returns (r: Outcome<nat>)
    requires |Join(lines, "")| == d * d
    ensures r.Ok? == Part2Of(lines, d).Ok?
    ensures r.Ok? ==> r.value == Part2Of(lines, d).value
    ensures r.Panic? ==> r.reason == Part2Of(lines, d).reason
  {
    var treeHeights :- Heights(lines, d);
    var treePatch := new TreePatch(treeHeights, d);
    var _, score := treePatch.HighestScenicScore();
    r := Ok(score);
  }
}
