/**
 * Day 9: rope bridge. A rope of knots moves one unit step at a time: the
 * head moves in the given direction, and every later knot follows the knot
 * before it when they no longer touch. Part 1 uses 2 knots, part 2 uses 10;
 * the answer is the number of distinct positions the last knot visits.
 */
module Day9 {
  import opened Common

  datatype Direction = Up | Down | Left | Right

  const TOO_FAR := "Tail is too far from head, something is wrong"

  /** `Direction::from`: one of "R", "L", "U", "D". */
  function DirectionFrom(s: string): Outcome<Direction> {
    if s == "R" then Ok(Right)
    else if s == "L" then Ok(Left)
    else if s == "U" then Ok(Up)
    else if s == "D" then Ok(Down)
    else Panic("WHAT DIRECTION IS THAT")
  }

  /** A knot position (`i32` coordinates in the source). */
  datatype Coordinates = Coordinates(x: int, y: int) {
    /** `distance_to`: the offset from this position to `coord`. */
    function DistanceTo(coord: Coordinates): Coordinates {
      Coordinates(coord.x - x, coord.y - y)
    }

    /** `update`: this position moved by the offset `coord`. */
    function Update(coord: Coordinates): Coordinates {
      Coordinates(x + coord.x, y + coord.y)
    }

    /** `max_mag`: the larger of the two absolute components. */
    function MaxMag(): (m: nat)
      ensures m == Abs(x) || m == Abs(y)
      ensures Abs(x) <= m && Abs(y) <= m
    {
      var absX := Abs(x);
      var absY := Abs(y);
      if absX > absY then absX else absY
    }
  }

  function Abs(n: int): nat {
    if n < 0 then -n else n
  }

  const Origin := Coordinates(0, 0)

  /** Two positions touch (overlap or are adjacent, diagonals included) when they are at most `d` apart in each coordinate. */
  predicate Within(a: Coordinates, b: Coordinates, d: nat) {
    Abs(a.x - b.x) <= d && Abs(a.y - b.y) <= d
  }

  /** The unit offset of `move_head` for a direction. */
  function HeadStep(dir: Direction): (c: Coordinates)
    ensures Abs(c.x) + Abs(c.y) == 1
  {
    match dir
    case Up => Coordinates(0, 1)
    case Down => Coordinates(0, -1)
    case Left => Coordinates(-1, 0)
    case Right => Coordinates(1, 0)
  }

  function Sign(n: int): int {
    if n > 0 then 1 else if n < 0 then -1 else 0
  }

  /**
   * Where `move_knot` puts `knot` given the knot before it: nowhere new while
   * they touch, one step towards it (diagonally if need be) when it is two
   * away, and a panic when it is further.
   */
  function Follow(previous: Coordinates, knot: Coordinates): (r: Outcome<Coordinates>)
    ensures r.Ok? <==> Within(previous, knot, 2)
    ensures Within(previous, knot, 1) ==> r == Ok(knot)
    ensures r.Ok? ==> Within(previous, r.value, 1) && Within(knot, r.value, 1)
  {
    var dist := knot.DistanceTo(previous);
    var m := dist.MaxMag();
    if m <= 1 then Ok(knot)
    else if m == 2 then Ok(knot.Update(Coordinates(Sign(dist.x), Sign(dist.y))))
    else Panic(TOO_FAR)
  }

  /** Every knot touches the knot before it. */
  predicate Taut(knots: seq<Coordinates>) {
    forall i | 0 < i < |knots| :: Within(knots[i - 1], knots[i], 1)
  }

  /** The loop of `motion` from knot `index` on, each knot following the one before it. */
  function FollowFrom(knots: seq<Coordinates>, index: nat): (r: Outcome<seq<Coordinates>>)
    requires 0 < index
    ensures r.Ok? ==> |r.value| == |knots|
    ensures r.Panic? ==> r.reason == TOO_FAR
    decreases |knots| - index
  {
    if index >= |knots| then Ok(knots)
    else
      var k :- Follow(knots[index - 1], knots[index]);
      FollowFrom(knots[index := k], index + 1)
  }

  /** `motion`: move the head one unit, then let every other knot follow in turn. */
  function Moved(knots: seq<Coordinates>, dir: Direction): (r: Outcome<seq<Coordinates>>)
    requires |knots| > 0
    ensures r.Ok? ==> |r.value| == |knots|
    ensures r.Panic? ==> r.reason == TOO_FAR
  {
    FollowFrom(knots[0 := knots[0].Update(HeadStep(dir))], 1)
  }

  /**
   * While the knots before `index` touch their predecessors, knot `index` is
   * at most two away from its predecessor and the knots after it touch
   * theirs, following succeeds and leaves a taut rope.
   */
  lemma {:induction false} FollowFromKeepsTaut(knots: seq<Coordinates>, index: nat)
    requires 0 < index
    requires forall i | 0 < i < |knots| && i != index :: Within(knots[i - 1], knots[i], 1)
    requires index < |knots| ==> Within(knots[index - 1], knots[index], 2)
    ensures FollowFrom(knots, index).Ok? && Taut(FollowFrom(knots, index).value)
    decreases |knots| - index
  {
    if index < |knots| {
      var k := Follow(knots[index - 1], knots[index]).value;
      var next := knots[index := k];
      if index + 1 < |knots| {
        assert Within(knots[index], knots[index + 1], 1);
        assert Within(next[index], next[index + 1], 2);
      }
      FollowFromKeepsTaut(next, index + 1);
    }
  }

  /** A taut rope stays taut after a motion, so `move_knot` never panics. */
  lemma {:induction false} MotionKeepsTaut(knots: seq<Coordinates>, dir: Direction)
    requires |knots| > 0 && Taut(knots)
    ensures Moved(knots, dir).Ok? && Taut(Moved(knots, dir).value)
  {
    var moved := knots[0 := knots[0].Update(HeadStep(dir))];
    if 1 < |knots| {
      assert Within(knots[0], knots[1], 1);
    }
    FollowFromKeepsTaut(moved, 1);
  }

  /** A rope: its knots, head first, moved in place. */
  class Rope {
    var knots: seq<Coordinates>

    /** `Rope::new`: `size` knots, all at the origin. */
    constructor (size: nat)
      ensures |knots| == size
      ensures forall i | 0 <= i < size :: knots[i] == Origin
    {
      var v: seq<Coordinates> := [];
      for i := 0 to size
        invariant |v| == i
        invariant forall j | 0 <= j < i :: v[j] == Origin
      {
        v := v + [Origin];
      }
      knots := v;
    }

    /** `move_head`: knot 0 takes one unit step. */
    method MoveHead(dir: Direction)
      requires |knots| > 0
      modifies this
      ensures knots == old(knots)[0 := old(knots)[0].Update(HeadStep(dir))]
    {
      knots := knots[0 := knots[0].Update(HeadStep(dir))];
    }

    /** `move_knot`: knot `index` follows knot `index - 1`. */
    method MoveKnot(index: nat) returns (r: Outcome<()>)
      requires 0 < index < |knots|
      modifies this
      ensures |knots| == |old(knots)|
      ensures r.Ok? == Follow(old(knots)[index - 1], old(knots)[index]).Ok?
      ensures r.Ok? ==> knots == old(knots)[index := Follow(old(knots)[index - 1], old(knots)[index]).value]
      ensures r.Panic? ==> r.reason == TOO_FAR
    {
      var previousKnot := knots[index - 1];
      var dist := knots[index].DistanceTo(previousKnot);
      var update := Coordinates(0, 0);
      var m := dist.MaxMag();
      if m == 2 {
        var xMove := 0;
        if dist.x > 0 {
          xMove := 1;
        } else if dist.x < 0 {
          xMove := -1;
        }
        var yMove := 0;
        if dist.y > 0 {
          yMove := 1;
        } else if dist.y < 0 {
          yMove := -1;
        }
        update := Coordinates(xMove, yMove);
      } else if m > 2 {
        return Panic(TOO_FAR);
      }
      knots := knots[index := knots[index].Update(update)];
      return Ok(());
    }

    /** `motion`: the head moves, then knots 1, 2, ... follow in turn. */
    method Motion(dir: Direction) returns (r: Outcome<()>)
      requires |knots| > 0
      modifies this
      ensures |knots| == |old(knots)|
      ensures r.Ok? == Moved(old(knots), dir).Ok?
      ensures r.Ok? ==> knots == Moved(old(knots), dir).value
      ensures r.Panic? ==> r.reason == TOO_FAR
    {
      MoveHead(dir);
      var index := 1;
      while index < |knots|
        invariant 1 <= index <= |knots| && |knots| == |old(knots)|
        invariant Moved(old(knots), dir) == FollowFrom(knots, index)
        decreases |knots| - index
      {
        r := MoveKnot(index);
        if r.Panic? {
          return;
        }
        index := index + 1;
      }
      return Ok(());
    }
  }

  // ---------------------------------------------------------------------------
  // The whole input
  // ---------------------------------------------------------------------------

  /** The rope and the positions the last knot took after each unit step so far. */
  datatype Trail = Trail(knots: seq<Coordinates>, tails: seq<Coordinates>)

  /** `amt` unit steps in the direction named `dir`, recording the last knot after each. */
  function Repeat(t: Trail, dir: string, amt: nat): (r: Outcome<Trail>)
    requires |t.knots| > 0
    ensures r.Ok? ==> |r.value.knots| == |t.knots|
    decreases amt
  {
    if amt == 0 then Ok(t)
    else
      var prev :- Repeat(t, dir, amt - 1);
      UnitStep(prev, dir)
  }

  /** One unit step of the rope, then the last knot's position recorded. */
  function UnitStep(t: Trail, dir: string): (r: Outcome<Trail>)
    requires |t.knots| > 0
    ensures r.Ok? ==> |r.value.knots| == |t.knots|
  {
    var d :- DirectionFrom(dir);
    var knots :- Moved(t.knots, d);
    Ok(Trail(knots, t.tails + [knots[|knots| - 1]]))
  }

  /** One line "D n": split at ' ', parse `n` as a `u32`, then take `n` steps. */
  function LineStep(t: Trail, line: string): (r: Outcome<Trail>)
    requires |t.knots| > 0
    ensures r.Ok? ==> |r.value.knots| == |t.knots|
  {
    var splits := Split(line, " ");
    if |splits| < 2 then Panic("index out of bounds")
    else match ParseUnsigned(splits[1], U32_MAX)
      case None => Panic("called `Result::unwrap()` on an `Err` value")
      case Some(amt) => Repeat(t, splits[0], amt)
  }

  /** The trail after the given lines, starting from a rope of `size` knots at the origin. */
  function Run(lines: seq<string>, size: nat): (r: Outcome<Trail>)
    requires size > 0
    ensures r.Ok? ==> |r.value.knots| == size
    decreases |lines|
  {
    if |lines| == 0 then Ok(Trail(seq(size, _ => Origin), []))
    else
      var t :- Run(lines[..|lines| - 1], size);
      LineStep(t, lines[|lines| - 1])
  }

  /** `part1` (`size == 2`) and `part2` (`size == 10`): how many positions the last knot visited. */
  function PartOf(lines: seq<string>, size: nat): Outcome<nat>
    requires size > 0
  {
    var t :- Run(lines, size);
    Ok(|Elems(t.tails)|)
  }

  /** The rope is taut throughout, so no input makes a knot fall behind; every panic is a parsing one. */
  lemma {:induction false} NeverTooFar(lines: seq<string>, size: nat)
    requires size > 0
    ensures Run(lines, size).Ok? ==> Taut(Run(lines, size).value.knots)
    ensures Run(lines, size).Panic? ==> Run(lines, size).reason != TOO_FAR
    decreases |lines|
  {
    if |lines| > 0 {
      var init := lines[..|lines| - 1];
      NeverTooFar(init, size);
      var t := Run(init, size);
      if t.Ok? {
        var splits := Split(lines[|lines| - 1], " ");
        if |splits| >= 2 && ParseUnsigned(splits[1], U32_MAX).Some? {
          RepeatKeepsTaut(t.value, splits[0], ParseUnsigned(splits[1], U32_MAX).value);
        }
      }
    }
  }

  lemma {:induction false} RepeatKeepsTaut(t: Trail, dir: string, amt: nat)
    requires |t.knots| > 0 && Taut(t.knots)
    ensures Repeat(t, dir, amt).Ok? ==> Taut(Repeat(t, dir, amt).value.knots)
    ensures Repeat(t, dir, amt).Panic? ==> Repeat(t, dir, amt).reason != TOO_FAR
    decreases amt
  {
    if amt > 0 {
      RepeatKeepsTaut(t, dir, amt - 1);
      var prev := Repeat(t, dir, amt - 1);
      if prev.Ok? && DirectionFrom(dir).Ok? {
        assert Repeat(t, dir, amt) == UnitStep(prev.value, dir);
        MotionKeepsTaut(prev.value.knots, DirectionFrom(dir).value);
      }
    }
  }

  lemma {:induction false} RunSnoc(lines: seq<string>, i: nat, size: nat)
    requires size > 0 && i < |lines| && Run(lines[..i], size).Ok?
    ensures Run(lines[..i + 1], size) == LineStep(Run(lines[..i], size).value, lines[i])
  {
    assert lines[..i + 1][..i] == lines[..i];
  }

  lemma {:induction false} PanicPropagates(lines: seq<string>, i: nat, size: nat)
    requires size > 0 && 0 < i <= |lines| && Run(lines[..i], size).Panic?
    ensures Run(lines, size) == Run(lines[..i], size)
    decreases |lines| - i
  {
    if i < |lines| {
      assert lines[..i + 1][..i] == lines[..i];
      PanicPropagates(lines, i + 1, size);
    } else {
      assert lines[..i] == lines;
    }
  }

  /** `part1` (`size == 2`) and `part2` (`size == 10`), as their loops. */
  method Part(lines: seq<string>, size: nat) returns (r: Outcome<nat>)
    requires size > 0
    ensures r.Ok? == PartOf(lines, size).Ok?
    ensures r.Ok? ==> r.value == PartOf(lines, size).value
    ensures r.Panic? ==> r.reason == PartOf(lines, size).reason
  {
    var rope := new Rope(size);
    assert rope.knots == seq(size, _ => Origin);
    var uniqueTailsCoords: set<Coordinates> := {};
    ghost var tails: seq<Coordinates> := [];
    for i := 0 to |lines|
      invariant |rope.knots| == size
      invariant Run(lines[..i], size).Ok? && Run(lines[..i], size).value == Trail(rope.knots, tails)
      invariant uniqueTailsCoords == Elems(tails)
    {
      RunSnoc(lines, i, size);
      var res;
      uniqueTailsCoords, tails, res := MoveLine(rope, lines[i], uniqueTailsCoords, tails);
      if res.Panic? {
        PanicPropagates(lines, i + 1, size);
        return Panic(res.reason);
      }
    }
    assert lines[..|lines|] == lines;
    return Ok(|uniqueTailsCoords|);
  }

  /** One line of the loop: the unit steps, each followed by recording the last knot. */
  method MoveLine(rope: Rope, line: string, unique: set<Coordinates>, ghost tails: seq<Coordinates>)
      returns (unique': set<Coordinates>, ghost tails': seq<Coordinates>, r: Outcome<()>)
    requires |rope.knots| > 0 && unique == Elems(tails)
    modifies rope
    ensures |rope.knots| == |old(rope.knots)| && unique' == Elems(tails')
    ensures r.Ok? == LineStep(Trail(old(rope.knots), tails), line).Ok?
    ensures r.Ok? ==> Trail(rope.knots, tails') == LineStep(Trail(old(rope.knots), tails), line).value
    ensures r.Panic? ==> r.reason == LineStep(Trail(old(rope.knots), tails), line).reason
  {
    unique', tails', r := unique, tails, Ok(());
    var splits := Split(line, " ");
    if |splits| < 2 {
      return unique', tails', Panic("index out of bounds");
    }
    var amt := ParseUnsigned(splits[1], U32_MAX);
    if amt.None? {
      return unique', tails', Panic("called `Result::unwrap()` on an `Err` value");
    }
    unique', tails', r := Steps(rope, splits[0], amt.value, unique, tails);
  }

  /** The `amt` unit steps of one line. */
  method Steps(rope: Rope, dir: string, amt: nat, unique: set<Coordinates>, ghost tails: seq<Coordinates>)
      returns (unique': set<Coordinates>, ghost tails': seq<Coordinates>, r: Outcome<()>)
    requires |rope.knots| > 0 && unique == Elems(tails)
    modifies rope
    ensures |rope.knots| == |old(rope.knots)| && unique' == Elems(tails')
    ensures r.Ok? == Repeat(Trail(old(rope.knots), tails), dir, amt).Ok?
    ensures r.Ok? ==> Trail(rope.knots, tails') == Repeat(Trail(old(rope.knots), tails), dir, amt).value
    ensures r.Panic? ==> r.reason == Repeat(Trail(old(rope.knots), tails), dir, amt).reason
  {
    ghost var start := Trail(rope.knots, tails);
    unique', tails', r := unique, tails, Ok(());
    for k := 0 to amt
      invariant |rope.knots| == |start.knots| && unique' == Elems(tails')
      invariant Repeat(start, dir, k).Ok? && Repeat(start, dir, k).value == Trail(rope.knots, tails')
      invariant r.Ok?
    {
      unique', tails', r := Step(rope, dir, unique', tails');
      if r.Panic? {
        RepeatPanicPropagates(start, dir, k + 1, amt);
        return;
      }
    }
  }

  /** One turn of the step loop: `Direction::from`, `motion`, then the last knot recorded. */
  method Step(rope: Rope, dir: string, unique: set<Coordinates>, ghost tails: seq<Coordinates>)
      returns (unique': set<Coordinates>, ghost tails': seq<Coordinates>, r: Outcome<()>)
    requires |rope.knots| > 0 && unique == Elems(tails)
    modifies rope
    ensures |rope.knots| == |old(rope.knots)| && unique' == Elems(tails')
    ensures r.Ok? == UnitStep(Trail(old(rope.knots), tails), dir).Ok?
    ensures r.Ok? ==> Trail(rope.knots, tails') == UnitStep(Trail(old(rope.knots), tails), dir).value
    ensures r.Panic? ==> r.reason == UnitStep(Trail(old(rope.knots), tails), dir).reason
  {
    unique', tails' := unique, tails;
    var d := DirectionFrom(dir);
    if d.Panic? {
      return unique', tails', Panic(d.reason);
    }
    r := rope.Motion(d.value);
    if r.Panic? {
      return;
    }
    unique' := unique' + {rope.knots[|rope.knots| - 1]};
    tails' := tails' + [rope.knots[|rope.knots| - 1]];
  }

  lemma {:induction false} RepeatPanicPropagates(t: Trail, dir: string, k: nat, amt: nat)
    requires |t.knots| > 0 && 0 < k <= amt && Repeat(t, dir, k).Panic?
    ensures Repeat(t, dir, amt) == Repeat(t, dir, k)
    decreases amt - k
  {
    if k < amt {
      RepeatPanicPropagates(t, dir, k + 1, amt);
    }
  }
}
