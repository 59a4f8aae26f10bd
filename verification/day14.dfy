/**
 * Day 14: regolith reservoir. Rock paths ("x,y -> x,y -> ...") are drawn
 * into a sparse map of occupied cells; grains of sand are then poured one at
 * a time from the spawn point (500, 0), each falling straight down, else
 * down-left, else down-right, until it rests. Part 1 counts the grains that
 * rest before one falls below every rock; part 2 adds a floor two rows below
 * the lowest rock and counts the grains until one rests on the spawn point.
 */
module Day14 {
  import opened Common

  /** A cell, as `(x, y)` with y growing downwards (`i32` in the source). */
  type Loc = (int, int)

  /** The bounding box `((min_x, min_y), (max_x, max_y))`. */
  datatype Box = Box(lo: Loc, hi: Loc)

  /** What occupies a cell of the space map. */
  datatype SpaceMapItem = Sand | Rock

  datatype SandState = Resting | Falling | IntoTheVoid | BlockingSpawn

  const UNWRAP_ERR := "called `Result::unwrap()` on an `Err` value"
  const UNWRAP_NONE := "called `Option::unwrap()` on a `None` value"
  const INDEX_OUT_OF_BOUNDS := "index out of bounds"
  const NO_VOID := "Shouldn't be a void!"
  const SAND_SPAWN: Loc := (500, 0)

  // ---------------------------------------------------------------------------
  // Parsing rock structures
  // ---------------------------------------------------------------------------

  /** Every piece parsed as an `i32`, in order; the first that fails panics (`unwrap`). */
  function ParseNumbers(pieces: seq<string>): (r: Outcome<seq<int>>)
    ensures r.Ok? ==> |r.value| == |pieces|
    ensures r.Ok? ==> forall k | 0 <= k < |pieces| :: ParseSigned(pieces[k], I32_MIN, I32_MAX) == Some(r.value[k])
    ensures r.Panic? <==> exists k | 0 <= k < |pieces| :: ParseSigned(pieces[k], I32_MIN, I32_MAX).None?
    ensures r.Panic? ==> r.reason == UNWRAP_ERR
    decreases |pieces|
  {
    if |pieces| == 0 then Ok([])
    else
      var init :- ParseNumbers(pieces[..|pieces| - 1]);
      match ParseSigned(pieces[|pieces| - 1], I32_MIN, I32_MAX)
      case None => Panic(UNWRAP_ERR)
      case Some(n) => Ok(init + [n])
  }

  /** One vertex "x,y": the first two numbers; a vertex with a single number indexes out of bounds. */
  function ParseVertex(v: string): (r: Outcome<Loc>)
  {
    var nums :- ParseNumbers(Split(v, ","));
    if |nums| < 2 then Panic(INDEX_OUT_OF_BOUNDS) else Ok((nums[0], nums[1]))
  }

  /** The vertices of the first `n` pieces of a line split at " -> ". */
  function ParseVertices(pieces: seq<string>): (r: Outcome<seq<Loc>>)
    ensures r.Ok? ==> |r.value| == |pieces|
    decreases |pieces|
  {
    if |pieces| == 0 then Ok([])
    else
      var init :- ParseVertices(pieces[..|pieces| - 1]);
      var v :- ParseVertex(pieces[|pieces| - 1]);
      Ok(init + [v])
  }

  /** `RockStructure::new`: the vertex list of one line, in input order. */
  function ParseStructure(s: string): (r: Outcome<seq<Loc>>)
    ensures r.Ok? ==> |r.value| > 0
  {
    ParseVertices(Split(s, " -> "))
  }

  /** `RockStructure::new`, as its loop over the pieces. */
  method NewRockStructure(s: string) returns (r: Outcome<seq<Loc>>)
    ensures r.Ok? == ParseStructure(s).Ok?
    ensures r.Ok? ==> r.value == ParseStructure(s).value
    ensures r.Panic? ==> r.reason == ParseStructure(s).reason
  {
    var pieces := Split(s, " -> ");
    var vertices: seq<Loc> := [];
    for k := 0 to |pieces|
      invariant ParseVertices(pieces[..k]).Ok? && vertices == ParseVertices(pieces[..k]).value
    {
      assert pieces[..k + 1][..k] == pieces[..k];
      var v := ParseVertex(pieces[k]);
      if v.Panic? {
        VerticesPanic(pieces, k + 1);
        return Panic(v.reason);
      }
      vertices := vertices + [v.value];
    }
    assert pieces[..|pieces|] == pieces;
    r := Ok(vertices);
  }

  /** Once a piece fails to parse, the whole line does, with that piece's reason. */
  lemma {:induction false} VerticesPanic(pieces: seq<string>, n: nat)
    requires 0 < n <= |pieces| && ParseVertices(pieces[..n - 1]).Ok? && ParseVertex(pieces[n - 1]).Panic?
    ensures ParseVertices(pieces).Panic? && ParseVertices(pieces).reason == ParseVertex(pieces[n - 1]).reason
    decreases |pieces|
  {
    if n < |pieces| {
      var init := pieces[..|pieces| - 1];
      assert init[..n - 1] == pieces[..n - 1] && init[n - 1] == pieces[n - 1];
      VerticesPanic(init, n);
    } else {
      assert pieces[..n - 1] == pieces[..|pieces| - 1];
    }
  }

  /** The text of a vertex, "x,y". */
  function VertexText(v: Loc): string {
    IntToString(v.0) + "," + IntToString(v.1)
  }

  /** The text of each vertex. */
  function VertexTexts(vs: seq<Loc>): (texts: seq<string>)
    ensures |texts| == |vs| && forall k | 0 <= k < |vs| :: texts[k] == VertexText(vs[k])
  {
    seq(|vs|, k requires 0 <= k < |vs| => VertexText(vs[k]))
  }

  /** The text of a rock structure, "x,y -> x,y -> ...". */
  function StructureText(vs: seq<Loc>): string {
    Join(VertexTexts(vs), " -> ")
  }

  predicate InI32(v: Loc) {
    I32_MIN <= v.0 <= I32_MAX && I32_MIN <= v.1 <= I32_MAX
  }

  /** A rendered integer holds only digits and a leading minus sign. */
  lemma {:induction false} IntTextChars(n: int)
    ensures forall i | 0 <= i < |IntToString(n)| :: IntToString(n)[i] == '-' || IsDigit(IntToString(n)[i])
  {
    if n < 0 {
      var digits := NatToString(-n);
      forall i | 1 <= i < |IntToString(n)| ensures IsDigit(IntToString(n)[i]) {
        assert IntToString(n)[i] == digits[i - 1];
      }
    }
  }

  /** Parsing the text of a vertex gives the vertex back. */
  lemma {:induction false} ParseVertexText(v: Loc)
    requires InI32(v)
    ensures ParseVertex(VertexText(v)).Ok? && ParseVertex(VertexText(v)).value == v
  {
    var x, y := IntToString(v.0), IntToString(v.1);
    IntTextChars(v.0);
    IntTextChars(v.1);
    assert Join([x, y], ",") == VertexText(v);
    SplitJoin([x, y], ",");
    ParseSignedOfIntToString(v.0, I32_MIN, I32_MAX);
    ParseSignedOfIntToString(v.1, I32_MIN, I32_MAX);
    var nums := ParseNumbers([x, y]);
    assert nums.Ok? && nums.value == [v.0, v.1];
  }

  /** Parsing the text of a non-empty rock structure gives its vertices back, in order. */
  lemma {:induction false} ParseStructureText(vs: seq<Loc>)
    requires |vs| > 0 && forall k | 0 <= k < |vs| :: InI32(vs[k])
    ensures ParseStructure(StructureText(vs)).Ok? && ParseStructure(StructureText(vs)).value == vs
  {
    VertexTextsNoSpace(vs);
    SplitJoin(VertexTexts(vs), " -> ");
    ParseVerticesOfTexts(vs);
  }

  /** No vertex text holds a space, the first character of the ` -> ` separator. */
  lemma VertexTextsNoSpace(vs: seq<Loc>)
    ensures var texts := VertexTexts(vs);
      forall k, i | 0 <= k < |texts| && 0 <= i < |texts[k]| :: texts[k][i] != " -> "[0]
  {
    var texts := VertexTexts(vs);
    forall k, i | 0 <= k < |texts| && 0 <= i < |texts[k]| ensures texts[k][i] != " -> "[0] {
      var x, y := IntToString(vs[k].0), IntToString(vs[k].1);
      IntTextChars(vs[k].0);
      IntTextChars(vs[k].1);
      if i < |x| {
        assert texts[k][i] == x[i];
      } else if i > |x| {
        assert texts[k][i] == y[i - |x| - 1];
      }
    }
  }

  /** The texts of `i32` vertices parse, together, to those vertices in order. */
  lemma {:induction false} ParseVerticesOfTexts(vs: seq<Loc>)
    requires forall k | 0 <= k < |vs| :: InI32(vs[k])
    ensures ParseVertices(VertexTexts(vs)).Ok? && ParseVertices(VertexTexts(vs)).value == vs
  {
    if |vs| > 0 {
      var n := |vs|;
      var init := vs[..n - 1];
      var texts := VertexTexts(vs);
      assert texts[..n - 1] == VertexTexts(init);
      ParseVerticesOfTexts(init);
      ParseVertexText(vs[n - 1]);
      LastSplit(vs);
    }
  }

  // ---------------------------------------------------------------------------
  // Drawing rock paths
  // ---------------------------------------------------------------------------

  function Min(a: int, b: int): int { if a <= b then a else b }
  function Max(a: int, b: int): int { if a >= b then a else b }

  /**
   * The cells the source marks for the segment from `p` to `q`: a vertical
   * run at x = q.x when the x coordinates agree, otherwise a horizontal run
   * at y = q.y between the two x coordinates, both ends included.
   */
  predicate OnSegment(p: Loc, q: Loc, c: Loc) {
    if p.0 == q.0 then c.0 == q.0 && Min(p.1, q.1) <= c.1 <= Max(p.1, q.1)
    else c.1 == q.1 && Min(p.0, q.0) <= c.0 <= Max(p.0, q.0)
  }

  /** The cells of a segment in the order the `for` loop inserts them. */
  function Segment(p: Loc, q: Loc): (cells: seq<Loc>)
    ensures forall k | 0 <= k < |cells| :: OnSegment(p, q, cells[k])
  {
    if p.0 == q.0 then
      var lo, hi := Min(p.1, q.1), Max(p.1, q.1);
      seq(hi - lo + 1, k requires 0 <= k <= hi - lo => (q.0, lo + k))
    else
      var lo, hi := Min(p.0, q.0), Max(p.0, q.0);
      seq(hi - lo + 1, k requires 0 <= k <= hi - lo => (lo + k, q.1))
  }

  /** Every cell of the segment, both ends included, is among the cells drawn. */
  lemma {:induction false} SegmentCovers(p: Loc, q: Loc, c: Loc)
    requires OnSegment(p, q, c)
    ensures c in Segment(p, q)
  {
    var cells := Segment(p, q);
    if p.0 == q.0 {
      assert cells[c.1 - Min(p.1, q.1)] == c;
    } else {
      assert cells[c.0 - Min(p.0, q.0)] == c;
    }
  }

  /** The map after inserting `item` at each of `cells`, in order. */
  function PutAll(m: map<Loc, SpaceMapItem>, cells: seq<Loc>, item: SpaceMapItem): map<Loc, SpaceMapItem>
    decreases |cells|
  {
    if |cells| == 0 then m
    else PutAll(m, cells[..|cells| - 1], item)[cells[|cells| - 1] := item]
  }

  /** After the inserts, a cell is present when it was before or was inserted; inserted cells hold `item`, the others keep their item. */
  lemma {:induction false} PutAllCells(m: map<Loc, SpaceMapItem>, cells: seq<Loc>, item: SpaceMapItem, c: Loc)
    ensures c in PutAll(m, cells, item) <==> c in m || c in cells
    ensures c in PutAll(m, cells, item) ==> PutAll(m, cells, item)[c] == if c in cells then item else m[c]
    decreases |cells|
  {
    if |cells| > 0 {
      PutAllCells(m, cells[..|cells| - 1], item, c);
      LastSplit(cells);
    }
  }

  /** Inserting the cells one more at a time. */
  lemma {:induction false} PutAllSnoc(m: map<Loc, SpaceMapItem>, cells: seq<Loc>, k: nat, item: SpaceMapItem)
    requires k < |cells|
    ensures PutAll(m, cells[..k + 1], item) == PutAll(m, cells[..k], item)[cells[k] := item]
  {
    assert cells[..k + 1][..k] == cells[..k];
  }

  /** The map after drawing every segment of one rock structure. */
  function Path(m: map<Loc, SpaceMapItem>, vertices: seq<Loc>): map<Loc, SpaceMapItem>
    decreases |vertices|
  {
    if |vertices| <= 1 then m
    else
      var n := |vertices|;
      PutAll(Path(m, vertices[..n - 1]), Segment(vertices[n - 2], vertices[n - 1]), Rock)
  }

  /** The map after drawing every rock structure. */
  function Rocks(structures: seq<seq<Loc>>): map<Loc, SpaceMapItem>
    decreases |structures|
  {
    if |structures| == 0 then map[]
    else Path(Rocks(structures[..|structures| - 1]), structures[|structures| - 1])
  }

  /** Cell `c` lies on some segment of the structure. */
  predicate OnPath(vertices: seq<Loc>, c: Loc) {
    exists i | 1 <= i < |vertices| :: OnSegment(vertices[i - 1], vertices[i], c)
  }

  /** Cell `c` lies on some segment of some structure. */
  predicate OnAnyPath(structures: seq<seq<Loc>>, c: Loc) {
    exists j | 0 <= j < |structures| :: OnPath(structures[j], c)
  }

  predicate AllRock(m: map<Loc, SpaceMapItem>) {
    forall c | c in m :: m[c] == Rock
  }

  /** A cell is drawn for a segment exactly when it lies on it. */
  lemma {:induction false} InSegment(p: Loc, q: Loc, c: Loc)
    ensures c in Segment(p, q) <==> OnSegment(p, q, c)
  {
    if OnSegment(p, q, c) {
      SegmentCovers(p, q, c);
    }
  }

  /** A cell lies on a longer path when it lies on the shorter one or on its last segment. */
  lemma {:induction false} OnPathSnoc(vertices: seq<Loc>, c: Loc)
    requires |vertices| > 1
    ensures var n := |vertices|;
      OnPath(vertices, c) <==> OnPath(vertices[..n - 1], c) || OnSegment(vertices[n - 2], vertices[n - 1], c)
  {
    var n := |vertices|;
    var init := vertices[..n - 1];
    if OnPath(init, c) {
      var i :| 1 <= i < |init| && OnSegment(init[i - 1], init[i], c);
      assert OnSegment(vertices[i - 1], vertices[i], c);
    }
    if OnPath(vertices, c) && !OnSegment(vertices[n - 2], vertices[n - 1], c) {
      var i :| 1 <= i < n && OnSegment(vertices[i - 1], vertices[i], c);
      assert OnSegment(init[i - 1], init[i], c);
    }
  }

  /** Drawing a structure adds exactly the cells on its segments, as rock, and keeps every other cell. */
  lemma {:induction false} PathCells(m: map<Loc, SpaceMapItem>, vertices: seq<Loc>, c: Loc)
    ensures c in Path(m, vertices) <==> c in m || OnPath(vertices, c)
    ensures c in Path(m, vertices) ==> Path(m, vertices)[c] == if OnPath(vertices, c) then Rock else m[c]
    decreases |vertices|
  {
    var n := |vertices|;
    if n > 1 {
      var init := vertices[..n - 1];
      PathCells(m, init, c);
      OnPathSnoc(vertices, c);
      InSegment(vertices[n - 2], vertices[n - 1], c);
      PutAllCells(Path(m, init), Segment(vertices[n - 2], vertices[n - 1]), Rock, c);
    }
  }

  /** The rock map holds exactly the cells on the segments of the structures, every one of them rock. */
  lemma {:induction false} RocksCells(structures: seq<seq<Loc>>, c: Loc)
    ensures c in Rocks(structures) <==> OnAnyPath(structures, c)
    ensures c in Rocks(structures) ==> Rocks(structures)[c] == Rock
    decreases |structures|
  {
    var n := |structures|;
    if n > 0 {
      var init := structures[..n - 1];
      RocksCells(init, c);
      PathCells(Rocks(init), structures[n - 1], c);
      assert forall j | 0 <= j < n - 1 :: init[j] == structures[j];
      if OnAnyPath(structures, c) && !OnAnyPath(init, c) {
        var j :| 0 <= j < n && OnPath(structures[j], c);
        assert j == n - 1;
      }
    }
  }

  /** The `for` loop over one segment: insert rock at each of its cells, down a column or along a row. */
  method DrawSegment(m: map<Loc, SpaceMapItem>, p: Loc, q: Loc) returns (m': map<Loc, SpaceMapItem>)
    ensures m' == PutAll(m, Segment(p, q), Rock)
  {
    var xDiff := if p.0 >= q.0 then p.0 - q.0 else q.0 - p.0;
    if xDiff == 0 {
      m' := DrawColumn(m, q.0, Min(p.1, q.1), Max(p.1, q.1));
    } else {
      m' := DrawRow(m, q.1, Min(p.0, q.0), Max(p.0, q.0));
    }
  }

  /** Rock at `(x, y)` for y from `min` to `max`, both included. */
  method DrawColumn(m: map<Loc, SpaceMapItem>, x: int, min: int, max: int) returns (m': map<Loc, SpaceMapItem>)
    requires min <= max
    ensures m' == PutAll(m, seq(max - min + 1, k requires 0 <= k <= max - min => (x, min + k)), Rock)
  {
    ghost var cells := seq(max - min + 1, k requires 0 <= k <= max - min => (x, min + k));
    m' := m;
    for newY := min to max + 1
      invariant m' == PutAll(m, cells[..newY - min], Rock)
    {
      PutAllSnoc(m, cells, newY - min, Rock);
      m' := m'[(x, newY) := Rock];
    }
    assert cells[..max + 1 - min] == cells;
  }

  /** Rock at `(x, y)` for x from `min` to `max`, both included. */
  method DrawRow(m: map<Loc, SpaceMapItem>, y: int, min: int, max: int) returns (m': map<Loc, SpaceMapItem>)
    requires min <= max
    ensures m' == PutAll(m, seq(max - min + 1, k requires 0 <= k <= max - min => (min + k, y)), Rock)
  {
    ghost var cells := seq(max - min + 1, k requires 0 <= k <= max - min => (min + k, y));
    m' := m;
    for newX := min to max + 1
      invariant m' == PutAll(m, cells[..newX - min], Rock)
    {
      PutAllSnoc(m, cells, newX - min, Rock);
      m' := m'[(newX, y) := Rock];
    }
    assert cells[..max + 1 - min] == cells;
  }

  // ---------------------------------------------------------------------------
  // The bounding box
  // ---------------------------------------------------------------------------

  /** The box grown to take in vertex `v`, coordinate by coordinate. */
  function Widen(box: Box, v: Loc): Box {
    Box((Min(box.lo.0, v.0), Min(box.lo.1, v.1)), (Max(box.hi.0, v.0), Max(box.hi.1, v.1)))
  }

  predicate Contains(box: Box, c: Loc) {
    box.lo.0 <= c.0 <= box.hi.0 && box.lo.1 <= c.1 <= box.hi.1
  }

  function WidenAll(box: Box, vertices: seq<Loc>): Box
    decreases |vertices|
  {
    if |vertices| == 0 then box else Widen(WidenAll(box, vertices[..|vertices| - 1]), vertices[|vertices| - 1])
  }

  /** The box around the spawn point and every vertex of every structure. */
  function Bounds(spawn: Loc, structures: seq<seq<Loc>>): Box
    decreases |structures|
  {
    if |structures| == 0 then Box(spawn, spawn)
    else WidenAll(Bounds(spawn, structures[..|structures| - 1]), structures[|structures| - 1])
  }

  lemma {:induction false} WidenAllContains(box: Box, vertices: seq<Loc>)
    ensures forall c | Contains(box, c) :: Contains(WidenAll(box, vertices), c)
    ensures forall k | 0 <= k < |vertices| :: Contains(WidenAll(box, vertices), vertices[k])
    decreases |vertices|
  {
    if |vertices| > 0 {
      WidenAllContains(box, vertices[..|vertices| - 1]);
    }
  }

  /** The bounding box holds the spawn point and every vertex. */
  lemma {:induction false} BoundsContain(spawn: Loc, structures: seq<seq<Loc>>)
    ensures Contains(Bounds(spawn, structures), spawn)
    ensures forall j, k | 0 <= j < |structures| && 0 <= k < |structures[j]| :: Contains(Bounds(spawn, structures), structures[j][k])
    decreases |structures|
  {
    var n := |structures|;
    if n > 0 {
      var init := structures[..n - 1];
      BoundsContain(spawn, init);
      WidenAllContains(Bounds(spawn, init), structures[n - 1]);
      assert forall j | 0 <= j < n - 1 :: init[j] == structures[j];
    }
  }

  /** Every segment cell lies in the box of its structure's ends. */
  lemma {:induction false} SegmentInBox(box: Box, p: Loc, q: Loc, c: Loc)
    requires Contains(box, p) && Contains(box, q) && OnSegment(p, q, c)
    ensures Contains(box, c)
  {
  }

  // ---------------------------------------------------------------------------
  // The floor
  // ---------------------------------------------------------------------------

  /** The floor cells: row `max_y + 2` for x in `[min_x - h, max_x + h)` with `h = 2 * max_y - 1`. */
  function FloorCells(box: Box): (cells: seq<Loc>)
  {
    var height := 2 * box.hi.1 - 1;
    var lo, hi := box.lo.0 - height, box.hi.0 + height;
    seq(if lo <= hi then hi - lo else 0, k requires 0 <= k => (lo + k, box.hi.1 + 2))
  }

  /** A cell is on the floor exactly when it is in row `max_y + 2` with x in `[min_x - h, max_x + h)`. */
  lemma {:induction false} FloorCellsAre(box: Box, c: Loc)
    ensures c in FloorCells(box) <==>
      c.1 == box.hi.1 + 2 && box.lo.0 - (2 * box.hi.1 - 1) <= c.0 < box.hi.0 + (2 * box.hi.1 - 1)
  {
    var lo := box.lo.0 - (2 * box.hi.1 - 1);
    if c.1 == box.hi.1 + 2 && lo <= c.0 < box.hi.0 + (2 * box.hi.1 - 1) {
      assert FloorCells(box)[c.0 - lo] == c;
    }
  }

  /** The `with_floor` loop: insert rock along the floor row. */
  method DrawFloor(m: map<Loc, SpaceMapItem>, box: Box) returns (m': map<Loc, SpaceMapItem>)
    ensures m' == PutAll(m, FloorCells(box), Rock)
  {
    var cells := FloorCells(box);
    var height := 2 * box.hi.1 - 1;
    var minX := box.lo.0 - height;
    m' := m;
    var x := minX;
    while x < box.hi.0 + height
      invariant minX <= x && (x - minX <= |cells|)
      invariant m' == PutAll(m, cells[..x - minX], Rock)
    {
      PutAllSnoc(m, cells, x - minX, Rock);
      m' := m'[(x, box.hi.1 + 2) := Rock];
      x := x + 1;
    }
    assert cells[..x - minX] == cells;
  }

  // ---------------------------------------------------------------------------
  // Building the environment
  // ---------------------------------------------------------------------------

  /** One structure's pass of `Environment::new`: widen the box by every vertex and draw each segment after the first vertex. */
  method DrawStructure(m: map<Loc, SpaceMapItem>, box: Box, vertices: seq<Loc>) returns (m': map<Loc, SpaceMapItem>, box': Box)
    ensures m' == Path(m, vertices) && box' == WidenAll(box, vertices)
  {
    m', box' := m, box;
    var prevVertex: Option<Loc> := None;
    for k := 0 to |vertices|
      invariant prevVertex == if k == 0 then None else Some(vertices[k - 1])
      invariant m' == Path(m, vertices[..k]) && box' == WidenAll(box, vertices[..k])
    {
      var vert := vertices[k];
      assert vertices[..k + 1][..k] == vertices[..k];
      box' := Widen(box', vert);
      if prevVertex.Some? {
        m' := DrawSegment(m', prevVertex.value, vert);
      }
      prevVertex := Some(vert);
    }
    assert vertices[..|vertices|] == vertices;
  }

  /** The nested loops of `Environment::new` over every structure and vertex. */
  method Survey(structures: seq<seq<Loc>>, spawn: Loc) returns (m: map<Loc, SpaceMapItem>, box: Box)
    ensures m == Rocks(structures) && box == Bounds(spawn, structures)
  {
    m, box := map[], Box(spawn, spawn);
    for j := 0 to |structures|
      invariant m == Rocks(structures[..j]) && box == Bounds(spawn, structures[..j])
    {
      assert structures[..j + 1][..j] == structures[..j];
      m, box := DrawStructure(m, box, structures[j]);
    }
    assert structures[..|structures|] == structures;
  }

  /** The state of an `Environment`: steps taken, bounding box, occupied cells, spawn point and grain locations in order. */
  datatype EnvState = EnvState(stepCount: nat, box: Box, spaceMap: map<Loc, SpaceMapItem>, spawn: Loc, sand: seq<Loc>)

  /** The environment `Environment::new` builds; with a floor the box grows two rows downwards. */
  function Initial(structures: seq<seq<Loc>>, spawn: Loc, withFloor: bool): EnvState {
    var box := Bounds(spawn, structures);
    if withFloor then
      EnvState(0, Box(box.lo, (box.hi.0, box.hi.1 + 2)), PutAll(Rocks(structures), FloorCells(box), Rock), spawn, [])
    else
      EnvState(0, box, Rocks(structures), spawn, [])
  }

  /**
   * A new environment holds rock exactly on the structures' segments and,
   * with a floor, on the floor row; its box holds the spawn point and every
   * vertex, and reaches the floor row when there is one.
   */
  lemma {:induction false} InitialCells(structures: seq<seq<Loc>>, spawn: Loc, withFloor: bool, c: Loc)
    ensures var e := Initial(structures, spawn, withFloor);
      c in e.spaceMap <==> OnAnyPath(structures, c) || (withFloor && c in FloorCells(Bounds(spawn, structures)))
    ensures var e := Initial(structures, spawn, withFloor);
      c in e.spaceMap ==> e.spaceMap[c] == Rock
    ensures var e := Initial(structures, spawn, withFloor);
      e.sand == [] && e.spawn == spawn && Contains(e.box, spawn) &&
      forall j, k | 0 <= j < |structures| && 0 <= k < |structures[j]| :: Contains(e.box, structures[j][k])
    ensures withFloor ==> Initial(structures, spawn, withFloor).box.hi.1 == Bounds(spawn, structures).hi.1 + 2
  {
    RocksCells(structures, c);
    PutAllCells(Rocks(structures), FloorCells(Bounds(spawn, structures)), Rock, c);
    BoundsContain(spawn, structures);
  }

  /** The first vacant cell below `loc`: straight down, else down-left, else down-right; None when all three are taken. */
  function Fall(m: map<Loc, SpaceMapItem>, loc: Loc): (r: Option<Loc>)
    ensures r.Some? ==> r.value !in m && r.value.1 == loc.1 + 1 && loc.0 - 1 <= r.value.0 <= loc.0 + 1
    ensures r.None? <==> (loc.0, loc.1 + 1) in m && (loc.0 - 1, loc.1 + 1) in m && (loc.0 + 1, loc.1 + 1) in m
    ensures r.Some? && r.value.0 != loc.0 ==> (loc.0, loc.1 + 1) in m
    ensures r.Some? && r.value.0 == loc.0 + 1 ==> (loc.0 - 1, loc.1 + 1) in m
  {
    var under := (loc.0, loc.1 + 1);
    if under !in m then Some(under)
    else if (under.0 - 1, under.1) !in m then Some((under.0 - 1, under.1))
    else if (under.0 + 1, under.1) !in m then Some((under.0 + 1, under.1))
    else None
  }

  /** `add_sand`: a new grain at the spawn point. */
  function AddedSand(e: EnvState): EnvState {
    e.(spaceMap := e.spaceMap[e.spawn := Sand], sand := e.sand + [e.spawn])
  }

  /**
   * `update`: the last grain is lifted off the map, moved to `Fall`'s cell
   * if there is one, and put back; blocking the spawn point outranks falling
   * below the box, which outranks moving or resting. No grain panics.
   */
  function Updated(e: EnvState): (EnvState, Outcome<SandState>) {
    if |e.sand| == 0 then (e, Panic(UNWRAP_NONE))
    else
      var loc := e.sand[|e.sand| - 1];
      var m := e.spaceMap - {loc};
      var f := Fall(m, loc);
      var loc' := if f.Some? then f.value else loc;
      var state :=
        if loc' == e.spawn then BlockingSpawn
        else if loc'.1 > e.box.hi.1 then IntoTheVoid
        else if f.Some? then Falling
        else Resting;
      (EnvState(e.stepCount + 1, e.box, m[loc' := Sand], e.spawn, e.sand[..|e.sand| - 1] + [loc']), Ok(state))
  }

  /** The last grain's cell is marked as sand. */
  predicate Consistent(e: EnvState) {
    |e.sand| > 0 ==> e.sand[|e.sand| - 1] in e.spaceMap && e.spaceMap[e.sand[|e.sand| - 1]] == Sand
  }

  /** Adding a grain leaves it marked on the map and keeps every other cell. */
  lemma {:induction false} AddedSandCells(e: EnvState, c: Loc)
    ensures Consistent(AddedSand(e)) && |AddedSand(e).sand| == |e.sand| + 1
    ensures c != e.spawn ==> (c in AddedSand(e).spaceMap <==> c in e.spaceMap)
    ensures c != e.spawn && c in e.spaceMap ==> AddedSand(e).spaceMap[c] == e.spaceMap[c]
  {
  }

  /** An update panics exactly when there is no grain. */
  lemma {:induction false} UpdatePanics(e: EnvState)
    ensures Updated(e).1.Panic? <==> |e.sand| == 0
    ensures Updated(e).1.Panic? ==> Updated(e).1.reason == UNWRAP_NONE
  {
  }

  /**
   * An update keeps the number of grains, every grain but the last, the box
   * and the spawn point, counts one step, and leaves the moved grain marked.
   */
  lemma {:induction false} UpdateKeeps(e: EnvState)
    requires |e.sand| > 0
    ensures var e' := Updated(e).0;
      |e'.sand| == |e.sand| && e'.sand[..|e.sand| - 1] == e.sand[..|e.sand| - 1] &&
      e'.box == e.box && e'.spawn == e.spawn && e'.stepCount == e.stepCount + 1 && Consistent(e')
  {
    var e' := Updated(e).0;
    var n := |e.sand|;
    assert e'.sand[..n - 1] == e.sand[..n - 1];
  }

  /**
   * The moved grain is one row lower on the first vacant candidate cell, or
   * stays put when all three are taken; the reported state says which,
   * unless the spawn point is blocked or the grain left the box.
   */
  lemma {:induction false} UpdateMoves(e: EnvState)
    requires |e.sand| > 0
    ensures var loc := e.sand[|e.sand| - 1];
      var e' := Updated(e).0;
      var loc' := e'.sand[|e'.sand| - 1];
      var m := e.spaceMap - {loc};
      var st := Updated(e).1.value;
      Updated(e).1.Ok? &&
      (loc' == loc || (loc'.1 == loc.1 + 1 && loc' !in m)) &&
      (st == BlockingSpawn <==> loc' == e.spawn) &&
      (st == IntoTheVoid <==> loc' != e.spawn && loc'.1 > e.box.hi.1) &&
      (st == Resting ==> loc' == loc && Fall(m, loc).None?) &&
      (st == Falling ==> loc'.1 == loc.1 + 1)
  {
  }

  /**
   * On a consistent state an update only touches the cells the moving
   * grain leaves and reaches: every other cell, and so every rock cell, is
   * kept as it was.
   */
  lemma {:induction false} UpdateKeepsOtherCells(e: EnvState, c: Loc)
    requires |e.sand| > 0 && Consistent(e)
    ensures var e' := Updated(e).0;
      c in e.spaceMap && e.spaceMap[c] == Rock ==> c in e'.spaceMap && e'.spaceMap[c] == Rock
    ensures var e' := Updated(e).0;
      c != e.sand[|e.sand| - 1] && c != e'.sand[|e'.sand| - 1] ==>
        (c in e'.spaceMap <==> c in e.spaceMap) && (c in e.spaceMap ==> e'.spaceMap[c] == e.spaceMap[c])
  {
  }

  // ---------------------------------------------------------------------------
  // The environment object
  // ---------------------------------------------------------------------------

  class Environment {
    var stepCount: nat
    var boundingBox: Box
    var spaceMap: map<Loc, SpaceMapItem>
    const sandSpawnLoc: Loc
    var sand: seq<Loc>

    function State(): EnvState
      reads this
    {
      EnvState(stepCount, boundingBox, spaceMap, sandSpawnLoc, sand)
    }

    /** `Environment::new`: draw every structure, then the floor when asked for. */
    constructor(structures: seq<seq<Loc>>, spawn: Loc, withFloor: bool)
      ensures State() == Initial(structures, spawn, withFloor)
    {
      var m, box := Survey(structures, spawn);
      if withFloor {
        m := DrawFloor(m, box);
        box := Box(box.lo, (box.hi.0, box.hi.1 + 2));
      }
      stepCount := 0;
      spaceMap := m;
      sand := [];
      boundingBox := box;
      sandSpawnLoc := spawn;
    }

    /** `add_sand`. */
    method AddSand()
      modifies this
      ensures State() == AddedSand(old(State()))
    {
      sand := sand + [sandSpawnLoc];
      spaceMap := spaceMap[sandSpawnLoc := Sand];
    }

    /** `update`; the state is left as it was when it panics. */
    method Update() returns (r: Outcome<SandState>)
      modifies this
      ensures r == Updated(old(State())).1
      ensures State() == Updated(old(State())).0
    {
      if |sand| == 0 {
        return Panic(UNWRAP_NONE);
      }
      var location := sand[|sand| - 1];
      sand := sand[..|sand| - 1];
      spaceMap := spaceMap - {location};
      var sandState := Resting;
      var under := (location.0, location.1 + 1);
      var underLeft := (under.0 - 1, under.1);
      var underRight := (under.0 + 1, under.1);
      if under !in spaceMap {
        location, sandState := under, Falling;
      } else if underLeft !in spaceMap {
        location, sandState := underLeft, Falling;
      } else if underRight !in spaceMap {
        location, sandState := underRight, Falling;
      }
      if location.1 > boundingBox.hi.1 {
        sandState := IntoTheVoid;
      }
      if location == sandSpawnLoc {
        sandState := BlockingSpawn;
      }
      stepCount := stepCount + 1;
      spaceMap := spaceMap[location := Sand];
      sand := sand + [location];
      r := Ok(sandState);
    }
  }

  // ---------------------------------------------------------------------------
  // Pouring sand
  // ---------------------------------------------------------------------------

  /** Where following one grain ends: it rests, the answer is known, or the fuel ran out. */
  datatype Drop = Settled(e: EnvState) | Finished(answer: nat) | OutOfFuel

  /**
   * The inner `loop` of `part1` (`withFloor` false) and `part2` (true):
   * update until the grain rests; part 1 answers when a grain leaves the box
   * and keeps going when the spawn point is blocked, part 2 answers when the
   * spawn point is blocked and panics when a grain leaves the box. At most
   * `fuel` updates are made.
   */
  function Follow(e: EnvState, withFloor: bool, fuel: nat): Outcome<Drop>
    decreases fuel
  {
    if fuel == 0 then Ok(OutOfFuel)
    else
      var (e', r) := Updated(e);
      if r.Panic? then Panic(r.reason)
      else if r.value == Resting then Ok(Settled(e'))
      else if r.value == IntoTheVoid then
        if withFloor then Panic(NO_VOID) else Ok(Finished(|e'.sand| - 1))
      else if r.value == BlockingSpawn && withFloor then Ok(Finished(|e'.sand|))
      else Follow(e', withFloor, fuel - 1)
  }

  /** What becomes of a grain after an update reported `s` and left state `e`. */
  function Proceed(e: EnvState, s: SandState, withFloor: bool, fuel: nat): Outcome<Drop>
    requires |e.sand| > 0
  {
    if s == Resting then Ok(Settled(e))
    else if s == IntoTheVoid then
      if withFloor then Panic(NO_VOID) else Ok(Finished(|e.sand| - 1))
    else if s == BlockingSpawn && withFloor then Ok(Finished(|e.sand|))
    else Follow(e, withFloor, fuel)
  }

  /** The outer `loop`: add a grain and follow it, at most `fuel` grains with at most `fuel` updates each; None when the fuel runs out. */
  function Pour(e: EnvState, withFloor: bool, fuel: nat): Outcome<Option<nat>>
    decreases fuel
  {
    if fuel == 0 then Ok(None)
    else
      var d :- Follow(AddedSand(e), withFloor, fuel);
      if d.OutOfFuel? then Ok(None)
      else if d.Finished? then Ok(Some(d.answer))
      else Pour(d.e, withFloor, fuel - 1)
  }

  /** Following a grain keeps every grain but the last, and the grain count. */
  lemma {:induction false} FollowKeeps(e: EnvState, withFloor: bool, fuel: nat)
    requires |e.sand| > 0
    ensures Follow(e, withFloor, fuel).Ok? && Follow(e, withFloor, fuel).value.Settled? ==>
      var e' := Follow(e, withFloor, fuel).value.e;
      |e'.sand| == |e.sand| && e'.sand[..|e.sand| - 1] == e.sand[..|e.sand| - 1] && Consistent(e') &&
      e'.box == e.box && e'.spawn == e.spawn
    ensures Follow(e, withFloor, fuel).Ok? && Follow(e, withFloor, fuel).value.Finished? ==>
      Follow(e, withFloor, fuel).value.answer == if withFloor then |e.sand| else |e.sand| - 1
    decreases fuel
  {
    if fuel > 0 {
      UpdateKeeps(e);
      FollowKeeps(Updated(e).0, withFloor, fuel - 1);
    }
  }

  /** Following a grain never turns a rock cell into anything else. */
  lemma {:induction false} FollowKeepsRock(e: EnvState, withFloor: bool, fuel: nat, c: Loc)
    requires |e.sand| > 0 && Consistent(e) && c in e.spaceMap && e.spaceMap[c] == Rock
    ensures Follow(e, withFloor, fuel).Ok? && Follow(e, withFloor, fuel).value.Settled? ==>
      var e' := Follow(e, withFloor, fuel).value.e;
      c in e'.spaceMap && e'.spaceMap[c] == Rock
    decreases fuel
  {
    if fuel > 0 {
      UpdateKeeps(e);
      UpdateKeepsOtherCells(e, c);
      FollowKeepsRock(Updated(e).0, withFloor, fuel - 1, c);
    }
  }

  /**
   * Every answer counts the grains already poured plus the grains that came
   * to rest: part 1 leaves out the grain that fell away, part 2 counts the
   * grain on the spawn point.
   */
  lemma {:induction false} PourAnswer(e: EnvState, withFloor: bool, fuel: nat)
    ensures Pour(e, withFloor, fuel).Ok? && Pour(e, withFloor, fuel).value.Some? ==>
      Pour(e, withFloor, fuel).value.value >= if withFloor then |e.sand| + 1 else |e.sand|
    decreases fuel
  {
    if fuel > 0 {
      var a := AddedSand(e);
      AddedSandCells(e, e.spawn);
      FollowKeeps(a, withFloor, fuel);
      var d := Follow(a, withFloor, fuel);
      if d.Ok? && d.value.Settled? {
        PourAnswer(d.value.e, withFloor, fuel - 1);
      }
    }
  }

  /** More fuel does not change a grain's fate once it is decided. */
  lemma {:induction false} FollowFuel(e: EnvState, withFloor: bool, fuel: nat, more: nat)
    requires fuel <= more
    requires !(Follow(e, withFloor, fuel).Ok? && Follow(e, withFloor, fuel).value.OutOfFuel?)
    ensures Follow(e, withFloor, more) == Follow(e, withFloor, fuel)
    decreases fuel
  {
    if fuel > 0 {
      var (e', r) := Updated(e);
      if r.Ok? && r.value != Resting && r.value != IntoTheVoid && !(r.value == BlockingSpawn && withFloor) {
        FollowFuel(e', withFloor, fuel - 1, more - 1);
      }
    }
  }

  /** The inner `loop`, on the object. */
  method FollowGrain(env: Environment, withFloor: bool, fuel: nat) returns (r: Outcome<Drop>)
    modifies env
    ensures r == Follow(old(env.State()), withFloor, fuel)
    ensures r.Ok? && r.value.Settled? ==> env.State() == r.value.e
  {
    var left: nat := fuel;
    while left > 0
      invariant left <= fuel
      invariant Follow(old(env.State()), withFloor, fuel) == Follow(env.State(), withFloor, left)
      decreases left
    {
      ghost var before := env.State();
      var isResting := env.Update();
      FollowOnce(before, withFloor, left);
      if isResting.Panic? {
        return Panic(isResting.reason);
      }
      if isResting.value == Resting {
        return Ok(Settled(env.State()));
      } else if isResting.value == IntoTheVoid {
        if withFloor {
          return Panic(NO_VOID);
        }
        return Ok(Finished(|env.sand| - 1));
      } else if isResting.value == BlockingSpawn && withFloor {
        return Ok(Finished(|env.sand|));
      }
      left := left - 1;
    }
    return Ok(OutOfFuel);
  }

  /** One update of a falling grain decides it or leaves it falling from the new state. */
  lemma FollowOnce(e: EnvState, withFloor: bool, fuel: nat)
    requires fuel > 0
    ensures Updated(e).1.Panic? ==> Follow(e, withFloor, fuel) == Panic(Updated(e).1.reason)
    ensures Updated(e).1.Ok? ==> Follow(e, withFloor, fuel) == Proceed(Updated(e).0, Updated(e).1.value, withFloor, fuel - 1)
  {
  }

  /** The outer `loop`, on the object. */
  method Simulate(env: Environment, withFloor: bool, fuel: nat) returns (r: Outcome<Option<nat>>)
    modifies env
    ensures r == Pour(old(env.State()), withFloor, fuel)
  {
    var left: nat := fuel;
    while left > 0
      invariant left <= fuel
      invariant Pour(old(env.State()), withFloor, fuel) == Pour(env.State(), withFloor, left)
      decreases left
    {
      env.AddSand();
      var d := FollowGrain(env, withFloor, left);
      if d.Panic? {
        return Panic(d.reason);
      }
      if d.value.OutOfFuel? {
        return Ok(None);
      } else if d.value.Finished? {
        return Ok(Some(d.value.answer));
      }
      left := left - 1;
    }
    return Ok(None);
  }

  /** Every line parsed as a rock structure, in order; the first that fails panics. */
  function Structures(lines: seq<string>): Outcome<seq<seq<Loc>>>
    decreases |lines|
  {
    if |lines| == 0 then Ok([])
    else
      var init :- Structures(lines[..|lines| - 1]);
      var s :- ParseStructure(lines[|lines| - 1]);
      Ok(init + [s])
  }

  /** The answer of `part1` (`withFloor` false) or `part2` (true), with `fuel` bounding the loops. */
  function Answer(lines: seq<string>, withFloor: bool, fuel: nat): Outcome<Option<nat>> {
    var structures :- Structures(lines);
    Pour(Initial(structures, SAND_SPAWN, withFloor), withFloor, fuel)
  }

  /** `part1` and `part2`: parse every line, build the environment and pour. */
  method Part(lines: seq<string>, withFloor: bool, fuel: nat) returns (r: Outcome<Option<nat>>)
    ensures r == Answer(lines, withFloor, fuel)
  {
    var rockStructures: seq<seq<Loc>> := [];
    for i := 0 to |lines|
      invariant Structures(lines[..i]) == Ok(rockStructures)
    {
      assert lines[..i + 1][..i] == lines[..i];
      var s := NewRockStructure(lines[i]);
      if s.Panic? {
        StructuresPanic(lines, i + 1);
        return Panic(s.reason);
      }
      rockStructures := rockStructures + [s.value];
    }
    assert lines[..|lines|] == lines;
    var env := new Environment(rockStructures, SAND_SPAWN, withFloor);
    r := Simulate(env, withFloor, fuel);
  }

  /** Once a line fails to parse, the whole input does, with that line's reason. */
  lemma {:induction false} StructuresPanic(lines: seq<string>, n: nat)
    requires 0 < n <= |lines| && Structures(lines[..n - 1]).Ok? && ParseStructure(lines[n - 1]).Panic?
    ensures Structures(lines).Panic? && Structures(lines).reason == ParseStructure(lines[n - 1]).reason
    decreases |lines|
  {
    if n < |lines| {
      var init := lines[..|lines| - 1];
      assert init[..n - 1] == lines[..n - 1] && init[n - 1] == lines[n - 1];
      StructuresPanic(init, n);
    } else {
      assert lines[..n - 1] == lines[..|lines| - 1];
    }
  }

  lemma {:induction false} LastSplit<T>(s: seq<T>)
    requires |s| > 0
    ensures s[..|s| - 1] + [s[|s| - 1]] == s
  {
  }
}
