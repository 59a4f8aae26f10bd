/**
 * Day 12: hill climbing. The height map becomes a list of nodes in reading
 * order; a depth-first search driven by an explicit stack of
 * (node index, depth) pairs walks from the start cells (`S` in part 1, `S`
 * and `a` in part 2) to an `E` cell, stepping up at most one unit at a time,
 * pruning entries deeper than the best answer so far and marking nodes with
 * the depth at which they were reached.
 */
module Day12 {
  import opened Common

  const UNWRAP_NONE := "called `Option::unwrap()` on a `None` value"
  const INDEX_OUT_OF_BOUNDS := "index out of bounds"

  /** The letters `height_from_char` looks a character up in. */
  const HEIGHTMAP: string := Letters('a', 26)

  datatype NodeType = Start | End | Generic

  /** A cell of the map: where it is, how high it is and what it is. Its visit mark is kept apart (see `Search`). */
  datatype Node = Node(row: nat, col: nat, height: nat, nodeType: NodeType)

  // ---------------------------------------------------------------------------
  // Nodes
  // ---------------------------------------------------------------------------

  lemma {:induction false} HeightmapLetters()
    ensures |HEIGHTMAP| == 26
    ensures forall k | 0 <= k < 26 :: HEIGHTMAP[k] as int == 'a' as int + k
  {
    forall k | 0 <= k < 26 ensures HEIGHTMAP[k] as int == 'a' as int + k {
      LettersAt('a', 26, k);
    }
  }

  /** `height_from_char`: the character's position in `HEIGHTMAP` plus one; a character not there panics. */
  function HeightFromChar(c: char): Outcome<nat> {
    match IndexOf(HEIGHTMAP, c)
    case None => Panic(UNWRAP_NONE)
    case Some(i) => Ok(i + 1)
  }

  /** So `a` to `z` are heights 1 to 26, and any other character panics. */
  lemma {:induction false} HeightOfLetter(c: char)
    ensures HeightFromChar(c).Ok? <==> 'a' <= c <= 'z'
    ensures HeightFromChar(c).Ok? ==> HeightFromChar(c).value as int == c as int - 'a' as int + 1
  {
    HeightmapLetters();
    var i := IndexOf(HEIGHTMAP, c);
    if 'a' <= c <= 'z' {
      var k := c as int - 'a' as int;
      assert HEIGHTMAP[k] == c;
      assert i.Some?;
      assert HEIGHTMAP[i.value] as int == 'a' as int + i.value;
    }
  }

  /** The kind of cell a character makes; part 2 also starts from every `a`. */
  function Kind(c: char, part2: bool): NodeType {
    if c == 'S' || (part2 && c == 'a') then Start
    else if c == 'E' then End
    else Generic
  }

  /** `Node::new`: a start is at height 1 and an end at height 26, whatever the character; otherwise the character's height. */
  function NewNode(row: nat, col: nat, c: char, nodeType: NodeType): (r: Outcome<Node>)
    ensures r.Ok? ==> r.value.row == row && r.value.col == col && r.value.nodeType == nodeType
    ensures r.Ok? ==> 1 <= r.value.height <= 26
    ensures nodeType == Start ==> r.Ok? && r.value.height == 1
    ensures nodeType == End ==> r.Ok? && r.value.height == 26
    ensures nodeType == Generic ==> (r.Ok? <==> 'a' <= c <= 'z')
  {
    HeightOfLetter(c);
    var height :- match nodeType
      case Start => Ok(1)
      case End => Ok(26)
      case Generic => HeightFromChar(c);
    Ok(Node(row, col, height, nodeType))
  }

  /** `can_traverse_to`: a step may climb at most one unit (and descend any amount). */
  predicate CanTraverseTo(from: Node, to: Node) {
    from.height + 1 >= to.height
  }

  // ---------------------------------------------------------------------------
  // Reading the map
  // ---------------------------------------------------------------------------

  /**
   * What the reading loops build: the width (the length of the first
   * non-empty line), the nodes in reading order, part 1's start (the last
   * `S`, else (0, 0)) and part 2's starts (every `S` and `a`, in order).
   */
  datatype Scan = Scan(cols: nat, nodes: seq<Node>, startLoc: (nat, nat), startLocs: seq<(nat, nat)>)

  const NoScan := Scan(0, [], (0, 0), [])

  /** One character at (`row`, `col`): its node is pushed and a start is recorded. */
  function ScanChar(st: Scan, row: nat, col: nat, c: char, part2: bool): (r: Outcome<Scan>)
    ensures r.Ok? == NewNode(row, col, c, Kind(c, part2)).Ok?
    ensures r.Ok? ==> r.value.cols == st.cols && r.value.nodes == st.nodes + [NewNode(row, col, c, Kind(c, part2)).value]
  {
    var nodeType := Kind(c, part2);
    var node :- NewNode(row, col, c, nodeType);
    var st' :=
      if nodeType != Start then st
      else if part2 then st.(startLocs := st.startLocs + [(row, col)])
      else st.(startLoc := (row, col));
    Ok(st'.(nodes := st'.nodes + [node]))
  }

  /** The reading loops from (`row`, `col`) on. */
  function ScanFrom(lines: seq<string>, row: nat, col: nat, st: Scan, part2: bool): Outcome<Scan>
    decreases |lines| - row, if row < |lines| then |lines[row]| - col else 0
  {
    if row >= |lines| then Ok(st)
    else
      var st1 := if st.cols == 0 then st.(cols := |lines[row]|) else st;
      if col >= |lines[row]| then ScanFrom(lines, row + 1, 0, st1, part2)
      else
        var st2 :- ScanChar(st1, row, col, lines[row][col], part2);
        ScanFrom(lines, row, col + 1, st2, part2)
  }

  /** The map as read by `part1` (or `part2`). */
  function ReadMap(lines: seq<string>, part2: bool): Outcome<Scan> {
    ScanFrom(lines, 0, 0, NoScan, part2)
  }

  /** The nested `for` loops over rows and characters. */
  method ReadNodes(lines: seq<string>, part2: bool) returns (r: Outcome<Scan>)
    ensures r == ReadMap(lines, part2)
  {
    var cols: nat := 0;
    var nodes: seq<Node> := [];
    var startLoc: (nat, nat) := (0, 0);
    var startLocs: seq<(nat, nat)> := [];
    for row := 0 to |lines|
      invariant ReadMap(lines, part2) == ScanFrom(lines, row, 0, Scan(cols, nodes, startLoc, startLocs), part2)
    {
      var line := lines[row];
      if cols == 0 {
        cols := |line|;
      }
      for col := 0 to |line|
        invariant cols != 0 || |line| == 0
        invariant ReadMap(lines, part2) == ScanFrom(lines, row, col, Scan(cols, nodes, startLoc, startLocs), part2)
      {
        var c := line[col];
        var nodeType := Kind(c, part2);
        var node := NewNode(row, col, c, nodeType);
        if node.Panic? {
          return Panic(node.reason);
        }
        if nodeType == Start {
          if part2 {
            startLocs := startLocs + [(row, col)];
          } else {
            startLoc := (row, col);
          }
        }
        nodes := nodes + [node.value];
      }
    }
    return Ok(Scan(cols, nodes, startLoc, startLocs));
  }

  // ---------------------------------------------------------------------------
  // What the reading loops establish
  // ---------------------------------------------------------------------------

  /** (`r`, `c`) is a cell of the map whose character makes a start. */
  predicate StartCell(lines: seq<string>, r: nat, c: nat, part2: bool) {
    r < |lines| && c < |lines[r]| && Kind(lines[r][c], part2) == Start
  }

  /** (`r`, `c`) comes no later than (`r'`, `c'`) in reading order. */
  predicate NoLater(r: nat, c: nat, r': nat, c': nat) {
    r < r' || (r == r' && c <= c')
  }

  /** Every start part 2 records is a start cell. */
  lemma {:induction false} ScanStartsAreCells(lines: seq<string>, row: nat, col: nat, st: Scan)
    requires forall k | 0 <= k < |st.startLocs| :: StartCell(lines, st.startLocs[k].0, st.startLocs[k].1, true)
    ensures var m := ScanFrom(lines, row, col, st, true);
      m.Ok? ==> forall k | 0 <= k < |m.value.startLocs| :: StartCell(lines, m.value.startLocs[k].0, m.value.startLocs[k].1, true)
    decreases |lines| - row, if row < |lines| then |lines[row]| - col else 0
  {
    if row < |lines| {
      var st1 := if st.cols == 0 then st.(cols := |lines[row]|) else st;
      if col >= |lines[row]| {
        ScanStartsAreCells(lines, row + 1, 0, st1);
      } else {
        var st2 := ScanChar(st1, row, col, lines[row][col], true);
        if st2.Ok? {
          var s := st2.value;
          assert s.startLocs == st.startLocs || s.startLocs == st.startLocs + [(row, col)];
          forall k | 0 <= k < |s.startLocs| ensures StartCell(lines, s.startLocs[k].0, s.startLocs[k].1, true) {
            if k < |st.startLocs| {
              assert s.startLocs[k] == st.startLocs[k];
            }
          }
          ScanStartsAreCells(lines, row, col + 1, s);
        }
      }
    }
  }

  /** Part 2 records every start cell. */
  lemma {:induction false} ScanStartsComplete(lines: seq<string>, row: nat, col: nat, st: Scan)
    requires forall r: nat, c: nat | StartCell(lines, r, c, true) && (r < row || (r == row && c < col)) :: (r, c) in st.startLocs
    ensures var m := ScanFrom(lines, row, col, st, true);
      m.Ok? ==> forall r: nat, c: nat | StartCell(lines, r, c, true) :: (r, c) in m.value.startLocs
    decreases |lines| - row, if row < |lines| then |lines[row]| - col else 0
  {
    if row < |lines| {
      var st1 := if st.cols == 0 then st.(cols := |lines[row]|) else st;
      if col >= |lines[row]| {
        ScanStartsComplete(lines, row + 1, 0, st1);
      } else {
        var st2 := ScanChar(st1, row, col, lines[row][col], true);
        if st2.Ok? {
          ScanStartsComplete(lines, row, col + 1, st2.value);
        }
      }
    }
  }

  /** Part 1's start is the last start cell in reading order, or (0, 0) when there is none. */
  lemma {:induction false} ScanLastStart(lines: seq<string>, row: nat, col: nat, st: Scan)
    requires st.startLoc == (0, 0) || StartCell(lines, st.startLoc.0, st.startLoc.1, false)
    requires forall r: nat, c: nat | StartCell(lines, r, c, false) && (r < row || (r == row && c < col)) ::
      NoLater(r, c, st.startLoc.0, st.startLoc.1)
    ensures var m := ScanFrom(lines, row, col, st, false);
      m.Ok? ==>
        (m.value.startLoc == (0, 0) || StartCell(lines, m.value.startLoc.0, m.value.startLoc.1, false)) &&
        (forall r: nat, c: nat | StartCell(lines, r, c, false) :: NoLater(r, c, m.value.startLoc.0, m.value.startLoc.1))
    decreases |lines| - row, if row < |lines| then |lines[row]| - col else 0
  {
    if row < |lines| {
      var st1 := if st.cols == 0 then st.(cols := |lines[row]|) else st;
      if col >= |lines[row]| {
        ScanLastStart(lines, row + 1, 0, st1);
      } else {
        var st2 := ScanChar(st1, row, col, lines[row][col], false);
        if st2.Ok? {
          ScanLastStart(lines, row, col + 1, st2.value);
        }
      }
    }
  }

  /** Every line of the map has width `w`. */
  predicate Rectangular(lines: seq<string>, w: nat) {
    forall r | 0 <= r < |lines| :: |lines[r]| == w
  }

  /** The node at index `r * w + c` is the one built from the character at (`r`, `c`). */
  predicate HoldsCell(lines: seq<string>, nodes: seq<Node>, w: nat, r: nat, c: nat, part2: bool)
    requires r < |lines| && c < |lines[r]|
  {
    r * w + c < |nodes| && NewNode(r, c, lines[r][c], Kind(lines[r][c], part2)) == Ok(nodes[r * w + c])
  }

  lemma {:induction false} IndexBefore(r: nat, c: nat, row: nat, col: nat, w: nat)
    requires c < w && (r < row || (r == row && c < col))
    ensures r * w + c < row * w + col
  {
    if r < row {
      MulMono(r + 1, row, w);
    }
  }

  /** Pushing the node of cell (`row`, `col`) at index `row * w + col` keeps every earlier cell in place. */
  lemma {:induction false} PlacesStep(lines: seq<string>, w: nat, row: nat, col: nat, st: Scan, s: Scan, part2: bool)
    requires Rectangular(lines, w) && row < |lines| && col < w
    requires |st.nodes| == row * w + col
    requires forall r: nat, c: nat | r < |lines| && c < w && (r < row || (r == row && c < col)) ::
      HoldsCell(lines, st.nodes, w, r, c, part2)
    requires NewNode(row, col, lines[row][col], Kind(lines[row][col], part2)).Ok?
    requires s.nodes == st.nodes + [NewNode(row, col, lines[row][col], Kind(lines[row][col], part2)).value]
    ensures forall r: nat, c: nat | r < |lines| && c < w && (r < row || (r == row && c < col + 1)) ::
      HoldsCell(lines, s.nodes, w, r, c, part2)
  {
    forall r: nat, c: nat | r < |lines| && c < w && (r < row || (r == row && c < col + 1))
      ensures HoldsCell(lines, s.nodes, w, r, c, part2)
    {
      if r < row || c < col {
        IndexBefore(r, c, row, col, w);
        assert HoldsCell(lines, st.nodes, w, r, c, part2);
        assert s.nodes[r * w + c] == st.nodes[r * w + c];
      } else {
        assert r == row && c == col && r * w + c == |st.nodes|;
      }
    }
  }

  lemma {:induction false} ScanPlaces(lines: seq<string>, w: nat, row: nat, col: nat, st: Scan, part2: bool)
    requires Rectangular(lines, w)
    requires row <= |lines| && col <= w && (row == |lines| ==> col == 0)
    requires st.cols == 0 || st.cols == w
    requires row > 0 ==> st.cols == w
    requires |st.nodes| == row * w + col
    requires forall r: nat, c: nat | r < |lines| && c < w && (r < row || (r == row && c < col)) ::
      HoldsCell(lines, st.nodes, w, r, c, part2)
    ensures var m := ScanFrom(lines, row, col, st, part2);
      m.Ok? ==>
        (|lines| > 0 ==> m.value.cols == w) && |m.value.nodes| == |lines| * w &&
        forall r: nat, c: nat | r < |lines| && c < w :: HoldsCell(lines, m.value.nodes, w, r, c, part2)
    decreases |lines| - row, if row < |lines| then |lines[row]| - col else 0
  {
    if row < |lines| {
      var st1 := if st.cols == 0 then st.(cols := |lines[row]|) else st;
      if col >= |lines[row]| {
        assert (row + 1) * w == row * w + w;
        ScanPlaces(lines, w, row + 1, 0, st1, part2);
      } else {
        var st2 := ScanChar(st1, row, col, lines[row][col], part2);
        if st2.Ok? {
          PlacesStep(lines, w, row, col, st, st2.value, part2);
          ScanPlaces(lines, w, row, col + 1, st2.value, part2);
        }
      }
    } else {
      assert |lines| * w == row * w;
    }
  }

  /**
   * On a rectangular map of width `w` the nodes are laid out row by row: the
   * width read is `w` and cell (r, c) is node `r * w + c`, which is what the
   * neighbour indices assume.
   */
  lemma {:induction false} RectangularLayout(lines: seq<string>, w: nat, part2: bool)
    requires Rectangular(lines, w)
    ensures var m := ReadMap(lines, part2);
      m.Ok? ==>
        (|lines| > 0 ==> m.value.cols == w) && |m.value.nodes| == |lines| * w &&
        forall r: nat, c: nat | r < |lines| && c < w :: HoldsCell(lines, m.value.nodes, w, r, c, part2)
  {
    ScanPlaces(lines, w, 0, 0, NoScan, part2);
  }

  /** The starts `part2` seeds the stack with are exactly its `S` and `a` cells. */
  lemma {:induction false} Part2Starts(lines: seq<string>)
    ensures var m := ReadMap(lines, true);
      m.Ok? ==>
        (forall k | 0 <= k < |m.value.startLocs| :: StartCell(lines, m.value.startLocs[k].0, m.value.startLocs[k].1, true)) &&
        (forall r: nat, c: nat | StartCell(lines, r, c, true) :: (r, c) in m.value.startLocs)
  {
    assert ReadMap(lines, true) == ScanFrom(lines, 0, 0, NoScan, true);
    ScanStartsAreCells(lines, 0, 0, NoScan);
    ScanStartsComplete(lines, 0, 0, NoScan);
  }

  /** The start `part1` seeds the stack with is its last `S` cell, or (0, 0) when there is none. */
  lemma {:induction false} Part1Start(lines: seq<string>)
    ensures var m := ReadMap(lines, false);
      m.Ok? ==>
        (m.value.startLoc == (0, 0) || StartCell(lines, m.value.startLoc.0, m.value.startLoc.1, false)) &&
        (forall r: nat, c: nat | StartCell(lines, r, c, false) :: NoLater(r, c, m.value.startLoc.0, m.value.startLoc.1))
  {
    ScanLastStart(lines, 0, 0, NoScan);
  }

  // ---------------------------------------------------------------------------
  // Moves
  // ---------------------------------------------------------------------------

  /** The cells above, below, left of and right of (`row`, `col`), where `checked_sub` does not underflow. */
  function Candidates(row: nat, col: nat): seq<Option<(nat, nat)>> {
    [if row > 0 then Some((row - 1, col)) else None,
     Some((row + 1, col)),
     if col > 0 then Some((row, col - 1)) else None,
     Some((row, col + 1))]
  }

  /** A candidate kept by the bounds filter, as the node index `r * cols + c`. */
  function InGrid(cand: Option<(nat, nat)>, rows: nat, cols: nat): seq<nat> {
    match cand
    case Some((r, c)) => if r < rows && c < cols then [r * cols + c] else []
    case None => []
  }

  /** The node indices a search from (`row`, `col`) considers, in the order above, below, left, right. */
  function Neighbours(row: nat, col: nat, rows: nat, cols: nat): seq<nat> {
    var cands := Candidates(row, col);
    InGrid(cands[0], rows, cols) + InGrid(cands[1], rows, cols) + InGrid(cands[2], rows, cols) + InGrid(cands[3], rows, cols)
  }

  /** (`r`, `c`) is one of the four cells next to (`row`, `col`). */
  predicate Adjacent(row: nat, col: nat, r: nat, c: nat) {
    (r == row && (c + 1 == col || c == col + 1)) || (c == col && (r + 1 == row || r == row + 1))
  }

  /** Every neighbour is the index of an adjacent cell inside the grid. */
  lemma {:induction false} NeighbourIsAdjacent(row: nat, col: nat, rows: nat, cols: nat, i: nat)
    requires i in Neighbours(row, col, rows, cols)
    ensures exists r: nat, c: nat :: r < rows && c < cols && Adjacent(row, col, r, c) && i == r * cols + c
  {
    var cands := Candidates(row, col);
    if i in InGrid(cands[0], rows, cols) {
      assert Adjacent(row, col, row - 1, col);
    } else if i in InGrid(cands[1], rows, cols) {
      assert Adjacent(row, col, row + 1, col);
    } else if i in InGrid(cands[2], rows, cols) {
      assert Adjacent(row, col, row, col - 1);
    } else {
      assert Adjacent(row, col, row, col + 1);
    }
  }

  /** And every adjacent cell inside the grid is a neighbour. */
  lemma {:induction false} AdjacentIsNeighbour(row: nat, col: nat, rows: nat, cols: nat, r: nat, c: nat)
    requires r < rows && c < cols && Adjacent(row, col, r, c)
    ensures r * cols + c in Neighbours(row, col, rows, cols)
  {
    var cands := Candidates(row, col);
    if r + 1 == row {
      assert InGrid(cands[0], rows, cols) == [r * cols + c];
    } else if r == row + 1 {
      assert InGrid(cands[1], rows, cols) == [r * cols + c];
    } else if c + 1 == col {
      assert InGrid(cands[2], rows, cols) == [r * cols + c];
    } else {
      assert InGrid(cands[3], rows, cols) == [r * cols + c];
    }
  }

  /** `less_depth`: the node is unvisited, or was visited deeper than one step below `depth`. */
  predicate LessDepth(mark: Option<nat>, depth: nat) {
    mark.None? || mark.value > depth + 1
  }

  /**
   * The `filter` that picks the neighbours to branch into: those not yet
   * reached as cheaply and reachable from `from`; a neighbour index past the
   * nodes panics.
   */
  function Branches(g: seq<Node>, visited: seq<Option<nat>>, from: Node, depth: nat, cands: seq<nat>): (r: Outcome<seq<nat>>)
    requires |visited| == |g|
    ensures r.Ok? <==> forall k | 0 <= k < |cands| :: cands[k] < |g|
    ensures r.Ok? ==> forall k | 0 <= k < |r.value| ::
      r.value[k] in cands && r.value[k] < |g| && LessDepth(visited[r.value[k]], depth) && CanTraverseTo(from, g[r.value[k]])
    ensures r.Panic? ==> r.reason == INDEX_OUT_OF_BOUNDS
    ensures r.Ok? ==> forall k | 0 <= k < |cands| ::
      (LessDepth(visited[cands[k]], depth) && CanTraverseTo(from, g[cands[k]])) ==> cands[k] in r.value
    decreases |cands|
  {
    if |cands| == 0 then Ok([])
    else if cands[0] >= |g| then Panic(INDEX_OUT_OF_BOUNDS)
    else
      var rest :- Branches(g, visited, from, depth, cands[1..]);
      assert forall k | 0 <= k < |cands[1..]| :: cands[1..][k] == cands[k + 1];
      var i := cands[0];
      Ok(if LessDepth(visited[i], depth) && CanTraverseTo(from, g[i]) then [i] + rest else rest)
  }

  /** A legal step from node `i` to node `j`: `j` is one of `i`'s neighbours and no more than one unit higher. */
  predicate Step(g: seq<Node>, rows: nat, cols: nat, i: nat, j: nat) {
    i < |g| && j < |g| && j in Neighbours(g[i].row, g[i].col, rows, cols) && CanTraverseTo(g[i], g[j])
  }

  /** `p` is a route of exactly `d` legal steps from one of the `starts`. */
  predicate Walk(g: seq<Node>, rows: nat, cols: nat, starts: seq<nat>, p: seq<nat>, d: nat) {
    |p| == d + 1 && p[0] in starts && forall k | 0 <= k < d :: Step(g, rows, cols, p[k], p[k + 1])
  }

  lemma {:induction false} WalkExtend(g: seq<Node>, rows: nat, cols: nat, starts: seq<nat>, p: seq<nat>, d: nat, j: nat)
    requires Walk(g, rows, cols, starts, p, d) && Step(g, rows, cols, p[d], j)
    ensures Walk(g, rows, cols, starts, p + [j], d + 1)
  {
    var q := p + [j];
    forall k | 0 <= k < d + 1 ensures Step(g, rows, cols, q[k], q[k + 1]) {
      if k < d {
        assert q[k] == p[k] && q[k + 1] == p[k + 1];
      }
    }
  }

  // ---------------------------------------------------------------------------
  // The search
  // ---------------------------------------------------------------------------

  /** Every stack entry (i, d) is reached by its route: `d` legal steps from a start to node `i`. */
  predicate Routed(g: seq<Node>, rows: nat, cols: nat, starts: seq<nat>, stack: seq<(nat, nat)>, paths: seq<seq<nat>>) {
    |paths| == |stack| &&
    forall j | 0 <= j < |stack| :: Walk(g, rows, cols, starts, paths[j], stack[j].1) && paths[j][stack[j].1] == stack[j].0
  }

  lemma {:induction false} RoutedPush(g: seq<Node>, rows: nat, cols: nat, starts: seq<nat>,
                                      stack: seq<(nat, nat)>, paths: seq<seq<nat>>, entry: (nat, nat), path: seq<nat>)
    requires Routed(g, rows, cols, starts, stack, paths)
    requires Walk(g, rows, cols, starts, path, entry.1) && path[entry.1] == entry.0
    ensures Routed(g, rows, cols, starts, stack + [entry], paths + [path])
  {
    var stack', paths' := stack + [entry], paths + [path];
    forall j | 0 <= j < |stack'|
      ensures Walk(g, rows, cols, starts, paths'[j], stack'[j].1) && paths'[j][stack'[j].1] == stack'[j].0
    {
      if j < |stack| {
        assert stack'[j] == stack[j] && paths'[j] == paths[j];
      }
    }
  }

  lemma {:induction false} RoutedPop(g: seq<Node>, rows: nat, cols: nat, starts: seq<nat>, stack: seq<(nat, nat)>, paths: seq<seq<nat>>)
    requires Routed(g, rows, cols, starts, stack, paths) && |stack| > 0
    ensures var n := |stack| - 1;
      Routed(g, rows, cols, starts, stack[..n], paths[..n]) &&
      Walk(g, rows, cols, starts, paths[n], stack[n].1) && paths[n][stack[n].1] == stack[n].0
  {
    var n := |stack| - 1;
    forall j | 0 <= j < n
      ensures Walk(g, rows, cols, starts, paths[..n][j], stack[..n][j].1) && paths[..n][j][stack[..n][j].1] == stack[..n][j].0
    {
      assert stack[..n][j] == stack[j] && paths[..n][j] == paths[j];
    }
  }

  /** The entries the branches are pushed as, one step deeper than `depth`. */
  function Deeper(branches: seq<nat>, depth: nat): (r: seq<(nat, nat)>)
    ensures |r| == |branches|
  {
    if |branches| == 0 then []
    else Deeper(branches[..|branches| - 1], depth) + [(branches[|branches| - 1], depth + 1)]
  }

  /** The visit marks after each branch is marked with `depth`, in order. */
  function Marked(visited: seq<Option<nat>>, branches: seq<nat>, depth: nat): (r: seq<Option<nat>>)
    requires forall k | 0 <= k < |branches| :: branches[k] < |visited|
    ensures |r| == |visited|
  {
    if |branches| == 0 then visited
    else Marked(visited, branches[..|branches| - 1], depth)[branches[|branches| - 1] := Some(depth)]
  }

  /** Each branch is marked with `depth`; every other node keeps its mark. */
  lemma {:induction false} MarkedAt(visited: seq<Option<nat>>, branches: seq<nat>, depth: nat, i: nat)
    requires forall k | 0 <= k < |branches| :: branches[k] < |visited|
    requires i < |visited|
    ensures Marked(visited, branches, depth)[i] == if i in branches then Some(depth) else visited[i]
  {
    if |branches| > 0 {
      var init := branches[..|branches| - 1];
      MarkedAt(visited, init, depth, i);
      assert branches == init + [branches[|branches| - 1]];
      assert i in branches <==> i in init || i == branches[|branches| - 1];
    }
  }

  /** Each pushed entry is the branch and one step deeper. */
  lemma {:induction false} DeeperAt(branches: seq<nat>, depth: nat, k: nat)
    requires k < |branches|
    ensures Deeper(branches, depth)[k] == (branches[k], depth + 1)
  {
    if k < |branches| - 1 {
      DeeperAt(branches[..|branches| - 1], depth, k);
    }
  }

  /**
   * The `for ni in neighbor_indices` loop: each branch is marked with the
   * depth of the node it was reached from and pushed one step deeper.
   */
  method PushBranches(visited: array<Option<nat>>, branches: seq<nat>, depth: nat, stack: seq<(nat, nat)>,
                      ghost g: seq<Node>, ghost rows: nat, ghost cols: nat, ghost starts: seq<nat>,
                      ghost paths: seq<seq<nat>>, ghost path: seq<nat>)
    returns (stack': seq<(nat, nat)>, ghost paths': seq<seq<nat>>)
    requires visited.Length == |g|
    requires Routed(g, rows, cols, starts, stack, paths)
    requires Walk(g, rows, cols, starts, path, depth)
    requires forall k | 0 <= k < |branches| :: branches[k] < |g| && Step(g, rows, cols, path[depth], branches[k])
    modifies visited
    ensures Routed(g, rows, cols, starts, stack', paths')
    ensures stack' == stack + Deeper(branches, depth)
    ensures visited[..] == Marked(old(visited[..]), branches, depth)
  {
    stack', paths' := stack, paths;
    for k := 0 to |branches|
      invariant Routed(g, rows, cols, starts, stack', paths')
      invariant stack' == stack + Deeper(branches[..k], depth)
      invariant visited[..] == Marked(old(visited[..]), branches[..k], depth)
    {
      var next := branches[k];
      assert branches[..k + 1][..k] == branches[..k];
      visited[next] := Some(depth);
      WalkExtend(g, rows, cols, starts, path, depth, next);
      var entry: (nat, nat) := (next, depth + 1);
      RoutedPush(g, rows, cols, starts, stack', paths', entry, path + [next]);
      stack' := stack' + [entry];
      paths' := paths' + [path + [next]];
    }
    assert branches[..|branches|] == branches;
  }

  /** The search's state between pops: the stack, every node's visit mark and the best depth so far. */
  datatype Frame = Frame(stack: seq<(nat, nat)>, marks: seq<Option<nat>>, answer: nat)

  /** How a search ends: with an answer, with a panic, or (in the model only) when its fuel runs out. */
  datatype Climb = Reached(answer: nat) | Crashed(reason: string) | OutOfFuel

  /** Each start pushed at depth 0, in order. */
  function Seeds(starts: seq<nat>): (r: seq<(nat, nat)>)
    ensures |r| == |starts|
  {
    if |starts| == 0 then []
    else Seeds(starts[..|starts| - 1]) + [(starts[|starts| - 1], 0)]
  }

  /** The state before the first pop: the seeded stack, no node visited and `usize::MAX` as the answer. */
  function Initial(g: seq<Node>, starts: seq<nat>): Frame {
    Frame(Seeds(starts), seq(|g|, _ => None), USIZE_MAX)
  }

  /** The stack entry (i, d) is an `E` cell. */
  predicate IsEnd(g: seq<Node>, e: (nat, nat)) {
    e.0 < |g| && g[e.0].nodeType == End
  }

  /**
   * One turn of the `while` loop: pop the top entry; skip it when it is
   * deeper than the answer; mark its node with its depth (an index past the
   * nodes panics); at an `E` cell lower the answer to its depth, elsewhere
   * mark the branches with the depth and push them one step deeper.
   */
  function Pop(g: seq<Node>, rows: nat, cols: nat, f: Frame): (r: Outcome<Frame>)
    requires |f.stack| > 0 && |f.marks| == |g|
    ensures r.Ok? ==> |r.value.marks| == |g|
  {
    var top := f.stack[|f.stack| - 1];
    var rest := f.stack[..|f.stack| - 1];
    if top.1 > f.answer then Ok(f.(stack := rest))
    else if top.0 >= |g| then Panic(INDEX_OUT_OF_BOUNDS)
    else
      var marks := f.marks[top.0 := Some(top.1)];
      var node := g[top.0];
      if node.nodeType == End then Ok(Frame(rest, marks, if top.1 < f.answer then top.1 else f.answer))
      else
        var branches :- Branches(g, marks, node, top.1, Neighbours(node.row, node.col, rows, cols));
        Ok(Frame(rest + Deeper(branches, top.1), Marked(marks, branches, top.1), f.answer))
  }

  /** The `while !stack.is_empty()` loop from state `f`, for at most `fuel` turns. */
  function SearchFrom(g: seq<Node>, rows: nat, cols: nat, f: Frame, fuel: nat): Climb
    requires |f.marks| == |g|
    decreases fuel
  {
    if |f.stack| == 0 then Reached(f.answer)
    else if fuel == 0 then OutOfFuel
    else
      match Pop(g, rows, cols, f)
      case Panic(reason) => Crashed(reason)
      case Ok(next) => SearchFrom(g, rows, cols, next, fuel - 1)
  }

  /** A turn that panics ends the search with that panic. */
  lemma Halt(g: seq<Node>, rows: nat, cols: nat, f: Frame, fuel: nat)
    requires |f.marks| == |g| && |f.stack| > 0 && fuel > 0
    ensures Pop(g, rows, cols, f).Panic? ==> SearchFrom(g, rows, cols, f, fuel) == Crashed(Pop(g, rows, cols, f).reason)
  {
  }

  /** A turn that leaves state `after` hands the rest of the search on to it. */
  lemma Resume(g: seq<Node>, rows: nat, cols: nat, f: Frame, fuel: nat, after: Frame)
    requires |f.marks| == |g| && |f.stack| > 0 && fuel > 0
    requires Pop(g, rows, cols, f) == Ok(after)
    ensures |after.marks| == |g|
    ensures SearchFrom(g, rows, cols, after, fuel - 1) == SearchFrom(g, rows, cols, f, fuel)
  {
  }

  /** The entries the search pops from state `f`, in order (the last one is the one that panicked, if any). */
  function Popped(g: seq<Node>, rows: nat, cols: nat, f: Frame, fuel: nat): seq<(nat, nat)>
    requires |f.marks| == |g|
    decreases fuel
  {
    if |f.stack| == 0 || fuel == 0 then []
    else
      match Pop(g, rows, cols, f)
      case Panic(_) => [f.stack[|f.stack| - 1]]
      case Ok(next) => [f.stack[|f.stack| - 1]] + Popped(g, rows, cols, next, fuel - 1)
  }

  /** An entry deeper than the answer is dropped: nothing is marked, pushed or changed but the stack losing it. */
  lemma Pruned(g: seq<Node>, rows: nat, cols: nat, f: Frame)
    requires |f.stack| > 0 && |f.marks| == |g|
    requires f.stack[|f.stack| - 1].1 > f.answer
    ensures Pop(g, rows, cols, f) == Ok(Frame(f.stack[..|f.stack| - 1], f.marks, f.answer))
  {
  }

  /**
   * A turn panics exactly when the entry is not pruned and either its index
   * is past the nodes or, away from an `E` cell, one of its neighbour
   * indices is; the panic is always an index out of bounds.
   */
  lemma PopPanics(g: seq<Node>, rows: nat, cols: nat, f: Frame)
    requires |f.stack| > 0 && |f.marks| == |g|
    ensures var top := f.stack[|f.stack| - 1];
      Pop(g, rows, cols, f).Panic? <==>
        top.1 <= f.answer &&
        (top.0 >= |g| ||
         (g[top.0].nodeType != End &&
          exists k | 0 <= k < |Neighbours(g[top.0].row, g[top.0].col, rows, cols)| ::
            Neighbours(g[top.0].row, g[top.0].col, rows, cols)[k] >= |g|))
    ensures Pop(g, rows, cols, f).Panic? ==> Pop(g, rows, cols, f).reason == INDEX_OUT_OF_BOUNDS
  {
  }

  /**
   * A turn keeps the rest of the stack and pushes only legal steps from the
   * popped node, one step deeper; it pushes anything only for an entry no
   * deeper than the answer and not at an `E` cell.
   */
  lemma PopPushes(g: seq<Node>, rows: nat, cols: nat, f: Frame)
    requires |f.stack| > 0 && |f.marks| == |g|
    ensures var top, rest, r := f.stack[|f.stack| - 1], f.stack[..|f.stack| - 1], Pop(g, rows, cols, f);
      r.Ok? ==>
        |rest| <= |r.value.stack| && r.value.stack[..|rest|] == rest &&
        (|r.value.stack| > |rest| ==> top.1 <= f.answer && top.0 < |g| && !IsEnd(g, top)) &&
        forall k | |rest| <= k < |r.value.stack| ::
          r.value.stack[k].1 == top.1 + 1 && Step(g, rows, cols, top.0, r.value.stack[k].0)
  {
    var top, rest, r := f.stack[|f.stack| - 1], f.stack[..|f.stack| - 1], Pop(g, rows, cols, f);
    if r.Ok? && top.1 <= f.answer && top.0 < |g| && !IsEnd(g, top) {
      var node := g[top.0];
      var marks := f.marks[top.0 := Some(top.1)];
      var branches := Branches(g, marks, node, top.1, Neighbours(node.row, node.col, rows, cols)).value;
      assert r.value.stack == rest + Deeper(branches, top.1);
      forall k | |rest| <= k < |r.value.stack|
        ensures r.value.stack[k].1 == top.1 + 1 && Step(g, rows, cols, top.0, r.value.stack[k].0)
      {
        DeeperAt(branches, top.1, k - |rest|);
      }
    }
  }

  /** An `E` entry no deeper than the answer lowers the answer to its depth if it is less; no other turn changes it. */
  lemma PopAnswer(g: seq<Node>, rows: nat, cols: nat, f: Frame)
    requires |f.stack| > 0 && |f.marks| == |g|
    ensures var top, r := f.stack[|f.stack| - 1], Pop(g, rows, cols, f);
      r.Ok? ==> r.value.answer == if IsEnd(g, top) && top.1 < f.answer then top.1 else f.answer
  {
  }

  /**
   * `answer` is the least of `from` and the depths of the `E` entries in
   * `popped`.
   */
  predicate LeastEnd(g: seq<Node>, popped: seq<(nat, nat)>, from: nat, answer: nat) {
    && answer <= from
    && (forall k | 0 <= k < |popped| :: IsEnd(g, popped[k]) ==> answer <= popped[k].1)
    && (answer == from || exists k | 0 <= k < |popped| :: IsEnd(g, popped[k]) && popped[k].1 == answer)
  }

  /** The least over an entry followed by more entries: the entry lowers `from` first. */
  lemma LeastEndCons(g: seq<Node>, top: (nat, nat), popped: seq<(nat, nat)>, from: nat, answer: nat)
    requires LeastEnd(g, popped, if IsEnd(g, top) && top.1 < from then top.1 else from, answer)
    ensures LeastEnd(g, [top] + popped, from, answer)
  {
    var p := [top] + popped;
    forall k | 0 <= k < |p| && IsEnd(g, p[k]) ensures answer <= p[k].1 {
      if k > 0 {
        assert p[k] == popped[k - 1];
      }
    }
    if answer != from && answer != (if IsEnd(g, top) && top.1 < from then top.1 else from) {
      var k :| 0 <= k < |popped| && IsEnd(g, popped[k]) && popped[k].1 == answer;
      assert p[k + 1] == popped[k];
    } else if answer != from {
      assert p[0] == top;
    }
  }

  /**
   * The answer the search reaches is the least of the answer it started
   * with and the depths of the `E` entries it popped (from the initial state,
   * of `usize::MAX` and those depths).
   */
  lemma {:induction false} SearchAnswer(g: seq<Node>, rows: nat, cols: nat, f: Frame, fuel: nat)
    requires |f.marks| == |g|
    ensures var r := SearchFrom(g, rows, cols, f, fuel);
      r.Reached? ==> LeastEnd(g, Popped(g, rows, cols, f, fuel), f.answer, r.answer)
    decreases fuel
  {
    if |f.stack| > 0 && fuel > 0 && Pop(g, rows, cols, f).Ok? {
      var next := Pop(g, rows, cols, f).value;
      PopAnswer(g, rows, cols, f);
      SearchAnswer(g, rows, cols, next, fuel - 1);
      if SearchFrom(g, rows, cols, next, fuel - 1).Reached? {
        LeastEndCons(g, f.stack[|f.stack| - 1], Popped(g, rows, cols, next, fuel - 1), f.answer, SearchFrom(g, rows, cols, next, fuel - 1).answer);
      }
    }
  }

  /** A cell inside a grid of `rows` rows and `cols` columns has an index below `rows * cols`. */
  lemma IndexInGrid(r: nat, c: nat, rows: nat, cols: nat)
    requires r < rows && c < cols
    ensures r * cols + c < rows * cols
  {
    assert rows * cols - (r + 1) * cols == (rows - r - 1) * cols;
  }

  /** Every neighbour index lies below `rows * cols`. */
  lemma NeighboursInGrid(row: nat, col: nat, rows: nat, cols: nat)
    ensures forall k | 0 <= k < |Neighbours(row, col, rows, cols)| :: Neighbours(row, col, rows, cols)[k] < rows * cols
  {
    var ns := Neighbours(row, col, rows, cols);
    forall k | 0 <= k < |ns| ensures ns[k] < rows * cols {
      var i := ns[k];
      NeighbourIsAdjacent(row, col, rows, cols, i);
      var r: nat, c: nat :| r < rows && c < cols && Adjacent(row, col, r, c) && i == r * cols + c;
      IndexInGrid(r, c, rows, cols);
    }
  }

  /** Every stack entry names a node. */
  predicate OnMap(g: seq<Node>, stack: seq<(nat, nat)>) {
    forall k | 0 <= k < |stack| :: stack[k].0 < |g|
  }

  /**
   * On a map of exactly `rows * cols` nodes, a search whose stack names only
   * nodes never panics.
   */
  lemma {:induction false} SearchSafe(g: seq<Node>, rows: nat, cols: nat, f: Frame, fuel: nat)
    requires |f.marks| == |g| && |g| == rows * cols && OnMap(g, f.stack)
    ensures !SearchFrom(g, rows, cols, f, fuel).Crashed?
    decreases fuel
  {
    if |f.stack| > 0 && fuel > 0 {
      var top := f.stack[|f.stack| - 1];
      if top.1 <= f.answer && top.0 < |g| && g[top.0].nodeType != End {
        NeighboursInGrid(g[top.0].row, g[top.0].col, rows, cols);
      }
      PopPanics(g, rows, cols, f);
      PopPushes(g, rows, cols, f);
      var next := Pop(g, rows, cols, f).value;
      assert OnMap(g, next.stack) by {
        forall k | 0 <= k < |next.stack| ensures next.stack[k].0 < |g| {
          if k < |f.stack| - 1 {
            assert next.stack[k] == f.stack[..|f.stack| - 1][k];
          }
        }
      }
      SearchSafe(g, rows, cols, next, fuel - 1);
    }
  }

  /**
   * The search's state: `answer` is at most `usize::MAX` and below it is the
   * length of `route`, a legal route to an `E` cell.
   */
  ghost predicate Best(g: seq<Node>, rows: nat, cols: nat, starts: seq<nat>, answer: nat, route: seq<nat>) {
    && answer <= USIZE_MAX
    && (answer < USIZE_MAX ==>
          Walk(g, rows, cols, starts, route, answer) && route[answer] < |g| && g[route[answer]].nodeType == End)
  }

  /**
   * The `while !stack.is_empty()` loop, seeded with every start at depth 0:
   * it ends as `SearchFrom` says from the initial state, and an answer below
   * `usize::MAX` is the length of a legal route from a start to an `E` cell
   * (not necessarily the shortest one).
   */
  method Search(g: seq<Node>, rows: nat, cols: nat, starts: seq<nat>, fuel: nat)
    returns (r: Climb, ghost route: seq<nat>)
    ensures r == SearchFrom(g, rows, cols, Initial(g, starts), fuel)
    ensures r.Reached? && r.answer < USIZE_MAX ==>
      Walk(g, rows, cols, starts, route, r.answer) && route[r.answer] < |g| && g[route[r.answer]].nodeType == End
  {
    var stack: seq<(nat, nat)> := [];
    ghost var paths: seq<seq<nat>> := [];
    for k := 0 to |starts|
      invariant Routed(g, rows, cols, starts, stack, paths)
      invariant stack == Seeds(starts[..k])
    {
      assert starts[k] in starts;
      assert starts[..k + 1][..k] == starts[..k];
      RoutedPush(g, rows, cols, starts, stack, paths, (starts[k], 0), [starts[k]]);
      stack := stack + [(starts[k], 0)];
      paths := paths + [[starts[k]]];
    }
    assert starts[..|starts|] == starts;
    var visited := new Option<nat>[|g|](_ => None);
    var answer: nat := USIZE_MAX;
    route := [];
    assert Frame(stack, visited[..], answer) == Initial(g, starts);
    var left: nat := fuel;
    while stack != []
      invariant visited.Length == |g|
      invariant Routed(g, rows, cols, starts, stack, paths)
      invariant Best(g, rows, cols, starts, answer, route)
      invariant SearchFrom(g, rows, cols, Frame(stack, visited[..], answer), left) == SearchFrom(g, rows, cols, Initial(g, starts), fuel)
      decreases left
    {
      if left == 0 {
        return OutOfFuel, route;
      }
      ghost var f := Frame(stack, visited[..], answer);
      Halt(g, rows, cols, f, left);
      left := left - 1;
      RoutedPop(g, rows, cols, starts, stack, paths);
      var (current, depth) := stack[|stack| - 1];
      ghost var path := paths[|paths| - 1];
      stack := stack[..|stack| - 1];
      paths := paths[..|paths| - 1];
      if depth > answer {
        Resume(g, rows, cols, f, left + 1, Frame(stack, visited[..], answer));
        continue;
      }
      if current >= visited.Length {
        return Crashed(INDEX_OUT_OF_BOUNDS), route;
      }
      visited[current] := Some(depth);
      var node := g[current];
      if node.nodeType == End {
        if depth < answer {
          answer := depth;
          route := path;
        }
        Resume(g, rows, cols, f, left + 1, Frame(stack, visited[..], answer));
        continue;
      }
      var branches := Branches(g, visited[..], node, depth, Neighbours(node.row, node.col, rows, cols));
      if branches.Panic? {
        return Crashed(branches.reason), route;
      }
      stack, paths := PushBranches(visited, branches.value, depth, stack, g, rows, cols, starts, paths, path);
      Resume(g, rows, cols, f, left + 1, Frame(stack, visited[..], answer));
    }
    return Reached(answer), route;
  }

  /** The stack's seeds as node indices: part 1's single start, or part 2's starts in order. */
  function StartIndices(st: Scan, part2: bool): seq<nat> {
    if part2 then seq(|st.startLocs|, k requires 0 <= k < |st.startLocs| => st.startLocs[k].0 * st.cols + st.startLocs[k].1)
    else [st.startLoc.0 * st.cols + st.startLoc.1]
  }

  /** Each seed is its start at depth 0. */
  lemma {:induction false} SeedsAt(starts: seq<nat>, k: nat)
    requires k < |starts|
    ensures Seeds(starts)[k] == (starts[k], 0)
  {
    if k < |starts| - 1 {
      SeedsAt(starts[..|starts| - 1], k);
    }
  }

  /**
   * On a non-empty rectangular map every seed names a node and the map has
   * exactly rows times columns nodes, so `part1` and `part2` never panic
   * once the map is read.
   */
  lemma SearchSafeOnRectangle(lines: seq<string>, w: nat, part2: bool, fuel: nat)
    requires Rectangular(lines, w) && |lines| > 0 && w > 0
    ensures var m := ReadMap(lines, part2);
      m.Ok? ==> !SearchFrom(m.value.nodes, |lines|, m.value.cols, Initial(m.value.nodes, StartIndices(m.value, part2)), fuel).Crashed?
  {
    var m := ReadMap(lines, part2);
    if m.Ok? {
      RectangularLayout(lines, w, part2);
      var g, starts := m.value.nodes, StartIndices(m.value, part2);
      if part2 {
        Part2Starts(lines);
      } else {
        Part1Start(lines);
      }
      forall k | 0 <= k < |starts| ensures starts[k] < |g| {
        var loc := if part2 then m.value.startLocs[k] else m.value.startLoc;
        IndexInGrid(loc.0, loc.1, |lines|, w);
      }
      forall k | 0 <= k < |starts| ensures Seeds(starts)[k].0 < |g| {
        SeedsAt(starts, k);
      }
      SearchSafe(g, |lines|, w, Initial(g, starts), fuel);
    }
  }

  /**
   * `part1` (`part2` when `part2`): read the map (as many rows as lines),
   * seed the stack and search. A panic while reading is the result;
   * otherwise the search ends as `SearchFrom` says, and an answer below
   * `usize::MAX` is the length of a legal route on the map read.
   */
  method Part(lines: seq<string>, part2: bool, fuel: nat) returns (r: Climb, ghost route: seq<nat>)
    ensures var m := ReadMap(lines, part2); m.Panic? ==> r.Crashed? && r.reason == m.reason
    ensures var m := ReadMap(lines, part2);
      m.Ok? ==> r == SearchFrom(m.value.nodes, |lines|, m.value.cols, Initial(m.value.nodes, StartIndices(m.value, part2)), fuel)
    ensures var m := ReadMap(lines, part2);
      r.Reached? && r.answer < USIZE_MAX ==>
        m.Ok? && Walk(m.value.nodes, |lines|, m.value.cols, StartIndices(m.value, part2), route, r.answer) &&
        route[r.answer] < |m.value.nodes| && m.value.nodes[route[r.answer]].nodeType == End
  {
    var m := ReadNodes(lines, part2);
    if m.Panic? {
      return Crashed(m.reason), [];
    }
    r, route := Search(m.value.nodes, |lines|, m.value.cols, StartIndices(m.value, part2), fuel);
  }
}
