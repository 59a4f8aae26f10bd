/**
 * Day 5: supply stacks. The input starts with a drawing of crate stacks,
 * one row per line, top row first, each stack four characters wide ("[X] ");
 * the first line holding a digit (the stack numbers) ends the drawing, and
 * the lines after it that start with 'm' are moves "move q from f to t"
 * with 1-based stack numbers. The CrateMover 9000 (part 1) lifts crates one
 * at a time, so a move reverses them; the CrateMover 9001 (part 2) lifts
 * them together. The answer is the top crate of every non-empty stack.
 */
module Day5 {
  import opened Common

  datatype Crate = Crate(letter: char)

  /** The stacks as values, bottom crate first. */
  type Stacks = seq<seq<Crate>>

  const SUBTRACT_OVERFLOW := "attempt to subtract with overflow"
  const INDEX_OUT_OF_BOUNDS := "index out of bounds"
  const UNWRAP_ERR := "called `Result::unwrap()` on an `Err` value"

  /** `s` back to front. */
  function Reversed<T>(s: seq<T>): (r: seq<T>)
    ensures |r| == |s|
    ensures forall i | 0 <= i < |s| :: r[i] == s[|s| - 1 - i]
  {
    if |s| == 0 then [] else [s[|s| - 1]] + Reversed(s[..|s| - 1])
  }

  /**
   * The crates a crane lifts off the top `n` of `stack`: the CrateMover 9000
   * delivers them top crate first, the CrateMover 9001 in their original order.
   */
  function Lifted(stack: seq<Crate>, n: nat, isCrateMover9001: bool): (x: seq<Crate>)
    requires n <= |stack|
    ensures |x| == n
    ensures isCrateMover9001 ==> forall i | 0 <= i < n :: x[i] == stack[|stack| - n + i]
    ensures !isCrateMover9001 ==> forall i | 0 <= i < n :: x[i] == stack[|stack| - 1 - i]
  {
    var top := stack[|stack| - n..];
    if isCrateMover9001 then top else Reversed(top)
  }

  /** A stack of crates, which a crane takes from and adds to in place. */
  class CrateStack {
    var crates: seq<Crate>

    constructor ()
      ensures crates == []
    {
      crates := [];
    }

    /**
     * `take`: split off the top `number` crates, reversing them unless the
     * crane is a CrateMover 9001; taking more crates than the stack holds
     * underflows `len - number`.
     */
    method Take(number: nat, isCrateMover9001: bool) returns (x: Outcome<seq<Crate>>)
      modifies this
      ensures number > |old(crates)| ==> x == Panic(SUBTRACT_OVERFLOW) && crates == old(crates)
      ensures number <= |old(crates)| ==> x.Ok? && x.value == Lifted(old(crates), number, isCrateMover9001)
      ensures number <= |old(crates)| ==> crates == old(crates)[..|old(crates)| - number]
    {
      if number > |crates| {
        return Panic(SUBTRACT_OVERFLOW);
      }
      var at := |crates| - number;
      var taken := crates[at..];
      crates := crates[..at];
      if !isCrateMover9001 {
        taken := Reversed(taken);
      }
      return Ok(taken);
    }

    /** `add`: the crates go on top, the first one lowest. */
    method Add(moved: seq<Crate>)
      modifies this
      ensures crates == old(crates) + moved
    {
      crates := crates + moved;
    }
  }

  /** No stack object appears twice. */
  predicate Distinct(stacks: seq<CrateStack>) {
    forall i, j | 0 <= i < j < |stacks| :: stacks[i] != stacks[j]
  }

  /** What the stack objects hold. */
  ghost function Contents(stacks: seq<CrateStack>): (r: Stacks)
    reads stacks
    ensures |r| == |stacks|
    ensures forall i | 0 <= i < |stacks| :: r[i] == stacks[i].crates
  {
    seq(|stacks|, i requires 0 <= i < |stacks| reads stacks => stacks[i].crates)
  }

  // ---------------------------------------------------------------------------
  // Drawing lines
  // ---------------------------------------------------------------------------

  /** The number of four-character columns a drawing line spans. */
  function Columns(line: string): nat {
    (|line| + 3) / 4
  }

  /** The crate drawn in column `k`, if any: "[X" at position 4k. */
  function DrawnAt(line: string, k: nat): seq<Crate> {
    if 4 * k + 1 < |line| && line[4 * k] == '[' then [Crate(line[4 * k + 1])] else []
  }

  /**
   * The drawing loop from column `k` on: column `k` gets a new empty stack if
   * there is none yet, and a '[' there puts the next character at the bottom
   * of that stack; a '[' that ends the line has no letter after it.
   */
  function DrawFrom(stacks: Stacks, line: string, k: nat): Outcome<Stacks>
    requires k <= |stacks|
    decreases |line| - 4 * k
  {
    if 4 * k >= |line| then Ok(stacks)
    else
      var s := if k < |stacks| then stacks else stacks + [[]];
      if line[4 * k] == '[' then
        if 4 * k + 1 >= |line| then Panic("Failed to parse line")
        else DrawFrom(s[k := [Crate(line[4 * k + 1])] + s[k]], line, k + 1)
      else DrawFrom(s, line, k + 1)
  }

  function DrawLine(stacks: Stacks, line: string): Outcome<Stacks> {
    DrawFrom(stacks, line, 0)
  }

  /** A drawing line fails exactly when it ends in a '[' that starts a column. */
  predicate DanglingBracket(line: string) {
    |line| % 4 == 1 && line[|line| - 1] == '['
  }

  /**
   * A drawing line extends the stacks to the columns it spans and puts the
   * crate drawn in column `k` at the bottom of stack `k`, leaving the rest of
   * every stack as it was.
   */
  lemma {:induction false} DrawLineColumns(stacks: Stacks, line: string)
    ensures DrawLine(stacks, line).Panic? <==> DanglingBracket(line)
    ensures DrawLine(stacks, line).Ok? ==>
      var r := DrawLine(stacks, line).value;
      |r| == (if |stacks| < Columns(line) then Columns(line) else |stacks|) &&
      forall k | 0 <= k < |r| :: r[k] == DrawnAt(line, k) + (if k < |stacks| then stacks[k] else [])
  {
    DrawFromColumns(stacks, line, 0);
  }

  lemma {:induction false} DrawFromColumns(stacks: Stacks, line: string, k: nat)
    requires k <= |stacks|
    ensures DrawFrom(stacks, line, k).Panic? <==> DanglingBracket(line) && 4 * k < |line|
    ensures DrawFrom(stacks, line, k).Ok? ==>
      var r := DrawFrom(stacks, line, k).value;
      |r| == (if |stacks| < Columns(line) then Columns(line) else |stacks|) &&
      (forall j | 0 <= j < k :: r[j] == stacks[j]) &&
      forall j | k <= j < |r| :: r[j] == DrawnAt(line, j) + (if j < |stacks| then stacks[j] else [])
    decreases |line| - 4 * k
  {
    if 4 * k < |line| {
      var s := if k < |stacks| then stacks else stacks + [[]];
      if line[4 * k] == '[' {
        if 4 * k + 1 < |line| {
          var s' := s[k := [Crate(line[4 * k + 1])] + s[k]];
          DrawFromColumns(s', line, k + 1);
          assert DanglingBracket(line) ==> 4 * (k + 1) < |line|;
        }
      } else {
        DrawFromColumns(s, line, k + 1);
        assert DanglingBracket(line) ==> 4 * (k + 1) < |line|;
      }
    } else {
      assert Columns(line) <= k;
    }
  }

  /** The drawing loop of `part1` and `part2` over one line. */
  method DrawRow(stacks: seq<CrateStack>, line: string) returns (out: seq<CrateStack>, r: Outcome<()>)
    requires Distinct(stacks)
    modifies stacks
    ensures Distinct(out) && |stacks| <= |out|
    ensures forall j | 0 <= j < |stacks| :: out[j] == stacks[j]
    ensures forall j | |stacks| <= j < |out| :: fresh(out[j])
    ensures r.Ok? == DrawLine(old(Contents(stacks)), line).Ok?
    ensures r.Ok? ==> Contents(out) == DrawLine(old(Contents(stacks)), line).value
    ensures r.Panic? ==> DrawLine(old(Contents(stacks)), line).Panic? && r.reason == DrawLine(old(Contents(stacks)), line).reason
  {
    ghost var start := Contents(stacks);
    out := stacks;
    var index := 0;
    while 4 * index < |line|
      invariant index <= |out| && |stacks| <= |out| && Distinct(out)
      invariant forall j | 0 <= j < |stacks| :: out[j] == stacks[j]
      invariant forall j | |stacks| <= j < |out| :: fresh(out[j])
      invariant DrawFrom(start, line, 0) == DrawFrom(Contents(out), line, index)
      decreases |line| - 4 * index
    {
      ghost var prev := out;
      out, r := DrawColumn(out, line, index);
      if r.Panic? {
        return;
      }
      forall j | |stacks| <= j < |out| ensures fresh(out[j]) {
        if j < |prev| {
          assert out[j] == prev[j];
        }
      }
      index := index + 1;
    }
    return out, Ok(());
  }

  /** One turn of the drawing loop: column `index`, creating its stack when it is missing. */
  method DrawColumn(stacks: seq<CrateStack>, line: string, index: nat) returns (out: seq<CrateStack>, r: Outcome<()>)
    requires Distinct(stacks) && index <= |stacks| && 4 * index < |line|
    modifies stacks
    ensures Distinct(out) && index < |out|
    ensures |out| == |stacks| || |out| == |stacks| + 1
    ensures forall j | 0 <= j < |stacks| :: out[j] == stacks[j]
    ensures |out| > |stacks| ==> fresh(out[|stacks|])
    ensures r.Ok? ==> DrawFrom(old(Contents(stacks)), line, index) == DrawFrom(Contents(out), line, index + 1)
    ensures r.Panic? ==> DrawFrom(old(Contents(stacks)), line, index).Panic? && r.reason == DrawFrom(old(Contents(stacks)), line, index).reason
  {
    out := StackAt(stacks, index);
    if line[4 * index] == '[' {
      if 4 * index + 1 >= |line| {
        return out, Panic("Failed to parse line");
      }
      PutAtBottom(out, index, Crate(line[4 * index + 1]));
    }
    return out, Ok(());
  }

  /** `crate_stacks.get_mut(index)`, inserting an empty stack at `index` when there is none. */
  method StackAt(stacks: seq<CrateStack>, index: nat) returns (out: seq<CrateStack>)
    requires Distinct(stacks) && index <= |stacks|
    ensures Distinct(out) && index < |out|
    ensures |out| == |stacks| || |out| == |stacks| + 1
    ensures forall j | 0 <= j < |stacks| :: out[j] == stacks[j]
    ensures |out| > |stacks| ==> fresh(out[|stacks|])
    ensures Contents(out) == if index < |stacks| then Contents(stacks) else Contents(stacks) + [[]]
  {
    out := stacks;
    if index == |stacks| {
      var s := new CrateStack();
      out := stacks + [s];
    }
  }

  /** `cs.crates.insert(0, crate)`: the crate goes under the stack. */
  method PutAtBottom(stacks: seq<CrateStack>, index: nat, c: Crate)
    requires Distinct(stacks) && index < |stacks|
    modifies stacks[index]
    ensures Contents(stacks) == old(Contents(stacks))[index := [c] + old(stacks[index].crates)]
  {
    stacks[index].crates := [c] + stacks[index].crates;
  }

  // ---------------------------------------------------------------------------
  // Moves
  // ---------------------------------------------------------------------------

  /** A parsed move, with 0-based stack indices. */
  datatype Move = Move(quantity: nat, from: nat, to: nat)

  function UnwrapUsize(s: string): Outcome<nat> {
    match ParseUnsigned(s, USIZE_MAX)
    case None => Panic(UNWRAP_ERR)
    case Some(n) => Ok(n)
  }

  /**
   * "move q from f to t", split at ' ': pieces 1, 3 and 5 are parsed as
   * `usize`, and the stack numbers are made 0-based by subtracting one,
   * which underflows on 0.
   */
  function ParseMove(line: string): Outcome<Move> {
    var splits := Split(line, " ");
    if |splits| < 2 then Panic(INDEX_OUT_OF_BOUNDS)
    else
      var quantity :- UnwrapUsize(splits[1]);
      if |splits| < 4 then Panic(INDEX_OUT_OF_BOUNDS)
      else
        var from :- UnwrapUsize(splits[3]);
        if from == 0 then Panic(SUBTRACT_OVERFLOW)
        else if |splits| < 6 then Panic(INDEX_OUT_OF_BOUNDS)
        else
          var to :- UnwrapUsize(splits[5]);
          if to == 0 then Panic(SUBTRACT_OVERFLOW)
          else Ok(Move(quantity, from - 1, to - 1))
  }

  /** The text of a move with 1-based stack numbers. */
  function MoveText(m: Move): string {
    Join(["move", NatToString(m.quantity), "from", NatToString(m.from + 1), "to", NatToString(m.to + 1)], " ")
  }

  /** Parsing the text of a move gives it back, its stack numbers 0-based again. */
  lemma {:induction false} ParseMoveText(m: Move)
    requires m.quantity <= USIZE_MAX && m.from < USIZE_MAX && m.to < USIZE_MAX
    ensures ParseMove(MoveText(m)).Ok? && ParseMove(MoveText(m)).value == m
  {
    MoveTextSplits(m);
    ParseUnsignedOfNatToString(m.quantity, USIZE_MAX);
    ParseUnsignedOfNatToString(m.from + 1, USIZE_MAX);
    ParseUnsignedOfNatToString(m.to + 1, USIZE_MAX);
  }

  lemma {:induction false} MoveTextSplits(m: Move)
    ensures Split(MoveText(m), " ") == ["move", NatToString(m.quantity), "from", NatToString(m.from + 1), "to", NatToString(m.to + 1)]
  {
    var parts := ["move", NatToString(m.quantity), "from", NatToString(m.from + 1), "to", NatToString(m.to + 1)];
    forall k, i | 0 <= k < |parts| && 0 <= i < |parts[k]| ensures parts[k][i] != " "[0] {
      if k == 1 || k == 3 || k == 5 {
        assert IsDigit(parts[k][i]);
      }
    }
    SplitJoin(parts, " ");
  }

  function MissingStack(index: nat): string {
    "Missing crate stack! " + NatToString(index)
  }

  /**
   * One move on the stack values: the source stack must exist, hold at least
   * `quantity` crates, and the target stack must exist; the lifted crates
   * then go on top of the target.
   */
  function ApplyMove(stacks: Stacks, m: Move, isCrateMover9001: bool): Outcome<Stacks> {
    if m.from >= |stacks| then Panic(MissingStack(m.from))
    else if m.quantity > |stacks[m.from]| then Panic(SUBTRACT_OVERFLOW)
    else if m.to >= |stacks| then Panic(MissingStack(m.to))
    else
      var source := stacks[m.from];
      var lifted := stacks[m.from := source[..|source| - m.quantity]];
      Ok(lifted[m.to := lifted[m.to] + Lifted(source, m.quantity, isCrateMover9001)])
  }

  /** The number of crates on all stacks. */
  function Total(stacks: Stacks): nat {
    if |stacks| == 0 then 0 else Total(stacks[..|stacks| - 1]) + |stacks[|stacks| - 1]|
  }

  lemma {:induction false} TotalUpdate(stacks: Stacks, i: nat, s: seq<Crate>)
    requires i < |stacks|
    ensures Total(stacks[i := s]) == Total(stacks) - |stacks[i]| + |s|
    decreases |stacks|
  {
    var n := |stacks| - 1;
    if i < n {
      assert stacks[i := s][..n] == stacks[..n][i := s];
      TotalUpdate(stacks[..n], i, s);
    } else {
      assert stacks[i := s][..n] == stacks[..n];
    }
  }

  /**
   * A move keeps the number of stacks and of crates, leaves every stack other
   * than its source and target alone, leaves the bottom of the source stack
   * in place, and puts the lifted crates on top of the target.
   */
  lemma {:induction false} MoveConserves(stacks: Stacks, m: Move, isCrateMover9001: bool)
    requires ApplyMove(stacks, m, isCrateMover9001).Ok?
    ensures var r := ApplyMove(stacks, m, isCrateMover9001).value;
      |r| == |stacks| && Total(r) == Total(stacks) &&
      (forall k | 0 <= k < |r| && k != m.from && k != m.to :: r[k] == stacks[k]) &&
      m.quantity <= |stacks[m.from]| &&
      (m.from != m.to ==> r[m.from] == stacks[m.from][..|stacks[m.from]| - m.quantity]) &&
      |r[m.to]| >= m.quantity &&
      r[m.to][|r[m.to]| - m.quantity..] == Lifted(stacks[m.from], m.quantity, isCrateMover9001)
  {
    var source := stacks[m.from];
    var taken := stacks[m.from := source[..|source| - m.quantity]];
    var lifted := Lifted(source, m.quantity, isCrateMover9001);
    TotalUpdate(stacks, m.from, source[..|source| - m.quantity]);
    TotalUpdate(taken, m.to, taken[m.to] + lifted);
    var r := taken[m.to := taken[m.to] + lifted];
    assert r[m.to][|r[m.to]| - m.quantity..] == lifted;
  }

  /** A move line: parse it, then apply it. */
  function MoveLine(stacks: Stacks, line: string, isCrateMover9001: bool): Outcome<Stacks> {
    var m :- ParseMove(line);
    ApplyMove(stacks, m, isCrateMover9001)
  }

  /** The move branch of `part1` and `part2`, on the stack objects. */
  method DoMove(stacks: seq<CrateStack>, line: string, isCrateMover9001: bool) returns (r: Outcome<()>)
    requires Distinct(stacks)
    modifies stacks
    ensures r.Ok? == MoveLine(old(Contents(stacks)), line, isCrateMover9001).Ok?
    ensures r.Ok? ==> Contents(stacks) == MoveLine(old(Contents(stacks)), line, isCrateMover9001).value
    ensures r.Panic? ==> r.reason == MoveLine(old(Contents(stacks)), line, isCrateMover9001).reason
  {
    var m := ParseMove(line);
    if m.Panic? {
      return Panic(m.reason);
    }
    r := MoveCrates(stacks, m.value, isCrateMover9001);
  }

  /** A parsed move on the stack objects: take from one stack, add to the other. */
  method MoveCrates(stacks: seq<CrateStack>, m: Move, isCrateMover9001: bool) returns (r: Outcome<()>)
    requires Distinct(stacks)
    modifies stacks
    ensures r.Ok? == ApplyMove(old(Contents(stacks)), m, isCrateMover9001).Ok?
    ensures r.Ok? ==> Contents(stacks) == ApplyMove(old(Contents(stacks)), m, isCrateMover9001).value
    ensures r.Panic? ==> r.reason == ApplyMove(old(Contents(stacks)), m, isCrateMover9001).reason
  {
    if m.from >= |stacks| {
      return Panic(MissingStack(m.from));
    }
    var craneCrates := TakeFrom(stacks, m.from, m.quantity, isCrateMover9001);
    if craneCrates.Panic? {
      return Panic(craneCrates.reason);
    }
    if m.to >= |stacks| {
      return Panic(MissingStack(m.to));
    }
    AddTo(stacks, m.to, craneCrates.value);
    return Ok(());
  }

  /** `take` on the stack at `from`. */
  method TakeFrom(stacks: seq<CrateStack>, from: nat, quantity: nat, isCrateMover9001: bool) returns (x: Outcome<seq<Crate>>)
    requires Distinct(stacks) && from < |stacks|
    modifies stacks[from]
    ensures quantity > |old(stacks[from].crates)| ==> x.Panic? && x.reason == SUBTRACT_OVERFLOW
    ensures quantity <= |old(stacks[from].crates)| ==> x.Ok? && x.value == Lifted(old(stacks[from].crates), quantity, isCrateMover9001)
    ensures quantity <= |old(stacks[from].crates)| ==>
      Contents(stacks) == old(Contents(stacks))[from := old(stacks[from].crates)[..|old(stacks[from].crates)| - quantity]]
  {
    x := stacks[from].Take(quantity, isCrateMover9001);
  }

  /** `add` on the stack at `to`. */
  method AddTo(stacks: seq<CrateStack>, to: nat, moved: seq<Crate>)
    requires Distinct(stacks) && to < |stacks|
    modifies stacks[to]
    ensures Contents(stacks) == old(Contents(stacks))[to := old(stacks[to].crates) + moved]
  {
    stacks[to].Add(moved);
  }

  // ---------------------------------------------------------------------------
  // The whole input
  // ---------------------------------------------------------------------------

  /** `mode` 0 and 1 of the source. */
  datatype Mode = Drawing | Moving

  datatype State = State(stacks: Stacks, mode: Mode)

  /** Rust's `line.contains(char::is_numeric)`, for ASCII digits. */
  function ContainsDigit(line: string): (r: bool)
    ensures r <==> exists i | 0 <= i < |line| :: IsDigit(line[i])
    decreases |line|
  {
    if |line| == 0 then false else IsDigit(line[0]) || ContainsDigit(line[1..])
  }

  /** One line: a digit switches to moves for good; drawing lines build stacks, lines starting with 'm' move crates. */
  function Step(st: State, line: string, isCrateMover9001: bool): Outcome<State> {
    var mode := if ContainsDigit(line) then Moving else st.mode;
    if mode == Drawing then
      var s :- DrawLine(st.stacks, line);
      Ok(State(s, Drawing))
    else if StartsWith(line, "m") then
      var s :- MoveLine(st.stacks, line, isCrateMover9001);
      Ok(State(s, Moving))
    else Ok(State(st.stacks, Moving))
  }

  /** The state after the given lines; the first panic ends the run. */
  function Run(lines: seq<string>, isCrateMover9001: bool): Outcome<State>
    decreases |lines|
  {
    if |lines| == 0 then Ok(State([], Drawing))
    else
      var st :- Run(lines[..|lines| - 1], isCrateMover9001);
      Step(st, lines[|lines| - 1], isCrateMover9001)
  }

  /** The run is in move mode exactly when some line so far holds a digit. */
  lemma {:induction false} ModeSwitch(lines: seq<string>, isCrateMover9001: bool)
    requires Run(lines, isCrateMover9001).Ok?
    ensures Run(lines, isCrateMover9001).value.mode == Moving <==> exists i | 0 <= i < |lines| :: ContainsDigit(lines[i])
    decreases |lines|
  {
    if |lines| > 0 {
      var init := lines[..|lines| - 1];
      ModeSwitch(init, isCrateMover9001);
      if exists i | 0 <= i < |init| :: ContainsDigit(init[i]) {
        var i :| 0 <= i < |init| && ContainsDigit(init[i]);
        assert lines[i] == init[i];
      }
      if exists i | 0 <= i < |lines| :: ContainsDigit(lines[i]) {
        var i :| 0 <= i < |lines| && ContainsDigit(lines[i]);
        if i < |init| {
          assert init[i] == lines[i];
        }
      }
    }
  }

  /** The letters of the top crates of the non-empty stacks, left to right. */
  function TopLetters(stacks: Stacks): (r: string)
    ensures |r| <= |stacks|
    ensures (forall k | 0 <= k < |stacks| :: |stacks[k]| > 0) ==>
      |r| == |stacks| && forall k | 0 <= k < |stacks| :: r[k] == stacks[k][|stacks[k]| - 1].letter
    decreases |stacks|
  {
    if |stacks| == 0 then ""
    else
      var last := stacks[|stacks| - 1];
      TopLetters(stacks[..|stacks| - 1]) + (if |last| > 0 then [last[|last| - 1].letter] else "")
  }

  /** `part1` (the CrateMover 9000) and `part2` (the CrateMover 9001). */
  function PartOf(lines: seq<string>, isCrateMover9001: bool): Outcome<string> {
    var st :- Run(lines, isCrateMover9001);
    Ok(TopLetters(st.stacks))
  }

  /** The two cranes panic on the same drawing lines and build the same drawing. */
  lemma {:induction false} DrawingIsCraneIndependent(lines: seq<string>)
    requires forall i | 0 <= i < |lines| :: !ContainsDigit(lines[i])
    ensures Run(lines, false) == Run(lines, true)
    ensures Run(lines, false).Ok? ==> Run(lines, false).value.mode == Drawing
    decreases |lines|
  {
    if |lines| > 0 {
      DrawingIsCraneIndependent(lines[..|lines| - 1]);
    }
  }

  lemma {:induction false} RunSnoc(lines: seq<string>, i: nat, isCrateMover9001: bool)
    requires i < |lines| && Run(lines[..i], isCrateMover9001).Ok?
    ensures Run(lines[..i + 1], isCrateMover9001) == Step(Run(lines[..i], isCrateMover9001).value, lines[i], isCrateMover9001)
  {
    assert lines[..i + 1][..i] == lines[..i];
  }

  lemma {:induction false} PanicPropagates(lines: seq<string>, i: nat, isCrateMover9001: bool)
    requires 0 < i <= |lines| && Run(lines[..i], isCrateMover9001).Panic?
    ensures Run(lines, isCrateMover9001) == Run(lines[..i], isCrateMover9001)
    decreases |lines| - i
  {
    if i < |lines| {
      assert lines[..i + 1][..i] == lines[..i];
      PanicPropagates(lines, i + 1, isCrateMover9001);
    } else {
      assert lines[..i] == lines;
    }
  }

  /** One turn of the line loop. */
  method ProcessLine(stacks: seq<CrateStack>, mode: Mode, line: string, isCrateMover9001: bool)
      returns (out: seq<CrateStack>, newMode: Mode, r: Outcome<()>)
    requires Distinct(stacks)
    modifies stacks
    ensures Distinct(out) && |stacks| <= |out|
    ensures forall j | 0 <= j < |stacks| :: out[j] == stacks[j]
    ensures forall j | |stacks| <= j < |out| :: fresh(out[j])
    ensures r.Ok? == Step(State(old(Contents(stacks)), mode), line, isCrateMover9001).Ok?
    ensures r.Ok? ==> State(Contents(out), newMode) == Step(State(old(Contents(stacks)), mode), line, isCrateMover9001).value
    ensures r.Panic? ==> r.reason == Step(State(old(Contents(stacks)), mode), line, isCrateMover9001).reason
  {
    out, newMode, r := stacks, mode, Ok(());
    if ContainsDigit(line) {
      newMode := Moving;
    }
    if newMode == Drawing {
      out, r := DrawRow(stacks, line);
    } else if StartsWith(line, "m") {
      r := DoMove(stacks, line, isCrateMover9001);
    }
  }

  /** The result loop: the letter of the last crate of each non-empty stack. */
  method Tops(stacks: seq<CrateStack>) returns (result: string)
    ensures result == TopLetters(Contents(stacks))
  {
    result := "";
    var i := 0;
    while i < |stacks|
      invariant i <= |stacks|
      invariant result == TopLetters(Contents(stacks)[..i])
    {
      assert Contents(stacks)[..i + 1][..i] == Contents(stacks)[..i];
      var crates := stacks[i].crates;
      if |crates| > 0 {
        result := result + [crates[|crates| - 1].letter];
      }
      i := i + 1;
    }
    assert Contents(stacks)[..i] == Contents(stacks);
  }

  /** `part1` (`isCrateMover9001 == false`) and `part2` (`true`). */
  method Part(lines: seq<string>, isCrateMover9001: bool) returns (r: Outcome<string>)
    ensures r.Ok? == PartOf(lines, isCrateMover9001).Ok?
    ensures r.Ok? ==> r.value == PartOf(lines, isCrateMover9001).value
    ensures r.Panic? ==> r.reason == PartOf(lines, isCrateMover9001).reason
  {
    var mode := Drawing;
    var crateStacks: seq<CrateStack> := [];
    var i := 0;
    while i < |lines|
      invariant i <= |lines| && Distinct(crateStacks)
      invariant forall j | 0 <= j < |crateStacks| :: fresh(crateStacks[j])
      invariant Run(lines[..i], isCrateMover9001).Ok? && Run(lines[..i], isCrateMover9001).value == State(Contents(crateStacks), mode)
    {
      RunSnoc(lines, i, isCrateMover9001);
      var res;
      crateStacks, mode, res := ProcessLine(crateStacks, mode, lines[i], isCrateMover9001);
      if res.Panic? {
        PanicPropagates(lines, i + 1, isCrateMover9001);
        return Panic(res.reason);
      }
      i := i + 1;
    }
    assert lines[..i] == lines;
    var result := Tops(crateStacks);
    return Ok(result);
  }
}
