/**
 * Day 10: cathode-ray tube. A CPU with one register X (initially 1) runs
 * `noop` (one cycle) and `addx v` (two cycles, then X grows by v). Part 1
 * sums the signal strength (cycle number times X) during cycles 20, 60, ...,
 * 220; part 2 draws one pixel per cycle on a 40-wide screen, lit when the
 * three-pixel sprite centred on X covers the pixel's column, and returns 0.
 */
module Day10 {
  import opened Common

  const I128_MIN: int := -0x8000_0000_0000_0000_0000_0000_0000_0000
  const I128_MAX: int := 0x7fff_ffff_ffff_ffff_ffff_ffff_ffff_ffff

  /** One line of the program; lines that are neither `noop` nor `addx` are skipped. */
  datatype Instruction = Noop | Addx(v: int) | Other

  /** Lines starting with "addx" have "addx " removed everywhere and the rest parsed as an `i128`; a failure panics (`unwrap`). */
  function ParseInstruction(line: string): Outcome<Instruction> {
    if line == "noop" then Ok(Noop)
    else if StartsWith(line, "addx") then
      match ParseSigned(ReplaceAll(line, "addx ", ""), I128_MIN, I128_MAX)
      case Some(v) => Ok(Addx(v))
      case None => Panic("called `Result::unwrap()` on an `Err` value")
    else Ok(Other)
  }

  /** An `addx` line written out in decimal parses back to its instruction. */
  lemma {:induction false} ParseAddxOfRendered(v: int)
    requires I128_MIN <= v <= I128_MAX
    ensures ParseInstruction("addx " + IntToString(v)) == Ok(Addx(v))
  {
    var s := IntToString(v);
    var line := "addx " + s;
    assert StartsWith(line, "addx") by {
      assert line[..4] == "addx";
    }
    assert s[0] == '-' || IsDigit(s[0]);
    assert line != "noop" by {
      assert line[0] == 'a';
    }
    forall k, i | 0 <= k < |["", s]| && 0 <= i < |["", s][k]| ensures ["", s][k][i] != "addx "[0] {
      if v < 0 {
        assert s == "-" + NatToString(-v);
        if i > 0 {
          assert s[i] == NatToString(-v)[i - 1];
        }
      } else {
        assert IsDigit(NatToString(v)[i]);
      }
    }
    assert Join(["", s], "addx ") == line;
    SplitJoin(["", s], "addx ");
    assert ReplaceAll(line, "addx ", "") == Join(["", s], "") == s;
    ParseSignedOfIntToString(v, I128_MIN, I128_MAX);
  }

  /** The instructions read before the first line that panics, and that line's panic if there is one. */
  function ParseAll(lines: seq<string>): (p: (seq<Instruction>, Option<string>))
    decreases |lines|
  {
    if |lines| == 0 then ([], None)
    else
      var (program, failure) := ParseAll(lines[..|lines| - 1]);
      if failure.Some? then (program, failure)
      else match ParseInstruction(lines[|lines| - 1])
        case Ok(i) => (program + [i], None)
        case Panic(why) => (program, Some(why))
  }

  /** The value of X after the whole program: 1 plus everything added. */
  function X(program: seq<Instruction>): int
    decreases |program|
  {
    if |program| == 0 then 1
    else
      var x := X(program[..|program| - 1]);
      match program[|program| - 1]
      case Addx(v) => x + v
      case _ => x
  }

  /** The value of X during each cycle: a `noop` holds it for one cycle, an `addx` for two, and the sum lands only afterwards. */
  function Trace(program: seq<Instruction>): seq<int>
    decreases |program|
  {
    if |program| == 0 then []
    else
      var init := program[..|program| - 1];
      match program[|program| - 1]
      case Noop => Trace(init) + [X(init)]
      case Addx(_) => Trace(init) + [X(init), X(init)]
      case Other => Trace(init)
  }

  // ---------------------------------------------------------------------------
  // Part 1
  // ---------------------------------------------------------------------------

  predicate IsMarker(cycle: int) {
    cycle == 20 || cycle == 60 || cycle == 100 || cycle == 140 || cycle == 180 || cycle == 220
  }

  /** The sum of the signal strengths recorded while `trace` ran, cycle by cycle. */
  function SignalSum(trace: seq<int>): int
    decreases |trace|
  {
    if |trace| == 0 then 0
    else SignalSum(trace[..|trace| - 1]) + if IsMarker(|trace|) then |trace| * trace[|trace| - 1] else 0
  }

  /** The strength during cycle `m` if the trace got that far. */
  function Strength(trace: seq<int>, m: nat): int {
    if 0 < m <= |trace| then m * trace[m - 1] else 0
  }

  /** The puzzle's definition: the strengths during the six marked cycles, those the program reached. */
  function MarkerSum(trace: seq<int>): int {
    Strength(trace, 20) + Strength(trace, 60) + Strength(trace, 100) + Strength(trace, 140) + Strength(trace, 180) + Strength(trace, 220)
  }

  /** Recording strengths as the cycles pass adds up exactly the strengths at the six marked cycles. */
  lemma {:induction false} SignalSumIsMarkerSum(trace: seq<int>)
    ensures SignalSum(trace) == MarkerSum(trace)
    decreases |trace|
  {
    if |trace| > 0 {
      var n := |trace|;
      var init := trace[..n - 1];
      SignalSumIsMarkerSum(init);
      StrengthOfPrefix(trace, 20);
      StrengthOfPrefix(trace, 60);
      StrengthOfPrefix(trace, 100);
      StrengthOfPrefix(trace, 140);
      StrengthOfPrefix(trace, 180);
      StrengthOfPrefix(trace, 220);
    }
  }

  lemma {:induction false} StrengthOfPrefix(trace: seq<int>, m: nat)
    requires |trace| > 0
    ensures Strength(trace, m) == Strength(trace[..|trace| - 1], m) + if m == |trace| then m * trace[m - 1] else 0
  {
  }

  /** `part1`'s result: the recorded strengths, or the panic of the first bad `addx` line. */
  function Part1Of(lines: seq<string>): Outcome<int> {
    var (program, failure) := ParseAll(lines);
    if failure.Some? then Panic(failure.value) else Ok(SignalSum(Trace(program)))
  }

  /** One cycle of `part1`: count it, and record its strength if it is marked; the recorded sum follows the trace. */
  method Tick(cycleCount: int, xRegister: int, signalStrengths: seq<int>, ghost trace: seq<int>) returns (cycle: int, strengths: seq<int>)
    requires cycleCount == |trace| && Sum(signalStrengths) == SignalSum(trace)
    ensures cycle == cycleCount + 1
    ensures strengths == if IsMarker(cycle) then signalStrengths + [cycle * xRegister] else signalStrengths
    ensures Sum(strengths) == SignalSum(trace + [xRegister])
  {
    cycle := cycleCount + 1;
    strengths := signalStrengths;
    if IsMarker(cycle) {
      strengths := strengths + [cycle * xRegister];
      SumSnoc(signalStrengths, cycle * xRegister);
    }
    SignalSumSnoc(trace, xRegister);
  }

  lemma {:induction false} SumSnoc(xs: seq<int>, x: int)
    ensures Sum(xs + [x]) == Sum(xs) + x
  {
    assert (xs + [x])[..|xs|] == xs;
  }

  lemma {:induction false} SignalSumSnoc(trace: seq<int>, x: int)
    ensures SignalSum(trace + [x]) == SignalSum(trace) + if IsMarker(|trace| + 1) then (|trace| + 1) * x else 0
  {
    assert (trace + [x])[..|trace|] == trace;
  }

  /** The state `part1` keeps after the lines before `i`, as the specification functions describe it. */
  ghost predicate Part1State(lines: seq<string>, i: nat, cycleCount: int, xRegister: int, signalStrengths: seq<int>)
    requires i <= |lines|
  {
    var (program, failure) := ParseAll(lines[..i]);
    failure.None? && cycleCount == |Trace(program)| && xRegister == X(program) && Sum(signalStrengths) == SignalSum(Trace(program))
  }

  /** `part1`, as its loop over the lines. */
  method Part1(lines: seq<string>) returns (r: Outcome<int>)
    ensures r == Part1Of(lines)
  {
    var cycleCount := 0;
    var xRegister := 1;
    var signalStrengths: seq<int> := [];
    var i := 0;
    while i < |lines|
      invariant i <= |lines|
      invariant Part1State(lines, i, cycleCount, xRegister, signalStrengths)
    {
      var failure;
      failure, cycleCount, xRegister, signalStrengths := Part1Line(lines, i, cycleCount, xRegister, signalStrengths);
      if failure.Some? {
        ParseFailurePropagates(lines, i + 1);
        return Panic(failure.value);
      }
      i := i + 1;
    }
    assert lines[..i] == lines;
    return Ok(Sum(signalStrengths));
  }

  /** One line of `part1`: a `noop` ticks once, an `addx` parses its operand, ticks twice, then adds. */
  method Part1Line(lines: seq<string>, i: nat, cycleCount: int, xRegister: int, signalStrengths: seq<int>)
    returns (failure: Option<string>, cycle: int, x: int, strengths: seq<int>)
    requires i < |lines| && Part1State(lines, i, cycleCount, xRegister, signalStrengths)
    ensures failure == ParseAll(lines[..i + 1]).1
    ensures failure.None? ==> Part1State(lines, i + 1, cycle, x, strengths)
  {
    ghost var program := ParseAll(lines[..i]).0;
    ghost var trace := Trace(program);
    ParseAllSnoc(lines, i);
    var instruction := ParseInstruction(lines[i]);
    failure, cycle, x, strengths := None, cycleCount, xRegister, signalStrengths;
    if instruction.Panic? {
      failure := Some(instruction.reason);
    } else {
      TraceSnoc(program, instruction.value);
      if instruction.value.Noop? {
        cycle, strengths := Tick(cycle, x, strengths, trace);
      } else if instruction.value.Addx? {
        cycle, strengths := Tick(cycle, x, strengths, trace);
        cycle, strengths := Tick(cycle, x, strengths, trace + [x]);
        assert trace + [x] + [x] == trace + [x, x];
        x := x + instruction.value.v;
      }
    }
  }

  /** Running one more instruction: how the trace and X grow. */
  lemma {:induction false} TraceSnoc(program: seq<Instruction>, instruction: Instruction)
    ensures Trace(program + [instruction]) == match instruction
      case Noop => Trace(program) + [X(program)]
      case Addx(_) => Trace(program) + [X(program), X(program)]
      case Other => Trace(program)
    ensures X(program + [instruction]) == match instruction
      case Addx(v) => X(program) + v
      case _ => X(program)
  {
    assert (program + [instruction])[..|program|] == program;
  }

  lemma {:induction false} ParseAllSnoc(lines: seq<string>, i: nat)
    requires i < |lines| && ParseAll(lines[..i]).1.None?
    ensures ParseAll(lines[..i + 1]) ==
      match ParseInstruction(lines[i])
      case Ok(instruction) => (ParseAll(lines[..i]).0 + [instruction], None)
      case Panic(why) => (ParseAll(lines[..i]).0, Some(why))
  {
    assert lines[..i + 1][..i] == lines[..i];
  }

  /** Once a line has panicked, later lines change nothing. */
  lemma {:induction false} ParseFailurePropagates(lines: seq<string>, i: nat)
    requires 0 < i <= |lines| && ParseAll(lines[..i]).1.Some?
    ensures ParseAll(lines) == ParseAll(lines[..i])
    decreases |lines| - i
  {
    if i < |lines| {
      assert lines[..i + 1][..i] == lines[..i];
      ParseFailurePropagates(lines, i + 1);
    } else {
      assert lines[..i] == lines;
    }
  }

  // ---------------------------------------------------------------------------
  // Part 2
  // ---------------------------------------------------------------------------

  /** The pixel drawn during cycle `cycle` (counted from 0) while X is `x`: lit when the sprite covers the column. */
  function Pixel(x: int, cycle: nat): char {
    if x - 1 <= cycle % 40 <= x + 1 then '#' else '.'
  }

  /** What `part2` prints for a trace: a line break before every fortieth pixel, starting with the first. */
  function Screen(trace: seq<int>): string
    decreases |trace|
  {
    if |trace| == 0 then ""
    else
      var n := |trace| - 1;
      Screen(trace[..n]) + (if n % 40 == 0 then "\n" else "") + [Pixel(trace[n], n)]
  }

  /** Row `r` of the screen: pixels of cycles 40r to 40r+39, as far as the trace reaches. */
  function Row(trace: seq<int>, r: nat): (row: string)
    requires 40 * r < |trace|
    ensures |row| == if |trace| - 40 * r < 40 then |trace| - 40 * r else 40
    ensures forall k | 0 <= k < |row| :: row[k] == Pixel(trace[40 * r + k], 40 * r + k)
  {
    var len := if |trace| - 40 * r < 40 then |trace| - 40 * r else 40;
    seq(len, k requires 0 <= k < len => Pixel(trace[40 * r + k], 40 * r + k))
  }

  lemma {:induction false} ColumnOf(r: nat, k: nat)
    requires k < 40
    ensures (40 * r + k) % 40 == k
  {
  }

  /** Pixel `k` of row `r` is lit exactly when X during that cycle is within one of column `k`. */
  lemma {:induction false} RowColumns(trace: seq<int>, r: nat)
    requires 40 * r < |trace|
    ensures forall k | 0 <= k < |Row(trace, r)| :: Row(trace, r)[k] == '#' <==> trace[40 * r + k] - 1 <= k <= trace[40 * r + k] + 1
  {
    forall k | 0 <= k < |Row(trace, r)| ensures Row(trace, r)[k] == '#' <==> trace[40 * r + k] - 1 <= k <= trace[40 * r + k] + 1 {
      ColumnOf(r, k);
    }
  }

  /** Every row of the screen. */
  function Rows(trace: seq<int>): (rows: seq<string>)
    ensures |rows| == (|trace| + 39) / 40
    ensures forall r | 0 <= r < |rows| :: 40 * r < |trace| && rows[r] == Row(trace, r)
  {
    seq((|trace| + 39) / 40, r requires 0 <= r < (|trace| + 39) / 40 => Row(trace, r))
  }

  /** A row the trace had already filled stays as it was. */
  lemma {:induction false} FullRowOfPrefix(trace: seq<int>, r: nat)
    requires 40 * r + 40 < |trace|
    ensures Row(trace, r) == Row(trace[..|trace| - 1], r)
  {
    var a, b := Row(trace, r), Row(trace[..|trace| - 1], r);
    assert |a| == |b|;
    forall k | 0 <= k < |a| ensures a[k] == b[k] {
    }
  }

  /** The row the new cycle falls in grows by its pixel. */
  lemma {:induction false} LastRowOfPrefix(trace: seq<int>, r: nat)
    requires 40 * r < |trace| - 1 < 40 * r + 40
    ensures Row(trace, r) == Row(trace[..|trace| - 1], r) + [Pixel(trace[|trace| - 1], |trace| - 1)]
  {
    var a, b := Row(trace, r), Row(trace[..|trace| - 1], r) + [Pixel(trace[|trace| - 1], |trace| - 1)];
    assert |a| == |b|;
    forall k | 0 <= k < |a| ensures a[k] == b[k] {
    }
  }

  /** The rows after one more cycle: a new row when the cycle starts one, else the last row grows. */
  lemma {:induction false} RowsSnoc(trace: seq<int>)
    requires |trace| > 1
    ensures var n := |trace| - 1; var rs := Rows(trace[..n]);
      if n % 40 == 0 then Rows(trace) == rs + [[Pixel(trace[n], n)]]
      else |rs| > 0 && Rows(trace) == rs[..|rs| - 1] + [rs[|rs| - 1] + [Pixel(trace[n], n)]]
  {
    var n := |trace| - 1;
    var rs := Rows(trace[..n]);
    var all := Rows(trace);
    if n % 40 == 0 {
      var b := rs + [[Pixel(trace[n], n)]];
      assert |all| == |b|;
      forall r | 0 <= r < |all| ensures all[r] == b[r] {
        if r < |rs| {
          FullRowOfPrefix(trace, r);
        } else {
          assert all[r] == Row(trace, r);
          assert |Row(trace, r)| == 1;
        }
      }
    } else {
      var last := |rs| - 1;
      var b := rs[..last] + [rs[last] + [Pixel(trace[n], n)]];
      assert |all| == |b|;
      forall r | 0 <= r < |all| ensures all[r] == b[r] {
        if r < last {
          FullRowOfPrefix(trace, r);
        } else {
          LastRowOfPrefix(trace, r);
        }
      }
    }
  }

  /** The printed screen is its rows, each on its own line after a leading line break. */
  lemma {:induction false} ScreenIsRows(trace: seq<int>)
    requires |trace| > 0
    ensures Screen(trace) == Join([""] + Rows(trace), "\n")
    decreases |trace|
  {
    var n := |trace| - 1;
    if n == 0 {
      var p := Pixel(trace[0], 0);
      assert Row(trace, 0) == [p];
      assert Rows(trace) == [[p]];
      assert Screen(trace) == Screen([]) + "\n" + [p];
    } else {
      ScreenIsRows(trace[..n]);
      RowsSnoc(trace);
      if n % 40 == 0 {
        ScreenNewRow(trace);
      } else {
        ScreenSameRow(trace);
      }
    }
  }

  lemma {:induction false} ScreenNewRow(trace: seq<int>)
    requires |trace| > 1 && (|trace| - 1) % 40 == 0
    requires Screen(trace[..|trace| - 1]) == Join([""] + Rows(trace[..|trace| - 1]), "\n")
    requires Rows(trace) == Rows(trace[..|trace| - 1]) + [[Pixel(trace[|trace| - 1], |trace| - 1)]]
    ensures Screen(trace) == Join([""] + Rows(trace), "\n")
  {
    var n := |trace| - 1;
    var rs := Rows(trace[..n]);
    var p := [Pixel(trace[n], n)];
    JoinSnoc([""] + rs, p);
    assert [""] + rs + [p] == [""] + Rows(trace);
  }

  lemma {:induction false} ScreenSameRow(trace: seq<int>)
    requires |trace| > 1 && (|trace| - 1) % 40 != 0
    requires Screen(trace[..|trace| - 1]) == Join([""] + Rows(trace[..|trace| - 1]), "\n")
    requires var rs := Rows(trace[..|trace| - 1]);
      |rs| > 0 && Rows(trace) == rs[..|rs| - 1] + [rs[|rs| - 1] + [Pixel(trace[|trace| - 1], |trace| - 1)]]
    ensures Screen(trace) == Join([""] + Rows(trace), "\n")
  {
    var n := |trace| - 1;
    var rs := Rows(trace[..n]);
    var c := Pixel(trace[n], n);
    var parts := [""] + rs;
    JoinExtendLast(parts, c);
    assert parts[..|parts| - 1] + [parts[|parts| - 1] + [c]] == [""] + Rows(trace);
  }

  lemma {:induction false} JoinSnoc(parts: seq<string>, p: string)
    requires |parts| > 0
    ensures Join(parts + [p], "\n") == Join(parts, "\n") + "\n" + p
    decreases |parts|
  {
    if |parts| > 1 {
      assert (parts + [p])[1..] == parts[1..] + [p];
      JoinSnoc(parts[1..], p);
    }
  }

  lemma {:induction false} JoinExtendLast(parts: seq<string>, c: char)
    requires |parts| > 0
    ensures Join(parts[..|parts| - 1] + [parts[|parts| - 1] + [c]], "\n") == Join(parts, "\n") + [c]
    decreases |parts|
  {
    if |parts| > 1 {
      var q := parts[..|parts| - 1] + [parts[|parts| - 1] + [c]];
      assert q[1..] == parts[1..][..|parts| - 2] + [parts[1..][|parts| - 2] + [c]];
      JoinExtendLast(parts[1..], c);
    }
  }

  /** What `part2` prints and returns: the screen of every instruction before the first bad line, then 0 or that line's panic. */
  function Part2Of(lines: seq<string>): (string, Outcome<int>) {
    var (program, failure) := ParseAll(lines);
    (Screen(Trace(program)), if failure.Some? then Panic(failure.value) else Ok(0))
  }

  /** One cycle of `part2`: a line break at the start of a row, then the pixel; the output follows the trace. */
  method Draw(cycleCount: nat, xRegister: int, screen: string, ghost trace: seq<int>) returns (cycle: nat, out: string)
    requires cycleCount == |trace| && screen == Screen(trace)
    ensures cycle == cycleCount + 1
    ensures out == Screen(trace + [xRegister])
  {
    out := screen;
    if cycleCount % 40 == 0 {
      out := out + "\n";
    }
    if cycleCount % 40 >= xRegister - 1 && cycleCount % 40 <= xRegister + 1 {
      out := out + "#";
    } else {
      out := out + ".";
    }
    cycle := cycleCount + 1;
    ScreenSnoc(trace, xRegister);
  }

  lemma {:induction false} ScreenSnoc(trace: seq<int>, x: int)
    ensures Screen(trace + [x]) == Screen(trace) + (if |trace| % 40 == 0 then "\n" else "") + [Pixel(x, |trace|)]
  {
    assert (trace + [x])[..|trace|] == trace;
  }

  /** The state `part2` keeps after the lines before `i`. */
  ghost predicate Part2State(lines: seq<string>, i: nat, cycleCount: nat, xRegister: int, screen: string)
    requires i <= |lines|
  {
    var (program, failure) := ParseAll(lines[..i]);
    failure.None? && cycleCount == |Trace(program)| && xRegister == X(program) && screen == Screen(Trace(program))
  }

  /** `part2`, as its loop over the lines; the printed text is returned as `screen`. */
  method Part2(lines: seq<string>) returns (screen: string, r: Outcome<int>)
    ensures (screen, r) == Part2Of(lines)
  {
    var cycleCount := 0;
    var xRegister := 1;
    screen := "";
    var i := 0;
    while i < |lines|
      invariant i <= |lines|
      invariant Part2State(lines, i, cycleCount, xRegister, screen)
    {
      var failure;
      failure, cycleCount, xRegister, screen := Part2Line(lines, i, cycleCount, xRegister, screen);
      if failure.Some? {
        ParseFailurePropagates(lines, i + 1);
        return screen, Panic(failure.value);
      }
      i := i + 1;
    }
    assert lines[..i] == lines;
    return screen, Ok(0);
  }

  /** One line of `part2`: an `addx` parses its operand before drawing its two pixels. */
  method Part2Line(lines: seq<string>, i: nat, cycleCount: nat, xRegister: int, screen: string)
    returns (failure: Option<string>, cycle: nat, x: int, out: string)
    requires i < |lines| && Part2State(lines, i, cycleCount, xRegister, screen)
    ensures failure == ParseAll(lines[..i + 1]).1
    ensures failure.None? ==> Part2State(lines, i + 1, cycle, x, out)
    ensures failure.Some? ==> out == Screen(Trace(ParseAll(lines[..i + 1]).0))
  {
    ghost var program := ParseAll(lines[..i]).0;
    ghost var trace := Trace(program);
    ParseAllSnoc(lines, i);
    var instruction := ParseInstruction(lines[i]);
    failure, cycle, x, out := None, cycleCount, xRegister, screen;
    if instruction.Panic? {
      failure := Some(instruction.reason);
    } else {
      TraceSnoc(program, instruction.value);
      if instruction.value.Noop? {
        cycle, out := Draw(cycle, x, out, trace);
      } else if instruction.value.Addx? {
        cycle, out := Draw(cycle, x, out, trace);
        cycle, out := Draw(cycle, x, out, trace + [x]);
        assert trace + [x] + [x] == trace + [x, x];
        x := x + instruction.value.v;
      }
    }
  }
}
