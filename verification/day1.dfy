/**
 * Day 1: calorie counting. Lines hold numbers; a blank line closes the
 * current group. Part 1 is the largest closed group total, part 2 the sum of
 * the three largest (both padded with `i32::MIN`).
 */
module Day1 {
  import opened Common

  /** What the line loop knows after some lines: the totals of the closed groups, and the running total. */
  datatype Tally = Tally(closed: seq<int>, current: int)

  /** Reading the lines in order; a non-numeric non-blank line aborts. */
  function Run(lines: seq<string>): Outcome<Tally>
    decreases |lines|
  {
    if |lines| == 0 then Ok(Tally([], 0))
    else
      var t :- Run(lines[..|lines| - 1]);
      ReadLine(t, lines[|lines| - 1])
  }

  /** One turn of the loop: a blank line closes the group, any other line adds its value. */
  function ReadLine(t: Tally, line: string): (r: Outcome<Tally>)
    ensures r.Ok? && |line| == 0 ==> r.value == Tally(t.closed + [t.current], 0)
    ensures r.Ok? && |line| > 0 ==> r.value.closed == t.closed
    ensures r.Panic? <==> |line| > 0 && ParseSigned(line, I32_MIN, I32_MAX).None?
  {
    if |line| == 0 then Ok(Tally(t.closed + [t.current], 0))
    else match ParseSigned(line, I32_MIN, I32_MAX)
      case None => Panic("Failed to parse " + line + " to i32")
      case Some(n) => Ok(Tally(t.closed, t.current + n))
  }

  function IsBlank(line: string): bool {
    |line| == 0
  }

  function CountBlank(lines: seq<string>): nat {
    if |lines| == 0 then 0 else CountBlank(lines[..|lines| - 1]) + (if IsBlank(lines[|lines| - 1]) then 1 else 0)
  }

  /** Every blank line closes exactly one group. */
  lemma {:induction false} OneGroupPerBlank(lines: seq<string>)
    requires Run(lines).Ok?
    ensures |Run(lines).value.closed| == CountBlank(lines)
    decreases |lines|
  {
    if |lines| > 0 {
      OneGroupPerBlank(lines[..|lines| - 1]);
    }
  }

  /** Lines after the last blank line close no group: a trailing group is never counted. */
  lemma {:induction false} TrailingGroupIgnored(lines: seq<string>, tail: seq<string>)
    requires forall k | 0 <= k < |tail| :: |tail[k]| > 0
    requires Run(lines + tail).Ok?
    ensures Run(lines).Ok? && Run(lines + tail).value.closed == Run(lines).value.closed
    decreases |tail|
  {
    if |tail| > 0 {
      var init := tail[..|tail| - 1];
      assert (lines + tail)[..|lines + tail| - 1] == lines + init;
      assert (lines + tail)[|lines + tail| - 1] == tail[|tail| - 1];
      TrailingGroupIgnored(lines, init);
    } else {
      assert lines + tail == lines;
    }
  }

  /** The larger of `init` and every element of `xs`. */
  function MaxOf(init: int, xs: seq<int>): (m: int)
    ensures m >= init && forall k | 0 <= k < |xs| :: xs[k] <= m
    ensures m == init || exists k | 0 <= k < |xs| :: xs[k] == m
    decreases |xs|
  {
    if |xs| == 0 then init
    else
      var m := MaxOf(init, xs[..|xs| - 1]);
      assert forall k | 0 <= k < |xs| - 1 :: xs[..|xs| - 1][k] == xs[k];
      if xs[|xs| - 1] > m then xs[|xs| - 1] else m
  }

  /** `part1`: the largest closed group total, or `i32::MIN` if no group is closed. */
  function Part1Of(lines: seq<string>): Outcome<int> {
    var t :- Run(lines);
    Ok(MaxOf(I32_MIN, t.closed))
  }

  /** `part1`, as its loop over the lines. */
  method Part1(lines: seq<string>) returns (r: Outcome<int>)
    ensures r == Part1Of(lines)
  {
    var current := 0;
    var max := I32_MIN;
    ghost var t := Tally([], 0);
    var i := 0;
    while i < |lines|
      invariant i <= |lines|
      invariant Run(lines[..i]).Ok? && Run(lines[..i]).value == t
      invariant t.current == current && max == MaxOf(I32_MIN, t.closed)
    {
      var failure;
      failure, t, current, max := Part1Line(lines, i, t, current, max);
      if failure.Some? {
        PanicPropagates(lines, i + 1);
        return Panic(failure.value);
      }
      i := i + 1;
    }
    assert lines[..i] == lines;
    return Ok(max);
  }

  /** One turn of `part1`'s loop: a blank line closes the group into `max`, a number line adds to `current`. */
  method Part1Line(lines: seq<string>, i: nat, ghost t: Tally, current: int, max: int)
    returns (failure: Option<string>, ghost u: Tally, current': int, max': int)
    requires i < |lines| && Run(lines[..i]).Ok? && Run(lines[..i]).value == t
    requires t.current == current && max == MaxOf(I32_MIN, t.closed)
    ensures failure.Some? ==> Run(lines[..i + 1]).Panic? && Run(lines[..i + 1]).reason == failure.value
    ensures failure.None? ==> Run(lines[..i + 1]).Ok? && Run(lines[..i + 1]).value == u
    ensures failure.None? ==> u.current == current' && max' == MaxOf(I32_MIN, u.closed)
  {
    var line := lines[i];
    if |line| == 0 {
      BlankStep(lines, i, t);
      MaxOfSnoc(t.closed, current);
      return None, Tally(t.closed + [current], 0), 0, if current > max then current else max;
    }
    match ParseSigned(line, I32_MIN, I32_MAX)
    case None =>
      assert lines[..i + 1][..i] == lines[..i];
      return Some("Failed to parse " + line + " to i32"), t, current, max;
    case Some(n) =>
      NumberStep(lines, i, t, n);
      return None, Tally(t.closed, current + n), current + n, max;
  }

  lemma {:induction false} MaxOfSnoc(closed: seq<int>, c: int)
    ensures MaxOf(I32_MIN, closed + [c]) == if c > MaxOf(I32_MIN, closed) then c else MaxOf(I32_MIN, closed)
  {
    assert (closed + [c])[..|closed|] == closed;
  }

  /** A panic on some line aborts the whole run. */
  lemma {:induction false} PanicPropagates(lines: seq<string>, i: nat)
    requires 0 < i <= |lines| && Run(lines[..i]).Panic?
    ensures Run(lines).Panic? && Run(lines).reason == Run(lines[..i]).reason
    decreases |lines| - i
  {
    if i < |lines| {
      assert lines[..i + 1][..i] == lines[..i];
      PanicPropagates(lines, i + 1);
    } else {
      assert lines[..i] == lines;
    }
  }

  // ---------------------------------------------------------------------------
  // Part 2: the running top three
  // ---------------------------------------------------------------------------

  predicate Ascending(t: seq<int>) {
    forall i, j | 0 <= i < j < |t| :: t[i] <= t[j]
  }

  /** The three values in ascending order: what sorting a three-element array leaves. */
  function Sort3(t: seq<int>): (s: seq<int>)
    requires |t| == 3
    ensures |s| == 3 && Ascending(s)
    ensures s == [t[0], t[1], t[2]] || s == [t[0], t[2], t[1]] || s == [t[1], t[0], t[2]] ||
            s == [t[1], t[2], t[0]] || s == [t[2], t[0], t[1]] || s == [t[2], t[1], t[0]]
  {
    var a, b, c := t[0], t[1], t[2];
    if a <= b then
      if b <= c then [a, b, c] else if a <= c then [a, c, b] else [c, a, b]
    else
      if a <= c then [b, a, c] else if b <= c then [b, c, a] else [c, b, a]
  }

  const Padding: seq<int> := [I32_MIN, I32_MIN, I32_MIN]

  /** `top_three` after the groups `closed` have been offered to it in order. */
  function TopThree(closed: seq<int>): (t: seq<int>)
    ensures |t| == 3 && Ascending(t)
    decreases |closed|
  {
    if |closed| == 0 then Padding
    else
      var t := TopThree(closed[..|closed| - 1]);
      var c := closed[|closed| - 1];
      Sort3([if c > t[0] then c else t[0], t[1], t[2]])
  }

  /** On an ascending triple, raising the smallest value to `c` and sorting inserts `c` in its place. */
  function Offer(t: seq<int>, c: int): (u: seq<int>)
    requires |t| == 3 && Ascending(t)
    ensures u == Sort3([if c > t[0] then c else t[0], t[1], t[2]])
  {
    if c <= t[0] then t
    else if c <= t[1] then [c, t[1], t[2]]
    else if c <= t[2] then [t[1], c, t[2]]
    else [t[1], t[2], c]
  }

  /** How many of the values are at least `v`. */
  function CountAtLeast(xs: seq<int>, v: int): nat
    decreases |xs|
  {
    if |xs| == 0 then 0 else CountAtLeast(xs[..|xs| - 1], v) + (if xs[|xs| - 1] >= v then 1 else 0)
  }

  function Count3(t: seq<int>, v: int): nat
    requires |t| == 3
  {
    (if t[0] >= v then 1 else 0) + (if t[1] >= v then 1 else 0) + (if t[2] >= v then 1 else 0)
  }

  function Min3(n: nat): nat {
    if n < 3 then n else 3
  }

  /**
   * `top_three` holds the three largest values among the closed totals and
   * the padding: for every threshold `v`, as many of its values are at least
   * `v` as there are such values among the first three largest.
   */
  lemma {:induction false} TopThreeIsLargest(closed: seq<int>, v: int)
    ensures Count3(TopThree(closed), v) == Min3(CountAtLeast(Padding + closed, v))
    decreases |closed|
  {
    if |closed| == 0 {
      var b := if I32_MIN >= v then 1 else 0;
      assert Padding + closed == Padding;
      assert [I32_MIN][..0] == [];
      assert CountAtLeast([I32_MIN], v) == b;
      assert [I32_MIN, I32_MIN][..1] == [I32_MIN];
      assert CountAtLeast([I32_MIN, I32_MIN], v) == 2 * b;
      assert Padding[..2] == [I32_MIN, I32_MIN];
    } else {
      var init := closed[..|closed| - 1];
      var c := closed[|closed| - 1];
      TopThreeIsLargest(init, v);
      assert (Padding + closed)[..|Padding + closed| - 1] == Padding + init;
      OfferCounts(TopThree(init), c, v);
    }
  }

  /** Offering `c` to an ascending triple counts like adding `c` to the values it summarises. */
  lemma {:induction false} OfferCounts(t: seq<int>, c: int, v: int)
    requires |t| == 3 && Ascending(t)
    ensures Count3(Offer(t, c), v) == Min3(Count3(t, v) + (if c >= v then 1 else 0))
  {
  }

  /** `part2`: the sum of `top_three` once every line is read. */
  function Part2Of(lines: seq<string>): Outcome<int> {
    var t :- Run(lines);
    Ok(Sum(TopThree(t.closed)))
  }

  /** The blank-line update of `part2`: raise the smallest kept total to `c` if `c` is larger, then sort. */
  method OfferTotal(top: array<int>, c: int)
    requires top.Length == 3 && Ascending(top[..])
    modifies top
    ensures top[..] == Offer(old(top[..]), c)
  {
    top[0] := if c > top[0] then c else top[0];
    SortThree(top);
  }

  /** `top_three.sort()` on the three-element array. */
  method SortThree(a: array<int>)
    requires a.Length == 3
    modifies a
    ensures a[..] == Sort3(old(a[..]))
  {
    var s := Sort3(a[..]);
    a[0], a[1], a[2] := s[0], s[1], s[2];
  }

  /** `part2`, as its loops: the top three kept in a three-element array, then summed. */
  method Part2(lines: seq<string>) returns (r: Outcome<int>)
    ensures r == Part2Of(lines)
  {
    var current := 0;
    var top := new int[3] [I32_MIN, I32_MIN, I32_MIN];
    ghost var t := Tally([], 0);
    var i := 0;
    while i < |lines|
      invariant i <= |lines|
      invariant Run(lines[..i]).Ok? && Run(lines[..i]).value == t
      invariant t.current == current && top[..] == TopThree(t.closed)
    {
      var failure;
      failure, t, current := Part2Line(lines, i, t, current, top);
      if failure.Some? {
        PanicPropagates(lines, i + 1);
        return Panic(failure.value);
      }
      i := i + 1;
    }
    assert lines[..i] == lines;
    var total := SumOfTop(top);
    return Ok(total);
  }

  lemma {:induction false} BlankStep(lines: seq<string>, i: nat, t: Tally)
    requires i < |lines| && |lines[i]| == 0 && Run(lines[..i]).Ok? && Run(lines[..i]).value == t
    ensures Run(lines[..i + 1]).Ok? && Run(lines[..i + 1]).value == Tally(t.closed + [t.current], 0)
  {
    assert lines[..i + 1][..i] == lines[..i];
  }

  lemma {:induction false} OfferStep(closed: seq<int>, c: int)
    ensures TopThree(closed + [c]) == Offer(TopThree(closed), c)
  {
    assert (closed + [c])[..|closed|] == closed;
  }

  lemma {:induction false} NumberStep(lines: seq<string>, i: nat, t: Tally, n: int)
    requires i < |lines| && |lines[i]| > 0 && Run(lines[..i]).Ok? && Run(lines[..i]).value == t
    requires ParseSigned(lines[i], I32_MIN, I32_MAX) == Some(n)
    ensures Run(lines[..i + 1]).Ok? && Run(lines[..i + 1]).value == Tally(t.closed, t.current + n)
  {
    assert lines[..i + 1][..i] == lines[..i];
  }

  /** One turn of `part2`'s loop: a blank line offers `current` to `top_three`, a number line adds to `current`. */
  method Part2Line(lines: seq<string>, i: nat, ghost t: Tally, current: int, top: array<int>)
    returns (failure: Option<string>, ghost u: Tally, current': int)
    requires i < |lines| && Run(lines[..i]).Ok? && Run(lines[..i]).value == t
    requires t.current == current && top.Length == 3 && top[..] == TopThree(t.closed)
    modifies top
    ensures failure.Some? ==> Run(lines[..i + 1]).Panic? && Run(lines[..i + 1]).reason == failure.value
    ensures failure.None? ==> Run(lines[..i + 1]).Ok? && Run(lines[..i + 1]).value == u
    ensures failure.None? ==> u.current == current' && top[..] == TopThree(u.closed)
  {
    var line := lines[i];
    if |line| == 0 {
      BlankStep(lines, i, t);
      OfferStep(t.closed, current);
      OfferTotal(top, current);
      return None, Tally(t.closed + [current], 0), 0;
    }
    match ParseSigned(line, I32_MIN, I32_MAX)
    case None =>
      assert lines[..i + 1][..i] == lines[..i];
      return Some("Failed to parse " + line + " to i32"), t, current;
    case Some(n) =>
      NumberStep(lines, i, t, n);
      return None, Tally(t.closed, current + n), current + n;
  }

  /** The final loop of `part2`: the sum of the three kept totals. */
  method SumOfTop(top: array<int>) returns (total: int)
    requires top.Length == 3
    ensures total == Sum(top[..])
  {
    total := 0;
    var k := 0;
    while k < 3
      invariant k <= 3
      invariant total == Sum(top[..k])
    {
      assert top[..k + 1][..k] == top[..k];
      total := total + top[k];
      k := k + 1;
    }
    assert top[..3] == top[..];
  }
}
