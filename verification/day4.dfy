/**
 * Day 4: camp cleanup. Each line holds two section assignments "a-b,c-d";
 * part 1 counts the lines where one assignment contains the other, part 2
 * the lines where they overlap.
 */
module Day4 {
  import opened Common

  /** A range of section ids, both ends included (`u32` in the source). */
  datatype Assignment = Assignment(lower: nat, upper: nat) {
    /** The range holds at least one section. */
    predicate WellFormed() {
      lower <= upper
    }

    predicate Holds(x: int) {
      lower <= x <= upper
    }
  }

  /** Which question a line answers: part 1 asks for containment, part 2 for overlap. */
  datatype Rule = Containment | Overlap

  /**
   * `Assignment::from_str`: split at '-', parse the first piece, then the
   * second; a piece that is not a `u32` panics, and so does a missing second
   * piece (an out-of-bounds index).
   */
  function FromStr(s: string): (r: Outcome<Assignment>)
    ensures r.Ok? ==> r.value.upper <= U32_MAX && r.value.lower <= U32_MAX
  {
    var parts := Split(s, "-");
    match ParseUnsigned(parts[0], U32_MAX)
    case None => Panic("Error parsing lower bound")
    case Some(lower) =>
      if |parts| < 2 then Panic("index out of bounds")
      else match ParseUnsigned(parts[1], U32_MAX)
        case None => Panic("Error parsing lower bound")
        case Some(upper) => Ok(Assignment(lower, upper))
  }

  /** Rendering an assignment as "a-b" and parsing it gives it back. */
  lemma {:induction false} FromStrOfRendered(a: Assignment)
    requires a.lower <= U32_MAX && a.upper <= U32_MAX
    ensures FromStr(NatToString(a.lower) + "-" + NatToString(a.upper)) == Ok(a)
  {
    var lo, hi := NatToString(a.lower), NatToString(a.upper);
    forall k, i | 0 <= k < |[lo, hi]| && 0 <= i < |[lo, hi][k]| ensures [lo, hi][k][i] != "-"[0] {
      assert IsDigit([lo, hi][k][i]);
    }
    assert Join([lo, hi], "-") == lo + "-" + hi;
    SplitJoin([lo, hi], "-");
    ParseUnsignedOfNatToString(a.lower, U32_MAX);
    ParseUnsignedOfNatToString(a.upper, U32_MAX);
  }

  /** `is_within`. */
  predicate IsWithin(self: Assignment, other: Assignment) {
    self.lower >= other.lower && self.upper <= other.upper
  }

  /** `overlaps`: false exactly when one range ends before the other starts. */
  predicate Overlaps(self: Assignment, other: Assignment) {
    !(self.lower > other.upper || self.upper < other.lower)
  }

  /** For a non-empty range, `is_within` means every section it holds is held by the other. */
  lemma {:induction false} IsWithinIsContainment(self: Assignment, other: Assignment)
    requires self.WellFormed()
    ensures IsWithin(self, other) <==> forall x :: self.Holds(x) ==> other.Holds(x)
  {
    if !IsWithin(self, other) {
      if self.lower < other.lower {
        assert self.Holds(self.lower) && !other.Holds(self.lower);
      } else {
        assert self.Holds(self.upper) && !other.Holds(self.upper);
      }
    }
  }

  /** For non-empty ranges, `overlaps` means some section is held by both. */
  lemma {:induction false} OverlapsIsSharedSection(self: Assignment, other: Assignment)
    requires self.WellFormed() && other.WellFormed()
    ensures Overlaps(self, other) <==> exists x :: self.Holds(x) && other.Holds(x)
  {
    if Overlaps(self, other) {
      var x := if self.lower < other.lower then other.lower else self.lower;
      assert self.Holds(x) && other.Holds(x);
    }
  }

  /** `overlaps` does not depend on the order of the two ranges. */
  lemma {:induction false} OverlapsSymmetric(self: Assignment, other: Assignment)
    ensures Overlaps(self, other) == Overlaps(other, self)
  {
  }

  /** A non-empty range inside another overlaps it. */
  lemma {:induction false} WithinOverlaps(self: Assignment, other: Assignment)
    requires self.WellFormed()
    ensures IsWithin(self, other) ==> Overlaps(self, other)
  {
  }

  /** One line: split at ',', parse the left assignment, then the right one. */
  function ParseLine(line: string): Outcome<(Assignment, Assignment)> {
    var parts := Split(line, ",");
    var left :- FromStr(parts[0]);
    if |parts| < 2 then Panic("index out of bounds")
    else
      var right :- FromStr(parts[1]);
      Ok((left, right))
  }

  /** Whether a pair counts under `rule`. */
  predicate Counts(pair: (Assignment, Assignment), rule: Rule) {
    match rule
    case Containment => IsWithin(pair.0, pair.1) || IsWithin(pair.1, pair.0)
    case Overlap => Overlaps(pair.0, pair.1)
  }

  /** The number of lines whose pair counts under `rule`; the first malformed line panics. */
  function Tally(lines: seq<string>, rule: Rule): Outcome<int>
    decreases |lines|
  {
    if |lines| == 0 then Ok(0)
    else
      var n :- Tally(lines[..|lines| - 1], rule);
      var pair :- ParseLine(lines[|lines| - 1]);
      Ok(if Counts(pair, rule) then n + 1 else n)
  }

  /** At most one per line is counted. */
  lemma {:induction false} TallyBounded(lines: seq<string>, rule: Rule)
    requires Tally(lines, rule).Ok?
    ensures Tally(lines, rule).value <= |lines|
    decreases |lines|
  {
    if |lines| > 0 {
      TallyBounded(lines[..|lines| - 1], rule);
    }
  }

  /** Every assignment on every line is non-empty. */
  predicate AllWellFormed(lines: seq<string>) {
    forall i | 0 <= i < |lines| :: ParseLine(lines[i]).Ok? ==> ParseLine(lines[i]).value.0.WellFormed() && ParseLine(lines[i]).value.1.WellFormed()
  }

  /**
   * Both parts panic on the same inputs, and when the ranges are non-empty
   * every pair where one contains the other also overlaps, so part 1 never
   * exceeds part 2.
   */
  lemma {:induction false} ContainmentAtMostOverlap(lines: seq<string>)
    ensures Tally(lines, Containment).Panic? <==> Tally(lines, Overlap).Panic?
    ensures AllWellFormed(lines) && Tally(lines, Containment).Ok? ==> Tally(lines, Containment).value <= Tally(lines, Overlap).value
    decreases |lines|
  {
    if |lines| > 0 {
      var init := lines[..|lines| - 1];
      ContainmentAtMostOverlap(init);
      if AllWellFormed(lines) {
        assert AllWellFormed(init) by {
          forall i | 0 <= i < |init| ensures ParseLine(init[i]) == ParseLine(lines[i]) {
          }
        }
        var p := ParseLine(lines[|lines| - 1]);
        if p.Ok? {
          WithinOverlaps(p.value.0, p.value.1);
          WithinOverlaps(p.value.1, p.value.0);
          OverlapsSymmetric(p.value.1, p.value.0);
        }
      }
    }
  }

  /** `part1` (`Containment`) and `part2` (`Overlap`), as their loops. */
  method Count(lines: seq<string>, rule: Rule) returns (r: Outcome<int>)
    ensures r == Tally(lines, rule)
  {
    var totalContained := 0;
    var i := 0;
    while i < |lines|
      invariant i <= |lines|
      invariant Tally(lines[..i], rule) == Ok(totalContained)
    {
      var next := CountLine(lines, i, rule, totalContained);
      if next.Panic? {
        PanicPropagates(lines, i + 1, rule);
        return next;
      }
      totalContained := next.value;
      i := i + 1;
    }
    assert lines[..i] == lines;
    return Ok(totalContained);
  }

  /** One turn of the loop: parse line `i` and count it if its pair qualifies. */
  method CountLine(lines: seq<string>, i: nat, rule: Rule, totalContained: int) returns (next: Outcome<int>)
    requires i < |lines| && Tally(lines[..i], rule).Ok? && Tally(lines[..i], rule).value == totalContained
    ensures next.Ok? == Tally(lines[..i + 1], rule).Ok?
    ensures next.Ok? ==> next.value == Tally(lines[..i + 1], rule).value
    ensures next.Panic? ==> next == Tally(lines[..i + 1], rule)
  {
    TallySnoc(lines, i, rule);
    var pair := ParseLine(lines[i]);
    if pair.Panic? {
      return Panic(pair.reason);
    }
    var counts := match rule
      case Containment => IsWithin(pair.value.0, pair.value.1) || IsWithin(pair.value.1, pair.value.0)
      case Overlap => Overlaps(pair.value.0, pair.value.1);
    return Ok(if counts then totalContained + 1 else totalContained);
  }

  lemma {:induction false} TallySnoc(lines: seq<string>, i: nat, rule: Rule)
    requires i < |lines| && Tally(lines[..i], rule).Ok?
    ensures ParseLine(lines[i]).Panic? ==> Tally(lines[..i + 1], rule) == Panic(ParseLine(lines[i]).reason)
    ensures ParseLine(lines[i]).Ok? ==> Tally(lines[..i + 1], rule).Ok? && Tally(lines[..i + 1], rule).value == Tally(lines[..i], rule).value + (if Counts(ParseLine(lines[i]).value, rule) then 1 else 0)
  {
    assert lines[..i + 1][..i] == lines[..i];
  }

  lemma {:induction false} PanicPropagates(lines: seq<string>, i: nat, rule: Rule)
    requires 0 < i <= |lines| && Tally(lines[..i], rule).Panic?
    ensures Tally(lines, rule) == Tally(lines[..i], rule)
    decreases |lines| - i
  {
    if i < |lines| {
      assert lines[..i + 1][..i] == lines[..i];
      PanicPropagates(lines, i + 1, rule);
    } else {
      assert lines[..i] == lines;
    }
  }
}
