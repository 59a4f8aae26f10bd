/**
 * Day 2: rock, paper, scissors. Each line is an opponent code and a second
 * code; a round scores the value of the shape played plus the value of the
 * outcome. Part 1 reads the second code as a shape, part 2 as the outcome to
 * reach.
 */
module Day2 {
  import opened Common

  /** The outcome of a round, from the player's side. */
  datatype Result = Loss | Draw | Win

  datatype Shape = Rock | Paper | Scissors

  /** How the second code on a line is read. */
  datatype Strategy = AsShape | AsResult

  function ResultValue(r: Result): (v: int)
    ensures r == Loss ==> v == 0
    ensures r == Draw ==> v == 3
    ensures r == Win ==> v == 6
  {
    match r
    case Loss => 0
    case Draw => 3
    case Win => 6
  }

  function ShapeValue(m: Shape): (v: int)
    ensures 1 <= v <= 3
    ensures v == 1 <==> m == Rock
    ensures v == 2 <==> m == Paper
  {
    match m
    case Rock => 1
    case Paper => 2
    case Scissors => 3
  }

  /** `partial_cmp`: equal values are Equal; a difference of 1 or -2 is Greater, of -1 or 2 Less. */
  function PartialCmp(a: Shape, b: Shape): (r: Option<Ordering>)
    ensures r.Some?
  {
    if ShapeValue(a) == ShapeValue(b) then Some(Equal)
    else
      var diff := ShapeValue(a) - ShapeValue(b);
      if diff == -2 || diff == 1 then Some(Greater)
      else if diff == -1 || diff == 2 then Some(Less)
      else None
  }

  /** `cmp`, whose fallback to Equal is never taken. */
  function Cmp(a: Shape, b: Shape): Ordering {
    match PartialCmp(a, b)
    case Some(o) => o
    case None => Equal
  }

  /** Paper beats Rock, Scissors beats Paper, Rock beats Scissors; a shape draws with itself. */
  lemma {:induction false} WinningPairs(a: Shape, b: Shape)
    ensures Cmp(a, b) == Greater <==> (a, b) == (Paper, Rock) || (a, b) == (Scissors, Paper) || (a, b) == (Rock, Scissors)
    ensures Cmp(a, b) == Equal <==> a == b
  {
  }

  /** Swapping the players swaps winner and loser. */
  lemma {:induction false} CmpAntisymmetric(a: Shape, b: Shape)
    ensures Cmp(b, a) == Cmp(a, b).Reverse()
  {
  }

  /** `get_result`: the outcome for the player of `self` against `opponent`. */
  function GetResult(self: Shape, opponent: Shape): Result {
    match Cmp(self, opponent)
    case Less => Loss
    case Equal => Draw
    case Greater => Win
  }

  /** `get_move_from_result`: the shape to play against `self` to reach `result`. */
  function GetMoveFromResult(self: Shape, result: Result): (m: Shape)
    ensures GetResult(m, self) == result
  {
    match result
    case Draw => self
    case Loss =>
      (match self
       case Rock => Scissors
       case Paper => Rock
       case Scissors => Paper)
    case Win =>
      (match self
       case Rock => Paper
       case Paper => Scissors
       case Scissors => Rock)
  }

  /** `get_total_score`: shape value plus outcome value. */
  function TotalScore(self: Shape, opponent: Shape): (s: int)
    ensures 1 <= s <= 9
    ensures s == ShapeValue(self) + ResultValue(GetResult(self, opponent))
  {
    ShapeValue(self) + ResultValue(GetResult(self, opponent))
  }

  /** `EnemyMove::from_str` followed by `as_move`. */
  function EnemyMove(s: string): (r: Outcome<Shape>)
    ensures r.Ok? <==> s == "A" || s == "B" || s == "C"
  {
    if s == "A" then Ok(Rock)
    else if s == "B" then Ok(Paper)
    else if s == "C" then Ok(Scissors)
    else Panic("Non-matching string")
  }

  /** `MyMove::from_str` followed by `as_move`. */
  function MyMove(s: string): (r: Outcome<Shape>)
    ensures r.Ok? <==> s == "X" || s == "Y" || s == "Z"
  {
    if s == "X" then Ok(Rock)
    else if s == "Y" then Ok(Paper)
    else if s == "Z" then Ok(Scissors)
    else Panic("Non-matching string")
  }

  /** `Result::from_str`. */
  function ResultFromStr(s: string): (r: Outcome<Result>)
    ensures r.Ok? <==> s == "X" || s == "Y" || s == "Z"
  {
    if s == "X" then Ok(Loss)
    else if s == "Y" then Ok(Draw)
    else if s == "Z" then Ok(Win)
    else Panic("Unexpected string")
  }

  /**
   * The score of one line: the line is split at spaces, a missing second
   * field panics, then the opponent code and the second code are decoded.
   */
  function RoundScore(line: string, strategy: Strategy): (r: Outcome<int>)
    ensures r.Ok? ==> 1 <= r.value <= 9
  {
    var moves := Split(line, " ");
    if |moves| < 2 then Panic("Failed to get move")
    else
      var enemy :- EnemyMove(moves[0]);
      match strategy
      case AsShape =>
        var mine :- MyMove(moves[1]);
        Ok(TotalScore(mine, enemy))
      case AsResult =>
        var result :- ResultFromStr(moves[1]);
        Ok(TotalScore(GetMoveFromResult(enemy, result), enemy))
  }

  /** Under the second strategy, every round ends with the outcome its line asks for. */
  lemma {:induction false} ResultReached(line: string)
    requires RoundScore(line, AsResult).Ok?
    ensures
      var moves := Split(line, " ");
      var enemy := EnemyMove(moves[0]).value;
      var result := ResultFromStr(moves[1]).value;
      RoundScore(line, AsResult).value == ShapeValue(GetMoveFromResult(enemy, result)) + ResultValue(result)
  {
  }

  /** The sum of the round scores of all lines; the first line that panics aborts. */
  function Total(lines: seq<string>, strategy: Strategy): Outcome<int>
    decreases |lines|
  {
    if |lines| == 0 then Ok(0)
    else
      var score :- Total(lines[..|lines| - 1], strategy);
      var round :- RoundScore(lines[|lines| - 1], strategy);
      Ok(score + round)
  }

  /** Every round scores between 1 and 9, so the total is between one and nine per line. */
  lemma {:induction false} TotalBounds(lines: seq<string>, strategy: Strategy)
    requires Total(lines, strategy).Ok?
    ensures |lines| <= Total(lines, strategy).value <= 9 * |lines|
    decreases |lines|
  {
    if |lines| > 0 {
      TotalBounds(lines[..|lines| - 1], strategy);
    }
  }

  /** `part1` (`AsShape`) and `part2` (`AsResult`), as their loops. */
  method Score(lines: seq<string>, strategy: Strategy) returns (r: Outcome<int>)
    ensures r == Total(lines, strategy)
  {
    var score := 0;
    var i := 0;
    while i < |lines|
      invariant i <= |lines|
      invariant Total(lines[..i], strategy).Ok? && Total(lines[..i], strategy).value == score
    {
      var next := ScoreLine(lines, i, strategy, score);
      if next.Panic? {
        PanicPropagates(lines, i + 1, strategy);
        return next;
      }
      score := next.value;
      i := i + 1;
    }
    assert lines[..i] == lines;
    return Ok(score);
  }

  /** One turn of the loop: add the score of line `i`. */
  method ScoreLine(lines: seq<string>, i: nat, strategy: Strategy, score: int) returns (next: Outcome<int>)
    requires i < |lines| && Total(lines[..i], strategy).Ok? && Total(lines[..i], strategy).value == score
    ensures next.Ok? == Total(lines[..i + 1], strategy).Ok?
    ensures next.Ok? ==> next.value == Total(lines[..i + 1], strategy).value
    ensures next.Panic? ==> next.reason == Total(lines[..i + 1], strategy).reason
  {
    var round := RoundScore(lines[i], strategy);
    TotalStep(lines, i, strategy);
    if round.Panic? {
      return Panic(round.reason);
    }
    return Ok(score + round.value);
  }

  lemma {:induction false} TotalStep(lines: seq<string>, i: nat, strategy: Strategy)
    requires i < |lines| && Total(lines[..i], strategy).Ok?
    ensures var round := RoundScore(lines[i], strategy);
      Total(lines[..i + 1], strategy).Ok? == round.Ok? &&
      (round.Ok? ==> Total(lines[..i + 1], strategy).value == Total(lines[..i], strategy).value + round.value) &&
      (round.Panic? ==> Total(lines[..i + 1], strategy).reason == round.reason)
  {
    assert lines[..i + 1][..i] == lines[..i];
  }

  lemma {:induction false} PanicPropagates(lines: seq<string>, i: nat, strategy: Strategy)
    requires 0 < i <= |lines| && Total(lines[..i], strategy).Panic?
    ensures Total(lines, strategy) == Total(lines[..i], strategy)
    decreases |lines| - i
  {
    if i < |lines| {
      assert lines[..i + 1][..i] == lines[..i];
      PanicPropagates(lines, i + 1, strategy);
    } else {
      assert lines[..i] == lines;
    }
  }
}
