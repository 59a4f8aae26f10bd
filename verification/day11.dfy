/**
 * Day 11: monkey in the middle. Each monkey holds a queue of worry levels;
 * on its turn it inspects every item in order (applying its operation and,
 * in part 1, dividing by three), then throws the item to one of two monkeys
 * depending on a divisibility test. After twenty rounds the answer is the
 * product of the two largest inspection counts.
 */
module Day11 {
  import opened Common

  const UNWRAP_ERR := "called `Result::unwrap()` on an `Err` value"
  const UNWRAP_NONE := "called `Option::unwrap()` on a `None` value"
  const INDEX_OUT_OF_BOUNDS := "index out of bounds"
  const UNKNOWN_OPERATION := "Unknown operation"
  const REMAINDER_BY_ZERO := "attempt to calculate the remainder with a divisor of zero"

  /** The number of rounds both parts play. */
  const ROUNDS: nat := 20

  const ITEMS_PREFIX := "  Starting items: "
  const OPERATION_PREFIX := "  Operation: "
  const TEST_PREFIX := "  Test: divisible by "
  const TRUE_PREFIX := "    If true: throw to monkey "
  const FALSE_PREFIX := "    If false: throw to monkey "

  // ---------------------------------------------------------------------------
  // Worry arithmetic
  // ---------------------------------------------------------------------------

  /** `add`: the exact sum. */
  function Add(lhs: nat, rhs: nat): nat {
    lhs + rhs
  }

  /** `mul`: the exact product when it fits in a `usize`, otherwise the product of the two values modulo 10000. */
  function Mul(lhs: nat, rhs: nat): nat {
    if lhs * rhs <= USIZE_MAX then lhs * rhs else (lhs % 10000) * (rhs % 10000)
  }

  /** `mul` never overflows: both branches fit in a `usize`, and it is the exact product whenever that fits. */
  lemma {:induction false} MulFits(lhs: nat, rhs: nat)
    ensures Mul(lhs, rhs) <= USIZE_MAX
    ensures lhs * rhs <= USIZE_MAX ==> Mul(lhs, rhs) == lhs * rhs
    ensures lhs * rhs > USIZE_MAX ==> Mul(lhs, rhs) < 10000 * 10000
  {
    if lhs * rhs > USIZE_MAX {
      MulBelow(lhs % 10000, rhs % 10000, 10000);
    }
  }

  lemma {:induction false} MulBelow(a: nat, b: nat, n: nat)
    requires a < n && b < n
    ensures a * b < n * n
  {
    assert a * b <= a * n;
    assert a * n < n * n;
  }

  // ---------------------------------------------------------------------------
  // Parsing a monkey's notes
  // ---------------------------------------------------------------------------

  /** Every piece parsed as a `usize`, in order; the first that fails panics (`unwrap`). */
  function ParseNumbers(pieces: seq<string>): (r: Outcome<seq<nat>>)
    ensures r.Ok? ==> |r.value| == |pieces|
    ensures r.Ok? ==> forall k | 0 <= k < |pieces| :: ParseUnsigned(pieces[k], USIZE_MAX) == Some(r.value[k])
    ensures r.Panic? <==> exists k | 0 <= k < |pieces| :: ParseUnsigned(pieces[k], USIZE_MAX).None?
    ensures r.Panic? ==> r.reason == UNWRAP_ERR
    decreases |pieces|
  {
    if |pieces| == 0 then Ok([])
    else
      var init :- ParseNumbers(pieces[..|pieces| - 1]);
      match ParseUnsigned(pieces[|pieces| - 1], USIZE_MAX)
      case None => Panic(UNWRAP_ERR)
      case Some(n) => Ok(init + [n])
  }

  /** `parse_items_str`: the numbers after "  Starting items: ", separated by ", ". */
  function ParseItems(input: string): Outcome<seq<nat>> {
    ParseNumbers(Split(ReplaceAll(input, ITEMS_PREFIX, ""), ", "))
  }

  /**
   * `parse_operations_str`: the words right of " = " in the operation line.
   * The line must hold " = " (`eq_sides[1]`); the words are only looked at
   * when the operation is applied.
   */
  function ParseOperation(input: string): Outcome<seq<string>> {
    var sides := Split(ReplaceAll(input, OPERATION_PREFIX, ""), " = ");
    if |sides| < 2 then Panic(INDEX_OUT_OF_BOUNDS) else Ok(Split(sides[1], " "))
  }

  /**
   * The closure `parse_operations_str` returns, applied to `old`: a right
   * operand "old" squares whatever the operator; otherwise the operand is
   * parsed and "*" multiplies with `mul`, "+" adds, anything else panics.
   */
  function Apply(eq: seq<string>, worry: nat): Outcome<nat> {
    if |eq| < 3 then Panic(INDEX_OUT_OF_BOUNDS)
    else if eq[2] == "old" then Ok(worry * worry)
    else match ParseUnsigned(eq[2], USIZE_MAX)
      case None => Panic(UNWRAP_ERR)
      case Some(rhs) =>
        if eq[1] == "*" then Ok(Mul(worry, rhs))
        else if eq[1] == "+" then Ok(Add(worry, rhs))
        else Panic(UNKNOWN_OPERATION)
  }

  /** `parse_test_str`: the divisor after "  Test: divisible by ". */
  function ParseTest(input: string): Outcome<nat> {
    match ParseUnsigned(ReplaceAll(input, TEST_PREFIX, ""), USIZE_MAX)
    case None => Panic(UNWRAP_ERR)
    case Some(d) => Ok(d)
  }

  /** The closure `parse_test_str` returns: divisibility by the divisor; Rust's `%` panics on a zero divisor. */
  function Test(divisor: nat, item: nat): Outcome<bool> {
    if divisor == 0 then Panic(REMAINDER_BY_ZERO) else Ok(item % divisor == 0)
  }

  ghost predicate Divides(d: nat, n: nat) {
    exists q: nat :: n == q * d
  }

  /** The test holds exactly when the divisor divides the item. */
  lemma {:induction false} TestDivides(divisor: nat, item: nat)
    requires divisor > 0
    ensures Test(divisor, item).Ok? && (Test(divisor, item).value <==> Divides(divisor, item))
  {
    if item % divisor == 0 {
      assert item == (item / divisor) * divisor;
    }
    if Divides(divisor, item) {
      var q: nat :| item == q * divisor;
      DivModUnique(item, divisor, q, 0);
    }
  }

  /** `parse_target_str`: the monkey number after either "If true" or "If false" prefix. */
  function ParseTarget(input: string): Outcome<nat> {
    var trimmed := ReplaceAll(ReplaceAll(input, TRUE_PREFIX, ""), FALSE_PREFIX, "");
    match ParseUnsigned(trimmed, USIZE_MAX)
    case None => Panic(UNWRAP_ERR)
    case Some(t) => Ok(t)
  }

  // ---------------------------------------------------------------------------
  // Rendering the notes, for the round trips
  // ---------------------------------------------------------------------------

  /** The operations a note can describe; `Square` carries its operator word, which the source ignores. */
  datatype Op = Square(operator: string) | Times(k: nat) | Plus(k: nat) | Other(operator: string, k: nat)

  /** The meaning of an operation, independent of its text. */
  function Eval(op: Op, worry: nat): Outcome<nat> {
    match op
    case Square(_) => Ok(worry * worry)
    case Times(k) => Ok(Mul(worry, k))
    case Plus(k) => Ok(worry + k)
    case Other(_, _) => Panic(UNKNOWN_OPERATION)
  }

  /** A word without spaces, `=` or capital letters the notes' prefixes use. */
  predicate PlainWord(w: string) {
    |w| > 0 && forall i | 0 <= i < |w| :: w[i] != ' ' && w[i] != '=' && w[i] != 'O'
  }

  predicate WellFormed(op: Op) {
    match op
    case Square(o) => PlainWord(o)
    case Times(k) => k <= USIZE_MAX
    case Plus(k) => k <= USIZE_MAX
    case Other(o, k) => PlainWord(o) && o != "*" && o != "+" && k <= USIZE_MAX
  }

  function OperationWords(op: Op): seq<string> {
    match op
    case Square(o) => ["old", o, "old"]
    case Times(k) => ["old", "*", NatToString(k)]
    case Plus(k) => ["old", "+", NatToString(k)]
    case Other(o, k) => ["old", o, NatToString(k)]
  }

  function OperationText(op: Op): string {
    OPERATION_PREFIX + ("new" + " = " + Join(OperationWords(op), " "))
  }

  function ItemTexts(items: seq<nat>): (texts: seq<string>)
    ensures |texts| == |items| && forall k | 0 <= k < |items| :: texts[k] == NatToString(items[k])
  {
    seq(|items|, k requires 0 <= k < |items| => NatToString(items[k]))
  }

  function ItemsText(items: seq<nat>): string {
    ITEMS_PREFIX + Join(ItemTexts(items), ", ")
  }

  function TestText(divisor: nat): string {
    TEST_PREFIX + NatToString(divisor)
  }

  function TargetText(ifTrue: bool, target: nat): string {
    (if ifTrue then TRUE_PREFIX else FALSE_PREFIX) + NatToString(target)
  }

  lemma {:induction false} DigitsAvoid(s: string, c: char)
    requires AllDigits(s) && !IsDigit(c)
    ensures forall i | 0 <= i < |s| :: s[i] != c
  {
  }

  /** A rendered item list, stripped of its prefix and split at ", ", gives the rendered numbers. */
  lemma {:induction false} ItemsTextPieces(items: seq<nat>)
    requires |items| > 0
    ensures Split(ReplaceAll(ItemsText(items), ITEMS_PREFIX, ""), ", ") == ItemTexts(items)
  {
    var texts := ItemTexts(items);
    forall k, i | 0 <= k < |texts| && 0 <= i < |texts[k]| ensures texts[k][i] != 'S' && texts[k][i] != ',' {
      assert IsDigit(texts[k][i]);
    }
    JoinAvoids(texts, ", ", 'S');
    ReplacePrefix(ITEMS_PREFIX, Join(texts, ", "), 2);
    SplitJoin(texts, ", ");
  }

  /** Parsing a rendered item list gives the items back, in order. */
  lemma {:induction false} ParseItemsText(items: seq<nat>)
    requires |items| > 0 && forall k | 0 <= k < |items| :: items[k] <= USIZE_MAX
    ensures ParseItems(ItemsText(items)).Ok? && ParseItems(ItemsText(items)).value == items
  {
    ItemsTextPieces(items);
    var texts := ItemTexts(items);
    forall k | 0 <= k < |items| ensures ParseUnsigned(texts[k], USIZE_MAX) == Some(items[k]) {
      ParseUnsignedOfNatToString(items[k], USIZE_MAX);
    }
    var r := ParseNumbers(texts);
    assert r.Ok?;
    assert r.value == items;
  }

  /** Parsing a rendered operation line gives back its words. */
  lemma {:induction false} OperationTextWords(op: Op)
    requires WellFormed(op)
    ensures ParseOperation(OperationText(op)).Ok? && ParseOperation(OperationText(op)).value == OperationWords(op)
  {
    var words := OperationWords(op);
    forall k, i | 0 <= k < |words| && 0 <= i < |words[k]| ensures words[k][i] != ' ' && words[k][i] != '=' && words[k][i] != 'O' {
      if k == 2 && !op.Square? {
        assert IsDigit(words[k][i]);
      }
    }
    var joined := Join(words, " ");
    JoinAvoids(words, " ", '=');
    JoinAvoids(words, " ", 'O');
    var rest := "new" + " = " + joined;
    forall i | 0 <= i < |rest| ensures rest[i] != 'O' {
      if i >= 6 {
        assert rest[i] == joined[i - 6];
      }
    }
    ReplacePrefix(OPERATION_PREFIX, rest, 2);
    SplitOnce("new", " = ", joined, 1);
    SplitJoin(words, " ");
  }

  /**
   * Parsing a rendered operation line and applying it computes the
   * operation's meaning: "old" as right operand squares whatever the
   * operator word, "*" is `mul`, "+" is the sum, and any other operator panics.
   */
  lemma {:induction false} ApplyOperationText(op: Op, worry: nat)
    requires WellFormed(op)
    ensures ParseOperation(OperationText(op)).Ok?
    ensures Apply(ParseOperation(OperationText(op)).value, worry) == Eval(op, worry)
  {
    OperationTextWords(op);
    if !op.Square? {
      ParseUnsignedOfNatToString(op.k, USIZE_MAX);
      assert NatToString(op.k) != "old" by {
        assert IsDigit(NatToString(op.k)[0]);
      }
    }
  }

  /** Parsing a rendered test line gives the divisor back. */
  lemma {:induction false} ParseTestText(divisor: nat)
    requires divisor <= USIZE_MAX
    ensures ParseTest(TestText(divisor)).Ok? && ParseTest(TestText(divisor)).value == divisor
  {
    DigitsAvoid(NatToString(divisor), 'T');
    ReplacePrefix(TEST_PREFIX, NatToString(divisor), 2);
    ParseUnsignedOfNatToString(divisor, USIZE_MAX);
  }

  /** Parsing a rendered "If true" or "If false" line gives the target back. */
  lemma {:induction false} ParseTargetText(ifTrue: bool, target: nat)
    requires target <= USIZE_MAX
    ensures ParseTarget(TargetText(ifTrue, target)).Ok? && ParseTarget(TargetText(ifTrue, target)).value == target
  {
    var digits := NatToString(target);
    DigitsAvoid(digits, 'I');
    if ifTrue {
      ReplacePrefix(TRUE_PREFIX, digits, 4);
      ReplaceAbsent(digits, FALSE_PREFIX, "", 4);
    } else {
      var line := FALSE_PREFIX + digits;
      DigitsAvoid(digits, 'u');
      forall i | 0 <= i < |line| ensures line[i] != 'u' {
        if i >= |FALSE_PREFIX| {
          assert line[i] == digits[i - |FALSE_PREFIX|];
        }
      }
      ReplaceAbsent(line, TRUE_PREFIX, "", 9);
      ReplacePrefix(FALSE_PREFIX, digits, 4);
    }
    ParseUnsignedOfNatToString(target, USIZE_MAX);
  }

  // ---------------------------------------------------------------------------
  // Monkeys
  // ---------------------------------------------------------------------------

  /** A thrown item: where it goes and its new worry level. */
  datatype Movement = Movement(targetIndex: nat, item: nat)

  /** What a monkey holds: its queue, its notes (the operation as words) and its inspection count. */
  datatype MonkeyValue = MonkeyValue(
    items: seq<nat>, operation: seq<string>, divisor: nat,
    targetTrue: nat, targetFalse: nat, inspections: nat)

  /** `Monkey::new`: the five note lines parsed in field order; the first failure panics. */
  function ParseMonkey(itemsStr: string, opStr: string, testStr: string, trueStr: string, falseStr: string): Outcome<MonkeyValue> {
    var items :- ParseItems(itemsStr);
    var operation :- ParseOperation(opStr);
    var divisor :- ParseTest(testStr);
    var targetTrue :- ParseTarget(trueStr);
    var targetFalse :- ParseTarget(falseStr);
    Ok(MonkeyValue(items, operation, divisor, targetTrue, targetFalse, 0))
  }

  /** The worry level after inspection: the operation, then a division by three when worry is reduced. */
  function Worry(m: MonkeyValue, item: nat, reduceWorry: bool): Outcome<nat> {
    var w :- Apply(m.operation, item);
    Ok(if reduceWorry then w / 3 else w)
  }

  /** One inspection of `take_turn`: the new worry level and the target the test picks. */
  function Inspect(m: MonkeyValue, item: nat, reduceWorry: bool): Outcome<Movement> {
    var w :- Worry(m, item, reduceWorry);
    var divisible :- Test(m.divisor, w);
    Ok(Movement(if divisible then m.targetTrue else m.targetFalse, w))
  }

  /** An inspected item goes to the "true" monkey exactly when the divisor divides its new worry level. */
  lemma {:induction false} InspectTargets(m: MonkeyValue, item: nat, reduceWorry: bool)
    requires Inspect(m, item, reduceWorry).Ok?
    ensures var mv := Inspect(m, item, reduceWorry).value;
      Worry(m, item, reduceWorry).Ok? && mv.item == Worry(m, item, reduceWorry).value && m.divisor > 0 &&
      (Divides(m.divisor, mv.item) ==> mv.targetIndex == m.targetTrue) &&
      (!Divides(m.divisor, mv.item) ==> mv.targetIndex == m.targetFalse)
  {
    TestDivides(m.divisor, Inspect(m, item, reduceWorry).value.item);
  }

  /** Every item inspected in order: one movement per item, FIFO; the first failing inspection panics. */
  function Inspections(m: MonkeyValue, items: seq<nat>, reduceWorry: bool): Outcome<seq<Movement>>
    decreases |items|
  {
    if |items| == 0 then Ok([])
    else
      var init :- Inspections(m, items[..|items| - 1], reduceWorry);
      var mv :- Inspect(m, items[|items| - 1], reduceWorry);
      Ok(init + [mv])
  }

  /** A turn's movements are the items' inspections, one per item in queue order; it panics exactly when one of them does. */
  lemma {:induction false} InspectionsInOrder(m: MonkeyValue, items: seq<nat>, reduceWorry: bool)
    ensures var r := Inspections(m, items, reduceWorry);
      r.Ok? ==> |r.value| == |items| && forall k | 0 <= k < |items| ::
        Inspect(m, items[k], reduceWorry).Ok? && Inspect(m, items[k], reduceWorry).value == r.value[k]
    ensures Inspections(m, items, reduceWorry).Panic? <==> exists k | 0 <= k < |items| :: Inspect(m, items[k], reduceWorry).Panic?
    decreases |items|
  {
    if |items| > 0 {
      var init := items[..|items| - 1];
      InspectionsInOrder(m, init, reduceWorry);
      assert forall k | 0 <= k < |init| :: init[k] == items[k];
    }
  }

  /** Once an inspection fails, the turn fails with its reason. */
  lemma {:induction false} InspectionsPanic(m: MonkeyValue, items: seq<nat>, n: nat, reduceWorry: bool)
    requires 0 < n <= |items| && Inspections(m, items[..n - 1], reduceWorry).Ok?
    requires Inspect(m, items[n - 1], reduceWorry).Panic?
    ensures Inspections(m, items, reduceWorry).Panic?
    ensures Inspections(m, items, reduceWorry).reason == Inspect(m, items[n - 1], reduceWorry).reason
    decreases |items|
  {
    if n < |items| {
      var init := items[..|items| - 1];
      assert init[..n - 1] == items[..n - 1] && init[n - 1] == items[n - 1];
      InspectionsPanic(m, init, n, reduceWorry);
    } else {
      assert items[..n - 1] == items[..|items| - 1];
    }
  }

  /** Inspecting one more item of the queue. */
  lemma {:induction false} InspectionsSnoc(m: MonkeyValue, items: seq<nat>, k: nat, reduceWorry: bool)
    requires k < |items| && Inspections(m, items[..k], reduceWorry).Ok? && Inspect(m, items[k], reduceWorry).Ok?
    ensures Inspections(m, items[..k + 1], reduceWorry).Ok?
    ensures Inspections(m, items[..k + 1], reduceWorry).value ==
      Inspections(m, items[..k], reduceWorry).value + [Inspect(m, items[k], reduceWorry).value]
  {
    assert items[..k + 1][..k] == items[..k];
  }

  /** A monkey of the troop, whose queue and count its turns change in place. */
  class Monkey {
    var items: seq<nat>
    const operation: seq<string>
    const divisor: nat
    const targetTrueIndex: nat
    const targetFalseIndex: nat
    var numInspections: nat

    function Value(): MonkeyValue
      reads this
    {
      MonkeyValue(items, operation, divisor, targetTrueIndex, targetFalseIndex, numInspections)
    }

    constructor(m: MonkeyValue)
      ensures Value() == m
    {
      items := m.items;
      operation := m.operation;
      divisor := m.divisor;
      targetTrueIndex := m.targetTrue;
      targetFalseIndex := m.targetFalse;
      numInspections := m.inspections;
    }

    /**
     * `take_turn`: None on an empty queue, changing nothing; otherwise the
     * oldest item is removed, inspected and counted.
     */
    method TakeTurn(reduceWorry: bool) returns (r: Outcome<Option<Movement>>)
      modifies this
      ensures |old(items)| == 0 ==> r.Ok? && r.value.None? && Value() == old(Value())
      ensures |old(items)| > 0 ==> items == old(items)[1..]
      ensures |old(items)| > 0 ==> var i := Inspect(old(Value()), old(items)[0], reduceWorry);
        r.Ok? == i.Ok? && (r.Ok? ==> r.value == Some(i.value)) && (r.Panic? ==> r.reason == i.reason)
      ensures r.Ok? && r.value.Some? ==> numInspections == old(numInspections) + 1
    {
      if |items| == 0 {
        return Ok(None);
      }
      var currentItem := items[0];
      items := items[1..];
      var newItem :- Apply(operation, currentItem);
      if reduceWorry {
        newItem := newItem / 3;
      }
      numInspections := numInspections + 1;
      var divisible :- Test(divisor, newItem);
      var targetMonkeyIndex := if divisible then targetTrueIndex else targetFalseIndex;
      r := Ok(Some(Movement(targetMonkeyIndex, newItem)));
    }

    /** `take_turns`: inspect until the queue is empty; one movement per original item, in order. */
    method TakeTurns(reduceWorry: bool) returns (r: Outcome<seq<Movement>>)
      modifies this
      ensures var i := Inspections(old(Value()), old(items), reduceWorry);
        r.Ok? == i.Ok? && (r.Ok? ==> r.value == i.value) && (r.Panic? ==> r.reason == i.reason)
      ensures r.Ok? ==> items == [] && numInspections == old(numInspections) + |old(items)|
    {
      ghost var start := Value();
      var movements: seq<Movement> := [];
      var cnt := true;
      ghost var k: nat := 0;
      while cnt
        invariant k <= |start.items| && items == start.items[k..]
        invariant numInspections == start.inspections + k
        invariant Inspections(start, start.items[..k], reduceWorry).Ok?
        invariant Inspections(start, start.items[..k], reduceWorry).value == movements
        invariant !cnt ==> k == |start.items|
        decreases |items|, if cnt then 1 else 0
      {
        var t := TakeTurn(reduceWorry);
        if t.Panic? {
          InspectionsPanic(start, start.items, k + 1, reduceWorry);
          return Panic(t.reason);
        }
        if t.value.Some? {
          InspectionsSnoc(start, start.items, k, reduceWorry);
          movements := movements + [t.value.value];
          k := k + 1;
        } else {
          cnt := false;
        }
      }
      assert start.items[..k] == start.items;
      r := Ok(movements);
    }

    /** `items.borrow_mut().push(item)`. */
    method Push(item: nat)
      modifies this
      ensures Value() == old(Value()).(items := old(items) + [item])
    {
      items := items + [item];
    }
  }

  // ---------------------------------------------------------------------------
  // Rounds
  // ---------------------------------------------------------------------------

  /** Delivering movements `k..` in order: each item joins the back of its target's queue; a missing target panics (`get(..).unwrap()`). */
  function DeliverFrom(ms: seq<MonkeyValue>, movements: seq<Movement>, k: nat): (r: Outcome<seq<MonkeyValue>>)
    ensures r.Ok? ==> |r.value| == |ms|
    decreases |movements| - k
  {
    if k >= |movements| then Ok(ms)
    else
      var t := movements[k].targetIndex;
      if t >= |ms| then Panic(UNWRAP_NONE)
      else DeliverFrom(ms[t := ms[t].(items := ms[t].items + [movements[k].item])], movements, k + 1)
  }

  /** Monkey `i`'s turn: it inspects its whole queue, which empties, counting each item; then the movements are delivered. */
  function Turn(ms: seq<MonkeyValue>, i: nat, reduceWorry: bool): (r: Outcome<seq<MonkeyValue>>)
    requires i < |ms|
    ensures r.Ok? ==> |r.value| == |ms|
  {
    var m := ms[i];
    var movements :- Inspections(m, m.items, reduceWorry);
    DeliverFrom(ms[i := m.(items := [], inspections := m.inspections + |m.items|)], movements, 0)
  }

  /** The turns of monkeys `i..` in index order. */
  function RoundFrom(ms: seq<MonkeyValue>, reduceWorry: bool, i: nat): (r: Outcome<seq<MonkeyValue>>)
    ensures r.Ok? ==> |r.value| == |ms|
    decreases |ms| - i
  {
    if i >= |ms| then Ok(ms)
    else
      var next :- Turn(ms, i, reduceWorry);
      RoundFrom(next, reduceWorry, i + 1)
  }

  /** `n` more rounds. */
  function Rounds(ms: seq<MonkeyValue>, reduceWorry: bool, n: nat): (r: Outcome<seq<MonkeyValue>>)
    ensures r.Ok? ==> |r.value| == |ms|
    decreases n
  {
    if n == 0 then Ok(ms)
    else
      var next :- RoundFrom(ms, reduceWorry, 0);
      Rounds(next, reduceWorry, n - 1)
  }

  /** The number of items held by the troop. */
  function TotalItems(ms: seq<MonkeyValue>): nat
    decreases |ms|
  {
    if |ms| == 0 then 0 else TotalItems(ms[..|ms| - 1]) + |ms[|ms| - 1].items|
  }

  /** Every monkey's inspection count. */
  function Counts(ms: seq<MonkeyValue>): (counts: seq<nat>)
    ensures |counts| == |ms| && forall i | 0 <= i < |ms| :: counts[i] == ms[i].inspections
  {
    seq(|ms|, i requires 0 <= i < |ms| => ms[i].inspections)
  }

  /** Changing one monkey's queue changes the total by the difference in length. */
  lemma {:induction false} TotalItemsUpdate(ms: seq<MonkeyValue>, i: nat, m: MonkeyValue)
    requires i < |ms|
    ensures TotalItems(ms[i := m]) + |ms[i].items| == TotalItems(ms) + |m.items|
    decreases |ms|
  {
    var n := |ms|;
    var ms' := ms[i := m];
    assert ms'[..n - 1] == if i == n - 1 then ms[..n - 1] else ms[..n - 1][i := m];
    if i < n - 1 {
      TotalItemsUpdate(ms[..n - 1], i, m);
    }
  }

  /** Delivering keeps every count and adds one item per delivered movement. */
  lemma {:induction false} DeliverConserves(ms: seq<MonkeyValue>, movements: seq<Movement>, k: nat)
    requires k <= |movements|
    ensures var r := DeliverFrom(ms, movements, k);
      r.Ok? ==> TotalItems(r.value) == TotalItems(ms) + |movements| - k && Counts(r.value) == Counts(ms)
    decreases |movements| - k
  {
    if k < |movements| {
      var t := movements[k].targetIndex;
      if t < |ms| {
        var m := ms[t].(items := ms[t].items + [movements[k].item]);
        TotalItemsUpdate(ms, t, m);
        DeliverConserves(ms[t := m], movements, k + 1);
        assert Counts(ms[t := m]) == Counts(ms);
      }
    }
  }

  /**
   * A turn conserves the items the troop holds, raises the turn's monkey's
   * count by the length of its queue and leaves every other count alone.
   */
  lemma {:induction false} TurnConserves(ms: seq<MonkeyValue>, i: nat, reduceWorry: bool)
    requires i < |ms|
    ensures var r := Turn(ms, i, reduceWorry);
      r.Ok? ==> (TotalItems(r.value) == TotalItems(ms) &&
                 Counts(r.value) == Counts(ms)[i := ms[i].inspections + |ms[i].items|])
  {
    var m := ms[i];
    var movements := Inspections(m, m.items, reduceWorry);
    if movements.Ok? {
      InspectionsInOrder(m, m.items, reduceWorry);
      var emptied := m.(items := [], inspections := m.inspections + |m.items|);
      TotalItemsUpdate(ms, i, emptied);
      DeliverConserves(ms[i := emptied], movements.value, 0);
      assert Counts(ms[i := emptied]) == Counts(ms)[i := ms[i].inspections + |ms[i].items|];
    }
  }

  /** No monkey's count in `after` is below its count in `before`. */
  predicate NoFewer(after: seq<MonkeyValue>, before: seq<MonkeyValue>) {
    |after| == |before| && forall j | 0 <= j < |before| :: after[j].inspections >= before[j].inspections
  }

  lemma NoFewerTransitive(a: seq<MonkeyValue>, b: seq<MonkeyValue>, c: seq<MonkeyValue>)
    requires NoFewer(a, b) && NoFewer(b, c)
    ensures NoFewer(a, c)
  {
  }

  /** A round conserves the items the troop holds and never lowers a count. */
  lemma {:induction false} RoundConserves(ms: seq<MonkeyValue>, reduceWorry: bool, i: nat)
    ensures var r := RoundFrom(ms, reduceWorry, i);
      r.Ok? ==> (TotalItems(r.value) == TotalItems(ms) && NoFewer(r.value, ms))
    decreases |ms| - i
  {
    if i < |ms| {
      TurnConserves(ms, i, reduceWorry);
      var next := Turn(ms, i, reduceWorry);
      if next.Ok? {
        RoundConserves(next.value, reduceWorry, i + 1);
        assert NoFewer(next.value, ms) by {
          forall j | 0 <= j < |ms|
            ensures next.value[j].inspections >= ms[j].inspections
          {
            assert Counts(next.value)[j] >= Counts(ms)[j];
          }
        }
      }
    }
  }

  /** So do any number of rounds. */
  lemma {:induction false} RoundsConserve(ms: seq<MonkeyValue>, reduceWorry: bool, n: nat)
    ensures var r := Rounds(ms, reduceWorry, n);
      r.Ok? ==> (TotalItems(r.value) == TotalItems(ms) && NoFewer(r.value, ms))
    decreases n
  {
    if n > 0 {
      RoundConserves(ms, reduceWorry, 0);
      var next := RoundFrom(ms, reduceWorry, 0);
      if next.Ok? {
        RoundsConserve(next.value, reduceWorry, n - 1);
        if Rounds(next.value, reduceWorry, n - 1).Ok? {
          NoFewerTransitive(Rounds(next.value, reduceWorry, n - 1).value, next.value, ms);
        }
      }
    }
  }

  // ---------------------------------------------------------------------------
  // The troop as objects
  // ---------------------------------------------------------------------------

  /** No monkey object appears twice. */
  predicate Distinct(monkeys: seq<Monkey>) {
    forall i, j | 0 <= i < j < |monkeys| :: monkeys[i] != monkeys[j]
  }

  /** A monkey not yet in the troop can join it without repeating an object. */
  lemma DistinctSnoc(monkeys: seq<Monkey>, m: Monkey)
    requires Distinct(monkeys) && forall i | 0 <= i < |monkeys| :: monkeys[i] != m
    ensures Distinct(monkeys + [m])
  {
  }

  /** What the monkey objects hold. */
  ghost function Values(monkeys: seq<Monkey>): (r: seq<MonkeyValue>)
    reads monkeys
    ensures |r| == |monkeys|
    ensures forall i | 0 <= i < |monkeys| :: r[i] == monkeys[i].Value()
  {
    seq(|monkeys|, i requires 0 <= i < |monkeys| reads monkeys => monkeys[i].Value())
  }

  lemma {:induction false} ValuesSnoc(monkeys: seq<Monkey>, m: Monkey)
    ensures Values(monkeys + [m]) == Values(monkeys) + [m.Value()]
  {
    assert |Values(monkeys + [m])| == |Values(monkeys) + [m.Value()]|;
    forall i | 0 <= i < |monkeys| + 1
      ensures Values(monkeys + [m])[i] == (Values(monkeys) + [m.Value()])[i]
    {
      if i < |monkeys| {
        assert (monkeys + [m])[i] == monkeys[i];
      }
    }
  }

  /** `take_turns` on monkey `i`. */
  method TakeTurnsAt(monkeys: seq<Monkey>, i: nat, reduceWorry: bool) returns (r: Outcome<seq<Movement>>)
    requires Distinct(monkeys) && i < |monkeys|
    modifies monkeys[i]
    ensures var m := old(Values(monkeys))[i]; var s := Inspections(m, m.items, reduceWorry);
      r.Ok? == s.Ok? && (r.Ok? ==> r.value == s.value) && (r.Panic? ==> r.reason == s.reason)
    ensures var m := old(Values(monkeys))[i];
      r.Ok? ==> Values(monkeys) == old(Values(monkeys))[i := m.(items := [], inspections := m.inspections + |m.items|)]
  {
    r := monkeys[i].TakeTurns(reduceWorry);
  }

  /** The push onto monkey `t`'s queue. */
  method PushTo(monkeys: seq<Monkey>, t: nat, item: nat)
    requires Distinct(monkeys) && t < |monkeys|
    modifies monkeys[t]
    ensures Values(monkeys) == old(Values(monkeys))[t := old(Values(monkeys))[t].(items := old(monkeys[t].items) + [item])]
  {
    monkeys[t].Push(item);
  }

  /** The delivery loop of a turn: each movement pushes its item onto its target's queue. */
  method Deliver(monkeys: seq<Monkey>, movements: seq<Movement>) returns (r: Outcome<()>)
    requires Distinct(monkeys)
    modifies monkeys
    ensures var s := DeliverFrom(old(Values(monkeys)), movements, 0);
      r.Ok? == s.Ok? && (r.Ok? ==> Values(monkeys) == s.value) && (r.Panic? ==> r.reason == s.reason)
  {
    for k := 0 to |movements|
      invariant DeliverFrom(old(Values(monkeys)), movements, 0) == DeliverFrom(Values(monkeys), movements, k)
    {
      var movement := movements[k];
      if movement.targetIndex >= |monkeys| {
        return Panic(UNWRAP_NONE);
      }
      PushTo(monkeys, movement.targetIndex, movement.item);
    }
    return Ok(());
  }

  /** One iteration of the round's `for i` loop: monkey `i` takes its turns and every movement is delivered. */
  method PlayTurn(monkeys: seq<Monkey>, i: nat, reduceWorry: bool) returns (r: Outcome<()>)
    requires Distinct(monkeys) && i < |monkeys|
    modifies monkeys
    ensures var s := Turn(old(Values(monkeys)), i, reduceWorry);
      r.Ok? == s.Ok? && (r.Ok? ==> Values(monkeys) == s.value) && (r.Panic? ==> r.reason == s.reason)
  {
    var movements := TakeTurnsAt(monkeys, i, reduceWorry);
    if movements.Panic? {
      return Panic(movements.reason);
    }
    r := Deliver(monkeys, movements.value);
  }

  /** The `for i in 0..monkeys.len()` loop of one round. */
  method PlayRound(monkeys: seq<Monkey>, reduceWorry: bool) returns (r: Outcome<()>)
    requires Distinct(monkeys)
    modifies monkeys
    ensures var s := RoundFrom(old(Values(monkeys)), reduceWorry, 0);
      r.Ok? == s.Ok? && (r.Ok? ==> Values(monkeys) == s.value) && (r.Panic? ==> r.reason == s.reason)
  {
    for i := 0 to |monkeys|
      invariant RoundFrom(old(Values(monkeys)), reduceWorry, 0) == RoundFrom(Values(monkeys), reduceWorry, i)
    {
      var t := PlayTurn(monkeys, i, reduceWorry);
      if t.Panic? {
        return Panic(t.reason);
      }
    }
    return Ok(());
  }

  /** The `for _ in 0..20` loop. */
  method PlayRounds(monkeys: seq<Monkey>, reduceWorry: bool, n: nat) returns (r: Outcome<()>)
    requires Distinct(monkeys)
    modifies monkeys
    ensures var s := Rounds(old(Values(monkeys)), reduceWorry, n);
      r.Ok? == s.Ok? && (r.Ok? ==> Values(monkeys) == s.value) && (r.Panic? ==> r.reason == s.reason)
  {
    for round := 0 to n
      invariant Rounds(old(Values(monkeys)), reduceWorry, n) == Rounds(Values(monkeys), reduceWorry, n - round)
    {
      var t := PlayRound(monkeys, reduceWorry);
      if t.Panic? {
        return Panic(t.reason);
      }
    }
    return Ok(());
  }

  // ---------------------------------------------------------------------------
  // The answer
  // ---------------------------------------------------------------------------

  /** Largest first. */
  predicate Descending(s: seq<nat>) {
    forall i, j | 0 <= i < j < |s| :: s[i] >= s[j]
  }

  lemma {:induction false} DescendingTail(s: seq<nat>)
    requires Descending(s) && |s| > 0
    ensures Descending(s[1..])
  {
    forall i, j | 0 <= i < j < |s[1..]| ensures s[1..][i] >= s[1..][j] {
      assert s[1..][i] == s[i + 1] && s[1..][j] == s[j + 1];
    }
  }

  /** Taking the head off a sequence takes one occurrence of it out of the multiset. */
  lemma {:induction false} MultisetTail(s: seq<nat>)
    requires |s| > 0
    ensures multiset(s[1..]) == multiset(s) - multiset{s[0]}
    ensures multiset(s) == multiset{s[0]} + multiset(s[1..])
  {
    assert s == [s[0]] + s[1..];
  }

  /** Insertion into a descending sequence, before the first element not above `x`. */
  function InsertDesc(x: nat, s: seq<nat>): (r: seq<nat>)
    requires Descending(s)
    ensures |r| == |s| + 1
    ensures Descending(r) && multiset(r) == multiset(s) + multiset{x}
    decreases |s|
  {
    if |s| == 0 || x >= s[0] then
      assert multiset([x] + s) == multiset{x} + multiset(s);
      [x] + s
    else
      DescendingTail(s);
      var rest := InsertDesc(x, s[1..]);
      InsertBehind(x, s, rest);
      [s[0]] + rest
  }

  lemma {:induction false} InsertBehind(x: nat, s: seq<nat>, rest: seq<nat>)
    requires Descending(s) && |s| > 0 && x < s[0]
    requires Descending(rest) && multiset(rest) == multiset(s[1..]) + multiset{x}
    ensures Descending([s[0]] + rest) && multiset([s[0]] + rest) == multiset(s) + multiset{x}
  {
    MultisetTail(s);
    HeadAboveRest(x, s, rest);
    var r := [s[0]] + rest;
    forall i, j | 0 <= i < j < |r| ensures r[i] >= r[j] {
      if i > 0 {
        assert r[i] == rest[i - 1] && r[j] == rest[j - 1];
      }
    }
    assert multiset(r) == multiset{s[0]} + multiset(rest);
  }

  /** The head of a descending sequence is at least every element of a rearrangement of its tail with a smaller `x`. */
  lemma HeadAboveRest(x: nat, s: seq<nat>, rest: seq<nat>)
    requires Descending(s) && |s| > 0 && x < s[0]
    requires multiset(rest) == multiset(s[1..]) + multiset{x}
    ensures forall j | 0 <= j < |rest| :: s[0] >= rest[j]
  {
    forall j | 0 <= j < |rest| ensures s[0] >= rest[j] {
      assert rest[j] in multiset(rest);
      if rest[j] != x {
        assert rest[j] in multiset(s[1..]);
        var k :| 0 <= k < |s[1..]| && s[1..][k] == rest[j];
        assert s[k + 1] == rest[j];
      }
    }
  }

  /** `sort_by_key` on the counts followed by `reverse`, as a function of the counts alone (see `SortedUnique`). */
  function SortDesc(s: seq<nat>): (r: seq<nat>)
    ensures |r| == |s|
    ensures Descending(r) && multiset(r) == multiset(s)
  {
    if |s| == 0 then []
    else
      assert s == s[..|s| - 1] + [s[|s| - 1]];
      InsertDesc(s[|s| - 1], SortDesc(s[..|s| - 1]))
  }

  /** Two descending arrangements of the same counts are the same sequence: the answer does not depend on how the sort breaks ties. */
  lemma {:induction false} SortedUnique(a: seq<nat>, b: seq<nat>)
    requires Descending(a) && Descending(b) && multiset(a) == multiset(b)
    ensures a == b
    decreases |a|
  {
    if |a| == 0 {
      assert |b| == |multiset(b)| == 0;
    } else {
      assert |b| == |multiset(b)| == |multiset(a)| == |a|;
      assert a[0] == b[0] by {
        assert a[0] in multiset(b);
        var k :| 0 <= k < |b| && b[k] == a[0];
        assert b[0] in multiset(a);
        var l :| 0 <= l < |a| && a[l] == b[0];
      }
      MultisetTail(a);
      MultisetTail(b);
      DescendingTail(a);
      DescendingTail(b);
      SortedUnique(a[1..], b[1..]);
    }
  }

  /** The product of the two largest counts; fewer than two monkeys index out of bounds. */
  function MonkeyBusiness(counts: seq<nat>): (r: Outcome<nat>)
    ensures r.Ok? <==> |counts| >= 2
  {
    var sorted := SortDesc(counts);
    if |sorted| < 2 then Panic(INDEX_OUT_OF_BOUNDS)
    else Ok(sorted[0] * sorted[1])
  }

  /** Any largest-first arrangement of the counts gives the same business, and its two leading counts bound all the others. */
  lemma {:induction false} BusinessOfAnySort(counts: seq<nat>, sorted: seq<nat>)
    requires Descending(sorted) && multiset(sorted) == multiset(counts) && |counts| >= 2
    ensures |sorted| == |counts|
    ensures MonkeyBusiness(counts).Ok? && MonkeyBusiness(counts).value == sorted[0] * sorted[1]
    ensures forall i | 0 <= i < |counts| :: counts[i] <= sorted[0]
  {
    assert |sorted| == |multiset(sorted)| == |multiset(counts)| == |counts|;
    SortedUnique(SortDesc(counts), sorted);
    forall i | 0 <= i < |counts| ensures counts[i] <= sorted[0] {
      assert counts[i] in multiset(sorted);
      var k :| 0 <= k < |sorted| && sorted[k] == counts[i];
    }
  }

  /**
   * The reading loop: a group of up to seven lines per monkey, whose second to
   * sixth lines are the notes; a group with fewer than six lines panics.
   */
  function ParseFrom(lines: seq<string>, pos: nat, acc: seq<MonkeyValue>): (r: Outcome<seq<MonkeyValue>>)
    ensures r.Ok? ==> |r.value| >= |acc| && r.value[..|acc|] == acc
    decreases |lines| - pos
  {
    if pos >= |lines| then Ok(acc)
    else if |lines| - pos < 6 then Panic(UNWRAP_NONE)
    else
      var m :- ParseMonkey(lines[pos + 1], lines[pos + 2], lines[pos + 3], lines[pos + 4], lines[pos + 5]);
      var r := ParseFrom(lines, pos + 7, acc + [m]);
      assert r.Ok? ==> r.value[..|acc|] == r.value[..|acc + [m]|][..|acc|];
      r
  }

  /** `part1` (`reduceWorry`) and `part2`. */
  function Answer(lines: seq<string>, reduceWorry: bool): Outcome<nat> {
    var ms :- ParseFrom(lines, 0, []);
    var final :- Rounds(ms, reduceWorry, ROUNDS);
    MonkeyBusiness(Counts(final))
  }

  /** `Monkey::new`. */
  method NewMonkey(itemsStr: string, opStr: string, testStr: string, trueStr: string, falseStr: string)
    returns (r: Outcome<Monkey>)
    ensures var s := ParseMonkey(itemsStr, opStr, testStr, trueStr, falseStr);
      r.Ok? == s.Ok? && (r.Ok? ==> fresh(r.value) && r.value.Value() == s.value) && (r.Panic? ==> r.reason == s.reason)
  {
    var m := ParseMonkey(itemsStr, opStr, testStr, trueStr, falseStr);
    if m.Panic? {
      return Panic(m.reason);
    }
    var monkey := new Monkey(m.value);
    return Ok(monkey);
  }

  /** The reading loop of `part1` and `part2`, building fresh monkeys. */
  method ReadMonkeys(lines: seq<string>) returns (r: Outcome<seq<Monkey>>)
    ensures var s := ParseFrom(lines, 0, []);
      r.Ok? == s.Ok? && (r.Panic? ==> r.reason == s.reason)
    ensures r.Ok? ==> Distinct(r.value) && Values(r.value) == ParseFrom(lines, 0, []).value
    ensures r.Ok? ==> forall i | 0 <= i < |r.value| :: fresh(r.value[i])
  {
    var monkeys: seq<Monkey> := [];
    ghost var values: seq<MonkeyValue> := [];
    var pos: nat := 0;
    while pos < |lines|
      invariant forall i | 0 <= i < |monkeys| :: fresh(monkeys[i])
      invariant Distinct(monkeys)
      invariant Values(monkeys) == values
      invariant ParseFrom(lines, 0, []) == ParseFrom(lines, pos, values)
      decreases |lines| - pos
    {
      if |lines| - pos < 6 {
        return Panic(UNWRAP_NONE);
      }
      var m := NewMonkey(lines[pos + 1], lines[pos + 2], lines[pos + 3], lines[pos + 4], lines[pos + 5]);
      if m.Panic? {
        return Panic(m.reason);
      }
      ValuesSnoc(monkeys, m.value);
      DistinctSnoc(monkeys, m.value);
      monkeys := monkeys + [m.value];
      values := values + [m.value.Value()];
      pos := pos + 7;
    }
    return Ok(monkeys);
  }

  /** Every monkey's inspection count, read off the objects. */
  function InspectionCounts(monkeys: seq<Monkey>): (counts: seq<nat>)
    reads monkeys
    ensures counts == Counts(Values(monkeys))
  {
    if |monkeys| == 0 then []
    else InspectionCounts(monkeys[..|monkeys| - 1]) + [monkeys[|monkeys| - 1].numInspections]
  }

  /** `part1` (`reduceWorry`) and `part2`: read, play twenty rounds, multiply the two largest counts. */
  method Part(lines: seq<string>, reduceWorry: bool) returns (r: Outcome<nat>)
    ensures var s := Answer(lines, reduceWorry);
      r.Ok? == s.Ok? && (r.Ok? ==> r.value == s.value) && (r.Panic? ==> r.reason == s.reason)
  {
    var read := ReadMonkeys(lines);
    if read.Panic? {
      return Panic(read.reason);
    }
    var monkeys := read.value;
    ghost var parsed := Values(monkeys);
    var played := PlayRounds(monkeys, reduceWorry, ROUNDS);
    if played.Panic? {
      return Panic(played.reason);
    }
    assert Values(monkeys) == Rounds(parsed, reduceWorry, ROUNDS).value;
    r := MonkeyBusiness(InspectionCounts(monkeys));
  }
}
