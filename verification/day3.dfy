/**
 * Day 3: rucksack priorities. Part 1 splits each line into two halves and
 * adds the priority of every distinct item found in both; part 2 takes the
 * lines three at a time and adds the priority of the first item of the third
 * line that also occurs in the first two.
 */
module Day3 {
  import opened Common

  /** The characters `char_to_pval` looks up, in order: a to z, then A to Z; priority is position plus one. */
  const Priorities: string := Letters('a', 26) + Letters('A', 26)

  lemma {:induction false} PrioritiesAt(k: nat)
    requires k < 52
    ensures Priorities[k] as int == if k < 26 then 'a' as int + k else 'A' as int + k - 26
  {
    if k < 26 {
      LettersAt('a', 26, k);
    } else {
      LettersAt('A', 26, k - 26);
    }
  }

  /** `char_to_pval`: a letter's position in `Priorities` plus one; anything else panics. */
  function CharToPval(c: char): Outcome<int> {
    match IndexOf(Priorities, c)
    case Some(v) => Ok(v + 1)
    case None => Panic("Something wrong with char_to_pval")
  }

  /** The priority of an item by its letter: a to z are 1 to 26, A to Z are 27 to 52, anything else panics. */
  function Priority(c: char): (r: Outcome<int>)
    ensures r.Ok? ==> 1 <= r.value <= 52
  {
    if 'a' <= c <= 'z' then Ok(c as int - 'a' as int + 1)
    else if 'A' <= c <= 'Z' then Ok(c as int - 'A' as int + 27)
    else Panic("Something wrong with char_to_pval")
  }

  /** Looking the item up in `Priorities` gives exactly the priority by letter, panics included. */
  lemma {:induction false} CharToPvalIsPriority(c: char)
    ensures CharToPval(c) == Priority(c)
  {
    var r := IndexOf(Priorities, c);
    if 'a' <= c <= 'z' {
      var k := c as int - 'a' as int;
      PrioritiesAt(k);
      assert r.Some? && r.value <= k;
      PrioritiesAt(r.value);
    } else if 'A' <= c <= 'Z' {
      var k := c as int - 'A' as int + 26;
      PrioritiesAt(k);
      assert r.Some? && r.value <= k;
      PrioritiesAt(r.value);
    } else {
      if r.Some? {
        PrioritiesAt(r.value);
      }
    }
  }

  /** The set of characters of `s`. */
  function CharsOf(s: string): set<char> {
    if |s| == 0 then {} else CharsOf(s[..|s| - 1]) + {s[|s| - 1]}
  }

  lemma {:induction false} CharsOfSnoc(s: string, i: nat)
    requires i < |s|
    ensures CharsOf(s[..i + 1]) == CharsOf(s[..i]) + {s[i]}
  {
    assert s[..i + 1][..i] == s[..i];
  }

  /** An item is in `CharsOf(s)` exactly when it occurs in `s`. */
  lemma {:induction false} InCharsOf(s: string, c: char)
    ensures c in CharsOf(s) <==> c in s
    decreases |s|
  {
    if |s| > 0 {
      InCharsOf(s[..|s| - 1], c);
      assert s == s[..|s| - 1] + [s[|s| - 1]];
    }
  }

  // ---------------------------------------------------------------------------
  // Part 1
  // ---------------------------------------------------------------------------

  /** The items of `second` that are in `first`, each once, in the order `second` first shows them. */
  function Duplicates(first: set<char>, second: string): (d: seq<char>)
    decreases |second|
  {
    if |second| == 0 then []
    else
      var d := Duplicates(first, second[..|second| - 1]);
      var c := second[|second| - 1];
      if c in first && c !in d then d + [c] else d
  }

  /** Each shared item is counted at most once: the duplicates are pairwise distinct. */
  lemma {:induction false} DuplicatesDistinct(first: set<char>, second: string)
    ensures forall i, j | 0 <= i < j < |Duplicates(first, second)| :: Duplicates(first, second)[i] != Duplicates(first, second)[j]
    decreases |second|
  {
    if |second| > 0 {
      var n := |second| - 1;
      DuplicatesDistinct(first, second[..n]);
      DuplicatesSnoc(first, second, n);
      assert second[..n + 1] == second;
    }
  }

  /** Each shared item is counted at least once: the duplicates are exactly the items both halves hold. */
  lemma {:induction false} DuplicatesAreShared(first: set<char>, second: string)
    ensures CharsOf(Duplicates(first, second)) == first * CharsOf(second)
    decreases |second|
  {
    if |second| > 0 {
      var n := |second| - 1;
      DuplicatesAreShared(first, second[..n]);
      DuplicatesSnoc(first, second, n);
      CharsOfSnoc(second, n);
      assert second[..n + 1] == second;
      var d := Duplicates(first, second[..n]);
      InCharsOf(d, second[n]);
      if second[n] in first && second[n] !in d {
        CharsOfSnoc(d + [second[n]], |d|);
        assert (d + [second[n]])[..|d|] == d && (d + [second[n]])[..|d| + 1] == d + [second[n]];
      }
    }
  }

  /** The sum of the priorities of `cs`, in order; the first item without a priority panics. */
  function PrioritySum(cs: seq<char>): Outcome<int>
    decreases |cs|
  {
    if |cs| == 0 then Ok(0)
    else
      var s :- PrioritySum(cs[..|cs| - 1]);
      var p :- Priority(cs[|cs| - 1]);
      Ok(s + p)
  }

  /** One line of part 1: the halves split at `len / 2`. */
  function LinePriority(line: string): Outcome<int> {
    PrioritySum(Duplicates(CharsOf(line[..|line| / 2]), line[|line| / 2..]))
  }

  /** The body of `part1`'s loop for one line: the items of the first half, then the shared ones of the second. */
  method RucksackPriority(line: string) returns (r: Outcome<int>)
    ensures r == LinePriority(line)
  {
    var half := |line| / 2;
    var firstCompartment, secondCompartment := line[..half], line[half..];
    var uniqueItems := CollectItems(firstCompartment);
    r := SharedPriority(uniqueItems, secondCompartment);
  }

  /** The set of items of one compartment, built one item at a time. */
  method CollectItems(compartment: string) returns (items: set<char>)
    ensures items == CharsOf(compartment)
  {
    items := {};
    var i := 0;
    while i < |compartment|
      invariant i <= |compartment|
      invariant items == CharsOf(compartment[..i])
    {
      CharsOfSnoc(compartment, i);
      items := items + {compartment[i]};
      i := i + 1;
    }
    assert compartment[..i] == compartment;
  }

  /** The loop over the second compartment, adding each item of `uniqueItems` the first time it is seen. */
  method SharedPriority(uniqueItems: set<char>, second: string) returns (r: Outcome<int>)
    ensures r == PrioritySum(Duplicates(uniqueItems, second))
  {
    var uniqueDuplicates: set<char> := {};
    var total := 0;
    var j := 0;
    while j < |second|
      invariant j <= |second|
      invariant uniqueDuplicates == CharsOf(Duplicates(uniqueItems, second[..j]))
      invariant PrioritySum(Duplicates(uniqueItems, second[..j])) == Ok(total)
    {
      var next;
      uniqueDuplicates, next := CheckItem(uniqueItems, second, j, uniqueDuplicates, total);
      if next.Panic? {
        SumPanicPropagates(uniqueItems, second, j + 1);
        return next;
      }
      total := next.value;
      j := j + 1;
    }
    assert second[..j] == second;
    return Ok(total);
  }

  /** One turn of that loop: item `j` of the second compartment. */
  method CheckItem(uniqueItems: set<char>, second: string, j: nat, uniqueDuplicates: set<char>, total: int)
    returns (seen: set<char>, next: Outcome<int>)
    requires j < |second|
    requires uniqueDuplicates == CharsOf(Duplicates(uniqueItems, second[..j]))
    requires PrioritySum(Duplicates(uniqueItems, second[..j])) == Ok(total)
    ensures seen == CharsOf(Duplicates(uniqueItems, second[..j + 1]))
    ensures next == PrioritySum(Duplicates(uniqueItems, second[..j + 1]))
  {
    var item := second[j];
    ghost var d := Duplicates(uniqueItems, second[..j]);
    DuplicatesSnoc(uniqueItems, second, j);
    InCharsOf(d, item);
    seen, next := uniqueDuplicates, Ok(total);
    if item in uniqueItems && item !in uniqueDuplicates {
      CharsOfSnoc(d + [item], |d|);
      assert (d + [item])[..|d|] == d && (d + [item])[..|d| + 1] == d + [item];
      PrioritySumSnoc(d, item);
      var p := Priority(item);
      seen := seen + {item};
      next := if p.Panic? then Panic(p.reason) else Ok(total + p.value);
    }
  }

  lemma {:induction false} DuplicatesSnoc(first: set<char>, second: string, j: nat)
    requires j < |second|
    ensures Duplicates(first, second[..j + 1]) ==
      var d := Duplicates(first, second[..j]);
      if second[j] in first && second[j] !in d then d + [second[j]] else d
  {
    assert second[..j + 1][..j] == second[..j];
  }

  lemma {:induction false} PrioritySumSnoc(d: seq<char>, c: char)
    ensures PrioritySum(d + [c]) ==
      if PrioritySum(d).Panic? then PrioritySum(d)
      else if Priority(c).Panic? then Panic(Priority(c).reason)
      else Ok(PrioritySum(d).value + Priority(c).value)
  {
    assert (d + [c])[..|d|] == d;
  }

  /** Once the running sum has panicked, reading more of the second half keeps the panic. */
  lemma {:induction false} SumPanicPropagates(first: set<char>, second: string, j: nat)
    requires 0 < j <= |second| && PrioritySum(Duplicates(first, second[..j])).Panic?
    ensures PrioritySum(Duplicates(first, second)) == PrioritySum(Duplicates(first, second[..j]))
    decreases |second| - j
  {
    if j < |second| {
      assert second[..j + 1][..j] == second[..j];
      PanicPropagates(Duplicates(first, second[..j]), second[j]);
      SumPanicPropagates(first, second, j + 1);
    } else {
      assert second[..j] == second;
    }
  }

  lemma {:induction false} PanicPropagates(d: seq<char>, c: char)
    requires PrioritySum(d).Panic?
    ensures PrioritySum(d + [c]) == PrioritySum(d)
  {
    assert (d + [c])[..|d|] == d;
  }

  /** The sum over all lines; the first line that panics aborts. */
  function Part1Of(lines: seq<string>): Outcome<int>
    decreases |lines|
  {
    if |lines| == 0 then Ok(0)
    else
      var total :- Part1Of(lines[..|lines| - 1]);
      var p :- LinePriority(lines[|lines| - 1]);
      Ok(total + p)
  }

  /** `part1`, as its loop over the lines. */
  method Part1(lines: seq<string>) returns (r: Outcome<int>)
    ensures r == Part1Of(lines)
  {
    var total := 0;
    var i := 0;
    while i < |lines|
      invariant i <= |lines|
      invariant Part1Of(lines[..i]) == Ok(total)
    {
      var next := AddRucksack(lines, i, total);
      if next.Panic? {
        Part1PanicPropagates(lines, i + 1);
        return next;
      }
      total := next.value;
      i := i + 1;
    }
    assert lines[..i] == lines;
    return Ok(total);
  }

  /** One turn of `part1`'s loop: add the priority of line `i`. */
  method AddRucksack(lines: seq<string>, i: nat, total: int) returns (next: Outcome<int>)
    requires i < |lines| && Part1Of(lines[..i]) == Ok(total)
    ensures next == Part1Of(lines[..i + 1])
  {
    var p := RucksackPriority(lines[i]);
    Part1OfSnoc(lines, i);
    if p.Panic? {
      return Panic(p.reason);
    }
    return Ok(total + p.value);
  }

  lemma {:induction false} Part1OfSnoc(lines: seq<string>, i: nat)
    requires i < |lines| && Part1Of(lines[..i]).Ok?
    ensures LinePriority(lines[i]).Panic? ==> Part1Of(lines[..i + 1]) == Panic(LinePriority(lines[i]).reason)
    ensures LinePriority(lines[i]).Ok? ==> Part1Of(lines[..i + 1]) == Ok(Part1Of(lines[..i]).value + LinePriority(lines[i]).value)
  {
    assert lines[..i + 1][..i] == lines[..i];
  }

  lemma {:induction false} Part1PanicPropagates(lines: seq<string>, i: nat)
    requires 0 < i <= |lines| && Part1Of(lines[..i]).Panic?
    ensures Part1Of(lines) == Part1Of(lines[..i])
    decreases |lines| - i
  {
    if i < |lines| {
      assert lines[..i + 1][..i] == lines[..i];
      Part1PanicPropagates(lines, i + 1);
    } else {
      assert lines[..i] == lines;
    }
  }

  // ---------------------------------------------------------------------------
  // Part 2
  // ---------------------------------------------------------------------------

  /** The first position of the third line holding an item that is also in both other lines. */
  function FirstShared(first: set<char>, second: set<char>, third: string, from: nat): (r: Option<nat>)
    ensures r.Some? ==> from <= r.value < |third| && third[r.value] in first && third[r.value] in second
    ensures r.Some? ==> forall k | from <= k < r.value :: !(third[k] in first && third[k] in second)
    ensures r.None? ==> forall k | from <= k < |third| :: !(third[k] in first && third[k] in second)
    decreases |third| - from
  {
    if from >= |third| then None
    else if third[from] in first && third[from] in second then Some(from)
    else FirstShared(first, second, third, from + 1)
  }

  /** One group of three lines: the priority of the badge, or 0 if there is none. */
  function GroupPriority(first: string, second: string, third: string): Outcome<int> {
    match FirstShared(CharsOf(first), CharsOf(second), third, 0)
    case None => Ok(0)
    case Some(k) => Priority(third[k])
  }

  /** The sum over the first `n` complete groups of three lines. */
  function Groups(lines: seq<string>, n: nat): Outcome<int>
    requires 3 * n <= |lines|
  {
    if n == 0 then Ok(0)
    else
      var total :- Groups(lines, n - 1);
      var p :- GroupPriority(lines[3 * n - 3], lines[3 * n - 2], lines[3 * n - 1]);
      Ok(total + p)
  }

  /** All complete groups, then a panic if the lines run out inside a group. */
  function Part2Of(lines: seq<string>): Outcome<int> {
    var total :- Groups(lines, |lines| / 3);
    if |lines| % 3 != 0 then Panic("called `Option::unwrap()` on a `None` value") else Ok(total)
  }

  /** The body of `part2`'s loop for one group, with its map from item to the number of lines seen. */
  method BadgePriority(first: string, second: string, third: string) returns (r: Outcome<int>)
    ensures r == GroupPriority(first, second, third)
  {
    var uniqueDuplicates: map<char, nat> := map[];
    var i := 0;
    while i < |first|
      invariant i <= |first|
      invariant uniqueDuplicates.Keys == CharsOf(first[..i])
      invariant forall c | c in uniqueDuplicates :: uniqueDuplicates[c] == 1
    {
      CharsOfSnoc(first, i);
      uniqueDuplicates := uniqueDuplicates[first[i] := 1];
      i := i + 1;
    }
    assert first[..i] == first;
    var j := 0;
    while j < |second|
      invariant j <= |second|
      invariant uniqueDuplicates.Keys == CharsOf(first)
      invariant forall c | c in uniqueDuplicates :: uniqueDuplicates[c] == (if c in CharsOf(second[..j]) then 2 else 1)
    {
      CharsOfSnoc(second, j);
      if second[j] in uniqueDuplicates {
        uniqueDuplicates := uniqueDuplicates[second[j] := 2];
      }
      j := j + 1;
    }
    assert second[..j] == second;
    var k := 0;
    while k < |third|
      invariant k <= |third|
      invariant FirstShared(CharsOf(first), CharsOf(second), third, 0) == FirstShared(CharsOf(first), CharsOf(second), third, k)
    {
      var item := third[k];
      if item in uniqueDuplicates && uniqueDuplicates[item] == 2 {
        return Priority(item);
      }
      k := k + 1;
    }
    return Ok(0);
  }

  /** `part2`, as its loop over groups of three lines. */
  method Part2(lines: seq<string>) returns (r: Outcome<int>)
    ensures r == Part2Of(lines)
  {
    var total := 0;
    var i, n := 0, 0;
    while i < |lines|
      invariant i == 3 * n <= |lines|
      invariant Groups(lines, n) == Ok(total)
    {
      if i + 2 >= |lines| {
        assert |lines| / 3 == n;
        return Panic("called `Option::unwrap()` on a `None` value");
      }
      var next := AddGroup(lines, n, total);
      if next.Panic? {
        GroupsPanicPropagates(lines, n + 1, |lines| / 3);
        return next;
      }
      total := next.value;
      i, n := i + 3, n + 1;
    }
    return Ok(total);
  }

  /** One turn of `part2`'s loop: add the badge of group `n`. */
  method AddGroup(lines: seq<string>, n: nat, total: int) returns (next: Outcome<int>)
    requires 3 * n + 3 <= |lines| && Groups(lines, n) == Ok(total)
    ensures next == Groups(lines, n + 1)
  {
    var p := BadgePriority(lines[3 * n], lines[3 * n + 1], lines[3 * n + 2]);
    if p.Panic? {
      return Panic(p.reason);
    }
    return Ok(total + p.value);
  }

  lemma {:induction false} GroupsPanicPropagates(lines: seq<string>, n: nat, m: nat)
    requires n <= m && 3 * m <= |lines| && Groups(lines, n).Panic?
    ensures Groups(lines, m) == Groups(lines, n)
    decreases m - n
  {
    if n < m {
      GroupsPanicPropagates(lines, n + 1, m);
    }
  }
}
