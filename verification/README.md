# Advent of Code 2022, days 1–15, modelled in Dafny

This project models the fifteen puzzle solvers of the Rust repository
`advent-of-code-2022` (one `dayN/src/main.rs` per day) and proves properties
of the model. Each day is one module (`day1.dfy` … `day15.dfy`, modules
`Day1` … `Day15`); `common.dfy` (module `Common`) holds what the days share:
`Option`, `Outcome` (the result of a computation that may panic), Rust's
`Ordering`, decimal parsing with the semantics of `str::parse` for unsigned
and signed integers, `split`/`join` with Rust's semantics, and their
round-trip lemmas.

The puzzle input is a sequence of lines (`seq<string>`). Every `panic!`,
`unwrap` on `None`/`Err` and failed index in the Rust code becomes
`Outcome.Panic(reason)` in the model, so every error path of the source is an
ordinary result here.

Each day keeps the form of its source:

- state that the Rust code mutates in place is a `class` whose methods carry
  `modifies` clauses (day 5's crate stacks, day 7's directory tree, day 8's
  memoised tree patch, day 9's rope, day 11's monkeys, day 14's sand
  environment);
- each loop of the source is a `method` with a `while` loop and invariants,
  proved against a pure specification function of the inputs;
- pure Rust functions and trait implementations (day 2's moves, day 4's
  intervals, day 13's packet comparison, day 15's locations and distances)
  are functions with lemmas.

The properties proved include:

- day 13's comparator is a total preorder (a total order up to the custom `==`);
- day 13's packet parser inverts a renderer;
- day 11's item moves conserve the number of items;
- day 14's `update` never changes a rock and keeps the grain count;
- day 9's knots never get more than one step apart, so the panic in
  `move_knot` cannot happen;
- day 7's directory sizes equal the sum of the files listed beneath them;
- day 12's search loop computes its turn-by-turn function, whose answer is
  the least `E` depth popped and the length of a legal route, and which never
  panics on a rectangular map;
- day 1's `top_three` holds the three largest closed groups;
- day 2's `get_move_from_result` inverts `get_result`.

## Model

| member | source | states |
|---|---|---|
| Common.ParseUnsignedOfNatToString | day4/src/main.rs:12 | the decimal text of a value that fits parses back to that value |
| Common.ParseSignedOfIntToString | day14/src/main.rs:21 | the decimal text, minus sign included, of an in-range value parses back to that value |
| Common.FindFromIsFirst | day11/src/main.rs:46 | a separator search finds the first occurrence from its start, and none exactly when there is none |
| Common.SplitJoin | day11/src/main.rs:46 | splitting text joined with a separator gives the pieces back when no piece contains the separator's first character |
| Common.IndexOf | day12/src/main.rs:38 | `find` of a character gives its first position, and none exactly when it does not occur |
| Day1.ReadLine | day1/src/main.rs:14-23 | a blank line closes the running group (its total is appended and the running total restarts at 0), a number line leaves the closed groups alone, and the line panics exactly when it is non-blank and not an `i32` |
| Day1.OneGroupPerBlank | day1/src/main.rs:15-17 | after a run without panic, there are as many closed groups as blank lines |
| Day1.TrailingGroupIgnored | day1/src/main.rs:14-26 | lines after the last blank line close no group, so a final group without a blank line after it never reaches `max` |
| Day1.PanicPropagates | day1/src/main.rs:19-22 | a line that fails to parse aborts the whole run with the reason of the first such line |
| Day1.MaxOf | day1/src/main.rs:13-16 | the result is at least the initial value and every element, and equals one of them |
| Day1.Part1 | day1/src/main.rs:4-27 | the loop returns the largest closed group total, or `i32::MIN` when no group is closed |
| Day1.Part1Line | day1/src/main.rs:15-23 | one turn of the loop: a blank line folds the running total into the maximum of the closed groups and restarts it, a number line adds to it, and a line that does not parse panics exactly as the whole run does |
| Day1.Sort3 | day1/src/main.rs:42 | sorting the three-element array gives an ascending permutation of it |
| Day1.TopThree | day1/src/main.rs:38-43 | the array kept in `part2` stays ascending after every closed group |
| Day1.Offer | day1/src/main.rs:41-42 | one blank-line update of the array: raise the smallest entry to the group total if that is larger, then sort |
| Day1.OfferCounts | day1/src/main.rs:41-42 | after one update, the number of kept values at least `v` is min(3, the old number plus one if the new total is at least `v`) |
| Day1.TopThreeIsLargest | day1/src/main.rs:38-43 | for every threshold `v`, the number of kept values at least `v` is min(3, the number of closed totals, with three `i32::MIN` paddings, at least `v`), so the array holds the three largest totals |
| Day1.OfferTotal | day1/src/main.rs:41-42 | the in-place array update leaves exactly `Offer` of the old contents |
| Day1.SortThree | day1/src/main.rs:42 | the in-place sort leaves `Sort3` of the old contents |
| Day1.SumOfTop | day1/src/main.rs:52-57 | the final loop returns the sum of the three kept totals |
| Day1.Part2 | day1/src/main.rs:29-58 | the loops return the sum of the top three kept after all lines, or the first parse panic |
| Day1.Part2Line | day1/src/main.rs:40-49 | one turn of the loop: a blank line offers the running total to the array, which then holds the top three of the closed groups, a number line adds to it, and a line that does not parse panics exactly as the whole run does |
| Day2.ResultValue | day2/src/main.rs:20-26 | Loss is worth 0, Draw 3, Win 6 |
| Day2.ShapeValue | day2/src/main.rs:94-100 | Rock is worth 1, Paper 2, Scissors 3 |
| Day2.PartialCmp | day2/src/main.rs:42-62 | the comparison of two shapes is always defined (the `None` branch is never reached) |
| Day2.WinningPairs | day2/src/main.rs:42-71 | `cmp` says Greater exactly for Paper/Rock, Scissors/Paper and Rock/Scissors, and Equal exactly for equal shapes |
| Day2.CmpAntisymmetric | day2/src/main.rs:42-71 | swapping the two shapes reverses the ordering |
| Day2.GetMoveFromResult | day2/src/main.rs:74-92 | the chosen shape, played against `self`, reaches the requested outcome |
| Day2.TotalScore | day2/src/main.rs:110-114 | the score is the shape value plus the outcome value, between 1 and 9 |
| Day2.EnemyMove | day2/src/main.rs:124-139 | only "A", "B" and "C" are accepted; anything else panics |
| Day2.MyMove | day2/src/main.rs:149-164 | only "X", "Y" and "Z" are accepted; anything else panics |
| Day2.ResultFromStr | day2/src/main.rs:11-18 | only "X", "Y" and "Z" are accepted; anything else panics |
| Day2.RoundScore | day2/src/main.rs:170-181 | a round that does not panic scores between 1 and 9 |
| Day2.ResultReached | day2/src/main.rs:196-203 | under the second strategy, every round ends with the outcome its line asks for |
| Day2.TotalBounds | day2/src/main.rs:167-208 | a total without panic lies between one and nine points per line |
| Day2.PanicPropagates | day2/src/main.rs:171-178 | a line that panics aborts the whole total with that panic |
| Day2.ScoreLine | day2/src/main.rs:170-182 | one loop turn extends the total of the lines before it by this line's score |
| Day2.TotalStep | day2/src/main.rs:169-183 | the total over one more line is the old total plus that round's score, and panics exactly when the round does |
| Day2.Score | day2/src/main.rs:167-208 | the loops of `part1` and `part2` return the total of the round scores under their strategy |
| Day3.PrioritiesAt | day3/src/main.rs:6 | the lookup string holds a to z at positions 0 to 25 and A to Z at positions 26 to 51 |
| Day3.Priority | day3/src/main.rs:5-14 | a priority that does not panic lies between 1 and 52 |
| Day3.CharToPvalIsPriority | day3/src/main.rs:5-14 | looking a character up in the string gives priority 1 to 26 for a to z, 27 to 52 for A to Z, and a panic for anything else |
| Day3.InCharsOf | day3/src/main.rs:21-25 | the set of items of a compartment holds exactly the characters that occur in it |
| Day3.DuplicatesDistinct | day3/src/main.rs:27-32 | each shared item is added at most once per line: the duplicates are pairwise distinct |
| Day3.DuplicatesAreShared | day3/src/main.rs:27-32 | the duplicates are exactly the items both compartments hold |
| Day3.SumPanicPropagates | day3/src/main.rs:30 | once a shared item has no priority, the rest of the line keeps that panic |
| Day3.CollectItems | day3/src/main.rs:21-25 | the first loop builds exactly the set of items of the first compartment |
| Day3.CheckItem | day3/src/main.rs:28-31 | one turn of the second loop extends the seen duplicates and the running sum by item `j` |
| Day3.SharedPriority | day3/src/main.rs:27-32 | the second loop returns the sum of the priorities of the distinct shared items |
| Day3.RucksackPriority | day3/src/main.rs:19-32 | one line splits at `len / 2` and scores its shared items |
| Day3.Part1OfSnoc | day3/src/main.rs:18-33 | one more line adds its priority to the total, or ends it with the line's panic |
| Day3.Part1PanicPropagates | day3/src/main.rs:18-33 | a panic on a line aborts the whole total |
| Day3.AddRucksack | day3/src/main.rs:18-33 | one turn of `part1`'s loop extends the total over the lines before it |
| Day3.Part1 | day3/src/main.rs:16-36 | the loop returns the sum over all lines, or the first panic |
| Day3.FirstShared | day3/src/main.rs:57-62 | the scan of the third line stops at the first item also in both other lines, and finds none only when there is none |
| Day3.BadgePriority | day3/src/main.rs:45-62 | the map-counting loops of one group return the badge's priority, or 0 when no item is common to all three lines |
| Day3.AddGroup | day3/src/main.rs:41-62 | one turn of `part2`'s loop adds the next group's badge priority |
| Day3.GroupsPanicPropagates | day3/src/main.rs:41-62 | a panic in one group aborts the total of every longer run of groups |
| Day3.Part2 | day3/src/main.rs:38-66 | the loop returns the sum over complete groups of three lines, and panics when the lines run out inside a group |
| Day4.FromStr | day4/src/main.rs:10-22 | a parsed assignment has both bounds within `u32` |
| Day4.FromStrOfRendered | day4/src/main.rs:10-22 | parsing "lower-upper" written in decimal gives the assignment back |
| Day4.IsWithinIsContainment | day4/src/main.rs:24-26 | for a non-empty range, `is_within` holds exactly when every section it holds is held by the other |
| Day4.OverlapsIsSharedSection | day4/src/main.rs:28-34 | for non-empty ranges, `overlaps` holds exactly when some section is held by both |
| Day4.OverlapsSymmetric | day4/src/main.rs:28-34 | `overlaps` does not depend on the order of the ranges |
| Day4.WithinOverlaps | day4/src/main.rs:24-34 | a non-empty range inside another overlaps it |
| Day4.TallyBounded | day4/src/main.rs:37-65 | each count is at most the number of lines |
| Day4.ContainmentAtMostOverlap | day4/src/main.rs:44-60 | both parts panic on the same inputs, and with non-empty ranges part 1's count is at most part 2's |
| Day4.TallySnoc | day4/src/main.rs:39-47 | one more line adds 1 when its pair counts, 0 otherwise, or ends the count with its parse panic |
| Day4.PanicPropagates | day4/src/main.rs:40-42 | a malformed line aborts the whole count |
| Day4.CountLine | day4/src/main.rs:40-46 | one loop turn extends the count of the lines before it |
| Day4.Count | day4/src/main.rs:37-65 | the loops of `part1` and `part2` return the number of pairs that count under their rule, or the first panic |
| Day5.Reversed | day5/src/main.rs:18 | the reversal has the same length, with element `i` taken from position `len - 1 - i` |
| Day5.Lifted | day5/src/main.rs:15-21 | the crates a crane lifts are the top `n` of the stack, in stack order for the CrateMover 9001 and reversed for the 9000 |
| Day5.CrateStack.Take | day5/src/main.rs:15-21 | `take` panics on an underflowing `len - number` and leaves the stack alone; otherwise it returns the lifted crates and leaves the bottom of the stack |
| Day5.CrateStack.Add | day5/src/main.rs:23-25 | `add` puts the crates on top, first one lowest |
| Day5.DrawLineColumns | day5/src/main.rs:36-67 | a drawing line panics exactly when it ends in a '[' that starts a column; otherwise it widens the stacks to the columns it spans and puts the crate drawn in each column at the bottom of that stack |
| Day5.DrawRow | day5/src/main.rs:37-67 | the drawing loop over one line leaves the stack objects holding `DrawLine` of their old contents, creating stacks only at the end |
| Day5.DrawColumn | day5/src/main.rs:40-66 | one turn of the drawing loop handles column `index` as `DrawFrom` does |
| Day5.StackAt | day5/src/main.rs:45-52 | `get_mut(index)` inserts an empty stack when `index` is one past the end |
| Day5.PutAtBottom | day5/src/main.rs:59 | `insert(0, crate)` puts the crate under the stack |
| Day5.ParseMoveText | day5/src/main.rs:69-73 | parsing "move q from f to t" gives the move back, its stack numbers 0-based |
| Day5.MoveTextSplits | day5/src/main.rs:70 | splitting a move line at spaces gives its six words |
| Day5.TotalUpdate | day5/src/main.rs:75-86 | replacing one stack changes the crate count by the difference in its size |
| Day5.MoveConserves | day5/src/main.rs:75-86 | a move keeps the number of stacks and of crates, leaves every other stack alone, leaves the bottom of the source stack in place and puts the lifted crates on top of the target |
| Day5.DoMove | day5/src/main.rs:69-87 | the move branch, on the stack objects, does what `MoveLine` says to their contents, panics included |
| Day5.MoveCrates | day5/src/main.rs:75-86 | a parsed move on the stack objects does what `ApplyMove` says, panicking on a missing stack |
| Day5.TakeFrom | day5/src/main.rs:75-79 | `take` on the source stack returns the lifted crates or the subtraction panic |
| Day5.AddTo | day5/src/main.rs:81-86 | `add` on the target stack puts the crates on top |
| Day5.ContainsDigit | day5/src/main.rs:32-34 | a line switches to moves exactly when one of its characters is a digit |
| Day5.ModeSwitch | day5/src/main.rs:29-34 | the run is in move mode exactly when some line so far holds a digit |
| Day5.TopLetters | day5/src/main.rs:91-96 | the answer has at most one letter per stack, and when no stack is empty it is the top letter of every stack, left to right |
| Day5.DrawingIsCraneIndependent | day5/src/main.rs:28-140 | on drawing lines both cranes panic alike and build the same stacks |
| Day5.RunSnoc | day5/src/main.rs:31-89 | one more line applies one step to the state |
| Day5.PanicPropagates | day5/src/main.rs:31-89 | a panic on a line aborts the whole run |
| Day5.ProcessLine | day5/src/main.rs:32-88 | one turn of the line loop, on the stack objects, does what `Step` says |
| Day5.Tops | day5/src/main.rs:91-96 | the result loop returns the top letters of the stacks |
| Day5.Part | day5/src/main.rs:28-172 | `part1` and `part2` return the top letters after every line, or the first panic |
| Day6.FirstMarkerFrom | day6/src/main.rs:9-30 | the end found completes a window of `n` different characters, no earlier end does, and the whole length means none does |
| Day6.Slide | day6/src/main.rs:14-22 | the window after one character keeps what followed that character's earlier occurrence, then adds the character |
| Day6.SlideKeepsLongest | day6/src/main.rs:12-22 | the window stays the longest run of different characters ending at the current position |
| Day6.SlideFresh | day6/src/main.rs:22 | a character not in the window extends the longest run |
| Day6.SlideRepeat | day6/src/main.rs:14-22 | a repeated character cuts the longest run just after its earlier occurrence |
| Day6.NoMarkerHere | day6/src/main.rs:24-26 | while the window is shorter than `n`, no marker ends at the current position |
| Day6.NoLongerRun | day6/src/main.rs:24-26 | no run of different characters ending at a position is longer than the window |
| Day6.FindStartOfPacketMarkerIndex | day6/src/main.rs:9-30 | the loop returns the number of characters read when `n` different characters first end the stream read so far, or the whole length when that never happens |
| Day6.ReadChar | day6/src/main.rs:13-26 | one turn of the loop keeps the window the longest run of different characters ending at the new position, grows it by at most one, leaves the first marker position unchanged, and a window of `n` characters means a marker ends here |
| Day6.MarkerFound | day6/src/main.rs:24-26 | a window of different characters ending at a position is a marker of its own length ending there |
| Day6.DistinctAfterRepeat | day6/src/main.rs:14-22 | cutting the window just after the earlier occurrence of a repeated character and appending it again leaves all characters different |
| Day6.Rendered | day6/src/main.rs:35-37 | one decimal answer per line, in order |
| Day6.ReportRoundTrip | day6/src/main.rs:33-49 | splitting the joined report at "; " gives back one answer per line, each parsing to that line's marker end |
| Day6.Part | day6/src/main.rs:33-49 | `part1` (4) and `part2` (14) return the answers joined with "; " |
| Day7.ChainBound | day7/src/main.rs:28-35 | every ancestor of an item was created no later than it |
| Day7.ChainFrame | day7/src/main.rs:28-35 | which items `update_size` reaches depends only on the parents of the items up to the one updated |
| Day7.Raised | day7/src/main.rs:28-35 | `update_size` adds the size to the item and to each of its ancestors up to the root, and changes nothing else |
| Day7.FindChild | day7/src/main.rs:41-48 | `get_child` gives the first child with the name, and none exactly when no child has it |
| Day7.FileTree.constructor | day7/src/main.rs:59-62 | the tree starts as the root directory "/" of size 0 with no parent |
| Day7.FileTree.AddItem | day7/src/main.rs:101-109 | a new childless item is appended under its parent |
| Day7.FileTree.UpdateSize | day7/src/main.rs:28-35 | the recursive update leaves the items as `Raised` describes |
| Day7.FileTree.AddChild | day7/src/main.rs:37-39 | only the item's children change, by the child appended |
| Day7.FileTree.GetChild | day7/src/main.rs:41-48 | the loop over the children computes `FindChild` |
| Day7.FileTree.GetParent | day7/src/main.rs:50-55 | only the root has no parent, and asking for it panics with "No parent found!"; any other parent was created earlier |
| Day7.Created | day7/src/main.rs:101 | the new item is appended under the current directory and every older item is kept |
| Day7.WithChild | day7/src/main.rs:37-39 | appending a child keeps the shape and every size of the arena |
| Day7.AddListed | day7/src/main.rs:86-111 | a listing line keeps the session well formed |
| Day7.ExecLineWellFormed | day7/src/main.rs:64-112 | every line keeps the session well formed |
| Day7.DirIndicesFrame | day7/src/main.rs:114-123 | which items are directories depends only on their kinds |
| Day7.BeneathFrame | day7/src/main.rs:28-35 | the files beneath a directory depend only on kinds, parents and listed sizes |
| Day7.BeneathNew | day7/src/main.rs:28-35 | nothing created before an item lies beneath it |
| Day7.AddListedNewSize | day7/src/main.rs:86-111 | a new item's size is what its line lists |
| Day7.CreatedBeneath | day7/src/main.rs:86-111 | the files beneath an older item gain the new item exactly when it is a file beneath that item |
| Day7.AddListedOldSize | day7/src/main.rs:97-108 | an older item's size grows by a new file's size exactly when the file lies beneath it |
| Day7.AddListedConsistent | day7/src/main.rs:86-111 | after a listing line every item's size is still its listed size plus the files beneath it |
| Day7.AddListedDirectories | day7/src/main.rs:86-96 | after a listing line the recorded directories are still exactly the directory items, in order |
| Day7.ExecLineKeeps | day7/src/main.rs:64-112 | every line keeps both invariants |
| Day7.ExecFromKeeps | day7/src/main.rs:64-112 | so does the rest of the session |
| Day7.ListingSizes | day7/src/main.rs:58-112 | after the session, each directory's size is the sum of the sizes listed for the files beneath it, and the recorded directories are exactly the directory items |
| Day7.Interpret | day7/src/main.rs:65-111 | one line applied to the tree does what `ExecLine` describes, panics included |
| Day7.Explore | day7/src/main.rs:58-112 | the loop over the lines after the first builds the tree and the directory list `Listing` describes, or its panic |
| Day7.DirIndicesBound | day7/src/main.rs:114-123 | every recorded directory index names an item |
| Day7.SmallTotalSelects | day7/src/main.rs:114-123 | summing over the recorded directories adds up each item's contribution below 100000 |
| Day7.Part1Meaning | day7/src/main.rs:58-124 | part 1 is the sum of the directory sizes below 100000, each size being the sum of the files listed beneath the directory |
| Day7.SumSmall | day7/src/main.rs:114-123 | the summing loop computes `SmallTotal` |
| Day7.Part1 | day7/src/main.rs:58-124 | `part1` computes its answer or the session's panic |
| Day7.SmallestIsLeast | day7/src/main.rs:187-194 | the fold finds a size above the need no larger than any other such size, or keeps its start |
| Day7.Part2Meaning | day7/src/main.rs:126-197 | part 2 answers with the size of a directory that frees enough space and is the smallest such, or with `u32::MAX` |
| Day7.DirIndicesMembers | day7/src/main.rs:104-107 | the recorded directory indices are exactly the directory items |
| Day7.FindSmallest | day7/src/main.rs:186-194 | the loop computes `Smallest` from `u32::MAX` |
| Day7.Part2 | day7/src/main.rs:126-197 | `part2` computes its answer, the session's panic, or the `u32` subtraction panic |
| Day8.FromDirection | day8/src/main.rs:22-31 | the location built carries the direction and the number it was given |
| Day8.FromDirectionInjective | day8/src/main.rs:14-31 | two locations are equal exactly when their directions and numbers are |
| Day8.Pos | day8/src/main.rs:151-170 | the tree `k` steps away lies in the grid with `k` fewer trees beyond it |
| Day8.PosAdd | day8/src/main.rs:198-199 | stepping `k` trees and then `m` more is stepping `k + m` trees |
| Day8.GetIndexFromDir | day8/src/main.rs:151-170 | going up fails exactly when the subtraction would go below 0, going down never fails, and going left or right from the edge column gives nothing |
| Day8.GetIndexOnRay | day8/src/main.rs:151-170 | within reach, the index found is the tree that many steps away; from the last tree, one more step finds nothing in the grid |
| Day8.Blocker | day8/src/main.rs:182-218 | the first tree at or after step `k` at least as tall as tree `i`, or the edge, with every tree before it shorter |
| Day8.ViewingDistance | day8/src/main.rs:172-223 | a tree sees at most the trees beyond it, none only at the edge, every tree it sees before the last is shorter, and the last one inside the grid is at least as tall |
| Day8.ViewingDistanceIsFirstBlocker | day8/src/main.rs:172-223 | any distance with those properties is the viewing distance |
| Day8.EdgeScoresZero | day8/src/main.rs:144-149 | a tree on the edge of the grid has scenic score 0 |
| Day8.Cell | day8/src/main.rs:57-98 | the flat index of row `q`, column `r` lies in the grid with that row and column |
| Day8.RunIndex | day8/src/main.rs:57-98 | every index a pass's ranges produce lies in the grid and is not a corner |
| Day8.Run | day8/src/main.rs:60-95 | each range of a pass has `d - 2` indices, all in the grid and none a corner |
| Day8.Order | day8/src/main.rs:57-98 | every index of `indices_in_order` lies in the grid and is not a corner |
| Day8.IndicesInOrder | day8/src/main.rs:57-98 | the loops building `indices_in_order` produce the runs one after the other |
| Day8.ReportedMembers | day8/src/main.rs:100-121 | a pass reports a tree exactly when it visits it and every tree visited before it on its line is shorter |
| Day8.MaximaBound | day8/src/main.rs:108-120 | comparing with the recorded maximum of a line is comparing with every tree visited on it (a missing entry meaning none) |
| Day8.VisitTree | day8/src/main.rs:101-120 | one step of a pass extends the reported trees and the maxima by one visited index |
| Day8.VisitAll | day8/src/main.rs:100-123 | the loop of `pass` returns the reported trees of the order it visits |
| Day8.JumpAhead | day8/src/main.rs:197-201 | jumping over a shorter tree's own viewing distance lands on the next candidate blocker, with every tree passed shorter |
| Day8.StopAt | day8/src/main.rs:203-217 | reaching a tree at least as tall ends the view there |
| Day8.TreePatch.constructor | day8/src/main.rs:40-48 | the patch holds the heights, the side length and an empty memo |
| Day8.TreePatch.Pass | day8/src/main.rs:50-124 | `pass` panics exactly when the side is shorter than 2 (`dimension - 2` underflows), and otherwise returns the trees its order reports |
| Day8.TreePatch.ScenicScoreFromDir | day8/src/main.rs:172-223 | the memoised recursion returns the viewing distance, returns a memo hit unchanged, and leaves the result in the memo |
| Day8.TreePatch.Memoise | day8/src/main.rs:221 | inserting a correct score keeps every memo entry the viewing distance it stands for |
| Day8.TreePatch.LookAt | day8/src/main.rs:182-217 | one loop turn either jumps to the next candidate blocker, adding the distance jumped, or stops with the viewing distance reached |
| Day8.TreePatch.ScenicScoreAt | day8/src/main.rs:144-149 | the score is the product of the four viewing distances |
| Day8.TreePatch.HighestScenicScore | day8/src/main.rs:225-236 | the loop returns the first index with the strictly largest score, and that score |
| Day8.TreePatch.VisibleTrees | day8/src/main.rs:126-142 | the union of the four passes, or the underflow panic for a side shorter than 2 |
| Day8.InsertAll | day8/src/main.rs:128-139 | inserting a pass's indices adds exactly their elements |
| Day8.Scores | day8/src/main.rs:228-229 | one scenic score per tree, in index order |
| Day8.BestIsMaximum | day8/src/main.rs:225-236 | no score exceeds the best one |
| Day8.BestIsFirst | day8/src/main.rs:230-233 | a positive best is the score of the first index that has it, and a zero best is reported at index 0 |
| Day8.VisibleSetBound | day8/src/main.rs:262 | the passes never report a corner, so at most `d * d - 4` trees are reported |
| Day8.ReportedSubset | day8/src/main.rs:100-121 | a pass reports only trees it visits |
| Day8.OrderInGrid | day8/src/main.rs:57-98 | a pass visits only trees of the grid that are not corners |
| Day8.CornersAreCorners | day8/src/main.rs:250 | the four corners lie in the first or last row and the first or last column |
| Day8.CornersCount | day8/src/main.rs:262 | a grid with side at least 2 has four different corners |
| Day8.Digits | day8/src/main.rs:240-245 | the heights are the digit values of the characters, and any non-digit panics |
| Day8.JoinedLength | day8/src/main.rs:241-242 | joining `n` lines of `d` characters gives `n * d` characters |
| Day8.Heights | day8/src/main.rs:240-245 | all lines joined into one text of `d * d` characters give `d * d` heights, however the text is broken into lines |
| Day8.HeightsOfJoinedLine | day8/src/main.rs:240-245 | the heights depend only on the joined text: reading the lines or their one joined line gives the same heights |
| Day8.Part1AtMostAllTrees | day8/src/main.rs:239-263 | `part1` never counts more trees than the grid holds |
| Day8.Part2IsMaximum | day8/src/main.rs:265-311 | `part2` is at least the scenic score of every tree and is the score of some tree (or 0) |
| Day8.Part1 | day8/src/main.rs:239-263 | the method returns the reported trees plus the four corners, or the first panic |
| Day8.Part2 | day8/src/main.rs:265-311 | the method returns the highest scenic score, or the first panic |
| Day9.Coordinates.MaxMag | day9/src/main.rs:43-51 | the result is one of the absolute components and at least both |
| Day9.HeadStep | day9/src/main.rs:70-84 | the head moves by one unit along one axis |
| Day9.Follow | day9/src/main.rs:89-120 | a knot follows without panic exactly when it is at most 2 away in each coordinate; a touching knot stays put; afterwards it touches both the knot ahead and its old position |
| Day9.FollowFrom | day9/src/main.rs:124-126 | the loop over the knots keeps their number and can only panic with the "too far" message |
| Day9.Moved | day9/src/main.rs:122-127 | one motion keeps the number of knots and can only panic with the "too far" message |
| Day9.FollowFromKeepsTaut | day9/src/main.rs:89-126 | when only one knot is 2 away from the knot ahead, the following knots all catch up and the rope ends taut |
| Day9.MotionKeepsTaut | day9/src/main.rs:122-127 | a taut rope stays taut after a motion, so `move_knot`'s panic is never reached |
| Day9.Rope.constructor | day9/src/main.rs:60-68 | `size` knots, all at the origin |
| Day9.Rope.MoveHead | day9/src/main.rs:70-87 | only the head moves, by its unit step |
| Day9.Rope.MoveKnot | day9/src/main.rs:89-120 | only knot `index` moves, as `Follow` says, or the method panics |
| Day9.Rope.Motion | day9/src/main.rs:122-127 | the knots end as `Moved` says, or the method panics as it does |
| Day9.Repeat | day9/src/main.rs:137-140 | `amt` unit steps keep the number of knots |
| Day9.UnitStep | day9/src/main.rs:138-139 | one unit step keeps the number of knots |
| Day9.LineStep | day9/src/main.rs:134-140 | one line keeps the number of knots |
| Day9.Run | day9/src/main.rs:131-141 | the rope keeps its `size` knots throughout |
| Day9.NeverTooFar | day9/src/main.rs:115-160 | the rope is taut after every line, so the only panics come from parsing |
| Day9.RepeatKeepsTaut | day9/src/main.rs:137-140 | unit steps keep a taut rope taut and never panic with "too far" |
| Day9.RunSnoc | day9/src/main.rs:133-141 | one more line applies one line step |
| Day9.PanicPropagates | day9/src/main.rs:133-141 | a panic on a line aborts the whole run |
| Day9.RepeatPanicPropagates | day9/src/main.rs:137-140 | a panic in one unit step aborts the rest of the line |
| Day9.Step | day9/src/main.rs:138-139 | one unit step on the rope object and the set of tail positions, as `UnitStep` says |
| Day9.Steps | day9/src/main.rs:137-140 | the `amt` unit steps of a line, as `Repeat` says |
| Day9.MoveLine | day9/src/main.rs:134-140 | one line on the rope object, as `LineStep` says |
| Day9.Part | day9/src/main.rs:130-160 | `part1` (2 knots) and `part2` (10 knots) return the number of positions the last knot visited, or the first panic |
| Day10.ParseAddxOfRendered | day10/src/main.rs:16-17 | an `addx` line with a decimal `i128` operand parses back to that instruction |
| Day10.SignalSumIsMarkerSum | day10/src/main.rs:8-30 | recording strengths as the cycles pass adds up exactly the strengths during cycles 20, 60, 100, 140, 180 and 220, those the program reached |
| Day10.StrengthOfPrefix | day10/src/main.rs:13-15 | the strength of a marked cycle is fixed once the trace reaches it |
| Day10.Tick | day10/src/main.rs:12-15 | one cycle counts up and records `cycle * X` at a marked cycle, keeping the recorded sum equal to the trace's |
| Day10.SumSnoc | day10/src/main.rs:30 | the sum grows by the value appended |
| Day10.SignalSumSnoc | day10/src/main.rs:12-15 | one more cycle adds its strength exactly when it is marked |
| Day10.TraceSnoc | day10/src/main.rs:11-27 | a `noop` holds X for one cycle, an `addx` holds it for two and only then adds its operand |
| Day10.ParseAllSnoc | day10/src/main.rs:10-17 | one more line adds its instruction, records its panic, or is skipped |
| Day10.ParseFailurePropagates | day10/src/main.rs:17 | once a line has panicked, later lines change nothing |
| Day10.Part1Line | day10/src/main.rs:11-27 | one line of `part1` keeps the loop state equal to the trace of the instructions read so far |
| Day10.Part1 | day10/src/main.rs:4-31 | the loop returns the sum of the recorded strengths, or the panic of the first bad `addx` line |
| Day10.RowColumns | day10/src/main.rs:43-47 | a pixel is lit exactly when X during its cycle is within one of its column |
| Day10.FullRowOfPrefix | day10/src/main.rs:37-71 | a row the program had already filled stays as it was |
| Day10.LastRowOfPrefix | day10/src/main.rs:43-48 | the row the new cycle falls in grows by its pixel |
| Day10.RowsSnoc | day10/src/main.rs:39-48 | one more cycle starts a new row or extends the last one |
| Day10.ScreenIsRows | day10/src/main.rs:39-41 | the printed text is the rows, each after a line break |
| Day10.ScreenSnoc | day10/src/main.rs:39-48 | one more cycle prints a line break at the start of a row, then its pixel |
| Day10.Draw | day10/src/main.rs:39-48 | one cycle of `part2` prints what the screen of the longer trace adds |
| Day10.Part2Line | day10/src/main.rs:38-70 | one line of `part2` keeps the printed text equal to the screen of the trace so far, and an `addx` panics before drawing |
| Day10.Part2 | day10/src/main.rs:33-74 | the loop prints the screen of every instruction before the first bad line and returns 0 or that line's panic |
| Day11.MulFits | day11/src/main.rs:8-15 | `mul` is the exact product when it fits in a `usize`, otherwise the product of the two residues modulo 10000, and always fits |
| Day11.ParseNumbers | day11/src/main.rs:46-48 | every piece is parsed as a `usize` in order, and the result panics exactly when some piece does not parse |
| Day11.TestDivides | day11/src/main.rs:84-86 | the test closure holds exactly when the divisor divides the worry level |
| Day11.ParseItemsText | day11/src/main.rs:43-50 | parsing a "Starting items" note gives back its numbers, in order |
| Day11.ApplyOperationText | day11/src/main.rs:52-77 | the closure built from an "Operation" note computes that operation: squaring, `mul` or `add` |
| Day11.ParseTestText | day11/src/main.rs:79-82 | parsing a "Test" note gives back its divisor |
| Day11.ParseTargetText | day11/src/main.rs:89-95 | parsing an "If true" or "If false" note gives back its target |
| Day11.InspectTargets | day11/src/main.rs:102-114 | an inspected item goes to the "true" target exactly when the divisor divides its new worry level |
| Day11.InspectionsInOrder | day11/src/main.rs:117-128 | a monkey's turns give one movement per item, in queue order, and panic exactly when one inspection does |
| Day11.InspectionsPanic | day11/src/main.rs:117-128 | the first failing inspection decides the panic |
| Day11.InspectionsSnoc | day11/src/main.rs:120-125 | each further item adds its movement at the end |
| Day11.Monkey.constructor | day11/src/main.rs:32-41 | a monkey holds exactly the parsed notes and queue |
| Day11.Monkey.TakeTurn | day11/src/main.rs:97-115 | an empty queue gives None and changes nothing; otherwise the oldest item is removed, inspected, counted and sent to its target |
| Day11.Monkey.TakeTurns | day11/src/main.rs:117-128 | the queue ends empty, the count grows by its length and the movements are its inspections in order |
| Day11.Monkey.Push | day11/src/main.rs:154 | the item joins the back of the queue and nothing else changes |
| Day11.TotalItemsUpdate | day11/src/main.rs:151-155 | replacing one queue changes the number of items held by the difference in length |
| Day11.DeliverConserves | day11/src/main.rs:153-155 | delivering adds one item per movement and changes no count |
| Day11.TurnConserves | day11/src/main.rs:151-155 | a turn keeps the items the troop holds and raises only the playing monkey's count, by the length of its queue |
| Day11.RoundConserves | day11/src/main.rs:150-156 | a round keeps the items the troop holds and lowers no count |
| Day11.RoundsConserve | day11/src/main.rs:149-157 | so do twenty rounds |
| Day11.TakeTurnsAt | day11/src/main.rs:151-152 | the monkey at `i` takes its turns and no other monkey changes |
| Day11.PushTo | day11/src/main.rs:154 | only monkey `t`'s queue grows, by the item |
| Day11.Deliver | day11/src/main.rs:153-155 | the delivery loop does what the delivery function describes, panicking on a missing target |
| Day11.PlayTurn | day11/src/main.rs:151-155 | one turn on the objects does what `Turn` describes |
| Day11.PlayRound | day11/src/main.rs:150-156 | one round on the objects does what `RoundFrom` describes |
| Day11.PlayRounds | day11/src/main.rs:149-157 | the rounds on the objects do what `Rounds` describes |
| Day11.InsertDesc | day11/src/main.rs:159-160 | inserting into a largest-first sequence keeps it largest first and adds exactly the new count |
| Day11.SortDesc | day11/src/main.rs:159-160 | sorting and reversing gives the counts largest first, as a permutation |
| Day11.SortedUnique | day11/src/main.rs:159-160 | two largest-first arrangements of the same counts are equal, so ties do not change the answer |
| Day11.MonkeyBusiness | day11/src/main.rs:159-162 | the answer exists exactly when there are at least two monkeys (otherwise indexing panics) |
| Day11.BusinessOfAnySort | day11/src/main.rs:159-162 | the answer is the product of the two largest counts, and no count exceeds the first |
| Day11.ParseFrom | day11/src/main.rs:133-147 | reading monkeys appends to those already read |
| Day11.NewMonkey | day11/src/main.rs:32-41 | a fresh monkey holding the parsed notes, or the first note's panic |
| Day11.ReadMonkeys | day11/src/main.rs:133-147 | the reading loop builds distinct fresh monkeys holding exactly the parsed notes, or panics as the parse does |
| Day11.InspectionCounts | day11/src/main.rs:159 | the counts read off the objects are those of their values |
| Day11.Part | day11/src/main.rs:131-197 | `part1` and `part2` read, play twenty rounds and return the product of the two largest counts, or the first panic |
| Day12.HeightOfLetter | day12/src/main.rs:36-39 | `height_from_char` gives `a` to `z` the heights 1 to 26 and panics on any other character |
| Day12.NewNode | day12/src/main.rs:21-34 | a start is at height 1 and an end at height 26 whatever the character; a generic cell succeeds exactly on a lower-case letter; the node keeps its location and kind |
| Day12.ScanChar | day12/src/main.rs:58-68 | each character pushes its node, or panics as `Node::new` does |
| Day12.ReadNodes | day12/src/main.rs:47-70 | the reading loops build the map `ReadMap` describes, or its panic |
| Day12.ScanStartsAreCells | day12/src/main.rs:137-156 | every start part 2 records is an `S` or `a` cell |
| Day12.ScanStartsComplete | day12/src/main.rs:137-156 | part 2 records every `S` and `a` cell as a start |
| Day12.ScanLastStart | day12/src/main.rs:51-70 | part 1's start is the last `S` cell in reading order, or (0, 0) when there is none |
| Day12.ScanPlaces | day12/src/main.rs:53-70 | on lines of one width, each cell read so far is node `row * width + col` |
| Day12.RectangularLayout | day12/src/main.rs:48-72 | on a rectangular map the width is the line length and cell (r, c) is node `r * cols + c`, as the neighbour indices assume |
| Day12.Part2Starts | day12/src/main.rs:137-164 | the stack of `part2` is seeded with exactly its `S` and `a` cells |
| Day12.Part1Start | day12/src/main.rs:51-75 | the stack of `part1` is seeded with its last `S` cell, or (0, 0) |
| Day12.NeighbourIsAdjacent | day12/src/main.rs:102-114 | every neighbour index names a cell inside the grid next to the current one |
| Day12.AdjacentIsNeighbour | day12/src/main.rs:102-114 | every cell inside the grid next to the current one is a neighbour |
| Day12.Branches | day12/src/main.rs:110-120 | the branches are exactly the neighbours not yet reached as cheaply and at most one unit higher; an index past the nodes panics |
| Day12.WalkExtend | day12/src/main.rs:123-126 | a route extended by a legal step is a route one step longer |
| Day12.RoutedPush | day12/src/main.rs:161-164 | pushing an entry with its route keeps every stack entry reached by a legal route of its depth |
| Day12.RoutedPop | day12/src/main.rs:80 | the popped entry has such a route and the rest of the stack keeps theirs |
| Day12.MarkedAt | day12/src/main.rs:123-124 | each branch is marked with the current depth and every other mark stays |
| Day12.DeeperAt | day12/src/main.rs:125 | each branch is pushed one step deeper |
| Day12.PushBranches | day12/src/main.rs:123-126 | the branches are marked and pushed in order, and every stack entry keeps a legal route |
| Day12.Pruned | day12/src/main.rs:80-83 | an entry deeper than the answer is dropped without marking, pushing or changing anything else |
| Day12.PopPanics | day12/src/main.rs:80-120 | a turn panics, always with an index out of bounds, exactly when the entry is not pruned and its index, or away from an `E` cell one of its neighbour indices, is past the nodes |
| Day12.PopPushes | day12/src/main.rs:80-126 | a turn keeps the rest of the stack and pushes only legal steps from the popped node one step deeper, and only for an entry no deeper than the answer and not at an `E` cell |
| Day12.PopAnswer | day12/src/main.rs:93-98 | an `E` entry lowers the answer to its depth when less; no other turn changes it |
| Day12.LeastEndCons | day12/src/main.rs:93-98 | lowering the answer entry by entry gives the least of the starting answer and the `E` depths |
| Day12.SearchAnswer | day12/src/main.rs:166-218 | a search that ends answers the least of the answer it started with (`usize::MAX`) and the depths of the `E` entries it popped |
| Day12.NeighboursInGrid | day12/src/main.rs:110-114 | every neighbour index is below rows times columns |
| Day12.SearchSafe | day12/src/main.rs:166-216 | on a map of exactly rows times columns nodes, a search whose stack names only nodes never panics |
| Day12.SeedsAt | day12/src/main.rs:161-164 | each start is pushed at depth 0, in order |
| Day12.SearchSafeOnRectangle | day12/src/main.rs:132-219 | on a non-empty rectangular map that reads without panicking, the search never panics |
| Day12.Search | day12/src/main.rs:77-129 | the loop ends exactly as `SearchFrom` runs the turns from the seeded stack, no marks and `usize::MAX`; an answer below `usize::MAX` is the length of a legal route from a start to an `E` cell |
| Day12.Part | day12/src/main.rs:46-219 | `part1` and `part2` panic as reading does and otherwise end as `SearchFrom` runs the search on the map read; an answer below `usize::MAX` is the length of a legal route on that map |
| Day13.PartialCmp | day13/src/main.rs:23-90 | `partial_cmp` always returns an ordering, so `cmp` never reaches its panic |
| Day13.CmpRaws | day13/src/main.rs:83-85 | two integers compare as integers |
| Day13.CmpPromotes | day13/src/main.rs:73-82 | an integer compared with a list is first promoted to a one-element list, on either side |
| Day13.CmpEmpty | day13/src/main.rs:29-34 | an empty list is Equal to an empty list and Less than any other list |
| Day13.CmpIsLexicographic | day13/src/main.rs:36-70 | the comparison of two packets is the item-by-item walk of the loop |
| Day13.FirstDifferenceDecides | day13/src/main.rs:41-67 | the first pair of items that is not Equal decides the comparison |
| Day13.PrefixDecides | day13/src/main.rs:45-58 | when every shared item is Equal, the shorter list is Less and lists of equal length are Equal |
| Day13.CmpReverse | day13/src/main.rs:23-90 | swapping the packets reverses the ordering |
| Day13.CmpTransitive | day13/src/main.rs:23-90 | "not Greater" is transitive, so `sort` sees a total preorder |
| Day13.EqIffCmpEqual | day13/src/main.rs:12-21 | the custom equality holds exactly when the comparison is Equal |
| Day13.RawEqualsSingleton | day13/src/main.rs:17-18 | an integer equals the one-element list holding it, both ways round |
| Day13.FinishNumber | day13/src/main.rs:131-135 | a pending number is parsed as a `usize` and appended, panicking exactly when it does not parse; with no pending number nothing changes |
| Day13.Packet | day13/src/main.rs:101-169 | a packet that parses is a list; fewer than two characters panic at the slice |
| Day13.ParsePacket | day13/src/main.rs:101-169 | the scanning loop computes `Packet` |
| Day13.ScanAppend | day13/src/main.rs:107-160 | scanning two texts in a row is scanning their concatenation |
| Day13.PacketOfRender | day13/src/main.rs:101-169 | parsing a printed list packet gives the packet back |
| Day13.Part1Step | day13/src/main.rs:184-202 | one group of three lines adds its index when its pair is in the right order |
| Day13.Part1Fails | day13/src/main.rs:196-197 | a group whose left or right line does not parse ends part 1 with that parse panic |
| Day13.Part1Group | day13/src/main.rs:184-202 | one turn of the loop either panics as part 1 does from this group on, or adds this group's index when in the right order and hands the rest over to the next group |
| Day13.Part1 | day13/src/main.rs:180-205 | the loop computes the sum of the indices of the pairs in the right order, or the first parse panic |
| Day13.Part1OfPrintedPairs | day13/src/main.rs:180-205 | on printed pairs, part 1 is the sum of the 1-based indices of the pairs whose left packet is not Greater |
| Day13.FirstPairPackets | day13/src/main.rs:184-197 | the first three lines of printed pairs are the two packets of the first pair and a blank line, and the rest prints the other pairs |
| Day13.DividersParse | day13/src/main.rs:209-212 | `[[2]]` and `[[6]]` parse to the two divider packets |
| Day13.ParseDividers | day13/src/main.rs:209-212 | the two parsed divider texts are the divider packets |
| Day13.SortPackets | day13/src/main.rs:223 | `sort` gives an ordered permutation of the packets |
| Day13.SortedRanks | day13/src/main.rs:223 | in a sorted sequence the packets below a given one come first, then those equal to it |
| Day13.CountIfPermutation | day13/src/main.rs:223 | how many packets are below or equal to a given one does not depend on their order |
| Day13.ParseAllStep | day13/src/main.rs:216-222 | a blank line is skipped and any other line adds its packet or panics |
| Day13.ReadPacketLine | day13/src/main.rs:216-222 | one turn of the reading loop skips a blank line, adds a parsed packet behind those already read, or panics as the whole read does |
| Day13.Part2 | day13/src/main.rs:207-231 | the loops compute the product of the dividers' positions among the sorted packets, or the first parse panic |
| Day13.DividerProduct | day13/src/main.rs:224-229 | the loop multiplies the 1-based positions of the packets equal to a divider |
| Day13.DividerRanks | day13/src/main.rs:224-229 | in a sorted sequence the packets equal to a divider fill that divider's block of ranks, the `[[2]]` block first |
| Day13.BlocksProduct | day13/src/main.rs:224-229 | positions marked in two disjoint blocks multiply to the product of the two blocks |
| Day13.Part2Closed | day13/src/main.rs:223-230 | the answer depends only on how many packets are below or equal to each divider, and is the product of the dividers' 1-based positions when only they equal themselves |
| Day14.ParseNumbers | day14/src/main.rs:20-22 | every piece is parsed as an `i32` in order, and the result panics exactly when some piece does not parse |
| Day14.ParseVertices | day14/src/main.rs:19-24 | one vertex per piece of the line |
| Day14.ParseStructure | day14/src/main.rs:17-26 | a parsed rock structure has at least one vertex |
| Day14.NewRockStructure | day14/src/main.rs:17-26 | the loop over the pieces computes the structure `ParseStructure` describes, or its panic |
| Day14.VerticesPanic | day14/src/main.rs:19-24 | the first vertex that fails to parse decides the line's panic |
| Day14.ParseVertexText | day14/src/main.rs:20-23 | parsing the text "x,y" of an `i32` vertex gives the vertex back |
| Day14.ParseStructureText | day14/src/main.rs:17-26 | parsing the text "x,y -> x,y -> ..." of a structure gives its vertices back, in order |
| Day14.ParseVerticesOfTexts | day14/src/main.rs:19-24 | the texts of `i32` vertices parse, piece by piece, to those vertices in order |
| Day14.Segment | day14/src/main.rs:108-124 | every cell inserted for a segment lies on it |
| Day14.SegmentCovers | day14/src/main.rs:108-124 | every cell on an axis-parallel segment, both ends included, is inserted |
| Day14.InSegment | day14/src/main.rs:108-124 | a cell is inserted for a segment exactly when it lies on it |
| Day14.PutAllCells | day14/src/main.rs:113-123 | after the inserts a cell is present when it was before or was inserted, and inserted cells hold the new item |
| Day14.PathCells | day14/src/main.rs:63-127 | drawing a structure adds exactly the cells on its segments, as rock, and keeps every other cell |
| Day14.RocksCells | day14/src/main.rs:62-128 | the rock map holds exactly the cells on the segments of the structures, all of them rock |
| Day14.DrawSegment | day14/src/main.rs:108-124 | the `for` loop over one segment inserts rock at each of its cells |
| Day14.DrawColumn | day14/src/main.rs:110-116 | rock at every cell of the column range, both ends included |
| Day14.DrawRow | day14/src/main.rs:117-124 | rock at every cell of the row range, both ends included |
| Day14.WidenAllContains | day14/src/main.rs:64-106 | widening keeps what the box held and takes in every vertex |
| Day14.BoundsContain | day14/src/main.rs:57-106 | the bounding box holds the spawn point and every vertex |
| Day14.SegmentInBox | day14/src/main.rs:108-124 | every segment cell lies in a box holding its two ends |
| Day14.FloorCellsAre | day14/src/main.rs:130-135 | the floor is row `max_y + 2` for x in `[min_x - h, max_x + h)` with `h = 2 * max_y - 1` |
| Day14.DrawFloor | day14/src/main.rs:130-135 | the floor loop inserts rock along the floor row |
| Day14.DrawStructure | day14/src/main.rs:63-127 | one structure's pass widens the box by each vertex and draws each segment after the first vertex |
| Day14.Survey | day14/src/main.rs:55-128 | the nested loops draw every structure and compute the bounding box |
| Day14.InitialCells | day14/src/main.rs:54-148 | a new environment holds rock exactly on the segments and, with a floor, the floor row; no sand; its box holds the spawn point and every vertex, two rows deeper with a floor |
| Day14.Fall | day14/src/main.rs:162-176 | the grain moves one row down to the first vacant cell of straight down, down-left, down-right, and stays exactly when all three are taken |
| Day14.AddedSandCells | day14/src/main.rs:150-154 | `add_sand` adds a grain at the spawn point, marked as sand, and keeps every other cell |
| Day14.UpdatePanics | day14/src/main.rs:157 | `update` panics exactly when there is no grain |
| Day14.UpdateKeeps | day14/src/main.rs:156-191 | an update keeps the grain count, every grain but the last, the box and the spawn point, and counts one step |
| Day14.UpdateMoves | day14/src/main.rs:160-190 | the state is BlockingSpawn exactly on the spawn point, IntoTheVoid exactly below the box otherwise, Resting only when no candidate cell is vacant and Falling only after a move down |
| Day14.UpdateKeepsOtherCells | day14/src/main.rs:156-188 | an update only touches the cells the grain leaves and reaches, so rock stays rock |
| Day14.Environment.constructor | day14/src/main.rs:54-148 | the new environment is the one `Initial` describes |
| Day14.Environment.AddSand | day14/src/main.rs:150-154 | the object's new state is `add_sand` of the old one |
| Day14.Environment.Update | day14/src/main.rs:156-191 | the object's new state and the reported state are `update` of the old state |
| Day14.FollowKeeps | day14/src/main.rs:245-254 | following a grain keeps every earlier grain, and its answer is the grain count (part 2) or one less (part 1) |
| Day14.FollowKeepsRock | day14/src/main.rs:245-254 | following a grain never turns rock into anything else |
| Day14.PourAnswer | day14/src/main.rs:241-255 | an answer is at least the number of grains poured before, plus one with a floor |
| Day14.FollowFuel | day14/src/main.rs:245-254 | more fuel does not change a grain's decided fate |
| Day14.FollowOnce | day14/src/main.rs:246-252 | one update either panics as following the grain does, or decides the grain by the state it reports, or leaves it falling from the new state |
| Day14.FollowGrain | day14/src/main.rs:245-254 | the inner loop on the object does what `Follow` describes |
| Day14.Simulate | day14/src/main.rs:241-255 | the outer loop on the object does what `Pour` describes |
| Day14.Part | day14/src/main.rs:233-282 | `part1` and `part2` parse every line, build the environment and pour, as `Answer` describes |
| Day14.StructuresPanic | day14/src/main.rs:235-237 | the first line that fails to parse decides the panic |
| Day15.ContainsByMagnitude | day15/src/main.rs:16-20 | `contains` under the custom equality finds any element with the same magnitude, whatever its coordinates |
| Day15.NewBeacon | day15/src/main.rs:35-41 | a sensor keeps its location and its offset's magnitude is the Manhattan distance to its closest beacon |
| Day15.CoversWithinReach | day15/src/main.rs:93-96 | a sensor covers exactly the points no farther from it than its closest beacon |
| Day15.Filter | day15/src/main.rs:57 | the filtered line keeps only ':', ',', digits and '-' |
| Day15.FilterAppend | day15/src/main.rs:57 | filtering works piece by piece |
| Day15.ParseCoord | day15/src/main.rs:60 | a coordinate is an `i32`, or the `unwrap` panic |
| Day15.ParsePair | day15/src/main.rs:59-60 | an "x,y" piece parses exactly when it has two parts that are both `i32` |
| Day15.ParseReadingLine | day15/src/main.rs:57-62 | a report line carrying four coordinates in decimal parses to that sensor and beacon |
| Day15.RecordKeeps | day15/src/main.rs:63-86 | recording one more sensor keeps the sensors in line order and the box around every reach |
| Day15.ReadFromKeeps | day15/src/main.rs:56-87 | reading the remaining lines succeeds exactly when each parses, and then every sensor is recorded and bounded |
| Day15.ReadMeaning | day15/src/main.rs:52-87 | the report reads exactly when every line parses; sensor i comes from line i and the box holds every sensor's reach |
| Day15.RecordStep | day15/src/main.rs:70-84 | the four edge updates compute the box of `Record` |
| Day15.ReadSensors | day15/src/main.rs:52-87 | the reading loop computes `Read` |
| Day15.RelevantMembers | day15/src/main.rs:92-99 | a sensor is relevant exactly when it covers its own column on the chosen row |
| Day15.CoversColumn | day15/src/main.rs:92-99 | a sensor covering a point of the row covers its own column on it |
| Day15.RelevantSuffices | day15/src/main.rs:92-99 | pre-filtering the sensors loses no covered point of the row |
| Day15.CountIsCardinality | day15/src/main.rs:102-114 | the count is the number of counted positions in the range |
| Day15.CountIgnoresFilter | day15/src/main.rs:102-114 | counting with the relevant sensors is counting with all of them |
| Day15.OutsideUncovered | day15/src/main.rs:70-84 | no sensor reaches a column outside the box |
| Day15.Part1Meaning | day15/src/main.rs:51-117 | part 1 counts the positions of the row some sensor covers, apart from those with a known beacon's magnitude, and no position outside the scanned range is covered |
| Day15.RelevantBeacons | day15/src/main.rs:92-99 | the relevance loop computes `Relevant` |
| Day15.CountRow | day15/src/main.rs:102-114 | the counting loop computes the count over the range |
| Day15.Part1 | day15/src/main.rs:51-117 | `part1` computes its answer or the first parse panic |
| Day15.FirstCover | day15/src/main.rs:167-190 | the inner loop stops at a sensor covering the position, and finds none exactly when no sensor covers it |
| Day15.FoundUncovered | day15/src/main.rs:163-204 | the scan stops only at a position no sensor covers and without a known beacon's magnitude |
| Day15.ProbeInColumns | day15/src/main.rs:163-203 | a scan step from columns 0 to maxDim on a row y >= 0 stays in those columns, on the same row or a later one; no row bound is kept, as in the source |
| Day15.FoundInColumns | day15/src/main.rs:160-204 | started at (0, 0), the scan stops in columns 0 to maxDim on some row y >= 0 |
| Day15.Part2Meaning | day15/src/main.rs:119-207 | a reported frequency is `x * 4000000 + y` of a position in columns 0 to maxDim, on some row y >= 0, that no sensor covers and without a known beacon's magnitude |
| Day15.JumpOverCovered | day15/src/main.rs:170-185 | when the sensor's reach on the row ends at or before column maxDim, the scan jumps just past it, and every position jumped over is covered |
| Day15.StallingSkip | day15/src/main.rs:171-183 | the row skip can add zero rows, and then the scan never ends |
| Day15.ScanOnce | day15/src/main.rs:163-204 | one turn of the scan loop with fuel left: a found position is the result, a move continues the scan from the new position with one turn less |
| Day15.OneReadingProbe | day15/src/main.rs:164-203 | with a single reading, a probe steps one column right on the beacon's magnitude, skips when the sensor covers the position, and otherwise finds it |
| Day15.ReportBelowLastRow | day15/src/main.rs:160-204 | with one sensor at (1, 0) whose closest beacon is at (0, 0) and maxDim 0, the scan from (0, 0) reports (0, 1), below row maxDim |
| Day15.SkipJumpsOverUncovered | day15/src/main.rs:174-179 | with a sensor at (0, -50), its beacon at (0, 11) and maxDim 10, the scan reports (0, 61) after jumping over the uncovered (10, 2) |
| Day15.ProbeAt | day15/src/main.rs:164-203 | one iteration of the scan loop computes `Probe2` |
| Day15.Search | day15/src/main.rs:160-204 | the scan loop computes `Scan` from (0, 0) |
| Day15.Part2 | day15/src/main.rs:119-207 | `part2` computes its answer, the first parse panic, or none when the scan runs out of fuel |

## Left out

- Reading the input file, the wall-clock timing and the printing of answers (the `harness` crate and every `main`) are outside the model: each part takes its input as a sequence of lines and returns its answer. `harness/src/lib.rs` is not part of this model.
- Day 10's `part2` prints the screen while it runs; the model returns the text it would print as a string, beside the value 0 that `part2` returns.
- Fixed-width overflow of running sums and products is not modelled; all such arithmetic is on unbounded integers. This covers day 1's `i32` sums, the scores and counts of days 2, 3, 4, 6 and 10, day 7's `u32` sizes and totals, day 9's `i32` coordinates, day 11's `add` and the squaring `old * old`, day 12's `usize` depths, day 13's index sums and products, day 14's `i32` coordinates, and day 15's `i32` differences, `abs` and the `i64` tuning frequency. Where the source relies on a width explicitly, the model writes it out: day 11's `checked_mul` fallback, the `i32::MIN`/`usize::MAX`/`u32::MAX` sentinels, and the `u32` subtraction in day 7's `part2`.
- Day3.RucksackPriority: splits a line at half its number of characters, where Rust's `split_at(line.len() / 2)` counts bytes and panics when that point falls inside a multi-byte character; the two agree on ASCII lines, and only those are modelled.
- Day13.Packet: drops the first and last character, where Rust's `&s[1..s.len() - 1]` slices bytes and panics when the first or last character is multi-byte; the two agree on ASCII lines, and only those are modelled.
- Day 8 computes the grid's side as the `f64` square root of the number of trees. The model takes the side `d` as a parameter and requires the text of all lines joined together to hold exactly `d * d` characters, however it is broken into lines (blank lines included); an input whose number of characters is not a square is not modelled.
- Day 14's `ToString for Environment` is debug output with no effect on the answers; it is not modelled (the `step_count` it shows is).
- Day 12's search, day 14's `part1`/`part2` loops and day 15's `part2` scan are `loop`/`while` loops whose termination the source does not ensure. The models take a `fuel` bound and return `None` when it runs out, so they say nothing about inputs that need more steps than the bound.
- Day 11 and day 13 call the library sorts `sort_by_key` and `sort`. The model specifies them as a sorted permutation of their input, computed by an insertion sort; the library's stability is not modelled.
- Day 5's and day 15's `char::is_numeric` is modelled as the ASCII digits `0`–`9`, and day 12's `height_from_char` on the ASCII lower-case letters. Other Unicode numerals and letters are not modelled.
- Day 5: `add` empties the vector it is given (`append`); the model does not model that emptying, because the source never uses the emptied vector afterwards.
- Day 7's `Rc`/`Weak`/`RefCell` tree is an arena of items addressed by index, each with the index of its parent. The model therefore has no failing `Weak::upgrade` and no aliasing of `RefCell` borrows.
- Day 11's `Box<dyn Fn>` operation and test closures are a tagged operation and a divisor; `part2` runs the same rounds without reduction, and the model does not claim anything about the size of the worry values.
- Day 15's `static mut` globals for the chosen row and the largest coordinate are parameters.
- Day12.Search: does not prove that the answer is the shortest route. The search is depth-first. It marks each branch with its parent's depth while pushing it one step deeper, and it skips a neighbour whose mark is at most one more than the current depth. The model proves only that the answer is the least `E` depth popped and the length of a legal route.
- Day15.Search: proves only that a reported position is uncovered, has no known beacon's magnitude, and lies in columns 0 to maxDim on some row y >= 0. It does not promise what the puzzle asks for: a reported position can lie below row maxDim (`ReportBelowLastRow`); the row skip uses |y| where the sensor's row offset is meant, so it can jump over uncovered positions with both coordinates in 0 to maxDim (`SkipJumpsOverUncovered`); and the skip can stall (`StallingSkip`).
