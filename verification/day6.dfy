/**
 * Day 6: tuning trouble. For each line of the data stream, the number of
 * characters read when the last `distinctChars` characters were first all
 * different (4 for part 1, 14 for part 2); the answers are joined by "; ".
 */
module Day6 {
  import opened Common

  /** No character occurs twice. */
  predicate Distinct(s: string) {
    forall a, b | 0 <= a < b < |s| :: s[a] != s[b]
  }

  /** The stream holds `n` pairwise different characters just before position `end`. */
  predicate MarkerAt(data: string, n: nat, end: nat) {
    n <= end <= |data| && Distinct(data[end - n..end])
  }

  /** The first end position at or after `from` that completes a marker of `n` characters; `|data|` if none does. */
  function FirstMarkerFrom(data: string, n: nat, from: nat): (end: nat)
    requires n > 0
    ensures from <= |data| ==> from <= end <= |data|
    ensures end < |data| ==> MarkerAt(data, n, end)
    ensures forall j | from <= j < end :: !MarkerAt(data, n, j)
    decreases |data| - from
  {
    if from >= |data| then |data|
    else if MarkerAt(data, n, from) then from
    else FirstMarkerFrom(data, n, from + 1)
  }

  /**
   * What `find_start_of_packet_marker_index` promises: the number of
   * characters read when a marker is first complete, or the whole length if
   * none ever is (always the case for `n == 0`, since a non-empty window
   * never has length 0).
   */
  function MarkerEnd(data: string, n: nat): nat {
    if n == 0 then |data| else FirstMarkerFrom(data, n, 0)
  }

  /** The window after reading one more character: everything after that character's old position, then the character. */
  method Slide(prevChars: seq<char>, ch: char) returns (window: seq<char>)
    ensures window == Slid(prevChars, ch)
    ensures IndexOf(prevChars, ch).None? ==> window == prevChars + [ch]
    ensures IndexOf(prevChars, ch).Some? ==> window == prevChars[IndexOf(prevChars, ch).value + 1..] + [ch]
  {
    window := prevChars;
    var k := IndexOf(prevChars, ch);
    if k.Some? {
      var newChars: seq<char> := [];
      var i := k.value + 1;
      while i < |prevChars|
        invariant k.value + 1 <= i <= |prevChars|
        invariant newChars == prevChars[k.value + 1..i]
      {
        newChars := newChars + [prevChars[i]];
        i := i + 1;
      }
      window := newChars;
    }
    window := window + [ch];
  }

  /** The window is the longest run of different characters that ends at `index`. */
  predicate LongestDistinctSuffix(data: string, index: nat, window: seq<char>) {
    |window| <= index <= |data| && window == data[index - |window|..index] && Distinct(window)
    && (|window| < index ==> data[index - |window| - 1] in window)
  }

  /** The window after reading `data[index]`, as `Slide` computes it. */
  function Slid(window: seq<char>, ch: char): seq<char> {
    match IndexOf(window, ch)
    case None => window + [ch]
    case Some(k) => window[k + 1..] + [ch]
  }

  /** A window that is the longest distinct run stays so after sliding over a new character. */
  lemma {:induction false} SlideKeepsLongest(data: string, index: nat, window: seq<char>)
    requires index < |data| && LongestDistinctSuffix(data, index, window)
    ensures LongestDistinctSuffix(data, index + 1, Slid(window, data[index]))
  {
    if IndexOf(window, data[index]).None? {
      SlideFresh(data, index, window);
    } else {
      SlideRepeat(data, index, window, IndexOf(window, data[index]).value);
    }
  }

  lemma {:induction false} SlideFresh(data: string, index: nat, window: seq<char>)
    requires index < |data| && LongestDistinctSuffix(data, index, window)
    requires forall j | 0 <= j < |window| :: window[j] != data[index]
    ensures LongestDistinctSuffix(data, index + 1, window + [data[index]])
  {
    var w := window + [data[index]];
    var start := index - |window|;
    assert data[start..index + 1] == data[start..index] + [data[index]];
    assert w == data[index + 1 - |w|..index + 1];
  }

  lemma {:induction false} SlideRepeat(data: string, index: nat, window: seq<char>, k: nat)
    requires index < |data| && LongestDistinctSuffix(data, index, window)
    requires k < |window| && window[k] == data[index]
    ensures LongestDistinctSuffix(data, index + 1, window[k + 1..] + [data[index]])
  {
    var ch := data[index];
    var w := window[k + 1..] + [ch];
    var start := index - |window| + k + 1;
    assert index + 1 - |w| == start;
    assert window[k + 1..] == data[start..index];
    assert data[start..index + 1] == data[start..index] + [ch];
    DistinctAfterRepeat(window, k);
    assert data[start - 1] == window[k];
    assert w[|w| - 1] == ch;
  }

  /** Dropping a distinct window up to the repeated character and appending it again keeps it distinct. */
  lemma {:induction false} DistinctAfterRepeat(window: seq<char>, k: nat)
    requires Distinct(window) && k < |window|
    ensures Distinct(window[k + 1..] + [window[k]])
  {
    var w := window[k + 1..] + [window[k]];
    forall a, b | 0 <= a < b < |w| ensures w[a] != w[b] {
      assert w[a] == window[k + 1 + a];
      if b < |w| - 1 {
        assert w[b] == window[k + 1 + b];
      } else {
        assert w[b] == window[k];
      }
    }
  }

  /** While the window is shorter than `n`, no marker ends at `index`, so the search moves past it. */
  lemma {:induction false} NoMarkerHere(data: string, index: nat, window: seq<char>, n: nat)
    requires index < |data| && LongestDistinctSuffix(data, index, window) && 0 < n && |window| < n
    ensures FirstMarkerFrom(data, n, index) == FirstMarkerFrom(data, n, index + 1)
  {
    NoLongerRun(data, index, window, n);
  }

  /** No run of different characters ending at `index` is longer than the longest one. */
  lemma {:induction false} NoLongerRun(data: string, index: nat, window: seq<char>, n: nat)
    requires LongestDistinctSuffix(data, index, window) && |window| < n
    ensures !MarkerAt(data, n, index)
  {
    if n <= index {
      var s := data[index - n..index];
      var a := n - |window| - 1;
      var c := data[index - |window| - 1];
      assert s[a] == c;
      var k :| 0 <= k < |window| && window[k] == c;
      assert s[a + 1 + k] == c;
    }
  }

  /** `find_start_of_packet_marker_index`, with its window of the latest different characters. */
  method FindStartOfPacketMarkerIndex(data: string, distinctChars: nat) returns (index: nat)
    ensures index == MarkerEnd(data, distinctChars)
  {
    var prevChars: seq<char> := [];
    index := 0;
    while index < |data|
      invariant LongestDistinctSuffix(data, index, prevChars)
      invariant distinctChars == 0 || |prevChars| < distinctChars
      invariant distinctChars > 0 ==> FirstMarkerFrom(data, distinctChars, 0) == FirstMarkerFrom(data, distinctChars, index)
    {
      prevChars := ReadChar(data, index, prevChars, distinctChars);
      index := index + 1;
      if |prevChars| == distinctChars {
        return;
      }
    }
  }

  /** One turn of the loop: slide the window over `data[index]`; no marker was passed over. */
  method ReadChar(data: string, index: nat, prevChars: seq<char>, distinctChars: nat) returns (window: seq<char>)
    requires index < |data| && LongestDistinctSuffix(data, index, prevChars)
    requires distinctChars == 0 || |prevChars| < distinctChars
    ensures LongestDistinctSuffix(data, index + 1, window) && |window| <= |prevChars| + 1
    ensures distinctChars > 0 ==> FirstMarkerFrom(data, distinctChars, index) == FirstMarkerFrom(data, distinctChars, index + 1)
    ensures |window| == distinctChars ==> FirstMarkerFrom(data, distinctChars, index + 1) == index + 1
  {
    if distinctChars > 0 {
      NoMarkerHere(data, index, prevChars, distinctChars);
    }
    SlideKeepsLongest(data, index, prevChars);
    window := Slide(prevChars, data[index]);
    if |window| == distinctChars {
      MarkerFound(data, index + 1, window);
    }
  }

  /** A longest distinct run of `n` characters ending at `end` is a marker, so the search stops there. */
  lemma {:induction false} MarkerFound(data: string, end: nat, window: seq<char>)
    requires LongestDistinctSuffix(data, end, window) && |window| > 0
    ensures FirstMarkerFrom(data, |window|, end) == end
  {
    assert MarkerAt(data, |window|, end);
  }

  /** Every answer, rendered in decimal and joined with "; ". */
  function Report(lines: seq<string>, distinctChars: nat): string {
    Join(Rendered(lines, distinctChars), "; ")
  }

  function Rendered(lines: seq<string>, distinctChars: nat): (parts: seq<string>)
    ensures |parts| == |lines|
    ensures forall i | 0 <= i < |lines| :: parts[i] == NatToString(MarkerEnd(lines[i], distinctChars))
    decreases |lines|
  {
    if |lines| == 0 then [] else Rendered(lines[..|lines| - 1], distinctChars) + [NatToString(MarkerEnd(lines[|lines| - 1], distinctChars))]
  }

  /** Splitting the report at "; " gives back one answer per line, each parsing to that line's marker end. */
  lemma {:induction false} ReportRoundTrip(lines: seq<string>, distinctChars: nat)
    requires |lines| > 0 && forall i | 0 <= i < |lines| :: |lines[i]| <= USIZE_MAX
    ensures |Split(Report(lines, distinctChars), "; ")| == |lines|
    ensures forall i | 0 <= i < |lines| :: ParseUnsigned(Split(Report(lines, distinctChars), "; ")[i], USIZE_MAX) == Some(MarkerEnd(lines[i], distinctChars))
  {
    var parts := Rendered(lines, distinctChars);
    forall k, i | 0 <= k < |parts| && 0 <= i < |parts[k]| ensures parts[k][i] != "; "[0] {
      assert IsDigit(parts[k][i]);
    }
    SplitJoin(parts, "; ");
    forall i | 0 <= i < |lines| ensures ParseUnsigned(parts[i], USIZE_MAX) == Some(MarkerEnd(lines[i], distinctChars)) {
      assert MarkerEnd(lines[i], distinctChars) <= |lines[i]|;
      ParseUnsignedOfNatToString(MarkerEnd(lines[i], distinctChars), USIZE_MAX);
    }
  }

  /** `part1` (`distinctChars == 4`) and `part2` (`distinctChars == 14`), as their loops. */
  method Part(lines: seq<string>, distinctChars: nat) returns (r: string)
    ensures r == Report(lines, distinctChars)
  {
    var results: seq<string> := [];
    var i := 0;
    while i < |lines|
      invariant i <= |lines|
      invariant results == Rendered(lines[..i], distinctChars)
    {
      var index := FindStartOfPacketMarkerIndex(lines[i], distinctChars);
      assert lines[..i + 1][..i] == lines[..i];
      results := results + [NatToString(index)];
      i := i + 1;
    }
    assert lines[..i] == lines;
    r := Join(results, "; ");
  }
}
