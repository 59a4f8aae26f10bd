/**
 * Day 13: packets are nested lists of integers. A custom comparator orders
 * them (an integer compared with a list is promoted to a one-element list),
 * a depth-tracking scanner parses them, part 1 sums the indices of pairs in
 * order and part 2 sorts all packets with two dividers and multiplies the
 * dividers' positions.
 */
module Day13 {
  import opened Common

  datatype Data = Raw(n: nat) | List(items: seq<Data>)

  // ---------------------------------------------------------------------------
  // Sizes, used as termination measures
  // ---------------------------------------------------------------------------

  function Size(d: Data): (r: nat)
    ensures r >= 1
    decreases d, 1
  {
    match d
    case Raw(_) => 1
    case List(xs) => 1 + SizeSeq(xs)
  }

  function SizeSeq(xs: seq<Data>): (r: nat)
    ensures |xs| == 0 ==> r == 0
    ensures |xs| == 1 ==> r == Size(xs[0])
    decreases xs, 0
  {
    if |xs| == 0 then 0 else Size(xs[0]) + SizeSeq(xs[1..])
  }

  /** A value compared with a list: an integer stands for the one-element list holding it. */
  function Items(d: Data): seq<Data> {
    match d
    case Raw(_) => [d]
    case List(xs) => xs
  }

  // ---------------------------------------------------------------------------
  // Equality (`PartialEq for Data`)
  // ---------------------------------------------------------------------------

  function Eq(a: Data, b: Data): bool
    decreases Size(a) + Size(b), 0
  {
    match (a, b)
    case (Raw(x), Raw(y)) => x == y
    case (List(l), List(r)) => EqSeq(l, r)
    case (Raw(x), List(r)) => EqSeq([Raw(x)], r)
    case (List(l), Raw(y)) => EqSeq([Raw(y)], l)
  }

  /** `Vec<Data>` equality: same length and element-wise `Eq`. */
  function EqSeq(l: seq<Data>, r: seq<Data>): bool
    decreases SizeSeq(l) + SizeSeq(r), 1
  {
    |l| == |r| && (|l| == 0 || (Eq(l[0], r[0]) && EqSeq(l[1..], r[1..])))
  }

  // ---------------------------------------------------------------------------
  // Ordering (`PartialOrd` / `Ord for Data`)
  // ---------------------------------------------------------------------------

  /** `partial_cmp`; its contract says it never returns `None`. */
  function PartialCmp(a: Data, b: Data): (r: Option<Ordering>)
    ensures r.Some?
    decreases Size(a) + Size(b), 0
  {
    match a
    case List(list) =>
      (match b
       case List(otherList) => CmpLists(list, otherList)
       case Raw(otherRaw) => CmpLists(list, [Raw(otherRaw)]))
    case Raw(raw) =>
      (match b
       case List(otherList) => CmpLists([Raw(raw)], otherList)
       case Raw(otherRaw) => Some(if raw < otherRaw then Less else if raw == otherRaw then Equal else Greater))
  }

  /** The list-with-list branch of `partial_cmp`: the empty-list shortcut, then the element loop. */
  function CmpLists(list: seq<Data>, otherList: seq<Data>): (r: Option<Ordering>)
    ensures r.Some?
    decreases SizeSeq(list) + SizeSeq(otherList), 2
  {
    if |list| == 0 then
      if |otherList| == 0 then Some(Equal) else Some(Less)
    else
      CmpFrom(list, otherList)
  }

  /** The element loop: the first pair that is not Equal decides; a list that runs out first is Less. */
  function CmpFrom(li: seq<Data>, oli: seq<Data>): (r: Option<Ordering>)
    ensures r.Some?
    decreases SizeSeq(li) + SizeSeq(oli), 1
  {
    if |li| == 0 && |oli| == 0 then Some(Equal)
    else if |li| == 0 then Some(Less)
    else if |oli| == 0 then Some(Greater)
    else
      var retVal := PartialCmp(li[0], oli[0]);
      if retVal != Some(Equal) then retVal else CmpFrom(li[1..], oli[1..])
  }

  /** `cmp`: `partial_cmp` unwrapped; the panic on `None` cannot happen. */
  function Cmp(a: Data, b: Data): Ordering {
    PartialCmp(a, b).value
  }

  /** `compare_data`: a pair is in the right order unless the left packet is Greater. */
  predicate InRightOrder(left: Data, right: Data) {
    Cmp(left, right) != Greater
  }

  // ---------------------------------------------------------------------------
  // Properties of the comparator
  // ---------------------------------------------------------------------------

  /** Two integers compare numerically. */
  lemma {:induction false} CmpRaws(x: nat, y: nat)
    ensures Cmp(Raw(x), Raw(y)) == (if x < y then Less else if x == y then Equal else Greater)
  {
  }

  /** An integer against a list, on either side, behaves as the one-element list holding it. */
  lemma {:induction false} CmpPromotes(x: nat, l: seq<Data>)
    ensures Cmp(Raw(x), List(l)) == Cmp(List([Raw(x)]), List(l))
    ensures Cmp(List(l), Raw(x)) == Cmp(List(l), List([Raw(x)]))
  {
  }

  /** The empty list equals the empty list and is below every non-empty list. */
  lemma {:induction false} CmpEmpty(l: seq<Data>)
    ensures Cmp(List([]), List(l)) == (if l == [] then Equal else Less)
  {
    assert PartialCmp(List([]), List(l)) == CmpLists([], l);
  }

  /** The element loop agrees with the empty-list shortcut, so every comparison is lexicographic on `Items`. */
  lemma {:induction false} CmpIsLexicographic(a: Data, b: Data)
    ensures Cmp(a, b) == CmpFrom(Items(a), Items(b)).value
  {
    match (a, b)
    case (Raw(x), Raw(y)) =>
      assert CmpFrom([a], [b]) == PartialCmp(a, b) by {
        assert CmpFrom([a][1..], [b][1..]) == Some(Equal);
      }
    case (List(l), List(r)) =>
      assert PartialCmp(a, b) == CmpLists(l, r);
      if |l| == 0 {
        assert CmpFrom(l, r) == CmpLists(l, r);
      }
    case (Raw(x), List(r)) =>
      assert PartialCmp(a, b) == CmpLists([Raw(x)], r) == CmpFrom([Raw(x)], r);
    case (List(l), Raw(y)) =>
      assert PartialCmp(a, b) == CmpLists(l, [Raw(y)]);
      if |l| == 0 {
        assert CmpFrom(l, [Raw(y)]) == CmpLists(l, [Raw(y)]);
      }
  }

  /** Lexicographic order: the first element pair that is not Equal decides. */
  lemma {:induction false} FirstDifferenceDecides(l: seq<Data>, r: seq<Data>, k: nat)
    requires k < |l| && k < |r|
    requires forall i | 0 <= i < k :: Cmp(l[i], r[i]) == Equal
    requires Cmp(l[k], r[k]) != Equal
    ensures Cmp(List(l), List(r)) == Cmp(l[k], r[k])
  {
    assert PartialCmp(List(l), List(r)) == CmpLists(l, r) == CmpFrom(l, r);
    FromDecides(l, r, k);
  }

  lemma {:induction false} FromDecides(l: seq<Data>, r: seq<Data>, k: nat)
    requires k < |l| && k < |r|
    requires forall i | 0 <= i < k :: Cmp(l[i], r[i]) == Equal
    requires Cmp(l[k], r[k]) != Equal
    ensures CmpFrom(l, r) == Some(Cmp(l[k], r[k]))
  {
    if k > 0 {
      assert Cmp(l[0], r[0]) == Equal;
      FromDecides(l[1..], r[1..], k - 1);
    }
  }

  /** Lexicographic order: when all shared positions are Equal, the shorter list is Less and equal lengths are Equal. */
  lemma {:induction false} PrefixDecides(l: seq<Data>, r: seq<Data>)
    requires forall i | 0 <= i < |l| && i < |r| :: Cmp(l[i], r[i]) == Equal
    ensures |l| < |r| ==> Cmp(List(l), List(r)) == Less
    ensures |l| == |r| ==> Cmp(List(l), List(r)) == Equal
    ensures |l| > |r| ==> Cmp(List(l), List(r)) == Greater
  {
    assert PartialCmp(List(l), List(r)) == CmpLists(l, r);
    FromPrefix(l, r);
  }

  lemma {:induction false} FromPrefix(l: seq<Data>, r: seq<Data>)
    requires forall i | 0 <= i < |l| && i < |r| :: Cmp(l[i], r[i]) == Equal
    ensures CmpFrom(l, r) == Some(if |l| < |r| then Less else if |l| == |r| then Equal else Greater)
  {
    if |l| > 0 && |r| > 0 {
      assert Cmp(l[0], r[0]) == Equal;
      FromPrefix(l[1..], r[1..]);
    }
  }

  /** Swapping the arguments swaps Less and Greater. */
  lemma {:induction false} CmpReverse(a: Data, b: Data)
    ensures Cmp(b, a) == Cmp(a, b).Reverse()
    decreases Size(a) + Size(b), 0
  {
    CmpIsLexicographic(a, b);
    CmpIsLexicographic(b, a);
    if !(a.Raw? && b.Raw?) {
      FromReverse(Items(a), Items(b));
    }
  }

  lemma {:induction false} FromReverse(l: seq<Data>, r: seq<Data>)
    ensures CmpFrom(r, l).value == CmpFrom(l, r).value.Reverse()
    decreases SizeSeq(l) + SizeSeq(r), 1
  {
    if |l| > 0 && |r| > 0 {
      CmpReverse(l[0], r[0]);
      FromReverse(l[1..], r[1..]);
    }
  }

  function SizeItems(d: Data): nat {
    SizeSeq(Items(d))
  }

  lemma {:induction false} ItemsSmaller(d: Data)
    ensures SizeItems(d) <= Size(d)
    ensures d.List? ==> SizeItems(d) < Size(d)
  {
  }

  /** "At most" is transitive, so together with `CmpReverse` the comparator is a total preorder. */
  lemma {:induction false} CmpTransitive(a: Data, b: Data, c: Data)
    requires Cmp(a, b) != Greater && Cmp(b, c) != Greater
    ensures Cmp(a, c) != Greater
    decreases Size(a) + Size(b) + Size(c), 0
  {
    if !(a.Raw? && b.Raw? && c.Raw?) {
      CmpIsLexicographic(a, b);
      CmpIsLexicographic(b, c);
      CmpIsLexicographic(a, c);
      ItemsSmaller(a);
      ItemsSmaller(b);
      ItemsSmaller(c);
      FromTransitive(Items(a), Items(b), Items(c));
    }
  }

  lemma {:induction false} FromTransitive(l: seq<Data>, m: seq<Data>, n: seq<Data>)
    requires CmpFrom(l, m).value != Greater && CmpFrom(m, n).value != Greater
    ensures CmpFrom(l, n).value != Greater
    ensures CmpFrom(l, m).value == Less || CmpFrom(m, n).value == Less ==> CmpFrom(l, n).value == Less
    decreases SizeSeq(l) + SizeSeq(m) + SizeSeq(n), 1
  {
    if |l| > 0 {
      var l0, m0, n0 := l[0], m[0], n[0];
      CmpTransitive(l0, m0, n0);
      CmpReverse(l0, m0);
      CmpReverse(m0, n0);
      CmpReverse(l0, n0);
      if Cmp(l0, n0) == Equal {
        // then neither step can be strict: m0 sits between two Equal packets
        CmpTransitive(m0, n0, l0);
        CmpTransitive(n0, l0, m0);
        FromTransitive(l[1..], m[1..], n[1..]);
      }
    }
  }

  /** Equality agrees with the comparator: `Eq(a, b)` exactly when `Cmp(a, b)` is Equal. */
  lemma {:induction false} EqIffCmpEqual(a: Data, b: Data)
    ensures Eq(a, b) <==> Cmp(a, b) == Equal
    decreases Size(a) + Size(b), 0
  {
    CmpIsLexicographic(a, b);
    match (a, b)
    case (Raw(x), Raw(y)) =>
    case (List(l), List(r)) =>
      EqSeqIffFromEqual(l, r);
    case (Raw(x), List(r)) =>
      EqSeqIffFromEqual([Raw(x)], r);
    case (List(l), Raw(y)) =>
      CmpReverse(a, b);
      CmpIsLexicographic(b, a);
      EqSeqIffFromEqual([Raw(y)], l);
  }

  lemma {:induction false} EqSeqIffFromEqual(l: seq<Data>, r: seq<Data>)
    ensures EqSeq(l, r) <==> CmpFrom(l, r) == Some(Equal)
    decreases SizeSeq(l) + SizeSeq(r), 1
  {
    if |l| > 0 && |r| > 0 {
      EqIffCmpEqual(l[0], r[0]);
      EqSeqIffFromEqual(l[1..], r[1..]);
      FromEqualSameLength(l[1..], r[1..]);
    } else if |l| > 0 || |r| > 0 {
      FromEqualSameLength(l, r);
    }
  }

  lemma {:induction false} FromEqualSameLength(l: seq<Data>, r: seq<Data>)
    ensures CmpFrom(l, r) == Some(Equal) ==> |l| == |r|
  {
    if |l| > 0 && |r| > 0 {
      FromEqualSameLength(l[1..], r[1..]);
    }
  }

  /** `Raw(n)` and `List([Raw(n)])` are equal. */
  lemma {:induction false} RawEqualsSingleton(x: nat)
    ensures Eq(Raw(x), List([Raw(x)]))
    ensures Eq(List([Raw(x)]), Raw(x))
  {
  }

  // ---------------------------------------------------------------------------
  // Parsing (`parse_packet`)
  // ---------------------------------------------------------------------------

  /**
   * The scanner's variables: the items found so far, the text of a nested
   * packet being recorded, the digits of a number being read, and the
   * bracket depth of the recording (0 when not recording).
   */
  datatype ParseState = ParseState(currentList: seq<Data>, workingPacket: string, workingNumber: string, recordingPacket: nat)

  const NoState := ParseState([], "", "", 0)

  /** "Finish number if is one": a pending number is parsed as a `usize` (or the program panics) and appended. */
  function FinishNumber(st: ParseState): (r: Outcome<ParseState>)
    ensures r.Ok? ==> r.value.workingNumber == ""
    ensures r.Ok? ==> r.value.workingPacket == st.workingPacket && r.value.recordingPacket == st.recordingPacket
    ensures r.Panic? <==> |st.workingNumber| > 0 && ParseUnsigned(st.workingNumber, USIZE_MAX).None?
    ensures r.Ok? && |st.workingNumber| == 0 ==> r.value == st
    ensures r.Ok? && |st.workingNumber| > 0 ==>
      r.value.currentList == st.currentList + [Raw(ParseUnsigned(st.workingNumber, USIZE_MAX).value)]
  {
    if |st.workingNumber| == 0 then Ok(st)
    else match ParseUnsigned(st.workingNumber, USIZE_MAX)
      case None => Panic("invalid digit found in string")
      case Some(num) => Ok(st.(currentList := st.currentList + [Raw(num)], workingNumber := ""))
  }

  /** One turn of the character loop, on the first character of `cs`. */
  function Step(cs: string, st: ParseState): (r: Outcome<ParseState>)
    requires |cs| > 0
    ensures r.Ok? ==> |r.value.workingPacket| <= |st.workingPacket| + 1
    decreases |cs| + |st.workingPacket|, 1, 0
  {
    var c := cs[0];
    if c == '[' then
      Ok(st.(recordingPacket := st.recordingPacket + 1, workingPacket := st.workingPacket + [c]))
    else if c == ']' then
      if st.recordingPacket > 0 then
        var workingPacket := st.workingPacket + [c];
        if st.recordingPacket - 1 == 0 then
          var packet :- Packet(workingPacket);
          FinishNumber(st.(recordingPacket := 0, workingPacket := "", currentList := st.currentList + [packet]))
        else
          FinishNumber(st.(recordingPacket := st.recordingPacket - 1, workingPacket := workingPacket))
      else
        FinishNumber(st)
    else if c == ',' then
      if st.recordingPacket > 0 then Ok(st.(workingPacket := st.workingPacket + [c])) else FinishNumber(st)
    else
      if st.recordingPacket > 0 then Ok(st.(workingPacket := st.workingPacket + [c]))
      else Ok(st.(workingNumber := st.workingNumber + [c]))
  }

  /** The whole character loop over `cs`, stopping at the first panic. */
  function Scan(cs: string, st: ParseState): (r: Outcome<ParseState>)
    decreases |cs| + |st.workingPacket|, 2, |cs|
  {
    if |cs| == 0 then Ok(st)
    else
      var next :- Step(cs, st);
      Scan(cs[1..], next)
  }

  /**
   * `parse_packet`: drop the first and last characters, scan the rest, then
   * finish a trailing number. Fewer than two characters make the slice panic.
   */
  function Packet(s: string): (r: Outcome<Data>)
    ensures r.Ok? ==> r.value.List?
    decreases |s|, 0, 0
  {
    if |s| < 2 then Panic("slice index out of range")
    else
      var st :- Scan(s[1..|s| - 1], NoState);
      var last :- FinishNumber(st);
      Ok(List(last.currentList))
  }

  /** `parse_packet`, as the loop it is, proved to compute `Packet`. */
  method ParsePacket(s: string) returns (r: Outcome<Data>)
    ensures r == Packet(s)
    decreases |s|
  {
    if |s| < 2 {
      return Panic("slice index out of range");
    }
    var inner := s[1..|s| - 1];
    var currentList: seq<Data> := [];
    var workingPacket: string := "";
    var workingNumber: string := "";
    var recordingPacket: nat := 0;
    var i := 0;
    while i < |inner|
      invariant 0 <= i <= |inner|
      invariant |workingPacket| <= i
      invariant Scan(inner, NoState) ==
        Scan(inner[i..], ParseState(currentList, workingPacket, workingNumber, recordingPacket))
    {
      ghost var before := ParseState(currentList, workingPacket, workingNumber, recordingPacket);
      ghost var step := Step(inner[i..], before);
      assert Scan(inner[i..], before) == if step.Panic? then Panic(step.reason) else Scan(inner[i + 1..], step.value) by {
        assert inner[i..][1..] == inner[i + 1..];
      }
      var c := inner[i];
      if c == '[' {
        recordingPacket := recordingPacket + 1;
        workingPacket := workingPacket + [c];
      } else if c == ']' {
        if recordingPacket > 0 {
          recordingPacket := recordingPacket - 1;
          workingPacket := workingPacket + [c];
          if recordingPacket == 0 {
            var packet := ParsePacket(workingPacket);
            if packet.Panic? {
              return Panic(packet.reason);
            }
            currentList := currentList + [packet.value];
            workingPacket := "";
          }
        }
        if |workingNumber| > 0 {
          var num := ParseUnsigned(workingNumber, USIZE_MAX);
          if num.None? {
            return Panic("invalid digit found in string");
          }
          currentList := currentList + [Raw(num.value)];
          workingNumber := "";
        }
      } else if c == ',' {
        if recordingPacket > 0 {
          workingPacket := workingPacket + [c];
        } else if |workingNumber| > 0 {
          var num := ParseUnsigned(workingNumber, USIZE_MAX);
          if num.None? {
            return Panic("invalid digit found in string");
          }
          currentList := currentList + [Raw(num.value)];
          workingNumber := "";
        }
      } else {
        if recordingPacket > 0 {
          workingPacket := workingPacket + [c];
        } else {
          workingNumber := workingNumber + [c];
        }
      }
      i := i + 1;
    }
    if |workingNumber| > 0 {
      var num := ParseUnsigned(workingNumber, USIZE_MAX);
      if num.None? {
        return Panic("invalid digit found in string");
      }
      currentList := currentList + [Raw(num.value)];
    }
    return Ok(List(currentList));
  }

  // ---------------------------------------------------------------------------
  // Parsing inverts printing
  // ---------------------------------------------------------------------------

  /** The puzzle's notation for a packet: integers in decimal, lists in brackets with ',' between items. */
  function Render(d: Data): string
    decreases d, 1
  {
    match d
    case Raw(n) => NatToString(n)
    case List(xs) => "[" + RenderSeq(xs) + "]"
  }

  function RenderSeq(xs: seq<Data>): string
    decreases xs, 0
  {
    if |xs| == 0 then ""
    else if |xs| == 1 then Render(xs[0])
    else Render(xs[0]) + "," + RenderSeq(xs[1..])
  }

  /** Every integer fits in a `usize`. */
  predicate Bounded(d: Data)
    decreases d, 1
  {
    match d
    case Raw(n) => n <= USIZE_MAX
    case List(xs) => BoundedSeq(xs)
  }

  predicate BoundedSeq(xs: seq<Data>)
    decreases xs, 0
  {
    forall i | 0 <= i < |xs| :: Bounded(xs[i])
  }

  /** The scan of a concatenation is the scan of the second part from where the first part left off. */
  lemma {:induction false} ScanAppend(a: string, b: string, st: ParseState)
    ensures Scan(a + b, st) == (match Scan(a, st) case Ok(mid) => Scan(b, mid) case Panic(why) => Panic(why))
  {
    if |a| > 0 {
      assert (a + b)[1..] == a[1..] + b;
      assert Step(a + b, st) == Step(a, st);
      var step := Step(a, st);
      if step.Ok? {
        ScanAppend(a[1..], b, step.value);
      }
    } else {
      assert a + b == b;
    }
  }

  predicate NoBrackets(t: string) {
    forall i | 0 <= i < |t| :: t[i] != '[' && t[i] != ']'
  }

  /** Inside a recorded packet, text without brackets is copied to the recording. */
  lemma {:induction false} ScanRecordsPlain(t: string, st: ParseState)
    requires st.recordingPacket > 0 && NoBrackets(t)
    ensures Scan(t, st) == Ok(st.(workingPacket := st.workingPacket + t))
  {
    if |t| > 0 {
      var next := st.(workingPacket := st.workingPacket + [t[0]]);
      assert Step(t, st) == Ok(next);
      ScanRecordsPlain(t[1..], next);
      assert st.workingPacket + [t[0]] + t[1..] == st.workingPacket + t;
    } else {
      assert st.workingPacket + t == st.workingPacket;
    }
  }

  /** Outside any recording, digits go to the pending number. */
  lemma {:induction false} ScanReadsDigits(t: string, st: ParseState)
    requires st.recordingPacket == 0 && AllDigits(t)
    ensures Scan(t, st) == Ok(st.(workingNumber := st.workingNumber + t))
  {
    if |t| > 0 {
      var next := st.(workingNumber := st.workingNumber + [t[0]]);
      assert IsDigit(t[0]);
      assert Step(t, st) == Ok(next);
      ScanReadsDigits(t[1..], next);
      assert st.workingNumber + [t[0]] + t[1..] == st.workingNumber + t;
    } else {
      assert st.workingNumber + t == st.workingNumber;
    }
  }

  /** Inside a recorded packet, a printed packet is copied whole to the recording. */
  lemma {:induction false} ScanRecordsPacket(d: Data, st: ParseState)
    requires st.recordingPacket > 0 && st.workingNumber == ""
    ensures Scan(Render(d), st) == Ok(st.(workingPacket := st.workingPacket + Render(d)))
    decreases d, 0
  {
    match d
    case Raw(n) =>
      ScanRecordsPlain(NatToString(n), st);
    case List(xs) =>
      ScanRecordsList(xs, st);
  }

  lemma {:induction false} ScanRecordsList(xs: seq<Data>, st: ParseState)
    requires st.recordingPacket > 0 && st.workingNumber == ""
    ensures Scan(Render(List(xs)), st) == Ok(st.(workingPacket := st.workingPacket + Render(List(xs))))
    decreases xs, 2
  {
    var body := RenderSeq(xs);
    var entered := st.(recordingPacket := st.recordingPacket + 1, workingPacket := st.workingPacket + "[");
    var inside := entered.(workingPacket := entered.workingPacket + body);
    var closed := st.(workingPacket := inside.workingPacket + "]");
    assert Render(List(xs)) == "[" + (body + "]");
    assert closed.workingPacket == st.workingPacket + Render(List(xs));
    assert Scan("[", st) == Ok(entered) by {
      assert Step("[", st) == Ok(entered);
    }
    assert Scan(body + "]", entered) == Ok(closed) by {
      ScanRecordsItems(xs, entered);
      assert Step("]", inside) == Ok(closed);
      assert Scan("]", inside) == Ok(closed);
      ScanAppend(body, "]", entered);
    }
    ScanAppend("[", body + "]", st);
  }

  lemma {:induction false} ScanRecordsItems(xs: seq<Data>, st: ParseState)
    requires st.recordingPacket > 0 && st.workingNumber == ""
    ensures Scan(RenderSeq(xs), st) == Ok(st.(workingPacket := st.workingPacket + RenderSeq(xs)))
    decreases xs, 1
  {
    if |xs| == 0 {
      assert st.workingPacket + "" == st.workingPacket;
    } else if |xs| == 1 {
      ScanRecordsPacket(xs[0], st);
    } else {
      ScanRecordsCons(xs, st);
    }
  }

  lemma {:induction false} ScanRecordsCons(xs: seq<Data>, st: ParseState)
    requires |xs| >= 2 && st.recordingPacket > 0 && st.workingNumber == ""
    ensures Scan(RenderSeq(xs), st) == Ok(st.(workingPacket := st.workingPacket + RenderSeq(xs)))
    decreases xs, 0
  {
    var head := Render(xs[0]);
    var tail := RenderSeq(xs[1..]);
    var afterHead := st.(workingPacket := st.workingPacket + head);
    var afterComma := afterHead.(workingPacket := afterHead.workingPacket + ",");
    var final := st.(workingPacket := st.workingPacket + RenderSeq(xs));
    assert RenderSeq(xs) == head + ("," + tail);
    assert Scan(head, st) == Ok(afterHead) by {
      ScanRecordsPacket(xs[0], st);
    }
    assert Scan("," + tail, afterHead) == Ok(final) by {
      ScanRecordsPlain(",", afterHead);
      ScanRecordsItems(xs[1..], afterComma);
      assert afterComma.workingPacket + tail == final.workingPacket;
      ScanAppend(",", tail, afterHead);
    }
    ScanAppend(head, "," + tail, st);
  }

  /** Where the outer scan stands after one item: a number still pending, or a list already appended. */
  function Pending(done: seq<Data>, d: Data): ParseState {
    if d.Raw? then ParseState(done, "", NatToString(d.n), 0) else ParseState(done + [d], "", "", 0)
  }

  lemma {:induction false} FinishPending(done: seq<Data>, d: Data)
    requires Bounded(d)
    ensures FinishNumber(Pending(done, d)) == Ok(ParseState(done + [d], "", "", 0))
  {
    if d.Raw? {
      ParseUnsignedOfNatToString(d.n, USIZE_MAX);
    }
  }

  /** At depth 0, scanning a printed item leaves it pending. */
  lemma {:induction false} ScanOuterItem(d: Data, done: seq<Data>)
    requires Bounded(d)
    ensures Scan(Render(d), ParseState(done, "", "", 0)) == Ok(Pending(done, d))
    decreases Size(d), 0
  {
    var st := ParseState(done, "", "", 0);
    match d
    case Raw(n) =>
      ScanReadsDigits(NatToString(n), st);
      assert "" + NatToString(n) == NatToString(n);
    case List(xs) =>
      var body := RenderSeq(xs);
      var entered := ParseState(done, "[", "", 1);
      assert Scan("[", st) == Ok(entered) by {
        assert st.workingPacket + "[" == "[";
        assert Step("[", st) == Ok(entered);
      }
      ScanRecordsItems(xs, entered);
      var inside := entered.(workingPacket := "[" + body);
      PacketOfRender(xs);
      assert "[" + body + "]" == Render(d);
      assert Scan("]", inside) == Ok(Pending(done, d)) by {
        assert Step("]", inside) == Ok(Pending(done, d));
      }
      ScanAppend(body, "]", entered);
      ScanAppend("[", body + "]", st);
      assert Render(d) == "[" + (body + "]");
  }

  /** At depth 0, a ',' finishes the pending item. */
  lemma {:induction false} ScanComma(done: seq<Data>, d: Data)
    requires Bounded(d)
    ensures Scan(",", Pending(done, d)) == Ok(ParseState(done + [d], "", "", 0))
  {
    FinishPending(done, d);
    assert Step(",", Pending(done, d)) == Ok(ParseState(done + [d], "", "", 0));
  }

  lemma {:induction false} BoundedTail(xs: seq<Data>)
    requires |xs| > 0 && BoundedSeq(xs)
    ensures BoundedSeq(xs[1..])
  {
    forall i | 0 <= i < |xs[1..]| ensures Bounded(xs[1..][i]) {
      assert xs[1..][i] == xs[i + 1];
    }
  }

  /** At depth 0, scanning printed items separated by ',' appends all but the last, which is left pending. */
  lemma {:induction false} ScanOuterItems(xs: seq<Data>, done: seq<Data>)
    requires |xs| > 0 && BoundedSeq(xs)
    ensures Scan(RenderSeq(xs), ParseState(done, "", "", 0)) == Ok(Pending(done + xs[..|xs| - 1], xs[|xs| - 1]))
    decreases SizeSeq(xs), 2
  {
    assert Bounded(xs[0]);
    ScanOuterItem(xs[0], done);
    if |xs| == 1 {
      assert done + xs[..0] == done;
    } else {
      ScanOuterCons(xs, done);
    }
  }

  lemma {:induction false} ScanOuterCons(xs: seq<Data>, done: seq<Data>)
    requires |xs| >= 2 && BoundedSeq(xs)
    requires Scan(Render(xs[0]), ParseState(done, "", "", 0)) == Ok(Pending(done, xs[0]))
    ensures Scan(RenderSeq(xs), ParseState(done, "", "", 0)) == Ok(Pending(done + xs[..|xs| - 1], xs[|xs| - 1]))
    decreases SizeSeq(xs), 1
  {
    var head := Render(xs[0]);
    var tail := RenderSeq(xs[1..]);
    assert RenderSeq(xs) == head + ("," + tail);
    ScanCommaRest(xs, done);
    ScanAppend(head, "," + tail, ParseState(done, "", "", 0));
  }

  /** After the first item, the ',' and the remaining items are scanned as at depth 0. */
  lemma {:induction false} ScanCommaRest(xs: seq<Data>, done: seq<Data>)
    requires |xs| >= 2 && BoundedSeq(xs)
    ensures Scan("," + RenderSeq(xs[1..]), Pending(done, xs[0])) == Ok(Pending(done + xs[..|xs| - 1], xs[|xs| - 1]))
    decreases SizeSeq(xs), 0
  {
    var tail := RenderSeq(xs[1..]);
    var more := done + [xs[0]];
    assert Bounded(xs[0]);
    ScanComma(done, xs[0]);
    BoundedTail(xs);
    ScanOuterItems(xs[1..], more);
    assert more + xs[1..][..|xs[1..]| - 1] == done + xs[..|xs| - 1];
    assert xs[1..][|xs[1..]| - 1] == xs[|xs| - 1];
    ScanAppend(",", tail, Pending(done, xs[0]));
  }

  /** Parsing a printed list packet gives the packet back. */
  lemma {:induction false} PacketOfRender(xs: seq<Data>)
    requires BoundedSeq(xs)
    ensures Packet(Render(List(xs))) == Ok(List(xs))
    decreases SizeSeq(xs), 4
  {
    var s := Render(List(xs));
    assert s[1..|s| - 1] == RenderSeq(xs);
    if |xs| == 0 {
      assert Scan("", NoState) == Ok(NoState);
    } else {
      ScanOfNonEmpty(xs);
    }
  }

  /** The inner scan of a printed non-empty list ends with every item collected once the last is finished. */
  lemma {:induction false} ScanOfNonEmpty(xs: seq<Data>)
    requires |xs| > 0 && BoundedSeq(xs)
    ensures Scan(RenderSeq(xs), NoState) == Ok(Pending(xs[..|xs| - 1], xs[|xs| - 1]))
    ensures FinishNumber(Pending(xs[..|xs| - 1], xs[|xs| - 1])) == Ok(ParseState(xs, "", "", 0))
    decreases SizeSeq(xs), 3
  {
    var init := xs[..|xs| - 1];
    var last := xs[|xs| - 1];
    ScanOuterItems(xs, []);
    assert [] + init == init;
    assert Bounded(last);
    FinishPending(init, last);
    assert init + [last] == xs;
  }

  // ---------------------------------------------------------------------------
  // Part 1: sum of the 1-based indices of the pairs in the right order
  // ---------------------------------------------------------------------------

  /**
   * Lines are taken three at a time (left, right, separator); a group
   * without both packets ends the input. `index` is the 1-based number of
   * the first group.
   */
  function Part1From(lines: seq<string>, index: nat): (r: Outcome<nat>)
    decreases |lines|
  {
    if |lines| < 2 then Ok(0)
    else
      var left :- Packet(lines[0]);
      var right :- Packet(lines[1]);
      var rest :- Part1From(lines[if |lines| >= 3 then 3 else |lines|..], index + 1);
      Ok((if InRightOrder(left, right) then index else 0) + rest)
  }

  function AddTo(k: nat, o: Outcome<nat>): Outcome<nat> {
    match o
    case Ok(v) => Ok(k + v)
    case Panic(why) => Panic(why)
  }

  lemma {:induction false} AddToTwice(a: nat, b: nat, o: Outcome<nat>)
    ensures AddTo(a, AddTo(b, o)) == AddTo(a + b, o)
  {
  }

  /** The group starting at line `i` adds its index when its pair is in the right order. */
  lemma {:induction false} Part1Step(lines: seq<string>, i: nat, index: nat, left: Data, right: Data)
    requires i + 2 <= |lines| && Packet(lines[i]) == Ok(left) && Packet(lines[i + 1]) == Ok(right)
    ensures Part1From(lines[i..], index) ==
      AddTo(if InRightOrder(left, right) then index else 0, Part1From(lines[if i + 3 <= |lines| then i + 3 else |lines|..], index + 1))
  {
    assert lines[i..][if i + 3 <= |lines| then 3 else |lines| - i..] == lines[if i + 3 <= |lines| then i + 3 else |lines|..];
  }

  /** A group whose left or right packet fails to parse ends part 1 with that panic. */
  lemma {:induction false} Part1Fails(lines: seq<string>, i: nat, index: nat, failed: Outcome<Data>)
    requires i + 2 <= |lines| && failed.Panic?
    requires failed == Packet(lines[i]) || (Packet(lines[i]).Ok? && failed == Packet(lines[i + 1]))
    ensures Part1From(lines[i..], index) == Panic(failed.reason)
  {
    assert lines[i..][0] == lines[i] && lines[i..][1] == lines[i + 1];
  }

  /** `part1`, as its loop. */
  method Part1(lines: seq<string>) returns (r: Outcome<nat>)
    ensures r == Part1From(lines, 1)
  {
    var index := 1;
    var sum: nat := 0;
    var i := 0;
    assert lines[0..] == lines;
    while i + 2 <= |lines|
      invariant i <= |lines|
      invariant Part1From(lines, 1) == AddTo(sum, Part1From(lines[i..], index))
      decreases |lines| - i
    {
      var next := if i + 3 <= |lines| then i + 3 else |lines|;
      var added := Part1Group(lines, i, next, index, sum);
      if added.Panic? {
        return added;
      }
      sum := added.value;
      index := index + 1;
      i := next;
    }
    return Ok(sum);
  }

  /**
   * One group of `part1`'s loop, lines `i` and `i + 1`: `sum` plus the
   * group's index if its pair is in the right order, or the panic of a packet.
   */
  method Part1Group(lines: seq<string>, i: nat, next: nat, index: nat, sum: nat) returns (r: Outcome<nat>)
    requires i + 2 <= |lines| && next == if i + 3 <= |lines| then i + 3 else |lines|
    ensures r.Panic? ==> AddTo(sum, Part1From(lines[i..], index)) == r
    ensures r.Ok? ==> AddTo(sum, Part1From(lines[i..], index)) == AddTo(r.value, Part1From(lines[next..], index + 1))
  {
    var leftPacket := ParsePacket(lines[i]);
    if leftPacket.Panic? {
      Part1Fails(lines, i, index, leftPacket);
      return Panic(leftPacket.reason);
    }
    var rightPacket := ParsePacket(lines[i + 1]);
    if rightPacket.Panic? {
      Part1Fails(lines, i, index, rightPacket);
      return Panic(rightPacket.reason);
    }
    var inOrder := InRightOrder(leftPacket.value, rightPacket.value);
    Part1Step(lines, i, index, leftPacket.value, rightPacket.value);
    AddToTwice(sum, if inOrder then index else 0, Part1From(lines[next..], index + 1));
    r := Ok(sum + if inOrder then index else 0);
  }

  /** Two list packets per group, printed, then a blank separator line. */
  function PairLines(pairs: seq<(seq<Data>, seq<Data>)>): seq<string> {
    if |pairs| == 0 then []
    else [Render(List(pairs[0].0)), Render(List(pairs[0].1)), ""] + PairLines(pairs[1..])
  }

  /** The puzzle's answer: the sum of the indices (from `index`) of the pairs whose left packet is not Greater. */
  function OrderedIndexSum(pairs: seq<(seq<Data>, seq<Data>)>, index: nat): nat {
    if |pairs| == 0 then 0
    else (if InRightOrder(List(pairs[0].0), List(pairs[0].1)) then index else 0) + OrderedIndexSum(pairs[1..], index + 1)
  }

  predicate BoundedPairs(pairs: seq<(seq<Data>, seq<Data>)>) {
    forall k | 0 <= k < |pairs| :: BoundedSeq(pairs[k].0) && BoundedSeq(pairs[k].1)
  }

  /** On printed pairs, part 1 is the sum of the indices of the pairs in the right order. */
  lemma {:induction false} Part1OfPrintedPairs(pairs: seq<(seq<Data>, seq<Data>)>, index: nat)
    requires BoundedPairs(pairs)
    ensures Part1From(PairLines(pairs), index).Ok?
    ensures Part1From(PairLines(pairs), index).value == OrderedIndexSum(pairs, index)
  {
    if |pairs| > 0 {
      FirstPairPackets(pairs);
      BoundedPairsTail(pairs);
      Part1OfPrintedPairs(pairs[1..], index + 1);
    }
  }

  /** The first two printed lines parse back to the first pair's packets. */
  lemma {:induction false} FirstPairPackets(pairs: seq<(seq<Data>, seq<Data>)>)
    requires |pairs| > 0 && BoundedPairs(pairs)
    ensures var lines := PairLines(pairs);
      |lines| >= 3 && lines[3..] == PairLines(pairs[1..]) &&
      Packet(lines[0]) == Ok(List(pairs[0].0)) && Packet(lines[1]) == Ok(List(pairs[0].1))
  {
    var lines := PairLines(pairs);
    assert lines[0] == Render(List(pairs[0].0)) && lines[1] == Render(List(pairs[0].1));
    PacketOfRender(pairs[0].0);
    PacketOfRender(pairs[0].1);
  }

  lemma {:induction false} BoundedPairsTail(pairs: seq<(seq<Data>, seq<Data>)>)
    requires |pairs| > 0 && BoundedPairs(pairs)
    ensures BoundedPairs(pairs[1..])
  {
    forall k | 0 <= k < |pairs[1..]| ensures BoundedSeq(pairs[1..][k].0) && BoundedSeq(pairs[1..][k].1) {
      assert pairs[1..][k] == pairs[k + 1];
    }
  }

  // ---------------------------------------------------------------------------
  // Sorting (`packets.sort()`, by `cmp`)
  // ---------------------------------------------------------------------------

  predicate Sorted(s: seq<Data>) {
    forall i, j | 0 <= i < j < |s| :: Cmp(s[i], s[j]) != Greater
  }

  lemma {:induction false} CmpAtMostTransitive(a: Data, b: Data, c: Data)
    ensures Cmp(a, b) != Greater && Cmp(b, c) != Greater ==> Cmp(a, c) != Greater
  {
    if Cmp(a, b) != Greater && Cmp(b, c) != Greater {
      CmpTransitive(a, b, c);
    }
  }

  /** "At most" followed by "below" is "below". */
  lemma {:induction false} CmpBelowTransitive(a: Data, b: Data, c: Data)
    requires Cmp(a, b) != Greater && Cmp(b, c) == Less
    ensures Cmp(a, c) == Less
  {
    CmpTransitive(a, b, c);
    CmpAtMostTransitive(c, a, b);
    CmpReverse(a, c);
    CmpReverse(b, c);
  }

  /** Putting an element that is at most every element in front of a sorted sequence keeps it sorted. */
  lemma {:induction false} SortedPrepend(y: Data, r: seq<Data>)
    requires Sorted(r)
    requires forall j | 0 <= j < |r| :: Cmp(y, r[j]) != Greater
    ensures Sorted([y] + r)
  {
    forall i, j | 0 <= i < j < |[y] + r| ensures Cmp(([y] + r)[i], ([y] + r)[j]) != Greater {
      if i > 0 {
        assert ([y] + r)[i] == r[i - 1] && ([y] + r)[j] == r[j - 1];
      }
    }
  }

  /** Insertion into a sorted sequence, before the first element that is not below `x`. */
  function Insert(x: Data, s: seq<Data>): (r: seq<Data>)
    requires Sorted(s)
    decreases |s|
    ensures Sorted(r) && multiset(r) == multiset(s) + multiset{x}
  {
    if |s| == 0 then [x]
    else if Cmp(x, s[0]) != Greater then
      InsertFront(x, s);
      [x] + s
    else
      assert Sorted(s[1..]) by {
        forall i, j | 0 <= i < j < |s[1..]| ensures Cmp(s[1..][i], s[1..][j]) != Greater {
          assert s[1..][i] == s[i + 1] && s[1..][j] == s[j + 1];
        }
      }
      var rest := Insert(x, s[1..]);
      InsertBehind(x, s, rest);
      [s[0]] + rest
  }

  lemma {:induction false} InsertFront(x: Data, s: seq<Data>)
    requires Sorted(s) && |s| > 0 && Cmp(x, s[0]) != Greater
    ensures Sorted([x] + s) && multiset([x] + s) == multiset(s) + multiset{x}
  {
    forall j | 0 <= j < |s| ensures Cmp(x, s[j]) != Greater {
      if j > 0 {
        CmpTransitive(x, s[0], s[j]);
      }
    }
    SortedPrepend(x, s);
  }

  lemma {:induction false} InsertBehind(x: Data, s: seq<Data>, rest: seq<Data>)
    requires Sorted(s) && |s| > 0 && Cmp(x, s[0]) == Greater
    requires Sorted(rest) && multiset(rest) == multiset(s[1..]) + multiset{x}
    ensures Sorted([s[0]] + rest) && multiset([s[0]] + rest) == multiset(s) + multiset{x}
  {
    assert s == [s[0]] + s[1..];
    CmpReverse(x, s[0]);
    forall j | 0 <= j < |rest| ensures Cmp(s[0], rest[j]) != Greater {
      assert rest[j] in multiset(rest);
      if rest[j] != x {
        assert rest[j] in multiset(s[1..]);
        var k :| 0 <= k < |s[1..]| && s[1..][k] == rest[j];
        assert s[k + 1] == rest[j];
      }
    }
    SortedPrepend(s[0], rest);
  }

  /** The ordering `packets.sort()` establishes; which sorted permutation it picks does not matter (`Part2Closed`). */
  function SortPackets(s: seq<Data>): (r: seq<Data>)
    ensures Sorted(r) && multiset(r) == multiset(s)
  {
    if |s| == 0 then []
    else
      assert s == s[..|s| - 1] + [s[|s| - 1]];
      Insert(s[|s| - 1], SortPackets(s[..|s| - 1]))
  }

  // ---------------------------------------------------------------------------
  // Ranks in a sorted sequence
  // ---------------------------------------------------------------------------

  /** How many elements of `s` compare to `p` as `o`. */
  function CountIf(s: seq<Data>, p: Data, o: Ordering): nat {
    if |s| == 0 then 0
    else CountIf(s[..|s| - 1], p, o) + (if Cmp(s[|s| - 1], p) == o then 1 else 0)
  }

  lemma {:induction false} CountsBound(s: seq<Data>, p: Data)
    ensures CountIf(s, p, Less) + CountIf(s, p, Equal) <= |s|
  {
    if |s| > 0 {
      CountsBound(s[..|s| - 1], p);
    }
  }

  lemma {:induction false} CountIfAppend(a: seq<Data>, b: seq<Data>, p: Data, o: Ordering)
    ensures CountIf(a + b, p, o) == CountIf(a, p, o) + CountIf(b, p, o)
  {
    if |b| > 0 {
      assert (a + b)[..|a + b| - 1] == a + b[..|b| - 1];
      CountIfAppend(a, b[..|b| - 1], p, o);
    } else {
      assert a + b == a;
    }
  }

  /** Taking one element out of a sequence takes its contribution out of the count. */
  lemma {:induction false} CountIfRemove(t: seq<Data>, k: nat, p: Data, o: Ordering)
    requires k < |t|
    ensures CountIf(t, p, o) == CountIf(t[..k] + t[k + 1..], p, o) + (if Cmp(t[k], p) == o then 1 else 0)
  {
    assert t == t[..k] + [t[k]] + t[k + 1..];
    CountIfAppend(t[..k] + [t[k]], t[k + 1..], p, o);
    CountIfAppend(t[..k], [t[k]], p, o);
    CountIfAppend(t[..k], t[k + 1..], p, o);
    assert [t[k]][..0] == [];
  }

  lemma {:induction false} MultisetRemove(s: seq<Data>, t: seq<Data>) returns (k: nat)
    requires |s| > 0 && multiset(s) == multiset(t)
    ensures k < |t| && t[k] == s[|s| - 1]
    ensures multiset(s[..|s| - 1]) == multiset(t[..k] + t[k + 1..])
  {
    var x := s[|s| - 1];
    assert x in multiset(t);
    k :| 0 <= k < |t| && t[k] == x;
    assert t == t[..k] + [x] + t[k + 1..];
    assert s == s[..|s| - 1] + [x];
    assert multiset(t) == multiset(t[..k]) + multiset([x]) + multiset(t[k + 1..]);
    assert multiset(t[..k] + t[k + 1..]) == multiset(t[..k]) + multiset(t[k + 1..]);
    assert multiset(t[..k] + t[k + 1..]) == multiset(t) - multiset([x]);
    assert multiset(s[..|s| - 1]) == multiset(s) - multiset([x]);
  }

  /** Counts depend only on the multiset of elements. */
  lemma {:induction false} CountIfPermutation(s: seq<Data>, t: seq<Data>, p: Data, o: Ordering)
    requires multiset(s) == multiset(t)
    ensures CountIf(s, p, o) == CountIf(t, p, o)
  {
    if |s| > 0 {
      var k := MultisetRemove(s, t);
      CountIfPermutation(s[..|s| - 1], t[..k] + t[k + 1..], p, o);
      CountIfRemove(t, k, p, o);
    } else {
      assert |t| == |multiset(t)| == 0;
    }
  }

  /**
   * In a sorted sequence the elements below `p` come first, then those equal
   * to it, then those above it: positions are ranks.
   */
  lemma {:induction false} SortedRanks(s: seq<Data>, p: Data)
    requires Sorted(s)
    ensures forall i | 0 <= i < |s| :: Cmp(s[i], p) == Less <==> i < CountIf(s, p, Less)
    ensures forall i | 0 <= i < |s| :: Cmp(s[i], p) != Greater <==> i < CountIf(s, p, Less) + CountIf(s, p, Equal)
  {
    if |s| > 0 {
      var n := |s|;
      var init := s[..n - 1];
      var last := s[n - 1];
      SortedRanks(init, p);
      CountsBound(init, p);
      var below := CountIf(init, p, Less);
      var same := CountIf(init, p, Equal);
      forall i | 0 <= i < n - 1 ensures Cmp(s[i], last) != Greater && init[i] == s[i] {
      }
      match Cmp(last, p)
      case Less =>
        forall i | 0 <= i < n - 1 ensures Cmp(s[i], p) == Less {
          CmpBelowTransitive(s[i], last, p);
        }
        if n > 1 {
          assert Cmp(init[n - 2], p) == Less;
        }
        assert below == n - 1;
      case Equal =>
        forall i | 0 <= i < n - 1 ensures Cmp(s[i], p) != Greater {
          CmpTransitive(s[i], last, p);
        }
        if n > 1 {
          assert Cmp(init[n - 2], p) != Greater;
        }
        assert below + same == n - 1;
      case Greater =>
    }
  }

  // ---------------------------------------------------------------------------
  // Part 2: product of the dividers' positions in the sorted packets
  // ---------------------------------------------------------------------------

  const Divider2: Data := List([List([Raw(2)])])
  const Divider6: Data := List([List([Raw(6)])])

  /** The divider packets parse from their text `[[2]]` and `[[6]]`. */
  lemma {:induction false} DividersParse()
    ensures Packet("[[2]]") == Ok(Divider2)
    ensures Packet("[[6]]") == Ok(Divider6)
  {
    assert Render(Divider2) == "[[2]]";
    assert Render(Divider6) == "[[6]]";
    PacketOfRender([List([Raw(2)])]);
    PacketOfRender([List([Raw(6)])]);
  }

  /** `divider_packets.contains(packet)`, which uses the custom equality. */
  predicate IsDivider(p: Data) {
    Eq(Divider2, p) || Eq(Divider6, p)
  }

  /** The divider mask: which of the sorted packets are dividers, position by position. */
  function Marks(s: seq<Data>): (m: seq<bool>)
    ensures |m| == |s| && forall i | 0 <= i < |s| :: m[i] == IsDivider(s[i])
  {
    seq(|s|, i requires 0 <= i < |s| => IsDivider(s[i]))
  }

  /** The running product of the 1-based positions of the first `k` marked packets. */
  function MarkedProduct(marks: seq<bool>, k: nat): nat
    requires k <= |marks|
  {
    if k == 0 then 1 else MarkedProduct(marks, k - 1) * (if marks[k - 1] then k else 1)
  }

  /** Packets on the lines from `i` on that are not blank, in order; the first packet that fails to parse aborts. */
  function ParseAll(lines: seq<string>, i: nat): Outcome<seq<Data>>
    decreases |lines| - i
  {
    if i >= |lines| then Ok([])
    else if |lines[i]| == 0 then ParseAll(lines, i + 1)
    else
      var packet :- Packet(lines[i]);
      var rest :- ParseAll(lines, i + 1);
      Ok([packet] + rest)
  }

  function PrependTo(done: seq<Data>, o: Outcome<seq<Data>>): Outcome<seq<Data>> {
    match o
    case Ok(v) => Ok(done + v)
    case Panic(why) => Panic(why)
  }

  lemma {:induction false} ParseAllStep(lines: seq<string>, i: nat)
    requires i < |lines|
    ensures |lines[i]| == 0 ==> ParseAll(lines, i) == ParseAll(lines, i + 1)
    ensures |lines[i]| > 0 && Packet(lines[i]).Panic? ==> ParseAll(lines, i) == Panic(Packet(lines[i]).reason)
    ensures |lines[i]| > 0 && Packet(lines[i]).Ok? ==>
      ParseAll(lines, i) == PrependTo([Packet(lines[i]).value], ParseAll(lines, i + 1))
  {
  }

  lemma {:induction false} PrependTwice(a: seq<Data>, b: seq<Data>, o: Outcome<seq<Data>>)
    ensures PrependTo(a, PrependTo(b, o)) == PrependTo(a + b, o)
  {
    if o.Ok? {
      assert a + (b + o.value) == a + b + o.value;
    }
  }

  lemma {:induction false} PrependNothing(o: Outcome<seq<Data>>)
    ensures PrependTo([], o) == o
  {
    if o.Ok? {
      assert [] + o.value == o.value;
    }
  }

  function Part2Of(lines: seq<string>): Outcome<nat> {
    var packets :- ParseAll(lines, 0);
    var sorted := SortPackets([Divider2, Divider6] + packets);
    Ok(MarkedProduct(Marks(sorted), |sorted|))
  }

  /** `part2`, as its loops. */
  method Part2(lines: seq<string>) returns (r: Outcome<nat>)
    ensures r == Part2Of(lines)
  {
    var divider2, divider6 := ParseDividers();
    var packets := [divider2, divider6];
    ghost var found: seq<Data> := [];
    var i := 0;
    PrependNothing(ParseAll(lines, 0));
    while i < |lines|
      invariant i <= |lines|
      invariant packets == [Divider2, Divider6] + found
      invariant ParseAll(lines, 0) == PrependTo(found, ParseAll(lines, i))
    {
      var read := ReadPacketLine(lines, i, found);
      if read.Panic? {
        return Panic(read.reason);
      }
      if read.value.Some? {
        packets := packets + [read.value.value];
        found := found + [read.value.value];
      }
      i := i + 1;
    }
    assert found + [] == found;
    var sorted := SortPackets(packets);
    var result := DividerProduct(sorted);
    return Ok(result);
  }

  /** The divider packets, parsed from their text as `part2` does. */
  method ParseDividers() returns (divider2: Data, divider6: Data)
    ensures divider2 == Divider2 && divider6 == Divider6
  {
    DividersParse();
    var parsed2 := ParsePacket("[[2]]");
    var parsed6 := ParsePacket("[[6]]");
    divider2, divider6 := parsed2.value, parsed6.value;
  }

  /** One line of `part2`'s reading loop: a blank line is skipped, any other is parsed and pushed. */
  method ReadPacketLine(lines: seq<string>, i: nat, ghost found: seq<Data>) returns (r: Outcome<Option<Data>>)
    requires i < |lines|
    ensures r.Panic? ==> PrependTo(found, ParseAll(lines, i)) == Panic(r.reason)
    ensures r.Ok? && r.value.None? ==> PrependTo(found, ParseAll(lines, i)) == PrependTo(found, ParseAll(lines, i + 1))
    ensures r.Ok? && r.value.Some? ==>
      PrependTo(found, ParseAll(lines, i)) == PrependTo(found + [r.value.value], ParseAll(lines, i + 1))
  {
    ParseAllStep(lines, i);
    if |lines[i]| == 0 {
      return Ok(None);
    }
    var packet := ParsePacket(lines[i]);
    if packet.Panic? {
      return Panic(packet.reason);
    }
    PrependTwice(found, [packet.value], ParseAll(lines, i + 1));
    return Ok(Some(packet.value));
  }

  /** The last loop of `part2`: multiply the 1-based positions of the packets equal to a divider. */
  method DividerProduct(sorted: seq<Data>) returns (result: nat)
    ensures result == MarkedProduct(Marks(sorted), |sorted|)
  {
    result := 1;
    var index := 0;
    while index < |sorted|
      invariant index <= |sorted|
      invariant result == MarkedProduct(Marks(sorted), index)
    {
      if Eq(Divider2, sorted[index]) || Eq(Divider6, sorted[index]) {
        result := result * (index + 1);
      }
      index := index + 1;
    }
  }

  /** The product of `i + 1` over `lo <= i < hi`. */
  function RangeProduct(lo: nat, hi: nat): nat
    decreases hi
  {
    if hi <= lo then 1 else RangeProduct(lo, hi - 1) * hi
  }

  lemma {:induction false} MulRotate(a: int, b: int, c: int)
    ensures a * b * c == a * c * b
  {
  }

  lemma {:induction false} MulAssociates(a: int, b: int, c: int)
    ensures a * b * c == a * (b * c)
  {
  }

  function Clip(k: nat, lo: nat, hi: nat): nat {
    if k < lo then lo else if k > hi then hi else k
  }

  /** Marks for the positions `lo <= i < hi` among `n`. */
  function RangeMarks(n: nat, lo: nat, hi: nat): (m: seq<bool>)
    ensures |m| == n && forall i | 0 <= i < n :: m[i] == (lo <= i < hi)
  {
    seq(n, i requires 0 <= i < n => lo <= i < hi)
  }

  /** Marking one block of positions multiplies exactly those positions. */
  lemma {:induction false} ProductOfRange(n: nat, lo: nat, hi: nat, k: nat)
    requires k <= n && lo <= hi
    ensures MarkedProduct(RangeMarks(n, lo, hi), k) == RangeProduct(lo, Clip(k, lo, hi))
  {
    if k > 0 {
      ProductOfRange(n, lo, hi, k - 1);
      if lo <= k - 1 < hi {
        assert RangeProduct(lo, k) == RangeProduct(lo, k - 1) * k;
      } else {
        assert Clip(k, lo, hi) == Clip(k - 1, lo, hi);
      }
    }
  }

  /** Two disjoint sets of marks multiply separately. */
  lemma {:induction false} ProductOfUnion(m: seq<bool>, m1: seq<bool>, m2: seq<bool>, k: nat)
    requires |m1| == |m| && |m2| == |m| && k <= |m|
    requires forall i | 0 <= i < |m| :: m[i] == (m1[i] || m2[i]) && !(m1[i] && m2[i])
    ensures MarkedProduct(m, k) == MarkedProduct(m1, k) * MarkedProduct(m2, k)
  {
    if k > 0 {
      var j := k - 1;
      ProductOfUnion(m, m1, m2, j);
      var p1, p2 := MarkedProduct(m1, j), MarkedProduct(m2, j);
      if m1[j] {
        MulRotate(p1, p2, k);
      } else if m2[j] {
        MulAssociates(p1, p2, k);
      }
    }
  }

  /** In a sorted sequence, the packets equal to a divider occupy its block of ranks. */
  lemma {:induction false} DividerRanks(s: seq<Data>)
    requires Sorted(s)
    ensures forall i | 0 <= i < |s| ::
      Marks(s)[i] <==>
        CountIf(s, Divider2, Less) <= i < CountIf(s, Divider2, Less) + CountIf(s, Divider2, Equal) ||
        CountIf(s, Divider6, Less) <= i < CountIf(s, Divider6, Less) + CountIf(s, Divider6, Equal)
    ensures CountIf(s, Divider2, Equal) == 0 ||
      CountIf(s, Divider2, Less) + CountIf(s, Divider2, Equal) <= CountIf(s, Divider6, Less)
  {
    SortedRanks(s, Divider2);
    SortedRanks(s, Divider6);
    assert Cmp(Divider2, Divider6) == Less;
    forall i | 0 <= i < |s|
      ensures Eq(Divider2, s[i]) <==> Cmp(s[i], Divider2) == Equal
      ensures Eq(Divider6, s[i]) <==> Cmp(s[i], Divider6) == Equal
      ensures Cmp(s[i], Divider2) == Equal ==> Cmp(s[i], Divider6) == Less
    {
      EqIffCmpEqual(Divider2, s[i]);
      CmpReverse(Divider2, s[i]);
      EqIffCmpEqual(Divider6, s[i]);
      CmpReverse(Divider6, s[i]);
      if Cmp(s[i], Divider2) == Equal {
        CmpBelowTransitive(s[i], Divider2, Divider6);
      }
    }
    CountsBound(s, Divider2);
    var hi2 := CountIf(s, Divider2, Less) + CountIf(s, Divider2, Equal);
    if CountIf(s, Divider2, Equal) > 0 {
      assert Cmp(s[hi2 - 1], Divider2) == Equal;
    }
  }

  /**
   * Part 2's answer in closed form: with `lo` the number of packets below a
   * divider and `n` the number equal to it (counted in any order), the
   * divider block contributes the product of positions `lo + 1 .. lo + n`.
   * So the answer is the same for every sorted permutation, and when only the
   * dividers equal themselves it is the product of their 1-based positions.
   */
  lemma {:induction false} Part2Closed(all: seq<Data>, sorted: seq<Data>)
    requires Sorted(sorted) && multiset(sorted) == multiset(all)
    ensures MarkedProduct(Marks(sorted), |sorted|) ==
      RangeProduct(CountIf(all, Divider2, Less), CountIf(all, Divider2, Less) + CountIf(all, Divider2, Equal)) *
      RangeProduct(CountIf(all, Divider6, Less), CountIf(all, Divider6, Less) + CountIf(all, Divider6, Equal))
    ensures CountIf(all, Divider2, Equal) == 1 && CountIf(all, Divider6, Equal) == 1 ==>
      MarkedProduct(Marks(sorted), |sorted|) == (CountIf(all, Divider2, Less) + 1) * (CountIf(all, Divider6, Less) + 1)
  {
    CountsAgree(sorted, all);
    SortedProduct(sorted);
    ClosedFormOfCounts(sorted, all, MarkedProduct(Marks(sorted), |sorted|));
  }

  lemma {:induction false} CountsAgree(sorted: seq<Data>, all: seq<Data>)
    requires multiset(sorted) == multiset(all)
    ensures CountIf(sorted, Divider2, Less) == CountIf(all, Divider2, Less)
    ensures CountIf(sorted, Divider2, Equal) == CountIf(all, Divider2, Equal)
    ensures CountIf(sorted, Divider6, Less) == CountIf(all, Divider6, Less)
    ensures CountIf(sorted, Divider6, Equal) == CountIf(all, Divider6, Equal)
  {
    CountIfPermutation(sorted, all, Divider2, Less);
    CountIfPermutation(sorted, all, Divider2, Equal);
    CountIfPermutation(sorted, all, Divider6, Less);
    CountIfPermutation(sorted, all, Divider6, Equal);
  }

  lemma {:induction false} ClosedFormOfCounts(sorted: seq<Data>, all: seq<Data>, product: nat)
    requires CountIf(sorted, Divider2, Less) == CountIf(all, Divider2, Less)
    requires CountIf(sorted, Divider2, Equal) == CountIf(all, Divider2, Equal)
    requires CountIf(sorted, Divider6, Less) == CountIf(all, Divider6, Less)
    requires CountIf(sorted, Divider6, Equal) == CountIf(all, Divider6, Equal)
    requires product ==
      RangeProduct(CountIf(sorted, Divider2, Less), CountIf(sorted, Divider2, Less) + CountIf(sorted, Divider2, Equal)) *
      RangeProduct(CountIf(sorted, Divider6, Less), CountIf(sorted, Divider6, Less) + CountIf(sorted, Divider6, Equal))
    ensures product ==
      RangeProduct(CountIf(all, Divider2, Less), CountIf(all, Divider2, Less) + CountIf(all, Divider2, Equal)) *
      RangeProduct(CountIf(all, Divider6, Less), CountIf(all, Divider6, Less) + CountIf(all, Divider6, Equal))
    ensures CountIf(all, Divider2, Equal) == 1 && CountIf(all, Divider6, Equal) == 1 ==>
      product == (CountIf(all, Divider2, Less) + 1) * (CountIf(all, Divider6, Less) + 1)
  {
    var lo2 := CountIf(all, Divider2, Less);
    var lo6 := CountIf(all, Divider6, Less);
    assert RangeProduct(lo2, lo2 + 1) == lo2 + 1;
    assert RangeProduct(lo6, lo6 + 1) == lo6 + 1;
  }

  lemma {:induction false} SortedProduct(sorted: seq<Data>)
    requires Sorted(sorted)
    ensures MarkedProduct(Marks(sorted), |sorted|) ==
      RangeProduct(CountIf(sorted, Divider2, Less), CountIf(sorted, Divider2, Less) + CountIf(sorted, Divider2, Equal)) *
      RangeProduct(CountIf(sorted, Divider6, Less), CountIf(sorted, Divider6, Less) + CountIf(sorted, Divider6, Equal))
  {
    CountsBound(sorted, Divider2);
    CountsBound(sorted, Divider6);
    DividerRanks(sorted);
    BlocksProduct(Marks(sorted), |sorted|,
      CountIf(sorted, Divider2, Less), CountIf(sorted, Divider2, Less) + CountIf(sorted, Divider2, Equal),
      CountIf(sorted, Divider6, Less), CountIf(sorted, Divider6, Less) + CountIf(sorted, Divider6, Equal));
  }

  /** Marks that form two disjoint blocks multiply to the product of the two blocks' positions. */
  lemma {:induction false} BlocksProduct(m: seq<bool>, n: nat, lo2: nat, hi2: nat, lo6: nat, hi6: nat)
    requires |m| == n && lo2 <= hi2 <= n && lo6 <= hi6 <= n
    requires forall i | 0 <= i < n :: m[i] <==> lo2 <= i < hi2 || lo6 <= i < hi6
    requires lo2 == hi2 || hi2 <= lo6
    ensures MarkedProduct(m, n) == RangeProduct(lo2, hi2) * RangeProduct(lo6, hi6)
  {
    ProductOfUnion(m, RangeMarks(n, lo2, hi2), RangeMarks(n, lo6, hi6), n);
    ProductOfRange(n, lo2, hi2, n);
    ProductOfRange(n, lo6, hi6, n);
    assert Clip(n, lo2, hi2) == hi2 && Clip(n, lo6, hi6) == hi6;
  }
}
