/**
 * Helpers shared by the fifteen solvers: failure wrappers, the three-way
 * ordering, decimal parsing with the semantics of Rust's `from_str_radix`
 * (radix 10), decimal rendering, and string splitting/joining/replacing
 * with the semantics of Rust's `str::split`, `join` and `replace`.
 */
module Common {

  datatype Option<T> = None | Some(value: T)

  /** The result of a computation that may abort the program (a Rust panic). */
  datatype Outcome<T> = Ok(value: T) | Panic(reason: string) {
    predicate IsFailure() {
      Panic?
    }

    function PropagateFailure<U>(): Outcome<U>
      requires Panic?
    {
      Panic(reason)
    }

    function Extract(): T
      requires Ok?
    {
      value
    }
  }

  /** Rust's `std::cmp::Ordering`. */
  datatype Ordering = Less | Equal | Greater {
    function Reverse(): Ordering {
      match this
      case Less => Greater
      case Equal => Equal
      case Greater => Less
    }
  }

  const I32_MIN: int := -0x8000_0000
  const I32_MAX: int := 0x7fff_ffff
  const U32_MAX: nat := 0xffff_ffff
  const USIZE_MAX: nat := 0xffff_ffff_ffff_ffff

  // ---------------------------------------------------------------------------
  // Decimal digits
  // ---------------------------------------------------------------------------

  predicate IsDigit(c: char) {
    '0' <= c <= '9'
  }

  predicate AllDigits(s: string) {
    forall i | 0 <= i < |s| :: IsDigit(s[i])
  }

  function DigitValue(c: char): (d: nat)
    requires IsDigit(c)
    ensures d < 10
  {
    (c as int - '0' as int) as nat
  }

  function DigitChar(d: nat): (c: char)
    requires d < 10
    ensures IsDigit(c) && DigitValue(c) == d
  {
    ('0' as int + d) as char
  }

  /** The value of a string of decimal digits, most significant first. */
  function DigitsValue(s: string): nat
    requires AllDigits(s)
  {
    if s == [] then 0 else DigitsValue(s[..|s| - 1]) * 10 + DigitValue(s[|s| - 1])
  }

  /**
   * `uN::from_str_radix(s, 10)`: an optional leading '+', then one or more
   * digits, whose value must not exceed the type's maximum.
   */
  function ParseUnsigned(s: string, max: nat): (r: Option<nat>)
    ensures r.Some? ==> r.value <= max
    ensures r.Some? ==> |s| > 0
  {
    var digits := if |s| > 0 && s[0] == '+' then s[1..] else s;
    if |digits| > 0 && AllDigits(digits) && DigitsValue(digits) <= max
    then Some(DigitsValue(digits))
    else None
  }

  /**
   * `iN::from_str_radix(s, 10)`: an optional leading '+' or '-', then one or
   * more digits, whose value must lie in [min, max].
   */
  function ParseSigned(s: string, min: int, max: int): (r: Option<int>)
    ensures r.Some? ==> min <= r.value <= max
    ensures r.Some? ==> |s| > 0
  {
    var negative := |s| > 0 && s[0] == '-';
    var digits := if |s| > 0 && (s[0] == '+' || s[0] == '-') then s[1..] else s;
    if |digits| > 0 && AllDigits(digits) then
      var v := if negative then -(DigitsValue(digits) as int) else DigitsValue(digits) as int;
      if min <= v <= max then Some(v) else None
    else None
  }

  /** Decimal rendering of a natural number, as Rust's `to_string`. */
  function NatToString(n: nat): (s: string)
    ensures |s| > 0 && AllDigits(s)
    decreases n
  {
    if n < 10 then [DigitChar(n)] else NatToString(n / 10) + [DigitChar(n % 10)]
  }

  /** Decimal rendering of an integer, with a '-' sign when negative. */
  function IntToString(n: int): (s: string)
    ensures |s| > 0
  {
    if n < 0 then "-" + NatToString(-n) else NatToString(n)
  }

  lemma {:induction false} DigitsValueOfNatToString(n: nat)
    ensures DigitsValue(NatToString(n)) == n
    decreases n
  {
    if n >= 10 {
      var s := NatToString(n);
      DigitsValueOfNatToString(n / 10);
      assert s[..|s| - 1] == NatToString(n / 10);
    }
  }

  /** Rendering then parsing an unsigned value gives the value back. */
  lemma {:induction false} ParseUnsignedOfNatToString(n: nat, max: nat)
    requires n <= max
    ensures ParseUnsigned(NatToString(n), max) == Some(n)
  {
    DigitsValueOfNatToString(n);
  }

  /** Rendering then parsing a signed value gives the value back. */
  lemma {:induction false} ParseSignedOfIntToString(n: int, min: int, max: int)
    requires min <= n <= max
    ensures ParseSigned(IntToString(n), min, max) == Some(n)
  {
    if n < 0 {
      var s := IntToString(n);
      DigitsValueOfNatToString(-n);
      assert s[0] == '-' && s[1..] == NatToString(-n);
    } else {
      DigitsValueOfNatToString(n);
      assert NatToString(n)[0] != '-' && NatToString(n)[0] != '+';
    }
  }

  // ---------------------------------------------------------------------------
  // Splitting, joining, replacing
  // ---------------------------------------------------------------------------

  predicate OccursAt(s: string, pat: string, i: nat) {
    i + |pat| <= |s| && s[i..i + |pat|] == pat
  }

  /** The first index at or after `from` where `pat` occurs in `s`. */
  function FindFrom(s: string, pat: string, from: nat): (r: Option<nat>)
    requires |pat| > 0
    ensures r.Some? ==> from <= r.value && r.value + |pat| <= |s|
    decreases |s| - from
  {
    if from + |pat| > |s| then None
    else if s[from..from + |pat|] == pat then Some(from)
    else FindFrom(s, pat, from + 1)
  }

  /** `FindFrom` finds the first occurrence at or after `from`, and `None` means there is none. */
  lemma {:induction false} FindFromIsFirst(s: string, pat: string, from: nat)
    requires |pat| > 0
    ensures FindFrom(s, pat, from).Some? ==> OccursAt(s, pat, FindFrom(s, pat, from).value)
    ensures FindFrom(s, pat, from).Some? ==> forall j | from <= j < FindFrom(s, pat, from).value :: !OccursAt(s, pat, j)
    ensures FindFrom(s, pat, from).None? ==> forall j | from <= j :: !OccursAt(s, pat, j)
    decreases |s| - from
  {
    if from + |pat| <= |s| && s[from..from + |pat|] != pat {
      FindFromIsFirst(s, pat, from + 1);
    }
  }

  /** Rust's `s.split(pat)` for a non-empty pattern: the pieces between the non-overlapping matches, left to right. */
  function Split(s: string, pat: string): (parts: seq<string>)
    requires |pat| > 0
    ensures |parts| > 0
    decreases |s|
  {
    match FindFrom(s, pat, 0)
    case None => [s]
    case Some(i) => [s[..i]] + Split(s[i + |pat|..], pat)
  }

  /** Rust's `parts.join(sep)`. */
  function Join(parts: seq<string>, sep: string): string
  {
    if |parts| == 0 then ""
    else if |parts| == 1 then parts[0]
    else parts[0] + sep + Join(parts[1..], sep)
  }

  /** Rust's `s.replace(pat, rep)` for a non-empty pattern. */
  function ReplaceAll(s: string, pat: string, rep: string): string
    requires |pat| > 0
  {
    Join(Split(s, pat), rep)
  }

  /** The `n` consecutive characters starting at `from`. */
  function Letters(from: char, n: nat): (s: string)
    requires from as int + n < 0xD800
    ensures |s| == n
    decreases n
  {
    if n == 0 then [] else [from] + Letters((from as int + 1) as char, n - 1)
  }

  lemma {:induction false} LettersAt(from: char, n: nat, k: nat)
    requires from as int + n < 0xD800 && k < n
    ensures Letters(from, n)[k] as int == from as int + k
    decreases n
  {
    if k > 0 {
      LettersAt((from as int + 1) as char, n - 1, k - 1);
    }
  }

  /** Rust's `s.starts_with(pat)`. */
  predicate StartsWith(s: string, pat: string) {
    |pat| <= |s| && s[..|pat|] == pat
  }

  /** The first position of `c` in `s`, as `str::find` or `position` on a character. */
  function IndexOf(s: string, c: char): (r: Option<nat>)
    ensures r.Some? ==> r.value < |s| && s[r.value] == c && forall j | 0 <= j < r.value :: s[j] != c
    ensures r.None? ==> forall j | 0 <= j < |s| :: s[j] != c
    decreases |s|
  {
    if |s| == 0 then None
    else if s[0] == c then Some(0)
    else match IndexOf(s[1..], c)
      case None => None
      case Some(k) => Some(k + 1)
  }

  /** Rust's `s.contains(c)` for a character. */
  predicate ContainsChar(s: string, c: char) {
    exists i | 0 <= i < |s| :: s[i] == c
  }

  /** Splitting a string that does not contain the pattern's first character gives the string itself. */
  lemma {:induction false} SplitWithoutPattern(s: string, pat: string)
    requires |pat| > 0
    requires forall i | 0 <= i < |s| :: s[i] != pat[0]
    ensures Split(s, pat) == [s]
  {
    forall j | 0 <= j ensures !OccursAt(s, pat, j) {
      if j < |s| {
        assert s[j] != pat[0];
      }
    }
    FindFromIsFirst(s, pat, 0);
  }

  /**
   * Splitting a join gives the parts back, provided no part contains the
   * separator's first character (so no match can start inside a part).
   */
  lemma {:induction false} SplitJoin(parts: seq<string>, sep: string)
    requires |parts| > 0 && |sep| > 0
    requires forall k, i | 0 <= k < |parts| && 0 <= i < |parts[k]| :: parts[k][i] != sep[0]
    ensures Split(Join(parts, sep), sep) == parts
  {
    if |parts| == 1 {
      SplitWithoutPattern(parts[0], sep);
    } else {
      var s := Join(parts, sep);
      var p := parts[0];
      assert s == p + sep + Join(parts[1..], sep);
      assert OccursAt(s, sep, |p|) by {
        assert s[|p|..|p| + |sep|] == sep;
      }
      forall j | 0 <= j < |p| ensures !OccursAt(s, sep, j) {
        assert s[j] == p[j];
      }
      FindFromIsFirst(s, sep, 0);
      var r := FindFrom(s, sep, 0);
      assert r == Some(|p|);
      assert s[..|p|] == p;
      assert s[|p| + |sep|..] == Join(parts[1..], sep);
      SplitJoin(parts[1..], sep);
    }
  }

  /** A character found in no part and not in the separator is not in the join. */
  lemma {:induction false} JoinAvoids(parts: seq<string>, sep: string, c: char)
    requires forall i | 0 <= i < |sep| :: sep[i] != c
    requires forall k, i | 0 <= k < |parts| && 0 <= i < |parts[k]| :: parts[k][i] != c
    ensures forall i | 0 <= i < |Join(parts, sep)| :: Join(parts, sep)[i] != c
    decreases |parts|
  {
    if |parts| > 1 {
      JoinAvoids(parts[1..], sep, c);
      var rest := Join(parts[1..], sep);
      assert Join(parts, sep) == parts[0] + sep + rest;
      forall i | 0 <= i < |Join(parts, sep)| ensures Join(parts, sep)[i] != c {
        if i < |parts[0]| {
          assert Join(parts, sep)[i] == parts[0][i];
        } else if i < |parts[0]| + |sep| {
          assert Join(parts, sep)[i] == sep[i - |parts[0]|];
        } else {
          assert Join(parts, sep)[i] == rest[i - |parts[0]| - |sep|];
        }
      }
    }
  }

  /** A string without one of the pattern's characters does not split. */
  lemma {:induction false} SplitWithoutChar(s: string, pat: string, k: nat)
    requires k < |pat| && forall i | 0 <= i < |s| :: s[i] != pat[k]
    ensures Split(s, pat) == [s]
  {
    forall j | 0 <= j ensures !OccursAt(s, pat, j) {
      if j + |pat| <= |s| {
        assert s[j..j + |pat|][k] == s[j + k];
      }
    }
    FindFromIsFirst(s, pat, 0);
  }

  /** Replacing a pattern that cannot occur leaves the string as it was. */
  lemma {:induction false} ReplaceAbsent(s: string, pat: string, rep: string, k: nat)
    requires k < |pat| && forall i | 0 <= i < |s| :: s[i] != pat[k]
    ensures ReplaceAll(s, pat, rep) == s
  {
    SplitWithoutChar(s, pat, k);
  }

  /** A string of two pieces around one separator splits into the two pieces, when some separator character occurs nowhere else. */
  lemma {:induction false} SplitOnce(a: string, pat: string, b: string, k: nat)
    requires k < |pat|
    requires forall i | 0 <= i < |a| :: a[i] != pat[k]
    requires forall i | 0 <= i < |b| :: b[i] != pat[k]
    requires forall i | 0 <= i < |pat| && i != k :: pat[i] != pat[k]
    ensures Split(a + pat + b, pat) == [a, b]
  {
    var s := a + pat + b;
    FindFromIsFirst(s, pat, 0);
    assert OccursAt(s, pat, |a|) by {
      assert s[|a|..|a| + |pat|] == pat;
    }
    var j := FindFrom(s, pat, 0).value;
    assert s[j..j + |pat|][k] == s[j + k];
    assert s[..j] == a;
    assert s[j + |pat|..] == b;
    SplitWithoutChar(b, pat, k);
  }

  /** Removing a leading pattern: `(pat + rest).replace(pat, "")` is `rest` when `rest` lacks one of the pattern's characters. */
  lemma {:induction false} ReplacePrefix(pat: string, rest: string, k: nat)
    requires k < |pat| && forall i | 0 <= i < |rest| :: rest[i] != pat[k]
    ensures ReplaceAll(pat + rest, pat, "") == rest
  {
    var s := pat + rest;
    assert s[0..|pat|] == pat;
    assert s[|pat|..] == rest;
    SplitWithoutChar(rest, pat, k);
    assert Split(s, pat) == [""] + [rest];
    assert Join(["", rest], "") == "" + "" + rest;
  }

  // ---------------------------------------------------------------------------
  // Arithmetic
  // ---------------------------------------------------------------------------

  /** Multiplying by a natural number keeps the order. */
  lemma {:induction false} MulMono(a: int, b: int, c: nat)
    requires a <= b
    ensures a * c <= b * c
  {
    assert b * c == a * c + (b - a) * c;
  }

  /** Quotient and remainder are the only pair with `n == q * d + r` and `0 <= r < d`. */
  lemma {:induction false} DivModUnique(n: int, d: int, q: int, r: int)
    requires d > 0 && 0 <= r < d && n == q * d + r
    ensures n / d == q && n % d == r
  {
    var q', r' := n / d, n % d;
    assert n == q' * d + r';
    if q' < q {
      MulMono(q' + 1, q, d);
      assert false;
    } else if q < q' {
      MulMono(q + 1, q', d);
      assert false;
    }
  }
  // ---------------------------------------------------------------------------
  // Sums
  // ---------------------------------------------------------------------------

  function Sum(xs: seq<int>): int {
    if xs == [] then 0 else Sum(xs[..|xs| - 1]) + xs[|xs| - 1]
  }

  // ---------------------------------------------------------------------------
  // Sets
  // ---------------------------------------------------------------------------

  /** The elements of a sequence, as a set (what collecting into a `HashSet` keeps). */
  function Elems<T>(s: seq<T>): set<T> {
    if |s| == 0 then {} else Elems(s[..|s| - 1]) + {s[|s| - 1]}
  }

  lemma {:induction false} InElems<T>(s: seq<T>, c: T)
    ensures c in Elems(s) <==> exists i | 0 <= i < |s| :: s[i] == c
    decreases |s|
  {
    if |s| > 0 {
      InElems(s[..|s| - 1], c);
      var init := s[..|s| - 1];
      if exists i | 0 <= i < |init| :: init[i] == c {
        var i :| 0 <= i < |init| && init[i] == c;
        assert s[i] == c;
      }
      if exists i | 0 <= i < |s| :: s[i] == c {
        var i :| 0 <= i < |s| && s[i] == c;
        if i < |init| {
          assert init[i] == c;
        }
      }
    }
  }
}
