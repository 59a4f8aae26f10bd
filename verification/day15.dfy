/**
 * Day 15: sensors and beacons. Every input line places a sensor and the
 * beacon closest to it; a sensor rules out every position whose Manhattan
 * distance to it is at most the distance to its beacon. Part 1 counts the
 * ruled-out positions of one row; part 2 scans columns 0 to maxDim row by
 * row from row 0 down, jumping over covered stretches, for a position no
 * sensor covers. Nothing bounds the rows it reaches.
 *
 * Locations compare by magnitude |x| + |y| (the source's hand-written
 * `PartialEq`/`PartialOrd`), so `contains` on the list of beacons matches
 * any location with the magnitude of a known beacon.
 */
module Day15 {
  import opened Common

  const UNWRAP_ERR := "called `Result::unwrap()` on an `Err` value"
  const UNWRAP_NONE := "called `Option::unwrap()` on a `None` value"
  const INDEX_OUT_OF_BOUNDS := "index out of bounds"

  // ---------------------------------------------------------------------------
  // Locations and sensors
  // ---------------------------------------------------------------------------

  datatype Location = Location(x: int, y: int)

  function Abs(n: int): nat {
    if n < 0 then -n else n
  }

  /** `Location::mag`: the Manhattan length of a location seen as a vector. */
  function Mag(l: Location): nat {
    Abs(l.x) + Abs(l.y)
  }

  /** The Manhattan distance between two points. */
  function Manhattan(a: Location, b: Location): nat {
    Abs(a.x - b.x) + Abs(a.y - b.y)
  }

  /** `==` on locations: equal magnitudes, whatever the coordinates. */
  predicate SameMag(a: Location, b: Location) {
    Mag(a) == Mag(b)
  }

  /** `Vec::contains` under that equality. */
  predicate Contains(locs: seq<Location>, p: Location)
    decreases |locs|
  {
    |locs| > 0 && (SameMag(locs[0], p) || Contains(locs[1..], p))
  }

  /** A location is "contained" exactly when some element has its magnitude. */
  lemma {:induction false} ContainsByMagnitude(locs: seq<Location>, p: Location)
    ensures Contains(locs, p) <==> exists i | 0 <= i < |locs| :: Mag(locs[i]) == Mag(p)
    decreases |locs|
  {
    if |locs| > 0 {
      ContainsByMagnitude(locs[1..], p);
      if !SameMag(locs[0], p) && exists i | 0 <= i < |locs| :: Mag(locs[i]) == Mag(p) {
        var i :| 0 <= i < |locs| && Mag(locs[i]) == Mag(p);
        assert Mag(locs[1..][i - 1]) == Mag(p);
      }
    }
  }

  /** A sensor: its location, and the offset from its closest beacon to it. */
  datatype Beacon = Beacon(location: Location, distance: Location)

  /** `Beacon::new`. */
  function NewBeacon(location: Location, closest: Location): (b: Beacon)
    ensures b.location == location
    ensures Mag(b.distance) == Manhattan(location, closest)
  {
    Beacon(location, Location(location.x - closest.x, location.y - closest.y))
  }

  /** The sensor's reach: the distance to its closest beacon. */
  function Radius(b: Beacon): nat {
    Mag(b.distance)
  }

  /** `Beacon::get_distance`: the offset from `other` to the sensor. */
  function GetDistance(b: Beacon, other: Location): Location {
    Location(b.location.x - other.x, b.location.y - other.y)
  }

  /** `get_distance(p) <= distance`, compared by magnitude. */
  predicate Covers(b: Beacon, p: Location) {
    Mag(GetDistance(b, p)) <= Mag(b.distance)
  }

  /** A sensor covers exactly the points no farther from it than its closest beacon. */
  lemma {:induction false} CoversWithinReach(sensor: Location, closest: Location, p: Location)
    ensures Covers(NewBeacon(sensor, closest), p) <==> Manhattan(sensor, p) <= Manhattan(sensor, closest)
  {
    var b := NewBeacon(sensor, closest);
    assert Mag(GetDistance(b, p)) == Manhattan(sensor, p);
  }

  predicate AnyCovers(bs: seq<Beacon>, p: Location) {
    exists b :: b in bs && Covers(b, p)
  }

  // ---------------------------------------------------------------------------
  // Reading the report
  // ---------------------------------------------------------------------------

  /** The characters `replace` keeps: ':', ',', digits and '-'. */
  predicate Kept(c: char) {
    c == ':' || c == ',' || IsDigit(c) || c == '-'
  }

  function Filter(s: string): (r: string)
    ensures |r| <= |s|
    ensures forall i | 0 <= i < |r| :: Kept(r[i])
    decreases |s|
  {
    if |s| == 0 then "" else (if Kept(s[0]) then [s[0]] else "") + Filter(s[1..])
  }

  lemma {:induction false} FilterAppend(a: string, b: string)
    ensures Filter(a + b) == Filter(a) + Filter(b)
    decreases |a|
  {
    if |a| > 0 {
      assert (a + b)[1..] == a[1..] + b;
      FilterAppend(a[1..], b);
    } else {
      assert a + b == b;
    }
  }

  lemma {:induction false} FilterKeeps(s: string)
    requires forall i | 0 <= i < |s| :: Kept(s[i])
    ensures Filter(s) == s
    decreases |s|
  {
    if |s| > 0 {
      FilterKeeps(s[1..]);
    }
  }

  lemma {:induction false} FilterDrops(s: string)
    requires forall i | 0 <= i < |s| :: !Kept(s[i])
    ensures Filter(s) == ""
    decreases |s|
  {
    if |s| > 0 {
      FilterDrops(s[1..]);
    }
  }

  /** `i32::from_str_radix(s, 10).unwrap()`. */
  function ParseCoord(s: string): (r: Outcome<int>)
    ensures r.Ok? ==> I32_MIN <= r.value <= I32_MAX
    ensures r.Panic? ==> r.reason == UNWRAP_ERR
  {
    match ParseSigned(s, I32_MIN, I32_MAX)
    case None => Panic(UNWRAP_ERR)
    case Some(v) => Ok(v)
  }

  /** "x,y" split on ',': the first piece is parsed before the second is indexed. */
  function ParsePair(s: string): (r: Outcome<Location>)
    ensures r.Ok? <==> |Split(s, ",")| >= 2 && ParseCoord(Split(s, ",")[0]).Ok? && ParseCoord(Split(s, ",")[1]).Ok?
  {
    var strs := Split(s, ",");
    var x :- ParseCoord(strs[0]);
    if |strs| < 2 then Panic(INDEX_OUT_OF_BOUNDS)
    else
      var y :- ParseCoord(strs[1]);
      Ok(Location(x, y))
  }

  datatype Reading = Reading(sensor: Location, closest: Location)

  /** One report line: filtered, split on ':', each half parsed as a pair. */
  function ParseLine(line: string): Outcome<Reading> {
    var parts := Split(Filter(line), ":");
    var sensor :- ParsePair(parts[0]);
    if |parts| < 2 then Panic(UNWRAP_NONE)
    else
      var closest :- ParsePair(parts[1]);
      Ok(Reading(sensor, closest))
  }

  predicate InI32(l: Location) {
    I32_MIN <= l.x <= I32_MAX && I32_MIN <= l.y <= I32_MAX
  }

  lemma {:induction false} IntToStringKept(n: int)
    ensures forall i | 0 <= i < |IntToString(n)| :: Kept(IntToString(n)[i]) && IntToString(n)[i] != ':' && IntToString(n)[i] != ','
  {
    var s := IntToString(n);
    if n < 0 {
      assert s == "-" + NatToString(-n);
      forall i | 0 <= i < |s| ensures Kept(s[i]) && s[i] != ':' && s[i] != ',' {
        if i > 0 {
          assert s[i] == NatToString(-n)[i - 1];
        }
      }
    }
  }

  /** The "x,y" text of a location and its split on ','. */
  lemma {:induction false} PairText(l: Location)
    requires InI32(l)
    ensures ParsePair(IntToString(l.x) + "," + IntToString(l.y)) == Ok(l)
    ensures forall i | 0 <= i < |IntToString(l.x) + "," + IntToString(l.y)| :: (IntToString(l.x) + "," + IntToString(l.y))[i] != ':'
  {
    var a, b := IntToString(l.x), IntToString(l.y);
    IntToStringKept(l.x);
    IntToStringKept(l.y);
    SplitOnce(a, ",", b, 0);
    ParseSignedOfIntToString(l.x, I32_MIN, I32_MAX);
    ParseSignedOfIntToString(l.y, I32_MIN, I32_MAX);
    var s := a + "," + b;
    forall i | 0 <= i < |s| ensures s[i] != ':' {
      if i < |a| {
        assert s[i] == a[i];
      } else if i > |a| {
        assert s[i] == b[i - |a| - 1];
      }
    }
  }

  lemma {:induction false} Regroup(a: string, b: string, c: string, d: string, e: string)
    ensures a + b + c + d + e == a + b + (c + d + e)
  {
    assert a + b + c + d + e == (a + b) + (c + d + e);
  }

  /** Filtering a reading's line leaves "sx,sy:cx,cy". */
  lemma {:induction false} FilterReadingLine(sx: string, sy: string, cx: string, cy: string, lead: string, sep1: string, sep2: string, sep3: string)
    requires forall i | 0 <= i < |sx| :: Kept(sx[i])
    requires forall i | 0 <= i < |sy| :: Kept(sy[i])
    requires forall i | 0 <= i < |cx| :: Kept(cx[i])
    requires forall i | 0 <= i < |cy| :: Kept(cy[i])
    requires Filter(lead) == "" && Filter(sep1) == "," && Filter(sep2) == ":" && Filter(sep3) == ","
    ensures Filter(lead + sx + sep1 + sy + sep2 + cx + sep3 + cy) == (sx + "," + sy) + ":" + (cx + "," + cy)
  {
    FilterKeeps(sx);
    FilterKeeps(sy);
    FilterKeeps(cx);
    FilterKeeps(cy);
    var first := sx + "," + sy;
    FilterAppend(lead, sx);
    assert Filter(lead + sx) == sx;
    FilterAppend(lead + sx, sep1);
    FilterAppend(lead + sx + sep1, sy);
    assert Filter(lead + sx + sep1 + sy) == first;
    FilterAppend(lead + sx + sep1 + sy, sep2);
    FilterAppend(lead + sx + sep1 + sy + sep2, cx);
    assert Filter(lead + sx + sep1 + sy + sep2 + cx) == first + ":" + cx;
    FilterAppend(lead + sx + sep1 + sy + sep2 + cx, sep3);
    assert Filter(lead + sx + sep1 + sy + sep2 + cx + sep3) == first + ":" + cx + ",";
    FilterAppend(lead + sx + sep1 + sy + sep2 + cx + sep3, cy);
    Regroup(first, ":", cx, ",", cy);
  }

  /**
   * A line carrying the four coordinates in decimal, joined by text that the
   * filter reduces to ",", ":" and "," (as in "Sensor at x=2, y=18: closest
   * beacon is at x=-2, y=15"), parses to that reading.
   */
  lemma {:induction false} ParseReadingLine(rd: Reading, lead: string, sep1: string, sep2: string, sep3: string)
    requires InI32(rd.sensor) && InI32(rd.closest)
    requires Filter(lead) == "" && Filter(sep1) == "," && Filter(sep2) == ":" && Filter(sep3) == ","
    ensures ParseLine(lead + IntToString(rd.sensor.x) + sep1 + IntToString(rd.sensor.y) + sep2
      + IntToString(rd.closest.x) + sep3 + IntToString(rd.closest.y)) == Ok(rd)
  {
    var sx, sy := IntToString(rd.sensor.x), IntToString(rd.sensor.y);
    var cx, cy := IntToString(rd.closest.x), IntToString(rd.closest.y);
    IntToStringKept(rd.sensor.x);
    IntToStringKept(rd.sensor.y);
    IntToStringKept(rd.closest.x);
    IntToStringKept(rd.closest.y);
    FilterReadingLine(sx, sy, cx, cy, lead, sep1, sep2, sep3);
    PairText(rd.sensor);
    PairText(rd.closest);
    SplitOnce(sx + "," + sy, ":", cx + "," + cy, 0);
  }

  /** The scan state: sensors, known beacons and the bounding box of all reaches. */
  datatype Readings = Readings(beacons: seq<Beacon>, closest: seq<Location>, minX: int, minY: int, maxX: int, maxY: int)

  const NoReadings := Readings([], [], I32_MAX, I32_MAX, 0, 0)

  /** The box edge after one sensor: pushed down to `cand` when it lies below. */
  function Lower(edge: int, cand: int): int {
    if cand < edge then cand else edge
  }

  /** The box edge after one sensor: pushed up to `cand` when it lies above. */
  function Raise(edge: int, cand: int): int {
    if cand > edge then cand else edge
  }

  /** One iteration of the reading loop. */
  function Record(rs: Readings, rd: Reading): Readings {
    var b := NewBeacon(rd.sensor, rd.closest);
    var r := Radius(b);
    Readings(rs.beacons + [b], rs.closest + [rd.closest],
      Lower(rs.minX, b.location.x - r), Lower(rs.minY, b.location.y - r),
      Raise(rs.maxX, b.location.x + r), Raise(rs.maxY, b.location.y + r))
  }

  /** Reading lines[k..] into `rs`; the first unparsable line panics. */
  function ReadFrom(lines: seq<string>, k: nat, rs: Readings): Outcome<Readings>
    requires k <= |lines|
    decreases |lines| - k
  {
    if k == |lines| then Ok(rs)
    else
      var rd :- ParseLine(lines[k]);
      ReadFrom(lines, k + 1, Record(rs, rd))
  }

  function Read(lines: seq<string>): Outcome<Readings> {
    ReadFrom(lines, 0, NoReadings)
  }

  /** The first k lines parsed, and their sensors and beacons recorded in order. */
  predicate Recorded(lines: seq<string>, k: nat, rs: Readings) {
    k <= |lines| && |rs.beacons| == k && |rs.closest| == k &&
    forall i | 0 <= i < k ::
      ParseLine(lines[i]).Ok? &&
      rs.beacons[i] == NewBeacon(ParseLine(lines[i]).value.sensor, ParseLine(lines[i]).value.closest) &&
      rs.closest[i] == ParseLine(lines[i]).value.closest
  }

  /** The box holds every sensor's reach; its maxima are at least 0 and its minima at most i32::MAX. */
  predicate Bounded(rs: Readings) {
    rs.minX <= I32_MAX && rs.minY <= I32_MAX && 0 <= rs.maxX && 0 <= rs.maxY &&
    forall i | 0 <= i < |rs.beacons| ::
      rs.minX <= rs.beacons[i].location.x - Radius(rs.beacons[i]) &&
      rs.beacons[i].location.x + Radius(rs.beacons[i]) <= rs.maxX &&
      rs.minY <= rs.beacons[i].location.y - Radius(rs.beacons[i]) &&
      rs.beacons[i].location.y + Radius(rs.beacons[i]) <= rs.maxY
  }

  lemma {:induction false} RecordKeeps(lines: seq<string>, k: nat, rs: Readings)
    requires k < |lines| && Recorded(lines, k, rs) && Bounded(rs) && ParseLine(lines[k]).Ok?
    ensures Recorded(lines, k + 1, Record(rs, ParseLine(lines[k]).value))
    ensures Bounded(Record(rs, ParseLine(lines[k]).value))
  {
    var next := Record(rs, ParseLine(lines[k]).value);
    forall i | 0 <= i < |next.beacons|
      ensures next.minX <= next.beacons[i].location.x - Radius(next.beacons[i])
      ensures next.beacons[i].location.x + Radius(next.beacons[i]) <= next.maxX
      ensures next.minY <= next.beacons[i].location.y - Radius(next.beacons[i])
      ensures next.beacons[i].location.y + Radius(next.beacons[i]) <= next.maxY
    {
      if i < k {
        assert next.beacons[i] == rs.beacons[i];
      }
    }
  }

  /** Reading succeeds exactly when every remaining line parses, and keeps both invariants. */
  lemma {:induction false} ReadFromKeeps(lines: seq<string>, k: nat, rs: Readings)
    requires Recorded(lines, k, rs) && Bounded(rs)
    ensures ReadFrom(lines, k, rs).Ok? <==> forall i | k <= i < |lines| :: ParseLine(lines[i]).Ok?
    ensures ReadFrom(lines, k, rs).Ok? ==> Recorded(lines, |lines|, ReadFrom(lines, k, rs).value) && Bounded(ReadFrom(lines, k, rs).value)
    decreases |lines| - k
  {
    if k < |lines| && ParseLine(lines[k]).Ok? {
      RecordKeeps(lines, k, rs);
      ReadFromKeeps(lines, k + 1, Record(rs, ParseLine(lines[k]).value));
    }
  }

  /**
   * The report reads without a panic exactly when every line parses; then
   * sensor i comes from line i and the box holds every sensor's reach.
   */
  lemma {:induction false} ReadMeaning(lines: seq<string>)
    ensures Read(lines).Ok? <==> forall i | 0 <= i < |lines| :: ParseLine(lines[i]).Ok?
    ensures Read(lines).Ok? ==> Recorded(lines, |lines|, Read(lines).value) && Bounded(Read(lines).value)
  {
    ReadFromKeeps(lines, 0, NoReadings);
  }

  /** The reading loop's four edge updates, done by statements, build `Record`. */
  lemma RecordStep(rs: Readings, rd: Reading, minX: int, minY: int, maxX: int, maxY: int)
    requires var b := NewBeacon(rd.sensor, rd.closest);
      (if b.location.x + Radius(b) > rs.maxX then maxX == b.location.x + Radius(b) else maxX == rs.maxX) &&
      (if b.location.y + Radius(b) > rs.maxY then maxY == b.location.y + Radius(b) else maxY == rs.maxY) &&
      (if b.location.x - Radius(b) < rs.minX then minX == b.location.x - Radius(b) else minX == rs.minX) &&
      (if b.location.y - Radius(b) < rs.minY then minY == b.location.y - Radius(b) else minY == rs.minY)
    ensures Record(rs, rd) == Readings(rs.beacons + [NewBeacon(rd.sensor, rd.closest)], rs.closest + [rd.closest], minX, minY, maxX, maxY)
  {
  }

  /** The reading loop shared by both parts. */
  method ReadSensors(lines: seq<string>) returns (r: Outcome<Readings>)
    ensures r == Read(lines)
  {
    var rs := NoReadings;
    for k := 0 to |lines|
      invariant Read(lines) == ReadFrom(lines, k, rs)
    {
      var parsed := ParseLine(lines[k]);
      if parsed.Panic? {
        return Panic(parsed.reason);
      }
      var reading := parsed.value;
      ghost var next := Record(rs, reading);
      assert ReadFrom(lines, k, rs) == ReadFrom(lines, k + 1, next);
      var beacon := NewBeacon(reading.sensor, reading.closest);
      var reach := Radius(beacon);
      var closest := rs.closest + [reading.closest];
      var minX, minY, maxX, maxY := rs.minX, rs.minY, rs.maxX, rs.maxY;
      if beacon.location.x + reach > maxX {
        maxX := beacon.location.x + reach;
      }
      if beacon.location.y + reach > maxY {
        maxY := beacon.location.y + reach;
      }
      if beacon.location.x - reach < minX {
        minX := beacon.location.x - reach;
      }
      if beacon.location.y - reach < minY {
        minY := beacon.location.y - reach;
      }
      RecordStep(rs, reading, minX, minY, maxX, maxY);
      rs := Readings(rs.beacons + [beacon], closest, minX, minY, maxX, maxY);
    }
    r := Ok(rs);
  }

  // ---------------------------------------------------------------------------
  // Part 1: covered positions of one row
  // ---------------------------------------------------------------------------

  /** Sensors whose reach touches the row: those covering their own column on it. */
  function Relevant(bs: seq<Beacon>, row: int): seq<Beacon> {
    if |bs| == 0 then []
    else
      var b := bs[|bs| - 1];
      Relevant(bs[..|bs| - 1], row) + (if Covers(b, Location(b.location.x, row)) then [b] else [])
  }

  lemma {:induction false} RelevantMembers(bs: seq<Beacon>, row: int, b: Beacon)
    ensures b in Relevant(bs, row) <==> b in bs && Covers(b, Location(b.location.x, row))
    decreases |bs|
  {
    if |bs| > 0 {
      RelevantMembers(bs[..|bs| - 1], row, b);
      assert bs == bs[..|bs| - 1] + [bs[|bs| - 1]];
    }
  }

  /** A sensor covering a point of the row covers its own column on the row. */
  lemma {:induction false} CoversColumn(b: Beacon, p: Location)
    requires Covers(b, p)
    ensures Covers(b, Location(b.location.x, p.y))
  {
  }

  /** Pre-filtering the sensors by row loses no covered point of that row. */
  lemma {:induction false} RelevantSuffices(bs: seq<Beacon>, p: Location)
    ensures AnyCovers(Relevant(bs, p.y), p) <==> AnyCovers(bs, p)
  {
    if AnyCovers(bs, p) {
      var b :| b in bs && Covers(b, p);
      CoversColumn(b, p);
      RelevantMembers(bs, p.y, b);
    }
    if AnyCovers(Relevant(bs, p.y), p) {
      var b :| b in Relevant(bs, p.y) && Covers(b, p);
      RelevantMembers(bs, p.y, b);
    }
  }

  /** A position of the row that counts: not a known beacon (by magnitude) and covered. */
  predicate Counted(closest: seq<Location>, bs: seq<Beacon>, p: Location) {
    !Contains(closest, p) && AnyCovers(bs, p)
  }

  /** The count over x in [x, hi] of the row. */
  function CountFrom(x: int, hi: int, row: int, closest: seq<Location>, bs: seq<Beacon>): nat
    decreases hi + 1 - x
  {
    if x > hi then 0
    else (if Counted(closest, bs, Location(x, row)) then 1 else 0) + CountFrom(x + 1, hi, row, closest, bs)
  }

  function CountedSet(lo: int, hi: int, row: int, closest: seq<Location>, bs: seq<Beacon>): set<int> {
    set x | lo <= x <= hi && Counted(closest, bs, Location(x, row))
  }

  /** The count is the number of counted positions in the range. */
  lemma {:induction false} CountIsCardinality(lo: int, hi: int, row: int, closest: seq<Location>, bs: seq<Beacon>)
    ensures CountFrom(lo, hi, row, closest, bs) == |CountedSet(lo, hi, row, closest, bs)|
    decreases hi + 1 - lo
  {
    if lo > hi {
      assert CountedSet(lo, hi, row, closest, bs) == {};
    } else {
      CountIsCardinality(lo + 1, hi, row, closest, bs);
      var rest := CountedSet(lo + 1, hi, row, closest, bs);
      if Counted(closest, bs, Location(lo, row)) {
        assert CountedSet(lo, hi, row, closest, bs) == rest + {lo};
      } else {
        assert CountedSet(lo, hi, row, closest, bs) == rest;
      }
    }
  }

  /** Counting with the pre-filtered sensors is counting with all of them. */
  lemma {:induction false} CountIgnoresFilter(lo: int, hi: int, row: int, closest: seq<Location>, bs: seq<Beacon>)
    ensures CountFrom(lo, hi, row, closest, Relevant(bs, row)) == CountFrom(lo, hi, row, closest, bs)
    decreases hi + 1 - lo
  {
    if lo <= hi {
      RelevantSuffices(bs, Location(lo, row));
      CountIgnoresFilter(lo + 1, hi, row, closest, bs);
    }
  }

  /** No sensor reaches a column outside the box, so the scanned range misses no covered position. */
  lemma {:induction false} OutsideUncovered(rs: Readings, p: Location)
    requires Bounded(rs)
    requires p.x < rs.minX || p.x > rs.maxX
    ensures !AnyCovers(rs.beacons, p)
  {
  }

  function Part1Answer(lines: seq<string>, row: int): Outcome<nat> {
    var rs :- Read(lines);
    Ok(CountFrom(rs.minX, rs.maxX, row, rs.closest, Relevant(rs.beacons, row)))
  }

  /**
   * Part 1 counts, among the columns of the box, the positions of the row
   * that some sensor covers and that have no known beacon's magnitude; no
   * column outside the box is covered.
   */
  lemma {:induction false} Part1Meaning(lines: seq<string>, row: int)
    requires Read(lines).Ok?
    ensures Part1Answer(lines, row).Ok?
    ensures var rs := Read(lines).value;
      Part1Answer(lines, row).value == |CountedSet(rs.minX, rs.maxX, row, rs.closest, rs.beacons)| &&
      forall x | x < rs.minX || x > rs.maxX :: !Counted(rs.closest, rs.beacons, Location(x, row))
  {
    var rs := Read(lines).value;
    ReadMeaning(lines);
    CountIgnoresFilter(rs.minX, rs.maxX, row, rs.closest, rs.beacons);
    CountIsCardinality(rs.minX, rs.maxX, row, rs.closest, rs.beacons);
    forall x | x < rs.minX || x > rs.maxX ensures !Counted(rs.closest, rs.beacons, Location(x, row)) {
      OutsideUncovered(rs, Location(x, row));
    }
  }

  /** The relevance loop. */
  method RelevantBeacons(bs: seq<Beacon>, row: int) returns (relevant: seq<Beacon>)
    ensures relevant == Relevant(bs, row)
  {
    relevant := [];
    for i := 0 to |bs|
      invariant relevant == Relevant(bs[..i], row)
    {
      assert bs[..i + 1][..i] == bs[..i];
      var other := Location(bs[i].location.x, row);
      if Mag(GetDistance(bs[i], other)) <= Mag(bs[i].distance) {
        relevant := relevant + [bs[i]];
      }
    }
    assert bs[..|bs|] == bs;
  }

  /** The counting loop over x in [lo, hi]; the inner loop stops at the first covering sensor. */
  method CountRow(lo: int, hi: int, row: int, closest: seq<Location>, bs: seq<Beacon>) returns (result: nat)
    ensures result == CountFrom(lo, hi, row, closest, bs)
  {
    result := 0;
    var x := lo;
    while x <= hi
      invariant result + CountFrom(x, hi, row, closest, bs) == CountFrom(lo, hi, row, closest, bs)
      decreases hi + 1 - x
    {
      var current := Location(x, row);
      ghost var before := result;
      if !Contains(closest, current) {
        for j := 0 to |bs|
          invariant result == before
          invariant forall k | 0 <= k < j :: !Covers(bs[k], current)
        {
          if Mag(GetDistance(bs[j], current)) <= Mag(bs[j].distance) {
            assert bs[j] in bs;
            result := result + 1;
            break;
          }
        }
      }
      assert result == before + (if Counted(closest, bs, current) then 1 else 0);
      x := x + 1;
    }
  }

  method Part1(lines: seq<string>, row: int) returns (r: Outcome<nat>)
    ensures r == Part1Answer(lines, row)
  {
    var read := ReadSensors(lines);
    if read.Panic? {
      return Panic(read.reason);
    }
    var rs := read.value;
    var relevant := RelevantBeacons(rs.beacons, row);
    var count := CountRow(rs.minX, rs.maxX, row, rs.closest, relevant);
    r := Ok(count);
  }

  // ---------------------------------------------------------------------------
  // Part 2: scanning columns 0 to maxDim for an uncovered position
  // ---------------------------------------------------------------------------

  /** The first sensor, in report order, covering `p`. */
  function FirstCover(bs: seq<Beacon>, p: Location): (r: Option<Beacon>)
    ensures r.Some? ==> r.value in bs && Covers(r.value, p)
    ensures r.None? <==> !AnyCovers(bs, p)
    decreases |bs|
  {
    if |bs| == 0 then None
    else if Covers(bs[0], p) then Some(bs[0])
    else
      var r := FirstCover(bs[1..], p);
      assert forall b | b in bs[1..] :: b in bs;
      assert forall b | b in bs && b != bs[0] :: b in bs[1..];
      r
  }

  /**
   * Where a covered position sends the scan: past the sensor's reach on the
   * row, or, when that lies beyond maxDim, to column 0 of a later row.
   */
  function Skip(b: Beacon, p: Location, maxDim: int): Location {
    var dist := GetDistance(b, p);
    var move := Mag(b.distance) - Mag(dist);
    if p.x + move > maxDim then
      var xRemaining := Abs(Mag(b.distance) - Abs(b.location.y - dist.y));
      var minX := p.x - xRemaining;
      var maxX := p.x + xRemaining;
      if minX <= 0 && maxX >= 0 then Location(0, p.y + (if Abs(minX) <= maxX then Abs(minX) else maxX))
      else Location(0, p.y + 1)
    else Location(p.x + move + 1, p.y)
  }

  /** Past the right edge the scan moves to the next row. */
  function Wrap(p: Location, maxDim: int): Location {
    if p.x > maxDim then Location(0, p.y + 1) else p
  }

  datatype Probe = Found(at: Location) | Moved(to: Location)

  /** One iteration of the scan loop. */
  function Probe2(bs: seq<Beacon>, closest: seq<Location>, maxDim: int, p: Location): Probe {
    if !Contains(closest, p) then
      match FirstCover(bs, p)
      case None => Found(p)
      case Some(b) => Moved(Wrap(Skip(b, p, maxDim), maxDim))
    else Moved(Wrap(Location(p.x + 1, p.y), maxDim))
  }

  /** The scan from `p` for at most `fuel` iterations; None when the fuel runs out. */
  function Scan(bs: seq<Beacon>, closest: seq<Location>, maxDim: int, p: Location, fuel: nat): Option<Location>
    decreases fuel
  {
    if fuel == 0 then None
    else
      match Probe2(bs, closest, maxDim, p)
      case Found(q) => Some(q)
      case Moved(q) => Scan(bs, closest, maxDim, q, fuel - 1)
  }

  /** The tuning frequency of a position. */
  function Frequency(p: Location): int {
    p.x * 4000000 + p.y
  }

  function Part2Answer(lines: seq<string>, maxDim: int, fuel: nat): Outcome<Option<int>> {
    var rs :- Read(lines);
    match Scan(rs.beacons, rs.closest, maxDim, Location(0, 0), fuel)
    case None => Ok(None)
    case Some(p) => Ok(Some(Frequency(p)))
  }

  /** The scan stops only at a position no sensor covers and with no known beacon's magnitude. */
  lemma {:induction false} FoundUncovered(bs: seq<Beacon>, closest: seq<Location>, maxDim: int, p: Location, fuel: nat)
    requires Scan(bs, closest, maxDim, p, fuel).Some?
    ensures var q := Scan(bs, closest, maxDim, p, fuel).value;
      !Contains(closest, q) && forall b | b in bs :: !Covers(b, q)
    decreases fuel
  {
    match Probe2(bs, closest, maxDim, p)
    case Found(q) =>
    case Moved(q) =>
      FoundUncovered(bs, closest, maxDim, q, fuel - 1);
  }

  /** `p` lies in columns 0 to maxDim, on row 0 or a later one; no row bound is kept. */
  predicate InColumns(p: Location, maxDim: int) {
    0 <= p.x <= maxDim && 0 <= p.y
  }

  /** A scan step from columns 0 to maxDim, on a row y >= 0, stays in those columns, on the same row or a later one. */
  lemma {:induction false} ProbeInColumns(bs: seq<Beacon>, closest: seq<Location>, maxDim: int, p: Location)
    requires InColumns(p, maxDim)
    ensures Probe2(bs, closest, maxDim, p).Moved? ==>
      InColumns(Probe2(bs, closest, maxDim, p).to, maxDim) && p.y <= Probe2(bs, closest, maxDim, p).to.y
  {
  }

  /** Started in columns 0 to maxDim on a row y >= 0, the scan stops in those columns on a row y >= 0. */
  lemma {:induction false} FoundInColumns(bs: seq<Beacon>, closest: seq<Location>, maxDim: int, p: Location, fuel: nat)
    requires InColumns(p, maxDim)
    requires Scan(bs, closest, maxDim, p, fuel).Some?
    ensures InColumns(Scan(bs, closest, maxDim, p, fuel).value, maxDim)
    decreases fuel
  {
    ProbeInColumns(bs, closest, maxDim, p);
    match Probe2(bs, closest, maxDim, p)
    case Found(q) =>
    case Moved(q) =>
      FoundInColumns(bs, closest, maxDim, q, fuel - 1);
  }

  /**
   * A frequency reported by part 2 belongs to a position of columns 0 to
   * maxDim, on a row y >= 0, that no sensor covers and that has no known beacon's magnitude.
   */
  lemma {:induction false} Part2Meaning(lines: seq<string>, maxDim: int, fuel: nat)
    requires 0 <= maxDim
    requires Part2Answer(lines, maxDim, fuel).Ok? && Part2Answer(lines, maxDim, fuel).value.Some?
    ensures exists p: Location :: (InColumns(p, maxDim) && Frequency(p) == Part2Answer(lines, maxDim, fuel).value.value &&
      !Contains(Read(lines).value.closest, p) && !AnyCovers(Read(lines).value.beacons, p))
  {
    var rs := Read(lines).value;
    var p := Scan(rs.beacons, rs.closest, maxDim, Location(0, 0), fuel).value;
    FoundUncovered(rs.beacons, rs.closest, maxDim, Location(0, 0), fuel);
    FoundInColumns(rs.beacons, rs.closest, maxDim, Location(0, 0), fuel);
    assert InColumns(p, maxDim) && Frequency(p) == Part2Answer(lines, maxDim, fuel).value.value;
  }

  /**
   * When the sensor's reach on the row ends at or before column maxDim, the scan jumps
   * just past it, and every position jumped over is covered by that sensor.
   */
  lemma {:induction false} JumpOverCovered(b: Beacon, p: Location, maxDim: int)
    requires Covers(b, p)
    requires p.x + (Radius(b) - Mag(GetDistance(b, p))) <= maxDim
    ensures Skip(b, p, maxDim) == Location(p.x + Radius(b) - Mag(GetDistance(b, p)) + 1, p.y)
    ensures forall x | p.x <= x < Skip(b, p, maxDim).x :: Covers(b, Location(x, p.y))
  {
    forall x | p.x <= x < Skip(b, p, maxDim).x ensures Covers(b, Location(x, p.y)) {
      assert Abs(b.location.x - x) <= Abs(b.location.x - p.x) + (x - p.x);
    }
  }

  /**
   * The row skip can leave the scan where it was, so the scan never ends:
   * at column 0 of a row y, covered first by a sensor whose reach equals |y|
   * and stretches past maxDim, the skip adds min(0, 0) = 0 rows.
   */
  lemma {:induction false} StallingSkip(bs: seq<Beacon>, closest: seq<Location>, maxDim: int, p: Location, fuel: nat)
    requires 0 <= maxDim && p.x == 0 && !Contains(closest, p)
    requires FirstCover(bs, p).Some?
    requires Radius(FirstCover(bs, p).value) == Abs(p.y)
    requires Radius(FirstCover(bs, p).value) - Mag(GetDistance(FirstCover(bs, p).value, p)) > maxDim
    ensures Probe2(bs, closest, maxDim, p) == Moved(p)
    ensures Scan(bs, closest, maxDim, p, fuel) == None
    decreases fuel
  {
    var b := FirstCover(bs, p).value;
    assert Skip(b, p, maxDim) == p;
    if fuel > 0 {
      StallingSkip(bs, closest, maxDim, p, fuel - 1);
    }
  }

  /** One iteration of the scan: it stops where the probe finds a position, or goes on from where the probe moves. */
  lemma ScanOnce(bs: seq<Beacon>, closest: seq<Location>, maxDim: int, p: Location, fuel: nat)
    requires fuel > 0
    ensures Probe2(bs, closest, maxDim, p).Found? ==> Scan(bs, closest, maxDim, p, fuel) == Some(Probe2(bs, closest, maxDim, p).at)
    ensures Probe2(bs, closest, maxDim, p).Moved? ==> Scan(bs, closest, maxDim, p, fuel) == Scan(bs, closest, maxDim, Probe2(bs, closest, maxDim, p).to, fuel - 1)
  {
  }

  /** With a single reading, `contains` asks about its beacon and the first (and any) cover is its sensor's. */
  lemma OneReading(s: Beacon, b: Location, p: Location)
    ensures Contains([b], p) <==> SameMag(b, p)
    ensures FirstCover([s], p) == if Covers(s, p) then Some(s) else None
    ensures AnyCovers([s], p) <==> Covers(s, p)
  {
    assert [b][1..] == [];
    assert [s][1..] == [];
  }

  /**
   * A probe with a single reading: a position with the beacon's magnitude
   * steps one column right, one the sensor covers skips, any other is found.
   */
  lemma OneReadingProbe(s: Beacon, b: Location, maxDim: int, p: Location)
    ensures Probe2([s], [b], maxDim, p) ==
      if SameMag(b, p) then Moved(Wrap(Location(p.x + 1, p.y), maxDim))
      else if Covers(s, p) then Moved(Wrap(Skip(s, p, maxDim), maxDim))
      else Found(p)
  {
    OneReading(s, b, p);
  }

  /**
   * The scan can report a position below row maxDim: with the one reading
   * "sensor at (1, 0), closest beacon at (0, 0)" and maxDim 0, the start
   * p = (0, 0) has the beacon's magnitude, the scan wraps to row 1, and
   * q = (0, 1), out of the sensor's reach, is reported.
   */
  lemma ReportBelowLastRow(s: Beacon, b: Location, maxDim: int, p: Location, q: Location)
    requires b == Location(0, 0) && s == NewBeacon(Location(1, 0), b) && maxDim == 0
    requires p == Location(0, 0) && q == Location(0, 1)
    ensures Scan([s], [b], maxDim, p, 2) == Some(q)
    ensures maxDim < q.y
  {
    OneReadingProbe(s, b, maxDim, p);
    OneReadingProbe(s, b, maxDim, q);
    ScanOnce([s], [b], maxDim, q, 1);
    ScanOnce([s], [b], maxDim, p, 2);
  }

  /**
   * The row skip measures the remaining reach with |y| where the sensor's
   * row offset |sy - y| is meant, so it can jump over uncovered positions of
   * columns 0 to maxDim on rows up to maxDim: with the one reading "sensor at
   * (0, -50), closest beacon at (0, 11)" and maxDim 10, the scan goes from
   * p = (0, 0) straight to q = (0, 61) and reports it, while u = (10, 2) is
   * uncovered and has no known beacon's magnitude.
   */
  lemma SkipJumpsOverUncovered(s: Beacon, b: Location, maxDim: int, p: Location, q: Location, u: Location)
    requires b == Location(0, 11) && s == NewBeacon(Location(0, -50), b) && maxDim == 10
    requires p == Location(0, 0) && q == Location(0, 61) && u == Location(10, 2)
    ensures Scan([s], [b], maxDim, p, 2) == Some(q)
    ensures InColumns(u, maxDim) && u.y <= maxDim
    ensures !Contains([b], u) && !AnyCovers([s], u)
  {
    OneReadingProbe(s, b, maxDim, p);
    assert Skip(s, p, maxDim) == q;
    OneReadingProbe(s, b, maxDim, q);
    OneReading(s, b, u);
    ScanOnce([s], [b], maxDim, q, 1);
    ScanOnce([s], [b], maxDim, p, 2);
  }

  /** One iteration of the scan loop; the inner loop stops at the first covering sensor. */
  method ProbeAt(bs: seq<Beacon>, closest: seq<Location>, maxDim: int, current: Location) returns (probe: Probe)
    ensures probe == Probe2(bs, closest, maxDim, current)
  {
    var x, y := current.x, current.y;
    ghost var target := Location(x + 1, y);
    if !Contains(closest, current) {
      var overlapped := false;
      for j := 0 to |bs|
        invariant !overlapped && x == current.x && y == current.y
        invariant FirstCover(bs, current) == FirstCover(bs[j..], current)
      {
        var dist := GetDistance(bs[j], current);
        if Mag(dist) <= Mag(bs[j].distance) {
          var move := Mag(bs[j].distance) - Mag(dist);
          if x + move > maxDim {
            var xRemaining := Abs(Mag(bs[j].distance) - Abs(bs[j].location.y - dist.y));
            var minX := current.x - xRemaining;
            var maxX := current.x + xRemaining;
            if minX <= 0 && maxX >= 0 {
              x := 0;
              y := y + if Abs(minX) <= maxX then Abs(minX) else maxX;
            } else {
              x := 0;
              y := y + 1;
            }
          } else {
            x := x + move + 1;
          }
          overlapped := true;
          target := Skip(bs[j], current, maxDim);
          assert Location(x, y) == target;
          assert FirstCover(bs, current) == Some(bs[j]);
          break;
        }
        assert bs[j..][1..] == bs[j + 1..];
      }
      if !overlapped {
        assert bs[|bs|..] == [];
        return Found(current);
      }
      assert Location(x, y) == target;
    } else {
      x := x + 1;
    }
    if x > maxDim {
      x, y := 0, y + 1;
    }
    probe := Moved(Location(x, y));
  }

  /** The scan loop, from (0, 0), for at most `fuel` iterations. */
  method Search(bs: seq<Beacon>, closest: seq<Location>, maxDim: int, fuel: nat) returns (r: Option<Location>)
    ensures r == Scan(bs, closest, maxDim, Location(0, 0), fuel)
  {
    var current := Location(0, 0);
    var left := fuel;
    while left > 0
      invariant Scan(bs, closest, maxDim, Location(0, 0), fuel) == Scan(bs, closest, maxDim, current, left)
      decreases left
    {
      var probe := ProbeAt(bs, closest, maxDim, current);
      ScanStep(bs, closest, maxDim, current, left, probe);
      if probe.Found? {
        return Some(probe.at);
      }
      current := probe.to;
      left := left - 1;
    }
    r := None;
  }

  /** One iteration of the scan either stops at the probed position or continues from where it moved. */
  lemma {:induction false} ScanStep(bs: seq<Beacon>, closest: seq<Location>, maxDim: int, p: Location, fuel: nat, probe: Probe)
    requires fuel > 0 && probe == Probe2(bs, closest, maxDim, p)
    ensures probe.Found? ==> Scan(bs, closest, maxDim, p, fuel) == Some(probe.at)
    ensures probe.Moved? ==> Scan(bs, closest, maxDim, p, fuel) == Scan(bs, closest, maxDim, probe.to, fuel - 1)
  {
  }

  method Part2(lines: seq<string>, maxDim: int, fuel: nat) returns (r: Outcome<Option<int>>)
    ensures r == Part2Answer(lines, maxDim, fuel)
  {
    var read := ReadSensors(lines);
    if read.Panic? {
      return Panic(read.reason);
    }
    var found := Search(read.value.beacons, read.value.closest, maxDim, fuel);
    match found
    case None => r := Ok(None);
    case Some(p) => r := Ok(Some(Frequency(p)));
  }
}
