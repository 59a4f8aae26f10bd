/**
 * Day 7: a terminal session (`cd` commands and `ls` listings) replayed into
 * a directory tree. Items live in an arena addressed by index: item 0 is the
 * root "/", every other item records the index of its parent, and adding a
 * file raises the size of its directory and of every ancestor. Part 1 sums
 * the directory sizes below 100000; part 2 picks the smallest directory whose
 * removal would free enough of a 70000000 disk to leave 30000000 free.
 */
module Day7 {
  import opened Common

  const UNWRAP_ERR := "called `Result::unwrap()` on an `Err` value"
  const INDEX_OUT_OF_BOUNDS := "index out of bounds"
  const SUBTRACT_OVERFLOW := "attempt to subtract with overflow"
  const NO_PARENT := "No parent found!"

  const SMALL_DIR: nat := 100000
  const TOTAL_DISK_SPACE: nat := 70000000
  const REQUIRED_FREE_DISK_SPACE: nat := 30000000

  datatype ItemType = File | Directory

  datatype Item = Item(name: string, itemType: ItemType, size: nat, parent: Option<nat>, children: seq<nat>)

  const Root := Item("/", Directory, 0, None, [])

  // ---------------------------------------------------------------------------
  // The arena
  // ---------------------------------------------------------------------------

  /**
   * The arena's shape: item 0 is the only item without a parent, and every
   * parent was created before its child.
   */
  predicate Linked(items: seq<Item>) {
    |items| > 0 && items[0].parent.None? &&
    (forall j | 0 < j < |items| :: items[j].parent.Some? && items[j].parent.value < j)
  }

  /** Every child index names an item. */
  predicate ChildrenIn(items: seq<Item>) {
    forall j, k | 0 <= j < |items| && 0 <= k < |items[j].children| :: items[j].children[k] < |items|
  }

  /** The item and all its ancestors up to the root. */
  function Chain(items: seq<Item>, i: nat): set<nat>
    requires Linked(items) && i < |items|
    decreases i
  {
    match items[i].parent
    case None => {i}
    case Some(p) => {i} + Chain(items, p)
  }

  lemma {:induction false} ChainBound(items: seq<Item>, i: nat, x: nat)
    requires Linked(items) && i < |items|
    requires x in Chain(items, i)
    ensures x <= i
    decreases i
  {
    if x != i {
      ChainBound(items, items[i].parent.value, x);
    }
  }

  /** The chain depends only on the parents of the items up to i. */
  lemma {:induction false} ChainFrame(a: seq<Item>, b: seq<Item>, i: nat)
    requires Linked(a) && Linked(b) && i < |a| && i < |b|
    requires forall j | 0 <= j <= i :: a[j].parent == b[j].parent
    ensures Chain(a, i) == Chain(b, i)
    decreases i
  {
    if a[i].parent.Some? {
      ChainFrame(a, b, a[i].parent.value);
    }
  }

  /** Same arena shape: the parents, kinds and number of items agree. */
  predicate SameShape(a: seq<Item>, b: seq<Item>) {
    |a| == |b| && forall j | 0 <= j < |a| :: a[j].parent == b[j].parent && a[j].itemType == b[j].itemType
  }

  /** `update_size`, on values: the size of item i is raised, then its parent's. */
  function Raised(items: seq<Item>, i: nat, size: nat): (r: seq<Item>)
    requires Linked(items) && i < |items|
    ensures SameShape(r, items) && Linked(r)
    ensures forall j | 0 <= j < |items| ::
      r[j] == items[j].(size := items[j].size + if j in Chain(items, i) then size else 0)
    decreases i
  {
    var raised := items[i := items[i].(size := items[i].size + size)];
    match items[i].parent
    case None => raised
    case Some(p) =>
      var r := Raised(raised, p, size);
      ChainFrame(raised, items, p);
      assert forall j | 0 <= j < |items| :: j in Chain(items, i) <==> j == i || j in Chain(items, p);
      assert i !in Chain(items, p) by {
        if i in Chain(items, p) {
          ChainBound(items, p, i);
        }
      }
      r
  }

  /** `get_child`: the first child, in insertion order, with the given name. */
  function FindChild(items: seq<Item>, children: seq<nat>, name: string): (r: Option<nat>)
    requires forall k | 0 <= k < |children| :: children[k] < |items|
    ensures r.None? <==> forall k | 0 <= k < |children| :: items[children[k]].name != name
    ensures r.Some? ==> exists k | 0 <= k < |children| :: (children[k] == r.value &&
      items[r.value].name == name && forall m | 0 <= m < k :: items[children[m]].name != name)
    decreases |children|
  {
    if |children| == 0 then None
    else if items[children[0]].name == name then Some(children[0])
    else
      var r := FindChild(items, children[1..], name);
      assert forall k | 1 <= k < |children| :: children[k] == children[1..][k - 1];
      if r.Some? then
        var k :| 0 <= k < |children[1..]| && children[1..][k] == r.value &&
          items[r.value].name == name && forall m | 0 <= m < k :: items[children[1..][m]].name != name;
        assert children[k + 1] == r.value;
        r
      else r
  }

  /**
   * The arena being built, as `part1`/`part2` mutate it: the items
   * (`RefCell` sizes and children included), the current directory and the
   * recorded directories.
   */
  class FileTree {
    var items: seq<Item>

    /** `Item::new("/", Directory, 0, None)` as the only item. */
    constructor()
      ensures items == [Root]
    {
      items := [Root];
    }

    /** `Rc::new(Item::new(name, type, size, Some(parent)))`: a new, childless item. */
    method AddItem(name: string, itemType: ItemType, size: nat, parent: nat) returns (index: nat)
      modifies this
      ensures index == |old(items)|
      ensures items == old(items) + [Item(name, itemType, size, Some(parent), [])]
    {
      index := |items|;
      items := items + [Item(name, itemType, size, Some(parent), [])];
    }

    /** `Item::update_size`: adds `size` to the item, then to its parent, and so on. */
    method UpdateSize(i: nat, size: nat)
      requires Linked(items) && i < |items|
      modifies this
      ensures items == Raised(old(items), i, size)
      decreases i
    {
      ghost var before := items;
      items := items[i := items[i].(size := items[i].size + size)];
      match items[i].parent {
        case None =>
        case Some(p) =>
          assert Linked(items);
          UpdateSize(p, size);
      }
    }

    /** `Item::add_child`: appends to the item's children. */
    method AddChild(i: nat, child: nat)
      requires i < |items|
      modifies this
      ensures items == old(items)[i := old(items)[i].(children := old(items)[i].children + [child])]
    {
      items := items[i := items[i].(children := items[i].children + [child])];
    }

    /** `Item::get_child`: scans the children in order. */
    method GetChild(i: nat, name: string) returns (r: Option<nat>)
      requires ChildrenIn(items) && i < |items|
      ensures r == FindChild(items, items[i].children, name)
    {
      var children := items[i].children;
      for k := 0 to |children|
        invariant FindChild(items, children, name) == FindChild(items, children[k..], name)
      {
        if items[children[k]].name == name {
          return Some(children[k]);
        }
        assert children[k..][1..] == children[k + 1..];
      }
      assert children[|children|..] == [];
      r := None;
    }

    /** `Item::get_parent`: only the root has none, and asking for it panics. */
    method GetParent(i: nat) returns (r: Outcome<nat>)
      requires Linked(items) && i < |items|
      ensures r.Panic? <==> i == 0
      ensures r.Panic? ==> r.reason == NO_PARENT
      ensures r.Ok? ==> items[i].parent == Some(r.value) && r.value < i
    {
      match items[i].parent {
        case None => r := Panic(NO_PARENT);
        case Some(p) => r := Ok(p);
      }
    }
  }

  // ---------------------------------------------------------------------------
  // Replaying the session
  // ---------------------------------------------------------------------------

  /**
   * The replay state: the arena, the size each item was listed with (0 for a
   * directory), the current directory and the recorded directories.
   */
  datatype Session = Session(items: seq<Item>, listed: seq<nat>, current: nat, directories: seq<nat>)

  predicate WellFormed(s: Session) {
    Linked(s.items) && ChildrenIn(s.items) && |s.listed| == |s.items| && s.current < |s.items|
  }

  const Start := Session([Root], [0], 0, [0])

  /** `Rc::new(Item::new(...))` with the current directory as parent. */
  function Created(s: Session, name: string, itemType: ItemType, size: nat): (r: seq<Item>)
    requires WellFormed(s)
    ensures Linked(r) && ChildrenIn(r) && |r| == |s.items| + 1
    ensures forall j | 0 <= j < |s.items| :: r[j] == s.items[j]
    ensures r[|s.items|] == Item(name, itemType, size, Some(s.current), [])
  {
    s.items + [Item(name, itemType, size, Some(s.current), [])]
  }

  /** `add_child`, on values: the child's index is appended to item i's children. */
  function WithChild(items: seq<Item>, i: nat, child: nat): (r: seq<Item>)
    requires Linked(items) && ChildrenIn(items) && i < |items| && child < |items|
    ensures Linked(r) && ChildrenIn(r) && SameShape(r, items)
    ensures forall j | 0 <= j < |items| :: r[j].size == items[j].size
    ensures r[i].children == items[i].children + [child]
  {
    items[i := items[i].(children := items[i].children + [child])]
  }

  /** The effect of a listing line that creates an item. */
  function AddListed(s: Session, name: string, itemType: ItemType, size: nat): (r: Session)
    requires WellFormed(s)
    ensures WellFormed(r)
  {
    var created := Created(s, name, itemType, size);
    var raised := if itemType == File then Raised(created, s.current, size) else created;
    Session(WithChild(raised, s.current, |s.items|), s.listed + [size], s.current,
            if itemType == Directory then s.directories + [|s.items|] else s.directories)
  }

  /** One line of the session. */
  function ExecLine(s: Session, line: string): Outcome<Session>
    requires WellFormed(s)
  {
    var splits := Split(line, " ");
    if |line| > 0 && line[0] == '$' then
      if |splits| < 2 || splits[1] != "cd" then Ok(s)
      else if |splits| < 3 then Panic(INDEX_OUT_OF_BOUNDS)
      else if splits[2] == ".." then
        match s.items[s.current].parent
        case None => Panic(NO_PARENT)
        case Some(p) => Ok(s.(current := p))
      else
        match FindChild(s.items, s.items[s.current].children, splits[2])
        case None => Panic("Failed to change directory to " + splits[2])
        case Some(c) => Ok(s.(current := c))
    else if |splits| < 2 then Panic(INDEX_OUT_OF_BOUNDS)
    else
      var itemType := if splits[0] == "dir" then Directory else File;
      if itemType == File then
        match ParseUnsigned(splits[0], U32_MAX)
        case None => Panic(UNWRAP_ERR)
        case Some(size) => Ok(AddListed(s, splits[1], File, size))
      else Ok(AddListed(s, splits[1], Directory, 0))
  }

  lemma {:induction false} ExecLineWellFormed(s: Session, line: string)
    requires WellFormed(s)
    ensures ExecLine(s, line).Ok? ==> WellFormed(ExecLine(s, line).value)
  {
  }

  /** Lines k.. of the session. */
  function ExecFrom(s: Session, lines: seq<string>, k: nat): Outcome<Session>
    requires WellFormed(s) && k <= |lines|
    decreases |lines| - k
  {
    if k == |lines| then Ok(s)
    else
      match ExecLine(s, lines[k])
      case Panic(reason) => Panic(reason)
      case Ok(next) =>
        ExecLineWellFormed(s, lines[k]);
        ExecFrom(next, lines, k + 1)
  }

  /** The whole session; the first line (`$ cd /`) is skipped. */
  function Listing(lines: seq<string>): Outcome<Session> {
    ExecFrom(Start, lines, if |lines| == 0 then 0 else 1)
  }

  // ---------------------------------------------------------------------------
  // Sizes
  // ---------------------------------------------------------------------------

  /** The listed sizes of the files among items [0, k) strictly beneath d. */
  function Beneath(items: seq<Item>, listed: seq<nat>, d: nat, k: nat): nat
    requires Linked(items) && |listed| == |items| && k <= |items|
  {
    if k == 0 then 0
    else
      var j := k - 1;
      Beneath(items, listed, d, j) + if items[j].itemType == File && j != d && d in Chain(items, j) then listed[j] else 0
  }

  /** Every item's size is its listed size plus the listed sizes of the files beneath it. */
  predicate Consistent(items: seq<Item>, listed: seq<nat>)
    requires Linked(items) && |listed| == |items|
  {
    forall d | 0 <= d < |items| :: items[d].size == listed[d] + Beneath(items, listed, d, |items|)
  }

  /** Directories are listed with size 0. */
  predicate DirectoriesListedEmpty(items: seq<Item>, listed: seq<nat>)
    requires |listed| == |items|
  {
    forall d | 0 <= d < |items| :: items[d].itemType == Directory ==> listed[d] == 0
  }

  /** The indices of the directories among items [0, k), in order. */
  function DirIndices(items: seq<Item>, k: nat): seq<nat>
    requires k <= |items|
  {
    if k == 0 then []
    else DirIndices(items, k - 1) + if items[k - 1].itemType == Directory then [k - 1] else []
  }

  lemma {:induction false} DirIndicesFrame(a: seq<Item>, b: seq<Item>, k: nat)
    requires k <= |a| && k <= |b|
    requires forall j | 0 <= j < k :: a[j].itemType == b[j].itemType
    ensures DirIndices(a, k) == DirIndices(b, k)
  {
    if k > 0 {
      DirIndicesFrame(a, b, k - 1);
    }
  }

  /** Beneath depends only on kinds, parents and listed sizes. */
  lemma {:induction false} BeneathFrame(a: seq<Item>, la: seq<nat>, b: seq<Item>, lb: seq<nat>, d: nat, k: nat)
    requires Linked(a) && |la| == |a| && Linked(b) && |lb| == |b| && k <= |a| && k <= |b|
    requires forall j | 0 <= j < k :: a[j].parent == b[j].parent && a[j].itemType == b[j].itemType && la[j] == lb[j]
    ensures Beneath(a, la, d, k) == Beneath(b, lb, d, k)
  {
    if k > 0 {
      BeneathFrame(a, la, b, lb, d, k - 1);
      ChainFrame(a, b, k - 1);
    }
  }

  /** Nothing created before an item lies beneath it. */
  lemma {:induction false} BeneathNew(items: seq<Item>, listed: seq<nat>, d: nat, k: nat)
    requires Linked(items) && |listed| == |items| && k <= |items| && k <= d + 1
    ensures Beneath(items, listed, d, k) == 0
  {
    if k > 0 {
      BeneathNew(items, listed, d, k - 1);
      if d in Chain(items, k - 1) {
        ChainBound(items, k - 1, d);
      }
    }
  }

  /** The invariants of the replay. */
  predicate Invariant(s: Session) {
    WellFormed(s) && Consistent(s.items, s.listed) && DirectoriesListedEmpty(s.items, s.listed) &&
    s.directories == DirIndices(s.items, |s.items|)
  }

  /** The shape of the arena after an item is added, and the size of item d. */
  lemma AddListedItem(s: Session, name: string, itemType: ItemType, size: nat, d: nat)
    requires WellFormed(s) && d <= |s.items|
    ensures var created := Created(s, name, itemType, size);
      var r := AddListed(s, name, itemType, size);
      SameShape(r.items, created) &&
      r.items[d].size == created[d].size + if itemType == File && d in Chain(created, s.current) then size else 0
  {
  }

  /** The new item's size is what it was listed with. */
  lemma AddListedNewSize(s: Session, name: string, itemType: ItemType, size: nat)
    requires WellFormed(s)
    ensures var r := AddListed(s, name, itemType, size);
      r.items[|s.items|].size == r.listed[|s.items|] + Beneath(r.items, r.listed, |s.items|, |r.items|)
  {
    var n := |s.items|;
    var created := Created(s, name, itemType, size);
    var r := AddListed(s, name, itemType, size);
    AddListedItem(s, name, itemType, size, n);
    BeneathNew(r.items, r.listed, n, n + 1);
    ChainFrame(created, s.items, s.current);
    if n in Chain(s.items, s.current) {
      ChainBound(s.items, s.current, n);
    }
  }

  /** The files beneath an older item gain the new item exactly when it is a file beneath it. */
  lemma CreatedBeneath(s: Session, name: string, itemType: ItemType, size: nat, d: nat)
    requires WellFormed(s) && d < |s.items|
    ensures var created := Created(s, name, itemType, size);
      Beneath(created, s.listed + [size], d, |created|) ==
        Beneath(s.items, s.listed, d, |s.items|) + if itemType == File && d in Chain(created, s.current) then size else 0
  {
    var n := |s.items|;
    var created := Created(s, name, itemType, size);
    var listed := s.listed + [size];
    BeneathFrame(created, listed, s.items, s.listed, d, n);
    assert d in Chain(created, n) <==> d in Chain(created, s.current);
  }

  /** Consistency of item d carries over to an arena of the same shape. */
  lemma SameShapeSize(created: seq<Item>, items: seq<Item>, listed: seq<nat>, d: nat)
    requires Linked(created) && Linked(items) && SameShape(items, created)
    requires |listed| == |created| && d < |created|
    requires items[d].size == listed[d] + Beneath(created, listed, d, |created|)
    ensures items[d].size == listed[d] + Beneath(items, listed, d, |items|)
  {
    BeneathFrame(items, listed, created, listed, d, |created|);
  }

  /** An older item's size grows exactly by the new file's size when the file lies beneath it. */
  lemma AddListedOldSize(s: Session, name: string, itemType: ItemType, size: nat, d: nat)
    requires WellFormed(s) && d < |s.items|
    requires s.items[d].size == s.listed[d] + Beneath(s.items, s.listed, d, |s.items|)
    requires itemType == Directory ==> size == 0
    ensures var r := AddListed(s, name, itemType, size);
      r.items[d].size == r.listed[d] + Beneath(r.items, r.listed, d, |r.items|)
  {
    var created := Created(s, name, itemType, size);
    var r := AddListed(s, name, itemType, size);
    var raise := if itemType == File && d in Chain(created, s.current) then size else 0;
    AddListedItem(s, name, itemType, size, d);
    CreatedBeneath(s, name, itemType, size, d);
    assert r.listed == s.listed + [size];
    SameShapeSize(created, r.items, r.listed, d);
  }

  lemma AddListedConsistent(s: Session, name: string, itemType: ItemType, size: nat)
    requires Invariant(s)
    requires itemType == Directory ==> size == 0
    ensures var r := AddListed(s, name, itemType, size);
      Consistent(r.items, r.listed)
  {
    var r := AddListed(s, name, itemType, size);
    forall d | 0 <= d < |r.items|
      ensures r.items[d].size == r.listed[d] + Beneath(r.items, r.listed, d, |r.items|)
    {
      if d == |s.items| {
        AddListedNewSize(s, name, itemType, size);
      } else {
        AddListedOldSize(s, name, itemType, size, d);
      }
    }
  }

  lemma AddListedDirectories(s: Session, name: string, itemType: ItemType, size: nat)
    requires Invariant(s)
    requires itemType == Directory ==> size == 0
    ensures var r := AddListed(s, name, itemType, size);
      DirectoriesListedEmpty(r.items, r.listed) && r.directories == DirIndices(r.items, |r.items|)
  {
    AddListedEmpty(s, name, itemType, size);
    AddListedDirIndices(s, name, itemType, size);
  }

  /** A listed directory is listed with size 0. */
  lemma AddListedEmpty(s: Session, name: string, itemType: ItemType, size: nat)
    requires Invariant(s)
    requires itemType == Directory ==> size == 0
    ensures var r := AddListed(s, name, itemType, size);
      DirectoriesListedEmpty(r.items, r.listed)
  {
    var n := |s.items|;
    var created := Created(s, name, itemType, size);
    var r := AddListed(s, name, itemType, size);
    AddListedItem(s, name, itemType, size, 0);
    forall d | 0 <= d < |r.items| && r.items[d].itemType == Directory
      ensures r.listed[d] == 0
    {
      assert r.items[d].itemType == created[d].itemType;
      if d < n {
        assert created[d] == s.items[d];
      }
    }
  }

  /** A listed directory is recorded in `directories`, in arena order. */
  lemma AddListedDirIndices(s: Session, name: string, itemType: ItemType, size: nat)
    requires Invariant(s)
    ensures var r := AddListed(s, name, itemType, size);
      r.directories == DirIndices(r.items, |r.items|)
  {
    var n := |s.items|;
    var created := Created(s, name, itemType, size);
    var r := AddListed(s, name, itemType, size);
    AddListedItem(s, name, itemType, size, 0);
    DirIndicesFrame(r.items, created, n + 1);
    DirIndicesFrame(created, s.items, n);
    assert created[n].itemType == itemType;
  }

  lemma AddListedKeeps(s: Session, name: string, itemType: ItemType, size: nat)
    requires Invariant(s)
    requires itemType == Directory ==> size == 0
    ensures Invariant(AddListed(s, name, itemType, size))
  {
    AddListedConsistent(s, name, itemType, size);
    AddListedDirectories(s, name, itemType, size);
  }

  lemma {:induction false} ExecLineKeeps(s: Session, line: string)
    requires Invariant(s)
    ensures ExecLine(s, line).Ok? ==> Invariant(ExecLine(s, line).value)
  {
    var splits := Split(line, " ");
    if |line| > 0 && line[0] == '$' {
      if ExecLine(s, line).Ok? {
        ExecLineWellFormed(s, line);
        MovedKeeps(s, ExecLine(s, line).value);
      }
    } else if |splits| >= 2 {
      if splits[0] == "dir" {
        AddListedKeeps(s, splits[1], Directory, 0);
      } else if ParseUnsigned(splits[0], U32_MAX).Some? {
        AddListedKeeps(s, splits[1], File, ParseUnsigned(splits[0], U32_MAX).value);
      }
    }
  }

  /** Moving to another directory keeps the invariant. */
  lemma MovedKeeps(s: Session, t: Session)
    requires Invariant(s) && WellFormed(t)
    requires t.items == s.items && t.listed == s.listed && t.directories == s.directories
    ensures Invariant(t)
  {
  }

  lemma {:induction false} ExecFromKeeps(s: Session, lines: seq<string>, k: nat)
    requires Invariant(s) && k <= |lines|
    ensures ExecFrom(s, lines, k).Ok? ==> Invariant(ExecFrom(s, lines, k).value)
    decreases |lines| - k
  {
    if k < |lines| {
      ExecLineKeeps(s, lines[k]);
      if ExecLine(s, lines[k]).Ok? {
        ExecFromKeeps(ExecLine(s, lines[k]).value, lines, k + 1);
      }
    }
  }

  /**
   * After a session replays without a panic, every directory's size is the
   * sum of the sizes listed for the files anywhere beneath it, and the
   * recorded directories are exactly the directory items, root first, in
   * the order they were listed.
   */
  lemma {:induction false} ListingSizes(lines: seq<string>)
    requires Listing(lines).Ok?
    ensures var s := Listing(lines).value;
      WellFormed(s) && s.directories == DirIndices(s.items, |s.items|) &&
      forall d | 0 <= d < |s.items| && s.items[d].itemType == Directory ::
        s.items[d].size == Beneath(s.items, s.listed, d, |s.items|)
  {
    assert Invariant(Start) by {
      assert DirIndices([Root], 1) == [0];
    }
    ExecFromKeeps(Start, lines, if |lines| == 0 then 0 else 1);
  }

  // ---------------------------------------------------------------------------
  // The interpreter loop
  // ---------------------------------------------------------------------------

  /** One line of the interpreter loop, applied to the tree. */
  method Interpret(tree: FileTree, current: nat, directories: seq<nat>, line: string, ghost listed: seq<nat>)
    returns (r: Outcome<(nat, seq<nat>)>, ghost listedAfter: seq<nat>)
    requires WellFormed(Session(tree.items, listed, current, directories))
    modifies tree
    ensures var expected := ExecLine(Session(old(tree.items), listed, current, directories), line);
      (r.Panic? <==> expected.Panic?) &&
      (r.Panic? ==> r.reason == expected.reason) &&
      (r.Ok? ==> expected.value == Session(tree.items, listedAfter, r.value.0, r.value.1))
  {
    listedAfter := listed;
    var splits := Split(line, " ");
    if |line| > 0 && line[0] == '$' {
      if |splits| >= 2 && splits[1] == "cd" {
        if |splits| < 3 {
          return Panic(INDEX_OUT_OF_BOUNDS), listed;
        }
        var name := splits[2];
        if name == ".." {
          var parent := tree.GetParent(current);
          if parent.Panic? {
            return Panic(parent.reason), listed;
          }
          return Ok((parent.value, directories)), listed;
        }
        var cd := tree.GetChild(current, name);
        if cd.None? {
          return Panic("Failed to change directory to " + name), listed;
        }
        return Ok((cd.value, directories)), listed;
      }
      return Ok((current, directories)), listed;
    }
    if |splits| < 2 {
      return Panic(INDEX_OUT_OF_BOUNDS), listed;
    }
    var description, name := splits[0], splits[1];
    var itemType := if description == "dir" then Directory else File;
    var size: nat := 0;
    if itemType == File {
      var parsed := ParseUnsigned(description, U32_MAX);
      if parsed.None? {
        return Panic(UNWRAP_ERR), listed;
      }
      size := parsed.value;
    }
    ghost var s := Session(tree.items, listed, current, directories);
    var index := tree.AddItem(name, itemType, size, current);
    assert Linked(tree.items);
    var recorded := directories;
    if itemType == File {
      tree.UpdateSize(current, size);
    } else {
      recorded := directories + [index];
    }
    tree.AddChild(current, index);
    listedAfter := listed + [size];
    r := Ok((current, recorded));
    assert Session(tree.items, listedAfter, current, recorded) == AddListed(s, name, itemType, size);
  }

  /** The loop over the lines after the first, shared by both parts. */
  method Explore(lines: seq<string>) returns (tree: FileTree, r: Outcome<seq<nat>>)
    ensures fresh(tree)
    ensures r.Panic? <==> Listing(lines).Panic?
    ensures r.Panic? ==> r.reason == Listing(lines).reason
    ensures r.Ok? ==> tree.items == Listing(lines).value.items && r.value == Listing(lines).value.directories
  {
    tree := new FileTree();
    var directories: seq<nat> := [0];
    var current: nat := 0;
    ghost var listed: seq<nat> := [0];
    var k := if |lines| == 0 then 0 else 1;
    while k < |lines|
      invariant k <= |lines|
      invariant WellFormed(Session(tree.items, listed, current, directories))
      invariant Listing(lines) == ExecFrom(Session(tree.items, listed, current, directories), lines, k)
      decreases |lines| - k
    {
      ghost var s := Session(tree.items, listed, current, directories);
      var step;
      step, listed := Interpret(tree, current, directories, lines[k], listed);
      if step.Panic? {
        return tree, Panic(step.reason);
      }
      current, directories := step.value.0, step.value.1;
      ExecLineWellFormed(s, lines[k]);
      k := k + 1;
    }
    r := Ok(directories);
  }

  // ---------------------------------------------------------------------------
  // The two answers
  // ---------------------------------------------------------------------------

  /** The sum of the sizes below 100000 of the given directories. */
  function SmallTotal(items: seq<Item>, dirs: seq<nat>): nat
    requires forall k | 0 <= k < |dirs| :: dirs[k] < |items|
  {
    if |dirs| == 0 then 0
    else
      var last := items[dirs[|dirs| - 1]].size;
      SmallTotal(items, dirs[..|dirs| - 1]) + if last < SMALL_DIR then last else 0
  }

  lemma {:induction false} DirIndicesBound(items: seq<Item>, k: nat)
    requires k <= |items|
    ensures forall m | 0 <= m < |DirIndices(items, k)| :: DirIndices(items, k)[m] < k
  {
    if k > 0 {
      DirIndicesBound(items, k - 1);
    }
  }

  function Part1Answer(lines: seq<string>): Outcome<nat> {
    var s :- Listing(lines);
    ListingSizes(lines);
    DirIndicesBound(s.items, |s.items|);
    Ok(SmallTotal(s.items, s.directories))
  }

  /** What an item adds to part 1's answer. */
  function SmallSize(item: Item): nat {
    if item.itemType == Directory && item.size < SMALL_DIR then item.size else 0
  }

  /** What each item adds to part 1's answer, item by item. */
  function SmallSizes(items: seq<Item>): seq<int> {
    seq(|items|, j requires 0 <= j < |items| => SmallSize(items[j]))
  }

  lemma SmallSizesStep(items: seq<Item>, k: nat)
    requires 0 < k <= |items|
    ensures Sum(SmallSizes(items)[..k]) == Sum(SmallSizes(items)[..k - 1]) + SmallSize(items[k - 1])
  {
    var sizes := SmallSizes(items);
    assert sizes[..k][..k - 1] == sizes[..k - 1];
  }

  /** Every index in `dirs` addresses one of the first `n` items. */
  predicate IndicesBelow(dirs: seq<nat>, n: nat) {
    forall m | 0 <= m < |dirs| :: dirs[m] < n
  }

  lemma SmallTotalStep(items: seq<Item>, k: nat)
    requires 0 < k <= |items|
    requires IndicesBelow(DirIndices(items, k), |items|)
    ensures IndicesBelow(DirIndices(items, k - 1), |items|)
    ensures SmallTotal(items, DirIndices(items, k)) == SmallTotal(items, DirIndices(items, k - 1)) + SmallSize(items[k - 1])
  {
    var prev := DirIndices(items, k - 1);
    var cur := DirIndices(items, k);
    if items[k - 1].itemType == Directory {
      assert cur == prev + [k - 1];
      assert cur[..|prev|] == prev;
    } else {
      assert cur == prev;
    }
  }

  /**
   * Part 1's fold over the recorded directories equals the sum, over all
   * items, of the sizes of the directories below 100000.
   */
  lemma {:induction false} SmallTotalSelects(items: seq<Item>, k: nat)
    requires k <= |items|
    ensures forall m | 0 <= m < |DirIndices(items, k)| :: DirIndices(items, k)[m] < |items|
    ensures SmallTotal(items, DirIndices(items, k)) == Sum(SmallSizes(items)[..k])
  {
    DirIndicesBound(items, k);
    if k > 0 {
      SmallTotalSelects(items, k - 1);
      SmallSizesStep(items, k);
      SmallTotalStep(items, k);
    }
  }

  /**
   * Part 1 answers with the sum of the sizes below 100000 of all directories
   * of the replayed tree, each directory's size being the sum of the sizes
   * listed for the files beneath it.
   */
  lemma {:induction false} Part1Meaning(lines: seq<string>)
    requires Part1Answer(lines).Ok?
    ensures var s := Listing(lines).value;
      WellFormed(s) &&
      Part1Answer(lines).value == Sum(SmallSizes(s.items)) &&
      forall d | 0 <= d < |s.items| && s.items[d].itemType == Directory ::
        s.items[d].size == Beneath(s.items, s.listed, d, |s.items|)
  {
    var s := Listing(lines).value;
    ListingSizes(lines);
    SmallTotalSelects(s.items, |s.items|);
    assert SmallSizes(s.items)[..|s.items|] == SmallSizes(s.items);
  }

  /** Part 1's loop over the recorded directories. */
  method SumSmall(items: seq<Item>, directories: seq<nat>) returns (sum: nat)
    requires forall k | 0 <= k < |directories| :: directories[k] < |items|
    ensures sum == SmallTotal(items, directories)
  {
    sum := 0;
    for k := 0 to |directories|
      invariant sum == SmallTotal(items, directories[..k])
    {
      assert directories[..k + 1][..k] == directories[..k];
      var dirSize := items[directories[k]].size;
      if dirSize < SMALL_DIR {
        sum := sum + dirSize;
      }
    }
    assert directories[..|directories|] == directories;
  }

  method Part1(lines: seq<string>) returns (r: Outcome<nat>)
    ensures r == Part1Answer(lines)
  {
    var tree, explored := Explore(lines);
    if explored.Panic? {
      return Panic(explored.reason);
    }
    ListingSizes(lines);
    DirIndicesBound(tree.items, |tree.items|);
    var sum := SumSmall(tree.items, explored.value);
    r := Ok(sum);
  }


  /** The smallest size above `need` among the directories, starting from `best`. */
  function Smallest(items: seq<Item>, dirs: seq<nat>, need: int, best: nat): nat
    requires forall k | 0 <= k < |dirs| :: dirs[k] < |items|
  {
    if |dirs| == 0 then best
    else
      var last := items[dirs[|dirs| - 1]].size;
      var b := Smallest(items, dirs[..|dirs| - 1], need, best);
      if last > need && last < b then last else b
  }

  /** The fold finds the least size above `need`, or keeps `best` when none is smaller. */
  lemma {:induction false} SmallestIsLeast(items: seq<Item>, dirs: seq<nat>, need: int, best: nat)
    requires forall k | 0 <= k < |dirs| :: dirs[k] < |items|
    ensures var r := Smallest(items, dirs, need, best);
      r <= best &&
      (r == best || exists k | 0 <= k < |dirs| :: r == items[dirs[k]].size && r > need) &&
      forall k | 0 <= k < |dirs| :: items[dirs[k]].size > need ==> r <= items[dirs[k]].size
  {
    if |dirs| > 0 {
      var init := dirs[..|dirs| - 1];
      SmallestIsLeast(items, init, need, best);
      var b := Smallest(items, init, need, best);
      if b != best {
        var k :| 0 <= k < |init| && b == items[init[k]].size && b > need;
        assert dirs[k] == init[k];
      }
      forall k | 0 <= k < |dirs| && items[dirs[k]].size > need
        ensures Smallest(items, dirs, need, best) <= items[dirs[k]].size
      {
        if k < |dirs| - 1 {
          assert dirs[k] == init[k];
        }
      }
    }
  }

  /** The space that must be freed, with `u32` subtraction that panics below zero. */
  function NeedToFree(rootSize: nat): Outcome<nat> {
    if rootSize > TOTAL_DISK_SPACE then Panic(SUBTRACT_OVERFLOW)
    else
      var free := TOTAL_DISK_SPACE - rootSize;
      if free > REQUIRED_FREE_DISK_SPACE then Panic(SUBTRACT_OVERFLOW)
      else Ok(REQUIRED_FREE_DISK_SPACE - free)
  }

  function Part2Answer(lines: seq<string>): Outcome<nat> {
    var s :- Listing(lines);
    ListingSizes(lines);
    DirIndicesBound(s.items, |s.items|);
    var need :- NeedToFree(s.items[0].size);
    Ok(Smallest(s.items, s.directories, need, U32_MAX))
  }

  /**
   * Part 2 answers with the size of a directory that frees enough space and
   * is the smallest such, or with `u32::MAX` when no smaller one exists.
   */
  lemma {:induction false} Part2Meaning(lines: seq<string>)
    requires Part2Answer(lines).Ok?
    ensures var s := Listing(lines).value;
      |s.items| > 0 &&
      var need := s.items[0].size + REQUIRED_FREE_DISK_SPACE - TOTAL_DISK_SPACE;
      var r := Part2Answer(lines).value;
      (r == U32_MAX || exists d | 0 <= d < |s.items| :: s.items[d].itemType == Directory && s.items[d].size == r && r > need) &&
      forall d | 0 <= d < |s.items| && s.items[d].itemType == Directory && s.items[d].size > need :: r <= s.items[d].size
  {
    var s := Listing(lines).value;
    ListingSizes(lines);
    DirIndicesBound(s.items, |s.items|);
    var need := NeedToFree(s.items[0].size).value;
    SmallestIsLeast(s.items, s.directories, need, U32_MAX);
    DirIndicesMembers(s.items, |s.items|);
  }

  /** The directory indices are exactly the directory items. */
  lemma DirIndicesMembers(items: seq<Item>, k: nat)
    requires k <= |items|
    ensures forall m | 0 <= m < |DirIndices(items, k)| :: DirIndices(items, k)[m] < k && items[DirIndices(items, k)[m]].itemType == Directory
    ensures forall d | 0 <= d < k && items[d].itemType == Directory :: exists m | 0 <= m < |DirIndices(items, k)| :: DirIndices(items, k)[m] == d
  {
    DirIndicesAreDirectories(items, k);
    forall d | 0 <= d < k && items[d].itemType == Directory
      ensures exists m | 0 <= m < |DirIndices(items, k)| :: DirIndices(items, k)[m] == d
    {
      DirIndicesComplete(items, k, d);
    }
  }

  /** Every directory index below `k` names a directory item. */
  lemma {:induction false} DirIndicesAreDirectories(items: seq<Item>, k: nat)
    requires k <= |items|
    ensures forall m | 0 <= m < |DirIndices(items, k)| :: DirIndices(items, k)[m] < k && items[DirIndices(items, k)[m]].itemType == Directory
  {
    if k > 0 {
      DirIndicesAreDirectories(items, k - 1);
    }
  }

  /** Every directory item below `k` has a directory index. */
  lemma {:induction false} DirIndicesComplete(items: seq<Item>, k: nat, d: nat)
    requires d < k <= |items| && items[d].itemType == Directory
    ensures exists m | 0 <= m < |DirIndices(items, k)| :: DirIndices(items, k)[m] == d
  {
    var cur := DirIndices(items, k);
    if d < k - 1 {
      DirIndicesComplete(items, k - 1, d);
      var m :| 0 <= m < |DirIndices(items, k - 1)| && DirIndices(items, k - 1)[m] == d;
      assert cur[m] == d;
    } else {
      assert cur[|cur| - 1] == d;
    }
  }

  /** Part 2's loop: the smallest directory size above `need`, starting from `u32::MAX`. */
  method FindSmallest(items: seq<Item>, directories: seq<nat>, need: nat) returns (potentialDir: nat)
    requires forall k | 0 <= k < |directories| :: directories[k] < |items|
    ensures potentialDir == Smallest(items, directories, need, U32_MAX)
  {
    potentialDir := U32_MAX;
    for k := 0 to |directories|
      invariant potentialDir == Smallest(items, directories[..k], need, U32_MAX)
    {
      assert directories[..k + 1][..k] == directories[..k];
      var dirSize := items[directories[k]].size;
      if dirSize > need && dirSize < potentialDir {
        potentialDir := dirSize;
      }
    }
    assert directories[..|directories|] == directories;
  }

  method Part2(lines: seq<string>) returns (r: Outcome<nat>)
    ensures r == Part2Answer(lines)
  {
    var tree, explored := Explore(lines);
    if explored.Panic? {
      return Panic(explored.reason);
    }
    ListingSizes(lines);
    DirIndicesBound(tree.items, |tree.items|);
    var rootSize := tree.items[0].size;
    if rootSize > TOTAL_DISK_SPACE {
      return Panic(SUBTRACT_OVERFLOW);
    }
    var freeDiskSpace := TOTAL_DISK_SPACE - rootSize;
    if freeDiskSpace > REQUIRED_FREE_DISK_SPACE {
      return Panic(SUBTRACT_OVERFLOW);
    }
    var diskSpaceToFree := REQUIRED_FREE_DISK_SPACE - freeDiskSpace;
    var potentialDir := FindSmallest(tree.items, explored.value, diskSpaceToFree);
    r := Ok(potentialDir);
  }

}
