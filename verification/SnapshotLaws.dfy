/** What acceptance of a snapshot means, and which trees' snapshots are accepted. */
module SnapshotLaws {
  import opened Ordering
  import opened Forest
  import opened TotalsMeaning
  import opened Snapshot
  import opened SnapshotLayout
  import opened SnapshotCheck

  /** A directory's own part of its row: what its children leave over. */
  ghost function OwnParts(rows: seq<Row>): map<nat, SelfMetadata> {
    map i: nat | i < |rows| && rows[i].isDir :: SelfMetadata(rows[i].totals.alloc - KidsTotal(rows, i).alloc, rows[i].totals.mtime)
  }

  lemma ValidIsLinked(s: Cached)
    requires LayoutValid(s)
    ensures AllLinked(s.rows) && (forall i :: 0 <= i < |s.rows| ==> RowSane(s.rows[i])) && Rooted(Built(s.rows), 0)
  {
    RowsLinked(s.rows);
    BuiltRooted(s.rows);
  }

  /** An accepted snapshot satisfies the scanner's aggregate invariant, with nonnegative own parts. */
  lemma AcceptedIsMeasured(s: Cached)
    requires LayoutValid(s)
    ensures Rooted(Built(s.rows), 0) && Measured(Built(s.rows), 0, OwnParts(s.rows))
    ensures forall i :: i in OwnParts(s.rows) ==> OwnParts(s.rows)[i].alloc >= 0
  {
    ValidIsLinked(s);
    hide Rooted, LegalName, CountsMatch, SiblingsDiffer;
    var rows, g := s.rows, Built(s.rows);
    forall i | 0 <= i < |rows| && rows[i].isDir
      ensures Covers(rows[i].totals, KidsTotal(rows, i))
    {
      assert SumMatches(rows, i);
    }
    forall d | d in g && g[d].isDir
      ensures Balanced(g, 0, OwnParts(rows), d)
    {
      assert g[d].children == Where(Parents(rows), d);
    }
  }

  /** From its single reverse pass: each directory's row is the fold over its whole subtree. */
  lemma AcceptedCountsSubtrees(s: Cached, d: nat)
    requires LayoutValid(s) && d < |s.rows| && s.rows[d].isDir
    ensures Rooted(Built(s.rows), 0)
    ensures s.rows[d].totals.(dirs := s.rows[d].totals.dirs + 1)
      == SumSet(Owns(Built(s.rows), OwnParts(s.rows)), Below(Built(s.rows), 0, d))
  {
    AcceptedIsMeasured(s);
    TotalsCountDescendants(Built(s.rows), 0, OwnParts(s.rows), d);
  }

  /** A tree as the scanner leaves it: names a cache accepts, sane leaves, nonnegative own metadata. */
  ghost predicate ScannerTree<Id(!new)>(f: Forest<Id>, root: Id, self: map<Id, SelfMetadata>) {
    && Rooted(f, root) && root in f && f[root].isDir && Measured(f, root, self)
    && (forall x :: x in self ==> self[x].alloc >= 0)
    && (forall x :: x in f ==> NodeSane(f[x]) && (x != root ==> LegalName(f[x].name)))
    && (forall d, x, y :: d in f && x in f[d].children && y in f[d].children && SameName(f, x, y) ==> x == y)
  }

  ghost predicate SameName<Id(!new)>(f: Forest<Id>, x: Id, y: Id) {
    x in f && y in f && f[x].name == f[y].name
  }

  predicate NodeSane<Id>(v: Node<Id>) {
    if v.isDir then !v.hardlink
    else
      && v.totals.apparent >= 0 && v.totals.alloc >= 0 && v.totals.files == 0 && v.totals.dirs == 0
      && (v.hardlink ==> v.totals.apparent == 0 && v.totals.alloc == 0)
  }

  predicate Natural(t: Totals) {
    t.apparent >= 0 && t.alloc >= 0 && t.files >= 0 && t.dirs >= 0
  }

  lemma {:induction false} SumNatural<Id(!new)>(f: Forest<Id>, cs: seq<Id>)
    requires forall c :: c in cs ==> c in f && Natural(Contribution(f[c]))
    ensures Natural(SumOf(f, cs))
  {
    if cs != [] {
      assert cs[|cs| - 1] in cs;
      SumNatural(f, cs[..|cs| - 1]);
    }
  }

  lemma {:induction false} TotalsNatural<Id(!new)>(f: Forest<Id>, root: Id, self: map<Id, SelfMetadata>, x: Id, h: nat)
    requires Rooted(f, root) && Measured(f, root, self) && x in f && forall y :: y in f ==> f[y].depth <= h
    requires (forall y :: y in self ==> self[y].alloc >= 0) && forall y :: y in f ==> NodeSane(f[y])
    ensures Natural(f[x].totals)
    decreases h - f[x].depth
  {
    hide Rooted, IsChild;
    if f[x].isDir {
      assert Balanced(f, root, self, x);
      ChildrenKnown(f, root, x);
      forall c | c in f[x].children
        ensures c in f && Natural(Contribution(f[c]))
      {
        ChildDepth(f, root, x, c);
        TotalsNatural(f, root, self, c, h);
      }
      SumNatural(f, f[x].children);
    }
  }

  lemma {:induction false} MappedSum<Id(!new)>(f: Forest<Id>, g: Forest<nat>, cs: seq<Id>, ds: seq<nat>)
    requires |cs| == |ds| && (forall c :: c in cs ==> c in f) && (forall d :: d in ds ==> d in g)
    requires forall k :: 0 <= k < |cs| ==> Contribution(g[ds[k]]) == Contribution(f[cs[k]])
    ensures SumOf(g, ds) == SumOf(f, cs)
  {
    if cs != [] {
      assert cs[|cs| - 1] in cs && ds[|ds| - 1] in ds;
      MappedSum(f, g, cs[..|cs| - 1], ds[..|ds| - 1]);
    }
  }

  /** Row i of a flattening names an earlier row as its parent. */
  lemma ParentEarlier<Id(!new)>(f: Forest<Id>, root: Id, order: seq<Id>, rows: seq<Row>, i: nat)
    requires Rooted(f, root) && Flattens(f, root, order, rows) && 0 < i < |rows|
    ensures 0 <= rows[i].parent < i
  {
    var k := Kids(f, order[..i]);
    KidsOwners(f, order[..i]);
    KidsOfPrefix(f, order, i);
    KidsOwners(f, order);
    assert i <= |k|;
    assert Owners(f, order[..i])[i - 1] == Owners(f, order)[i - 1];
  }

  lemma FlattenedRowValid<Id(!new)>(
      f: Forest<Id>, root: Id, self: map<Id, SelfMetadata>, order: seq<Id>, rows: seq<Row>, i: nat)
    requires ScannerTree(f, root, self) && Flattens(f, root, order, rows) && i < |rows|
    ensures RowValid(rows, i)
  {
    hide Rooted, Kids, Owners, Measured, LegalName;
    var h := DepthBound(f);
    OrderComplete(f, root, order);
    assert order[i] in Elements(order);
    TotalsNatural(f, root, self, order[i], h);
    if i > 0 {
      ParentEarlier(f, root, order, rows, i);
      FlattenParts(f, root, order, rows);
      RowParent(f, root, order, i);
      OrderFirst(f, root, order, i);
      RootedParent(f, root, order[i]);
    }
  }

  lemma OrderFirst<Id(!new)>(f: Forest<Id>, root: Id, order: seq<Id>, i: nat)
    requires BreadthFirst(f, root, order) && Distinct(order) && 0 < i < |order|
    ensures order[i] != root
  {
    assert order[0] == root;
  }

  lemma FlattenedSum<Id(!new)>(
      f: Forest<Id>, root: Id, self: map<Id, SelfMetadata>, order: seq<Id>, rows: seq<Row>, i: nat)
    requires ScannerTree(f, root, self) && Flattens(f, root, order, rows) && i < |rows|
    ensures SumMatches(rows, i)
  {
    hide Rooted, Kids, Owners, LegalName, KidsTotal, Renumbered, BreadthFirst, Measured, NodeSane, SelfOf;
    OrderComplete(f, root, order);
    RebuildFlattened(f, root, order, rows);
    var x := order[i];
    assert x in Elements(order);
    AllChildrenKnown(f, root);
    if rows[i].isDir {
      KidsTotalIs(f, order, rows, i);
      MeasuredHere(f, root, self, x);
      OwnNatural(self, x);
      OwnCovers(f[x].totals, SelfOf(self, x), KidsTotal(rows, i));
    } else {
      LeafIsSane(f, root, self, x);
    }
  }

  lemma OwnCovers(t: Totals, own: Totals, kids: Totals)
    requires t == own.Plus(kids) && own.apparent == own.files == own.dirs == 0 && own.alloc >= 0
    ensures Covers(t, kids)
  {
  }

  lemma LeafIsSane<Id(!new)>(f: Forest<Id>, root: Id, self: map<Id, SelfMetadata>, x: Id)
    requires ScannerTree(f, root, self) && x in f && !f[x].isDir
    ensures f[x].totals.files == 0 && f[x].totals.dirs == 0
  {
    assert NodeSane(f[x]);
  }

  lemma KidsTotalIs<Id(!new)>(f: Forest<Id>, order: seq<Id>, rows: seq<Row>, i: nat)
    requires Renumbered(f, order, Built(rows)) && i < |rows| == |order|
    requires forall x :: x in f ==> forall c :: c in f[x].children ==> c in f
    ensures order[i] in f && KidsTotal(rows, i) == SumOf(f, f[order[i]].children)
  {
    hide Where;
    var g := Built(rows);
    assert SameNode(f, order, g, i);
    KidsKnown(rows, i);
    var x := order[i];
    forall k | 0 <= k < |g[i].children|
      ensures Contribution(g[g[i].children[k]]) == Contribution(f[f[x].children[k]])
    {
      assert g[i].children[k] in g[i].children;
      assert SameNode(f, order, g, g[i].children[k]);
    }
    MappedSum(f, g, f[x].children, g[i].children);
  }

  lemma AllChildrenKnown<Id(!new)>(f: Forest<Id>, root: Id)
    requires Rooted(f, root)
    ensures forall x :: x in f ==> forall c :: c in f[x].children ==> c in f
  {
    forall x | x in f
      ensures forall c :: c in f[x].children ==> c in f
    {
      ChildrenKnown(f, root, x);
    }
  }

  lemma MeasuredHere<Id(!new)>(f: Forest<Id>, root: Id, self: map<Id, SelfMetadata>, d: Id)
    requires Rooted(f, root) && Measured(f, root, self) && d in f && f[d].isDir
    ensures (forall c :: c in f[d].children ==> c in f) && f[d].totals == SelfOf(self, d).Plus(SumOf(f, f[d].children))
  {
    assert Balanced(f, root, self, d);
    ChildrenKnown(f, root, d);
  }

  lemma OwnNatural<Id(!new)>(self: map<Id, SelfMetadata>, x: Id)
    requires forall y :: y in self ==> self[y].alloc >= 0
    ensures SelfOf(self, x).alloc >= 0 && SelfOf(self, x).apparent == 0
    ensures SelfOf(self, x).files == 0 && SelfOf(self, x).dirs == 0
  {
  }

  /** The row counts are the counts of the sums over all nodes. */
  lemma {:induction false} CountsOfOrder<Id(!new)>(
      f: Forest<Id>, self: map<Id, SelfMetadata>, order: seq<Id>, rows: seq<Row>, n: nat)
    requires |rows| == |order| && n <= |order| && Distinct(order) && (forall x :: x in order ==> x in f)
    requires forall i :: 0 <= i < |rows| ==> rows[i].isDir == f[order[i]].isDir && rows[i].failed == f[order[i]].failed
    requires |rows| > 0 && rows[0].isDir
    ensures Elements(order[..n]) <= f.Keys
    ensures SumSet(Owns(f, self), Elements(order[..n])).dirs == CountDirs(rows, n)
    ensures SumSet(Owns(f, self), Elements(order[..n])).files == CountFiles(rows, n)
    ensures |set x | x in Elements(order[..n]) && f[x].failed| == CountErrors(rows, n)
  {
    hide Own, Owns, SumSet;
    if n == 0 {
      NoneCounted(f, self, order);
    } else {
      CountsOfOrder(f, self, order, rows, n - 1);
      OneMoreCounted(f, self, order, n);
      OwnCounts(f, self, order[n - 1]);
    }
  }

  lemma NoneCounted<Id(!new)>(f: Forest<Id>, self: map<Id, SelfMetadata>, order: seq<Id>)
    ensures Elements(order[..0]) == {} && SumSet(Owns(f, self), {}) == NOTHING
    ensures |set x | x in Elements(order[..0]) && x in f && f[x].failed| == 0
  {
    assert (set x | x in Elements(order[..0]) && x in f && f[x].failed) == {};
  }

  lemma OwnCounts<Id(!new)>(f: Forest<Id>, self: map<Id, SelfMetadata>, x: Id)
    requires x in f
    ensures Owns(f, self)[x].dirs == (if f[x].isDir then 1 else 0)
    ensures Owns(f, self)[x].files == (if f[x].isDir || f[x].failed then 0 else 1)
  {
  }

  lemma OneMoreCounted<Id(!new)>(f: Forest<Id>, self: map<Id, SelfMetadata>, order: seq<Id>, n: nat)
    requires 0 < n <= |order| && Distinct(order) && (forall x :: x in order ==> x in f)
    ensures var s, t, x := Elements(order[..n]), Elements(order[..n - 1]), order[n - 1];
      && s <= f.Keys && t <= f.Keys && x in Owns(f, self)
      && SumSet(Owns(f, self), s) == SumSet(Owns(f, self), t).Plus(Owns(f, self)[x])
      && |set y | y in s && f[y].failed| == |set y | y in t && f[y].failed| + (if f[x].failed then 1 else 0)
  {
    hide SumSet, Own, Elements, Distinct;
    var x, s, t := order[n - 1], Elements(order[..n]), Elements(order[..n - 1]);
    OneMoreElement(order, n);
    KnownElements(f, order, n);
    SumSetTake(Owns(f, self), s, x);
    OneMoreFailure(f, t, x);
  }

  lemma OneMoreElement<Id(!new)>(order: seq<Id>, n: nat)
    requires 0 < n <= |order| && Distinct(order)
    ensures var s, t, x := Elements(order[..n]), Elements(order[..n - 1]), order[n - 1];
      x !in t && s == t + {x} && s - {x} == t && x in s
  {
    assert order[..n] == order[..n - 1] + [order[n - 1]];
  }

  lemma KnownElements<Id(!new)>(f: Forest<Id>, order: seq<Id>, n: nat)
    requires 0 < n <= |order| && forall x :: x in order ==> x in f
    ensures Elements(order[..n]) <= f.Keys && Elements(order[..n - 1]) <= f.Keys && order[n - 1] in f
  {
  }

  lemma OneMoreFailure<Id(!new)>(f: Forest<Id>, t: set<Id>, x: Id)
    requires t <= f.Keys && x in f && x !in t
    ensures |set y | y in t + {x} && f[y].failed| == |set y | y in t && f[y].failed| + (if f[x].failed then 1 else 0)
  {
    var failed := set y | y in t && f[y].failed;
    assert (set y | y in t + {x} && f[y].failed) == failed + (if f[x].failed then {x} else {});
  }

  lemma FlattenedSiblings<Id(!new)>(
      f: Forest<Id>, root: Id, self: map<Id, SelfMetadata>, order: seq<Id>, rows: seq<Row>)
    requires ScannerTree(f, root, self) && Flattens(f, root, order, rows)
    ensures SiblingsDiffer(rows, |rows|)
  {
    hide Rooted, Kids, Owners, Measured, LegalName;
    OrderComplete(f, root, order);
    FlattenParts(f, root, order, rows);
    forall i, j | 0 < i < j < |rows|
      ensures rows[i].parent != rows[j].parent || rows[i].name != rows[j].name
    {
      RowParent(f, root, order, i);
      RowParent(f, root, order, j);
      ParentHolds(f, root, order[i]);
      ParentHolds(f, root, order[j]);
      assert rows[i].name == rows[j].name ==> SameName(f, order[i], order[j]);
    }
  }

  lemma ParentHolds<Id(!new)>(f: Forest<Id>, root: Id, x: Id)
    requires Rooted(f, root) && x in f && f[x].parent.Some?
    ensures f[x].parent.value in f && x in f[f[x].parent.value].children
  {
    RootedParent(f, root, x);
  }

  /** s is the snapshot that a finished scan stores for f. */
  ghost predicate SnapshotOf<Id(!new)>(f: Forest<Id>, root: Id, order: seq<Id>, s: Cached)
    requires root in f
  {
    && Flattens(f, root, order, s.rows)
    && s.base == f[root].name && s.files == f[root].totals.files && s.dirs == f[root].totals.dirs + 1
    && s.errors == (|set x | x in f && f[x].failed|) && (s.complete ==> s.errors == 0)
  }

  /** The flattening of every complete scanner tree is accepted. */
  lemma ScannerSnapshotAccepted<Id(!new)>(
      f: Forest<Id>, root: Id, self: map<Id, SelfMetadata>, order: seq<Id>, s: Cached)
    requires ScannerTree(f, root, self) && SnapshotOf(f, root, order, s)
    ensures LayoutValid(s)
  {
    hide ScannerTree, Flattens, SumMatches, RowValid, SnapshotOf, HeaderValid, CountsMatch, SiblingsDiffer;
    IsFlattening(f, root, self, order, s);
    forall i | 0 <= i < |s.rows|
      ensures RowValid(s.rows, i) && SumMatches(s.rows, i)
    {
      FlattenedRowValid(f, root, self, order, s.rows, i);
      FlattenedSum(f, root, self, order, s.rows, i);
    }
    FlattenedSiblings(f, root, self, order, s.rows);
    SnapshotHeader(f, root, self, order, s);
    SnapshotCounts(f, root, self, order, s);
  }

  lemma IsFlattening<Id(!new)>(
      f: Forest<Id>, root: Id, self: map<Id, SelfMetadata>, order: seq<Id>, s: Cached)
    requires ScannerTree(f, root, self) && SnapshotOf(f, root, order, s)
    ensures Flattens(f, root, order, s.rows)
  {
  }

  lemma SnapshotHeader<Id(!new)>(
      f: Forest<Id>, root: Id, self: map<Id, SelfMetadata>, order: seq<Id>, s: Cached)
    requires ScannerTree(f, root, self) && SnapshotOf(f, root, order, s)
    ensures HeaderValid(s)
  {
    hide Rooted, Kids, Owners, Measured;
    FirstRow(f, root, order, s.rows);
    RootNatural(f, root, self);
    RootDepth(f, root);
  }

  lemma SnapshotCounts<Id(!new)>(
      f: Forest<Id>, root: Id, self: map<Id, SelfMetadata>, order: seq<Id>, s: Cached)
    requires ScannerTree(f, root, self) && SnapshotOf(f, root, order, s)
    ensures CountsMatch(s)
  {
    hide Rooted, Kids, Owners, Measured, SumSet, Owns, LegalName;
    OrderComplete(f, root, order);
    FirstRow(f, root, order, s.rows);
    RootCountsAll(f, root, self);
    CountsOfOrder(f, self, order, s.rows, |s.rows|);
    assert order[..|order|] == order;
    assert (set x | x in Elements(order) && f[x].failed) == (set x | x in f && f[x].failed);
  }

  lemma RootDepth<Id(!new)>(f: Forest<Id>, root: Id)
    requires Rooted(f, root)
    ensures f[root].depth == 0
  {
  }

  lemma FirstRow<Id(!new)>(f: Forest<Id>, root: Id, order: seq<Id>, rows: seq<Row>)
    requires Flattens(f, root, order, rows)
    ensures |rows| > 0 && order[0] == root && rows[0] == RowOf(f[root], -1)
  {
    assert order[0] == root;
  }

  lemma RootNatural<Id(!new)>(f: Forest<Id>, root: Id, self: map<Id, SelfMetadata>)
    requires ScannerTree(f, root, self)
    ensures f[root].totals.files >= 0 && f[root].totals.dirs >= 0 && !f[root].hardlink
  {
    var h := DepthBound(f);
    TotalsNatural(f, root, self, root, h);
  }

  /** What a scan stores whose root is a file: that file alone, without an error, counted once. */
  function FileScan(name: string, apparent: int, alloc: int, mtime: nat, complete: bool): Cached {
    Cached(name, 1, 0, 0, complete, [Row(name, false, 0, Totals(apparent, alloc, 0, 0, mtime), false, false, -1)])
  }

  /** A layout with a file at its root is accepted exactly if it is such a scan, or one whose file failed. */
  lemma FileRootAccepted(s: Cached)
    requires |s.rows| > 0 && !s.rows[0].isDir
    ensures var r := s.rows[0]; var scan := FileScan(r.name, r.totals.apparent, r.totals.alloc, r.totals.mtime, s.complete);
      LayoutValid(s) <==>
        && s == (if r.failed then scan.(errors := 1, complete := false, rows := [scan.rows[0].(failed := true)]) else scan)
        && r.totals.apparent >= 0 && r.totals.alloc >= 0
  {
    hide LegalName, KidsTotal;
    var r := s.rows[0];
    if |s.rows| == 1 {
      assert s.rows == [r];
      assert CountDirs(s.rows, 1) == 0 && CountFiles(s.rows, 1) == 1;
      assert CountErrors(s.rows, 1) == if r.failed then 1 else 0;
      assert RowValid(s.rows, 0) <==> RowSane(r);
      assert SumMatches(s.rows, 0) <==> r.totals.files == 0 && r.totals.dirs == 0;
    }
  }

  // What an accepted header and an accepted row say, one by one.

  ghost predicate HeaderSays(s: Cached) {
    && |s.rows| > 0 && s.rows[0].name == s.base && (s.complete ==> s.errors == 0)
    && s.dirs == |set i: nat | i < |s.rows| && s.rows[i].isDir|
    && s.errors == |set i: nat | i < |s.rows| && s.rows[i].failed|
    && s.files == |set i: nat | i < |s.rows| && !s.rows[i].isDir && (i == 0 || !s.rows[i].failed)|
  }

  ghost predicate RowSays(s: Cached, i: nat)
    requires i < |s.rows|
  {
    var r := s.rows[i];
    && r.totals.apparent >= 0 && r.totals.alloc >= 0 && r.totals.files >= 0 && r.totals.dirs >= 0
    && (r.hardlink ==> i > 0 && !r.isDir && r.totals.apparent == 0 && r.totals.alloc == 0)
    && (i == 0 ==> r.parent == -1 && r.depth == 0)
    && (i > 0 ==>
          && 0 <= r.parent < i && s.rows[r.parent].isDir && r.depth == s.rows[r.parent].depth + 1
          && r.name !in {"", ".", ".."} && (forall c :: c in r.name ==> c !in {'\0', '/', '\\'})
          && forall j :: 0 < j < i && s.rows[j].parent == r.parent ==> s.rows[j].name != r.name)
  }

  lemma AcceptedSays(s: Cached)
    requires LayoutValid(s)
    ensures HeaderSays(s) && forall i :: 0 <= i < |s.rows| ==> RowSays(s, i)
  {
    hide SumMatches;
    CountsAreSizes(s.rows, |s.rows|);
    forall i | 0 <= i < |s.rows|
      ensures RowSays(s, i)
    {
      assert RowValid(s.rows, i);
    }
  }

  lemma CountsAreSizes(rows: seq<Row>, n: nat)
    requires n == |rows|
    ensures CountDirs(rows, n) == |set i: nat | i < n && rows[i].isDir|
    ensures CountErrors(rows, n) == |set i: nat | i < n && rows[i].failed|
    ensures CountFiles(rows, n) == |set i: nat | i < n && !rows[i].isDir && (i == 0 || !rows[i].failed)|
  {
    DirsCounted(rows, n);
    ErrorsCounted(rows, n);
    FilesCounted(rows, n);
    assert (set i: nat | i < n && rows[i].isDir) == UpTo(n, AreDirs(rows));
    assert (set i: nat | i < n && rows[i].failed) == UpTo(n, AreErrors(rows));
    assert (set i: nat | i < n && !rows[i].isDir && (i == 0 || !rows[i].failed)) == UpTo(n, AreFiles(rows));
  }

  ghost function UpTo(n: nat, p: nat -> bool): set<nat> {
    set i: nat | i < n && p(i)
  }

  lemma OneMore(n: nat, p: nat -> bool)
    requires n > 0
    ensures |UpTo(n, p)| == |UpTo(n - 1, p)| + (if p(n - 1) then 1 else 0)
  {
    assert UpTo(n, p) == UpTo(n - 1, p) + (if p(n - 1) then {n - 1} else {});
  }

  ghost function AreDirs(rows: seq<Row>): nat -> bool {
    (i: nat) => i < |rows| && rows[i].isDir
  }

  ghost function AreErrors(rows: seq<Row>): nat -> bool {
    (i: nat) => i < |rows| && rows[i].failed
  }

  ghost function AreFiles(rows: seq<Row>): nat -> bool {
    (i: nat) => i < |rows| && !rows[i].isDir && (i == 0 || !rows[i].failed)
  }

  lemma {:induction false} DirsCounted(rows: seq<Row>, n: nat)
    requires n <= |rows|
    ensures CountDirs(rows, n) == |UpTo(n, AreDirs(rows))|
  {
    if n == 0 {
      assert UpTo(0, AreDirs(rows)) == {};
    } else {
      DirsCounted(rows, n - 1);
      OneMore(n, AreDirs(rows));
    }
  }

  lemma {:induction false} ErrorsCounted(rows: seq<Row>, n: nat)
    requires n <= |rows|
    ensures CountErrors(rows, n) == |UpTo(n, AreErrors(rows))|
  {
    if n == 0 {
      assert UpTo(0, AreErrors(rows)) == {};
    } else {
      ErrorsCounted(rows, n - 1);
      OneMore(n, AreErrors(rows));
    }
  }

  lemma {:induction false} FilesCounted(rows: seq<Row>, n: nat)
    requires n <= |rows|
    ensures CountFiles(rows, n) == |UpTo(n, AreFiles(rows))|
  {
    if n == 0 {
      assert UpTo(0, AreFiles(rows)) == {};
    } else {
      FilesCounted(rows, n - 1);
      OneMore(n, AreFiles(rows));
    }
  }
}
