/** What the leaf-only rows of a comparison add up to. */
module DeltaLaws {
  import opened Options
  import opened PathOrder
  import opened Ordering
  import opened FiniteSum
  import opened Forest
  import opened Snapshot
  import opened SnapshotLayout
  import opened SnapshotCheck
  import opened SnapshotLaws
  import opened Deltas

  function Bytes(m: map<Path, Row>, p: Path): int {
    RowAt(m, p).totals.apparent
  }

  ghost function BytesIn(m: map<Path, Row>): Path -> int {
    (p: Path) => Bytes(m, p)
  }

  ghost function Growth(a: map<Path, Row>, b: map<Path, Row>): Path -> int {
    (p: Path) => Bytes(b, p) - Bytes(a, p)
  }

  /** The paths of s directly inside p. */
  ghost function KidsOf(s: set<Path>, p: Path): set<Path> {
    set q | q in s && q != [] && Dir(q) == p
  }

  ghost predicate HasDir(m: map<Path, Row>, p: Path) {
    Dir(p) in m && m[Dir(p)].isDir
  }

  ghost predicate FoldsKids(m: map<Path, Row>, p: Path)
    requires p in m
  {
    m[p].totals.apparent == Sum(KidsOf(m.Keys, p), BytesIn(m))
  }

  /** The rows of one complete measurement by path: directories hold what their children hold. */
  ghost predicate PathTree(m: map<Path, Row>, root: Path) {
    && root in m
    && (forall p {:trigger HasDir(m, p)} :: p in m && p != root ==> StrictlyAbove(root, p) && HasDir(m, p))
    && forall p {:trigger FoldsKids(m, p)} :: p in m && m[p].isDir ==> FoldsKids(m, p)
  }

  // The rows of an accepted snapshot are such a tree.

  /** Linked rows whose names are single components. */
  ghost predicate Plain(rows: seq<Row>) {
    AllLinked(rows) && forall i :: 0 < i < |rows| ==> LegalName(rows[i].name)
  }

  lemma PathBelow(root: Path, rows: seq<Row>, i: nat)
    requires Plain(rows) && 0 < i < |rows|
    ensures Linked(rows, i) && RowPath(root, rows, i) == RowPath(root, rows, rows[i].parent) + [rows[i].name]
  {
    hide LegalName;
    assert Linked(rows, i);
    LegalJoin(RowPath(root, rows, rows[i].parent), rows[i].name);
  }

  lemma {:induction false} RowPathUnderRoot(root: Path, rows: seq<Row>, i: nat)
    requires Plain(rows) && i < |rows|
    ensures root <= RowPath(root, rows, i)
  {
    hide Plain;
    if i > 0 {
      PathBelow(root, rows, i);
      RowPathUnderRoot(root, rows, rows[i].parent);
    }
  }

  lemma {:induction false} PathsDiffer(root: Path, rows: seq<Row>, i: nat, j: nat)
    requires Plain(rows) && SiblingsDiffer(rows, |rows|) && i < |rows| && j < |rows|
    requires RowPath(root, rows, i) == RowPath(root, rows, j)
    ensures i == j
  {
    PathLength(root, rows, i);
    PathLength(root, rows, j);
    if i > 0 && j > 0 {
      PathBelow(root, rows, i);
      PathBelow(root, rows, j);
      var p, q := RowPath(root, rows, rows[i].parent), RowPath(root, rows, rows[j].parent);
      assert p == (p + [rows[i].name])[..|p|] == (q + [rows[j].name])[..|q|] == q;
      assert (p + [rows[i].name])[|p|] == (q + [rows[j].name])[|p|];
      PathsDiffer(root, rows, rows[i].parent, rows[j].parent);
    }
  }

  lemma {:induction false} PathLength(root: Path, rows: seq<Row>, i: nat)
    requires Plain(rows) && i < |rows|
    ensures |RowPath(root, rows, i)| == |root| + rows[i].depth && (i > 0 ==> rows[i].depth > 0)
  {
    DepthsKnown(rows, i);
    if i > 0 {
      PathBelow(root, rows, i);
      PathLength(root, rows, rows[i].parent);
      DepthsKnown(rows, rows[i].parent);
    }
  }

  /** Nothing is overwritten: the map has each row at its own path. */
  lemma {:induction false} MapHolds(root: Path, rows: seq<Row>, n: nat)
    requires Plain(rows) && SiblingsDiffer(rows, |rows|) && n <= |rows|
    ensures forall i :: 0 <= i < n ==> RowPath(root, rows, i) in PathMap(root, rows, n)
    ensures forall i :: 0 <= i < n ==> PathMap(root, rows, n)[RowPath(root, rows, i)] == rows[i]
    ensures forall p :: p in PathMap(root, rows, n) ==> exists i :: 0 <= i < n && RowPath(root, rows, i) == p
  {
    hide Plain, SiblingsDiffer, RowPath;
    if n > 0 {
      MapHolds(root, rows, n - 1);
      forall i | 0 <= i < n - 1
        ensures RowPath(root, rows, i) != RowPath(root, rows, n - 1)
      {
        if RowPath(root, rows, i) == RowPath(root, rows, n - 1) {
          PathsDiffer(root, rows, i, n - 1);
        }
      }
    }
  }

  ghost function PathsOf(root: Path, rows: seq<Row>, l: seq<nat>): set<Path>
    requires forall i :: i in l ==> i < |rows|
  {
    set i | i in l :: RowPath(root, rows, i)
  }

  /** The children of a row, by index and by path, weigh the same. */
  lemma {:induction false} ChildrenByPath(root: Path, rows: seq<Row>, l: seq<nat>)
    requires Plain(rows) && SiblingsDiffer(rows, |rows|) && Increasing(l)
    requires forall i :: i in l ==> i < |rows| && i in Built(rows)
    ensures SumOf(Built(rows), l).apparent == Sum(PathsOf(root, rows, l), BytesIn(PathMap(root, rows, |rows|)))
  {
    hide Plain, SiblingsDiffer, RowPath, PathMap, Built, Bytes, Contribution;
    var m := PathMap(root, rows, |rows|);
    if l != [] {
      var init, last := l[..|l| - 1], l[|l| - 1];
      assert l == init + [last] && last in l;
      ChildrenByPath(root, rows, init);
      PathsGrow(root, rows, l);
      SumTake(PathsOf(root, rows, l), BytesIn(m), RowPath(root, rows, last));
      RowWeight(root, rows, last);
    }
  }

  lemma PathsGrow(root: Path, rows: seq<Row>, l: seq<nat>)
    requires Plain(rows) && SiblingsDiffer(rows, |rows|) && Increasing(l) && l != []
    requires forall i :: i in l ==> i < |rows|
    ensures l[|l| - 1] in l
    ensures RowPath(root, rows, l[|l| - 1]) in PathsOf(root, rows, l)
    ensures PathsOf(root, rows, l) - {RowPath(root, rows, l[|l| - 1])} == PathsOf(root, rows, l[..|l| - 1])
  {
    hide Plain, SiblingsDiffer, RowPath;
    var init, last := l[..|l| - 1], l[|l| - 1];
    assert l == init + [last] && last in l;
    forall i | i in init
      ensures RowPath(root, rows, i) != RowPath(root, rows, last)
    {
      if RowPath(root, rows, i) == RowPath(root, rows, last) {
        PathsDiffer(root, rows, i, last);
      }
    }
  }

  lemma RowWeight(root: Path, rows: seq<Row>, i: nat)
    requires Plain(rows) && SiblingsDiffer(rows, |rows|) && i < |rows|
    ensures i in Built(rows) && Bytes(PathMap(root, rows, |rows|), RowPath(root, rows, i)) == Contribution(Built(rows)[i]).apparent
  {
    hide Plain, SiblingsDiffer, RowPath, PathMap;
    MapHolds(root, rows, |rows|);
  }

  lemma KidPaths(root: Path, rows: seq<Row>, i: nat)
    requires Plain(rows) && SiblingsDiffer(rows, |rows|) && i < |rows|
    ensures forall j :: j in Where(Parents(rows), i) ==> j < |rows|
    ensures KidsOf(PathMap(root, rows, |rows|).Keys, RowPath(root, rows, i)) == PathsOf(root, rows, Where(Parents(rows), i))
  {
    var m, p, w := PathMap(root, rows, |rows|), RowPath(root, rows, i), Where(Parents(rows), i);
    MapHolds(root, rows, |rows|);
    WhereIn(Parents(rows), i);
    forall q | q in KidsOf(m.Keys, p)
      ensures q in PathsOf(root, rows, w)
    {
      var j :| 0 <= j < |rows| && RowPath(root, rows, j) == q;
      KidRow(root, rows, i, j);
    }
    forall q | q in PathsOf(root, rows, w)
      ensures q in KidsOf(m.Keys, p)
    {
      var j :| j in w && RowPath(root, rows, j) == q;
      assert j > 0;
      PathBelow(root, rows, j);
      assert Dir(q) == p;
    }
  }

  lemma KidRow(root: Path, rows: seq<Row>, i: nat, j: nat)
    requires Plain(rows) && SiblingsDiffer(rows, |rows|) && i < |rows| && j < |rows|
    requires Dir(RowPath(root, rows, j)) == RowPath(root, rows, i) && RowPath(root, rows, j) != []
    ensures rows[j].parent == i
  {
    PathLength(root, rows, i);
    DepthsKnown(rows, i);
    if j > 0 {
      PathBelow(root, rows, j);
      assert Dir(RowPath(root, rows, j)) == RowPath(root, rows, rows[j].parent);
      PathsDiffer(root, rows, rows[j].parent, i);
    }
  }

  lemma AcceptedIsPathTree(s: Shot)
    requires s.root.Some? && LayoutValid(s.cached)
    ensures Flattenable(s) && PathTree(Flattened(s), s.root.value)
  {
    hide LayoutValid, PathMap, RowPath, Plain, SiblingsDiffer, SumMatches, HasDir, FoldsKids;
    var root, rows := s.root.value, s.cached.rows;
    var m := Flattened(s);
    ValidParts(s.cached);
    LinkedIsFlattenable(s);
    MapHolds(root, rows, |rows|);
    forall p | p in m && p != root
      ensures StrictlyAbove(root, p) && HasDir(m, p)
    {
      var i :| 0 <= i < |rows| && RowPath(root, rows, i) == p;
      HasItsDir(root, rows, i);
    }
    forall p | p in m && m[p].isDir
      ensures FoldsKids(m, p)
    {
      var i :| 0 <= i < |rows| && RowPath(root, rows, i) == p;
      FoldsHere(root, rows, i);
    }
  }

  lemma LinkedIsFlattenable(s: Shot)
    requires s.root.Some? && AllLinked(s.cached.rows)
    ensures Flattenable(s) && |s.cached.rows| > 0 && RowPath(s.root.value, s.cached.rows, 0) == s.root.value
  {
    forall i | 0 < i < |s.cached.rows|
      ensures ParentKnown(s.cached.rows, i)
    {
      assert Linked(s.cached.rows, i);
    }
  }

  lemma ValidParts(s: Cached)
    requires LayoutValid(s)
    ensures AllLinked(s.rows) && Plain(s.rows) && SiblingsDiffer(s.rows, |s.rows|)
    ensures forall i :: 0 <= i < |s.rows| ==> SumMatches(s.rows, i)
  {
    hide SumMatches, CountsMatch, SiblingsDiffer, LegalName;
    ValidIsLinked(s);
    forall i | 0 < i < |s.rows|
      ensures LegalName(s.rows[i].name)
    {
      assert RowValid(s.rows, i);
    }
  }

  lemma HasItsDir(root: Path, rows: seq<Row>, i: nat)
    requires Plain(rows) && SiblingsDiffer(rows, |rows|) && 0 < i < |rows|
    ensures StrictlyAbove(root, RowPath(root, rows, i)) && HasDir(PathMap(root, rows, |rows|), RowPath(root, rows, i))
  {
    hide SiblingsDiffer, PathMap;
    MapHolds(root, rows, |rows|);
    PathBelow(root, rows, i);
    RowPathUnderRoot(root, rows, rows[i].parent);
    assert Dir(RowPath(root, rows, i)) == RowPath(root, rows, rows[i].parent);
  }

  lemma FoldsHere(root: Path, rows: seq<Row>, i: nat)
    requires Plain(rows) && SiblingsDiffer(rows, |rows|) && i < |rows| && SumMatches(rows, i) && rows[i].isDir
    requires RowPath(root, rows, i) in PathMap(root, rows, |rows|)
    ensures FoldsKids(PathMap(root, rows, |rows|), RowPath(root, rows, i))
  {
    hide Plain, SiblingsDiffer, PathMap, RowPath;
    MapHolds(root, rows, |rows|);
    KidPaths(root, rows, i);
    WhereIn(Parents(rows), i);
    KidsKnown(rows, i);
    ChildrenByPath(root, rows, Where(Parents(rows), i));
  }

  // Sums over the paths of two measurements.

  /** The paths with a change strictly below them. */
  ghost function Inner(a: map<Path, Row>, b: map<Path, Row>): set<Path> {
    set p | p in a.Keys + b.Keys && ChangedBelow(a, b, p)
  }

  ghost predicate ChangedBelow(a: map<Path, Row>, b: map<Path, Row>, p: Path) {
    exists q :: q in Changed(a, b) && StrictlyAbove(p, q)
  }

  /** The rows that a leaf-only filter keeps. */
  ghost function Leaves(a: map<Path, Row>, b: map<Path, Row>): set<Path> {
    Changed(a, b) - Inner(a, b)
  }

  ghost function KidsOfAll(s: set<Path>, dirs: set<Path>): set<Path> {
    set q | q in s && q != [] && Dir(q) in dirs
  }

  ghost function SumOfKids(s: set<Path>, w: Path -> int): Path -> int {
    (p: Path) => Sum(KidsOf(s, p), w)
  }

  lemma {:induction false} SumByDirs(s: set<Path>, dirs: set<Path>, w: Path -> int)
    ensures Sum(dirs, SumOfKids(s, w)) == Sum(KidsOfAll(s, dirs), w)
  {
    if dirs == {} {
      assert KidsOfAll(s, dirs) == {};
    } else {
      var p := Pick(dirs);
      SumByDirs(s, dirs - {p}, w);
      assert KidsOfAll(s, dirs) == KidsOfAll(s, dirs - {p}) + KidsOf(s, p);
      SumApart(KidsOfAll(s, dirs - {p}), KidsOf(s, p), w);
    }
  }

  /** Bytes of a file where the other measurement has a directory with entries. */
  ghost function FileBytes(m: map<Path, Row>): Path -> int {
    (p: Path) => if p in m && !m[p].isDir then Bytes(m, p) else 0
  }

  /** What the entries of a directory gained is what the directory gained, unless it was or became a file. */
  lemma KidsGrowth(a: map<Path, Row>, b: map<Path, Row>, root: Path, p: Path)
    requires PathTree(a, root) && PathTree(b, root) && root <= p
    ensures Sum(KidsOf(a.Keys + b.Keys, p), Growth(a, b)) == Growth(a, b)(p) + FileBytes(a)(p) - FileBytes(b)(p)
  {
    var kids := KidsOf(a.Keys + b.Keys, p);
    SumDifference(kids, BytesIn(b), BytesIn(a), Growth(a, b));
    KidsBytes(a, root, kids, p);
    KidsBytes(b, root, kids, p);
  }

  lemma KidsBytes(m: map<Path, Row>, root: Path, kids: set<Path>, p: Path)
    requires PathTree(m, root) && root <= p
    requires KidsOf(m.Keys, p) <= kids && forall q :: q in kids && q in m ==> q != [] && Dir(q) == p
    ensures Sum(kids, BytesIn(m)) == Bytes(m, p) - FileBytes(m)(p)
  {
    SumPart(kids, KidsOf(m.Keys, p), BytesIn(m));
    if p in m && m[p].isDir {
      assert FoldsKids(m, p);
    } else {
      if KidsOf(m.Keys, p) != {} {
        var q :| q in KidsOf(m.Keys, p);
        KidHasDir(m, root, p, q);
      }
    }
  }

  lemma KidHasDir(m: map<Path, Row>, root: Path, p: Path, q: Path)
    requires PathTree(m, root) && root <= p && q in KidsOf(m.Keys, p)
    ensures p in m && m[p].isDir
  {
    assert q != root;
    assert HasDir(m, q);
  }

  lemma KeysUnderRoot(m: map<Path, Row>, root: Path)
    requires PathTree(m, root)
    ensures forall p :: p in m ==> root <= p
  {
    forall p | p in m
      ensures root <= p
    {
      assert p != root ==> HasDir(m, p);
    }
  }

  /** Between a path and a path strictly below it stand only directories of any tree that has the lower one. */
  lemma {:induction false} DirAbove(m: map<Path, Row>, root: Path, p: Path, q: Path)
    requires PathTree(m, root) && root <= p && q in m && StrictlyAbove(p, q)
    ensures p in m && m[p].isDir && KidsOf(m.Keys, p) != {}
    decreases |q|
  {
    assert q != root;
    assert HasDir(m, q);
    if |q| == |p| + 1 {
      assert Dir(q) == p;
      assert q in KidsOf(m.Keys, p);
    } else {
      assert Dir(q)[..|p|] == q[..|p|] == p;
      DirAbove(m, root, p, Dir(q));
    }
  }

  ghost function AllPaths(a: map<Path, Row>, b: map<Path, Row>): set<Path> {
    a.Keys + b.Keys
  }

  /** The entries of the inner directories: the inner paths and the leaves except the root, and unchanged paths. */
  lemma InnerKids(a: map<Path, Row>, b: map<Path, Row>, root: Path)
    requires PathTree(a, root) && PathTree(b, root)
    ensures Inner(a, b) + Leaves(a, b) - {root} <= KidsOfAll(AllPaths(a, b), Inner(a, b))
    ensures root !in KidsOfAll(AllPaths(a, b), Inner(a, b))
  {
    KeysUnderRoot(a, root);
    KeysUnderRoot(b, root);
    forall p | p in Inner(a, b) + Leaves(a, b) && p != root
      ensures p in KidsOfAll(AllPaths(a, b), Inner(a, b))
    {
      InnerParent(a, b, root, p);
    }
    assert Dir(root) in AllPaths(a, b) ==> root <= Dir(root);
  }

  lemma InnerParent(a: map<Path, Row>, b: map<Path, Row>, root: Path, p: Path)
    requires PathTree(a, root) && PathTree(b, root) && p != root && p in Inner(a, b) + Leaves(a, b)
    ensures p != [] && p in AllPaths(a, b) && Dir(p) in Inner(a, b)
  {
    assert p in a ==> HasDir(a, p);
    assert p in b ==> HasDir(b, p);
    if p in Inner(a, b) {
      var q :| q in Changed(a, b) && StrictlyAbove(p, q);
      assert Dir(p) == p[..|p| - 1] == q[..|p| - 1];
      assert StrictlyAbove(Dir(p), q);
    } else {
      assert StrictlyAbove(Dir(p), p);
    }
  }

  /** Without unfolding anything per path: the growth of the leaves, one directory level at a time. */
  lemma LeafGrowth(a: map<Path, Row>, b: map<Path, Row>, root: Path)
    requires PathTree(a, root) && PathTree(b, root)
    ensures Sum(Leaves(a, b), Growth(a, b))
      == Growth(a, b)(root) + Sum(Inner(a, b), FileBytes(a)) - Sum(Inner(a, b), FileBytes(b))
  {
    hide PathTree, Changed, ChangedBelow;
    var inner, leaves, kids := Inner(a, b), Leaves(a, b), KidsOfAll(AllPaths(a, b), Inner(a, b));
    var g := Growth(a, b);
    SumByDirs(AllPaths(a, b), inner, g);
    InnerGrowth(a, b, root);
    InnerKids(a, b, root);
    Unreported(a, b);
    SumPart(kids, inner + leaves - {root}, g);
    assert inner + leaves - {root} == (inner - {root}) + (leaves - {root});
    SumApart(inner - {root}, leaves - {root}, g);
    RootCounted(a, b, root);
  }

  lemma Unreported(a: map<Path, Row>, b: map<Path, Row>)
    ensures forall p :: p !in Inner(a, b) + Leaves(a, b) ==> Growth(a, b)(p) == 0
  {
  }

  lemma InnerGrowth(a: map<Path, Row>, b: map<Path, Row>, root: Path)
    requires PathTree(a, root) && PathTree(b, root)
    ensures Sum(Inner(a, b), SumOfKids(AllPaths(a, b), Growth(a, b)))
      == Sum(Inner(a, b), Growth(a, b)) + Sum(Inner(a, b), FileBytes(a)) - Sum(Inner(a, b), FileBytes(b))
  {
    hide ChangedBelow, Changed;
    var inner := Inner(a, b);
    var lost := (p: Path) => FileBytes(b)(p) - FileBytes(a)(p);
    KeysUnderRoot(a, root);
    KeysUnderRoot(b, root);
    forall p | p in inner
      ensures SumOfKids(AllPaths(a, b), Growth(a, b))(p) == Growth(a, b)(p) - lost(p)
    {
      KidsGrowth(a, b, root, p);
    }
    SumDifference(inner, Growth(a, b), lost, SumOfKids(AllPaths(a, b), Growth(a, b)));
    SumDifference(inner, FileBytes(b), FileBytes(a), lost);
  }

  /** The root is inner, or it is the only path that can be reported. */
  lemma RootCounted(a: map<Path, Row>, b: map<Path, Row>, root: Path)
    requires PathTree(a, root) && PathTree(b, root)
    ensures Sum(Leaves(a, b), Growth(a, b)) - Sum(Leaves(a, b) - {root}, Growth(a, b))
      + Sum(Inner(a, b), Growth(a, b)) - Sum(Inner(a, b) - {root}, Growth(a, b)) == Growth(a, b)(root)
  {
    var inner, leaves, g := Inner(a, b), Leaves(a, b), Growth(a, b);
    if root in inner {
      SumTake(inner, g, root);
      assert leaves - {root} == leaves;
    } else {
      assert inner - {root} == inner;
      if root in leaves {
        SumTake(leaves, g, root);
      } else {
        assert leaves - {root} == leaves;
        Unreported(a, b);
      }
    }
  }

  // From sets of paths to the rows of the report.

  function SumRows(l: seq<Delta>): int {
    if l == [] then 0 else SumRows(l[..|l| - 1]) + l[|l| - 1].apparentDelta
  }

  const LEAVES_ONLY := Filter(Kind.All, -1, 0, true)

  /** The files of one measurement that are directories with entries in the other. */
  ghost function FilesBecomingDirs(a: map<Path, Row>, b: map<Path, Row>): set<Path> {
    set p | p in a && !a[p].isDir && KidsOf(b.Keys, p) != {}
  }

  lemma InnerFiles(a: map<Path, Row>, b: map<Path, Row>, root: Path)
    requires PathTree(a, root) && PathTree(b, root)
    ensures FilesBecomingDirs(a, b) <= Inner(a, b)
    ensures forall p :: p in Inner(a, b) && p in a && !a[p].isDir ==> p in FilesBecomingDirs(a, b)
  {
    KeysUnderRoot(a, root);
    forall p | p in FilesBecomingDirs(a, b)
      ensures p in Inner(a, b)
    {
      var q :| q in KidsOf(b.Keys, p);
      if q in a {
        KidHasDir(a, root, p, q);
      }
      assert q in Changed(a, b) && StrictlyAbove(p, q);
    }
    forall p | p in Inner(a, b) && p in a && !a[p].isDir
      ensures p in FilesBecomingDirs(a, b)
    {
      var q :| q in Changed(a, b) && StrictlyAbove(p, q);
      if q in a {
        DirAbove(a, root, p, q);
      } else {
        DirAbove(b, root, p, q);
      }
    }
  }

  lemma InnerFileBytes(a: map<Path, Row>, b: map<Path, Row>, root: Path)
    requires PathTree(a, root) && PathTree(b, root)
    ensures Sum(Inner(a, b), FileBytes(a)) == Sum(FilesBecomingDirs(a, b), BytesIn(a))
  {
    hide Inner, PathTree;
    InnerFiles(a, b, root);
    SumPart(Inner(a, b), FilesBecomingDirs(a, b), FileBytes(a));
    FiniteSum.SumAgrees(FilesBecomingDirs(a, b), FileBytes(a), BytesIn(a));
  }

  lemma InnerSymmetric(a: map<Path, Row>, b: map<Path, Row>)
    ensures Inner(a, b) == Inner(b, a) && Changed(a, b) == Changed(b, a)
  {
    assert Changed(a, b) == Changed(b, a);
  }

  /** Rows that a report holds: one for each path that differs. */
  ghost predicate Reports(l: seq<Delta>, a: map<Path, Row>, b: map<Path, Row>) {
    && (forall i :: 0 <= i < |l| ==> l[i].path in Changed(a, b) && l[i].apparentDelta == Growth(a, b)(l[i].path))
    && (forall p :: p in Changed(a, b) ==> HasRow(l, p))
    && forall i, j :: 0 <= i < j < |l| ==> l[i].path != l[j].path
  }

  ghost function PathsIn(l: seq<Delta>): set<Path> {
    set d | d in l :: d.path
  }

  lemma {:induction false} RowsSum(l: seq<Delta>, w: Path -> int)
    requires forall i :: 0 <= i < |l| ==> l[i].apparentDelta == w(l[i].path)
    requires forall i, j :: 0 <= i < j < |l| ==> l[i].path != l[j].path
    ensures SumRows(l) == Sum(PathsIn(l), w)
  {
    if l != [] {
      var init, last := l[..|l| - 1], l[|l| - 1];
      assert l == init + [last];
      RowsSum(init, w);
      assert PathsIn(l) == PathsIn(init) + {last.path};
      assert PathsIn(l) - {last.path} == PathsIn(init);
      SumTake(PathsIn(l), w, last.path);
    }
  }

  /** The kept rows of the first i: distinct, and exactly those whose path has no reported path below it. */
  ghost predicate KeptLeaves(l: seq<Delta>, deltas: seq<Delta>, a: map<Path, Row>, b: map<Path, Row>) {
    && (forall i :: 0 <= i < |l| ==> l[i].path in Leaves(a, b) && l[i].path in PathsIn(deltas))
    && (forall i :: 0 <= i < |l| ==> l[i].apparentDelta == Growth(a, b)(l[i].path))
    && (forall p :: p in PathsIn(deltas) && p in Leaves(a, b) ==> p in PathsIn(l))
    && forall i, j :: 0 <= i < j < |l| ==> l[i].path != l[j].path
  }

  lemma KeepsLeaf(all: seq<Delta>, root: Path, a: map<Path, Row>, b: map<Path, Row>, d: Delta)
    requires Reports(all, a, b) && d.path in Changed(a, b) && root <= d.path
    ensures Keeps(all, root, LEAVES_ONLY, d) <==> d.path in Leaves(a, b)
  {
    if NonLeaf(all, root, d.path) {
      var i :| 0 <= i < |all| && StrictlyAbove(d.path, all[i].path);
      assert all[i].path in Changed(a, b);
    }
    if ChangedBelow(a, b, d.path) {
      var q :| q in Changed(a, b) && StrictlyAbove(d.path, q);
      assert HasRow(all, q);
    }
  }

  lemma {:induction false} KeptAreLeaves(
      deltas: seq<Delta>, all: seq<Delta>, root: Path, a: map<Path, Row>, b: map<Path, Row>)
    requires Reports(all, a, b) && forall p :: p in Changed(a, b) ==> root <= p
    requires deltas <= all
    ensures KeptLeaves(Kept(deltas, all, root, LEAVES_ONLY), deltas, a, b)
  {
    hide Changed, Leaves, Keeps, KeptLeaves, PathsIn;
    if deltas == [] {
      NoneKept(a, b);
    } else {
      var init, d := deltas[..|deltas| - 1], deltas[|deltas| - 1];
      assert d == all[|deltas| - 1];
      KeptAreLeaves(init, all, root, a, b);
      KeepsLeaf(all, root, a, b, d);
      LaterPath(all, deltas);
      OneMoreKept(Kept(init, all, root, LEAVES_ONLY), deltas, a, b, d, d.(depth := |d.path| - |root|));
    }
  }

  lemma NoneKept(a: map<Path, Row>, b: map<Path, Row>)
    ensures KeptLeaves([], [], a, b)
  {
  }

  lemma LaterPath(all: seq<Delta>, deltas: seq<Delta>)
    requires deltas <= all && deltas != []
    requires forall i, j :: 0 <= i < j < |all| ==> all[i].path != all[j].path
    ensures deltas[|deltas| - 1].path !in PathsIn(deltas[..|deltas| - 1])
    ensures PathsIn(deltas) == PathsIn(deltas[..|deltas| - 1]) + {deltas[|deltas| - 1].path}
  {
    var init, d := deltas[..|deltas| - 1], deltas[|deltas| - 1];
    assert deltas == init + [d];
    forall e | e in init
      ensures e.path != d.path
    {
      var i :| 0 <= i < |init| && init[i] == e;
      assert all[i].path != all[|init|].path;
    }
  }

  lemma OneMoreKept(l: seq<Delta>, deltas: seq<Delta>, a: map<Path, Row>, b: map<Path, Row>, d: Delta, e: Delta)
    requires deltas != [] && d == deltas[|deltas| - 1] && KeptLeaves(l, deltas[..|deltas| - 1], a, b)
    requires e.path == d.path && e.apparentDelta == Growth(a, b)(d.path)
    requires d.path !in PathsIn(deltas[..|deltas| - 1])
    requires PathsIn(deltas) == PathsIn(deltas[..|deltas| - 1]) + {d.path}
    ensures d.path in Leaves(a, b) ==> KeptLeaves(l + [e], deltas, a, b)
    ensures d.path !in Leaves(a, b) ==> KeptLeaves(l, deltas, a, b)
  {
    hide Leaves, Growth;
    if d.path in Leaves(a, b) {
      assert PathsIn(l + [e]) == PathsIn(l) + {e.path} by {
        assert e in l + [e];
        assert forall x :: x in l ==> x in l + [e];
      }
    }
  }

  /** No two different rows of the list are above one another. */
  ghost predicate Antichain(l: seq<Delta>) {
    forall i, j :: 0 <= i < |l| && 0 <= j < |l| ==> !StrictlyAbove(l[i].path, l[j].path)
  }

  /** Two snapshots of one root that their stores accept. */
  ghost predicate Pair(previous: Shot, current: Shot) {
    && previous.root == current.root && previous.fingerprint == current.fingerprint && previous.root.Some?
    && LayoutValid(previous.cached) && LayoutValid(current.cached)
  }

  lemma PairIsComparable(previous: Shot, current: Shot)
    requires Pair(previous, current)
    ensures Comparable(previous, current)
    ensures PathTree(Flattened(previous), previous.root.value) && PathTree(Flattened(current), previous.root.value)
  {
    hide LayoutValid, PathTree;
    AcceptedIsPathTree(previous);
    AcceptedIsPathTree(current);
  }

  /** Compare answers on two accepted snapshots of one root. */
  lemma PairIsCompared(previous: Shot, current: Shot)
    requires Pair(previous, current)
    ensures Comparable(previous, current) && UnderRoot(previous, current)
  {
    hide LayoutValid, PathTree, PathMap, Differs;
    PairIsComparable(previous, current);
    KeysUnderRoot(Flattened(previous), previous.root.value);
    KeysUnderRoot(Flattened(current), previous.root.value);
  }

  lemma ComparisonReports(previous: Shot, current: Shot)
    requires Comparable(previous, current)
    ensures Reports(Comparison(previous, current), Flattened(previous), Flattened(current))
  {
    hide Changed, DeltaBefore, PathMap, InOrder;
    var a, b, root := Flattened(previous), Flattened(current), previous.root.value;
    var rows := RowsFor(a, b, root, Changed(a, b));
    MagnitudeLaws();
    MagnitudeDecides(rows);
    InOrderElements(rows, BY_MAGNITUDE);
    ListReports(Comparison(previous, current), a, b, root);
  }

  lemma NotBeforeItself(d: Delta)
    ensures !BY_MAGNITUDE(d, d)
  {
    LessIrreflexive(Spelled(d.path));
  }

  lemma ListReports(l: seq<Delta>, a: map<Path, Row>, b: map<Path, Row>, root: Path)
    requires Elements(l) == RowsFor(a, b, root, Changed(a, b)) && Asymmetric(BY_MAGNITUDE) && Ordered(l, BY_MAGNITUDE)
    ensures Reports(l, a, b)
  {
    hide Changed, DeltaBefore, ChangeOf;
    forall i | 0 <= i < |l|
      ensures l[i].path in Changed(a, b) && l[i] == DeltaAt(a, b, l[i].path).(depth := |l[i].path| - |root|)
    {
      assert l[i] in Elements(l);
    }
    forall p | p in Changed(a, b)
      ensures HasRow(l, p)
    {
      var d := DeltaAt(a, b, p).(depth := |p| - |root|);
      assert d in Elements(l);
    }
    forall i, j | 0 <= i < j < |l|
      ensures l[i].path != l[j].path
    {
      assert BY_MAGNITUDE(l[i], l[j]);
      NotBeforeItself(l[i]);
    }
  }

  /** Bytes of files that became directories with entries, and of files that took such a directory's place. */
  ghost function SwitchedBytes(a: map<Path, Row>, b: map<Path, Row>): int {
    Sum(FilesBecomingDirs(a, b), BytesIn(a)) - Sum(FilesBecomingDirs(b, a), BytesIn(b))
  }

  /** The leaf rows of a report, and what they add up to. */
  lemma LeavesOfReport(deltas: seq<Delta>, a: map<Path, Row>, b: map<Path, Row>, root: Path)
    requires PathTree(a, root) && PathTree(b, root) && Reports(deltas, a, b)
    ensures Antichain(Filtered(deltas, root, LEAVES_ONLY))
    ensures SumRows(Filtered(deltas, root, LEAVES_ONLY)) == Growth(a, b)(root) + SwitchedBytes(a, b)
    ensures forall i :: 0 <= i < |deltas| ==> root <= deltas[i].path
  {
    hide PathTree, Growth, Changed, FileBytes, FilesBecomingDirs, Keeps, Inner;
    KeysUnderRoot(a, root);
    KeysUnderRoot(b, root);
    ChangedKnown(a, b);
    KeptAreLeaves(deltas, deltas, root, a, b);
    var kept := Filtered(deltas, root, LEAVES_ONLY);
    NoneAbove(kept, deltas, a, b);
    RowsSum(kept, Growth(a, b));
    LeafPaths(kept, deltas, a, b);
    LeafGrowth(a, b, root);
    InnerFileBytes(a, b, root);
    InnerFileBytes(b, a, root);
    InnerSymmetric(a, b);
  }

  lemma ChangedKnown(a: map<Path, Row>, b: map<Path, Row>)
    ensures forall p :: p in Changed(a, b) ==> p in a || p in b
  {
  }

  lemma NoneAbove(kept: seq<Delta>, deltas: seq<Delta>, a: map<Path, Row>, b: map<Path, Row>)
    requires KeptLeaves(kept, deltas, a, b)
    ensures Antichain(kept)
  {
    forall i, j | 0 <= i < |kept| && 0 <= j < |kept|
      ensures !StrictlyAbove(kept[i].path, kept[j].path)
    {
      assert kept[j].path in Changed(a, b) && !ChangedBelow(a, b, kept[i].path);
    }
  }

  lemma LeafPaths(kept: seq<Delta>, deltas: seq<Delta>, a: map<Path, Row>, b: map<Path, Row>)
    requires KeptLeaves(kept, deltas, a, b) && Reports(deltas, a, b)
    ensures PathsIn(kept) == Leaves(a, b)
  {
    forall p | p in Leaves(a, b)
      ensures p in PathsIn(kept)
    {
      assert HasRow(deltas, p);
      var i :| 0 <= i < |deltas| && deltas[i].path == p;
      assert deltas[i] in deltas;
    }
    forall p | p in PathsIn(kept)
      ensures p in Leaves(a, b)
    {
      var d :| d in kept && d.path == p;
      var i :| 0 <= i < |kept| && kept[i] == d;
    }
  }

  /** The leaf-only rows of two accepted snapshots: never one above another, and together the growth of the root
      plus the files that became directories, less the files that replaced directories. */
  lemma LeafRowsSum(previous: Shot, current: Shot)
    requires Pair(previous, current)
    ensures Comparable(previous, current) && UnderRoot(previous, current)
    ensures var root := previous.root.value;
      var leaves := Filtered(Comparison(previous, current), root, LEAVES_ONLY);
      && Refusal(Comparison(previous, current), root, LEAVES_ONLY) == None
      && Antichain(leaves)
      && SumRows(leaves) == current.cached.rows[0].totals.apparent - previous.cached.rows[0].totals.apparent
         + SwitchedBytes(Flattened(previous), Flattened(current))
  {
    hide LayoutValid, PathTree, InOrder, Filtered, Comparable, SwitchedBytes, PathMap;
    PairIsCompared(previous, current);
    PairIsComparable(previous, current);
    ComparisonReports(previous, current);
    var a, b, root := Flattened(previous), Flattened(current), previous.root.value;
    LeavesOfReport(Comparison(previous, current), a, b, root);
    RootRow(previous);
    RootRow(current);
  }

  lemma RootRow(s: Shot)
    requires s.root.Some? && LayoutValid(s.cached)
    ensures Bytes(Flattened(s), s.root.value) == s.cached.rows[0].totals.apparent
  {
    hide CountsMatch, SumMatches;
    ValidParts(s.cached);
    MapHolds(s.root.value, s.cached.rows, |s.cached.rows|);
    assert RowPath(s.root.value, s.cached.rows, 0) == s.root.value;
  }

  /** No path is a file in one snapshot and a directory in the other. */
  ghost predicate KindsKept(previous: Shot, current: Shot)
    requires previous.root.Some? && current.root.Some?
  {
    forall p :: p in Flattened(previous) && p in Flattened(current) ==>
      Flattened(previous)[p].isDir == Flattened(current)[p].isDir
  }

  /** Then the leaf-only rows add up to the growth of the root. */
  lemma LeafRowsAddUp(previous: Shot, current: Shot)
    requires Pair(previous, current) && KindsKept(previous, current)
    ensures Comparable(previous, current)
    ensures SumRows(Filtered(Comparison(previous, current), previous.root.value, LEAVES_ONLY))
      == current.cached.rows[0].totals.apparent - previous.cached.rows[0].totals.apparent
  {
    hide PathMap, Filtered, Comparison, Comparable, LayoutValid;
    LeafRowsSum(previous, current);
    PairIsComparable(previous, current);
    NoSwitch(Flattened(previous), Flattened(current), previous.root.value);
    NoSwitch(Flattened(current), Flattened(previous), previous.root.value);
    SumOfNone(Flattened(previous));
    SumOfNone(Flattened(current));
  }

  lemma SumOfNone(m: map<Path, Row>)
    ensures Sum({}, BytesIn(m)) == 0
  {
  }

  lemma NoSwitch(a: map<Path, Row>, b: map<Path, Row>, root: Path)
    requires PathTree(a, root) && PathTree(b, root)
    requires forall p :: p in a && p in b ==> a[p].isDir == b[p].isDir
    ensures FilesBecomingDirs(a, b) == {}
  {
    KeysUnderRoot(a, root);
    if FilesBecomingDirs(a, b) != {} {
      var p :| p in FilesBecomingDirs(a, b);
      var q :| q in KidsOf(b.Keys, p);
      KidHasDir(b, root, p, q);
    }
  }

  // A file that becomes a directory breaks the sum.

  const ROOT_PATH: Path := ["r"]
  const X_PATH: Path := ["r", "x"]
  const Y_PATH: Path := ["r", "x", "y"]

  const ONE_FILE := Cached("r", 1, 1, 0, true, [
    Row("r", true, 0, Totals(5, 0, 1, 0, 0), false, false, -1),
    Row("x", false, 1, Totals(5, 0, 0, 0, 0), false, false, 0)])

  const ONE_DIRECTORY := Cached("r", 1, 2, 0, true, [
    Row("r", true, 0, Totals(7, 0, 1, 1, 0), false, false, -1),
    Row("x", true, 1, Totals(7, 0, 1, 0, 0), false, false, 0),
    Row("y", false, 2, Totals(7, 0, 0, 0, 0), false, false, 1)])

  const FILE_SHOT := Shot(Some(ROOT_PATH), "f", ONE_FILE)
  const DIRECTORY_SHOT := Shot(Some(ROOT_PATH), "f", ONE_DIRECTORY)

  lemma FileShotValid()
    ensures LayoutValid(ONE_FILE)
  {
    hide SumMatches, CountsMatch;
    FileShotSums();
    FileShotCounts();
    assert RowValid(ONE_FILE.rows, 0) && RowValid(ONE_FILE.rows, 1);
  }

  lemma FileShotSums()
    ensures SumMatches(ONE_FILE.rows, 0) && SumMatches(ONE_FILE.rows, 1)
  {
    OneKid(ONE_FILE.rows, 0, 1);
  }

  lemma FileShotCounts()
    ensures CountsMatch(ONE_FILE)
  {
    var rows := ONE_FILE.rows;
    assert CountDirs(rows, 1) == 1 && CountFiles(rows, 1) == 0 && CountErrors(rows, 1) == 0;
  }

  lemma DirectoryShotValid()
    ensures LayoutValid(ONE_DIRECTORY)
  {
    hide SumMatches, CountsMatch;
    DirectoryShotSums();
    DirectoryShotCounts();
    assert RowValid(ONE_DIRECTORY.rows, 0) && RowValid(ONE_DIRECTORY.rows, 1) && RowValid(ONE_DIRECTORY.rows, 2);
  }

  lemma DirectoryShotSums()
    ensures SumMatches(ONE_DIRECTORY.rows, 0) && SumMatches(ONE_DIRECTORY.rows, 1) && SumMatches(ONE_DIRECTORY.rows, 2)
  {
    hide KidsTotal;
    OneKid(ONE_DIRECTORY.rows, 0, 1);
    OneKid(ONE_DIRECTORY.rows, 1, 2);
  }

  lemma DirectoryShotCounts()
    ensures CountsMatch(ONE_DIRECTORY)
  {
    var rows := ONE_DIRECTORY.rows;
    assert CountDirs(rows, 1) == 1 && CountFiles(rows, 1) == 0 && CountErrors(rows, 1) == 0;
    assert CountDirs(rows, 2) == 2 && CountFiles(rows, 2) == 0 && CountErrors(rows, 2) == 0;
  }

  lemma OneKid(rows: seq<Row>, i: nat, c: nat)
    requires i < |rows| && c < |rows| && rows[c].parent == i
    requires forall j :: 0 <= j < |rows| && rows[j].parent == i ==> j == c
    ensures KidsTotal(rows, i) == RowContribution(rows[c])
  {
    KidsKnown(rows, i);
    WhereIn(Parents(rows), i);
    OnlyElement(Where(Parents(rows), i), c);
    assert [c][..0] == [];
    assert SumOf(Built(rows), [c]) == NOTHING.Plus(Contribution(Built(rows)[c]));
    RowContributes(rows, c);
    PlusNothing(RowContribution(rows[c]));
  }

  lemma OnlyElement(w: seq<nat>, c: nat)
    requires Increasing(w) && c in w && forall j :: j in w ==> j == c
    ensures w == [c]
  {
    assert w[0] in w && w[|w| - 1] in w;
  }

  lemma ShotMaps()
    ensures Flattened(FILE_SHOT) == map[ROOT_PATH := ONE_FILE.rows[0], X_PATH := ONE_FILE.rows[1]]
    ensures Flattened(DIRECTORY_SHOT) ==
      map[ROOT_PATH := ONE_DIRECTORY.rows[0], X_PATH := ONE_DIRECTORY.rows[1], Y_PATH := ONE_DIRECTORY.rows[2]]
  {
    LegalJoin(ROOT_PATH, "x");
    LegalJoin(X_PATH, "y");
    FirstPath(ROOT_PATH, ONE_FILE.rows);
    NextPath(ROOT_PATH, ONE_FILE.rows, 1);
    FirstPath(ROOT_PATH, ONE_DIRECTORY.rows);
    NextPath(ROOT_PATH, ONE_DIRECTORY.rows, 1);
    NextPath(ROOT_PATH, ONE_DIRECTORY.rows, 2);
    assert ROOT_PATH + ["x"] == X_PATH && X_PATH + ["y"] == Y_PATH;
  }

  lemma FileBecameDirectory()
    ensures SwitchedBytes(Flattened(FILE_SHOT), Flattened(DIRECTORY_SHOT)) == 5
  {
    hide PathMap;
    ShotMaps();
    var a, b := Flattened(FILE_SHOT), Flattened(DIRECTORY_SHOT);
    assert Dir(Y_PATH) == X_PATH && Dir(X_PATH) == ROOT_PATH && Dir(ROOT_PATH) == [];
    assert Y_PATH in KidsOf(b.Keys, X_PATH);
    assert FilesBecomingDirs(a, b) == {X_PATH};
    assert KidsOf(a.Keys, Y_PATH) == {};
    assert FilesBecomingDirs(b, a) == {};
    SumTake({X_PATH}, BytesIn(a), X_PATH);
    assert {X_PATH} - {X_PATH} == {};
    SumOfNone(a);
    SumOfNone(b);
  }

  /** A file of five bytes becomes a directory with one file of seven: the root grows by two, the leaves by seven. */
  lemma LeafRowsCanDiffer()
    ensures Pair(FILE_SHOT, DIRECTORY_SHOT) && Comparable(FILE_SHOT, DIRECTORY_SHOT)
    ensures SumRows(Filtered(Comparison(FILE_SHOT, DIRECTORY_SHOT), ROOT_PATH, LEAVES_ONLY)) == 7
    ensures ONE_DIRECTORY.rows[0].totals.apparent - ONE_FILE.rows[0].totals.apparent == 2
  {
    hide LayoutValid, Comparable, SwitchedBytes, Filtered, Comparison, PathMap;
    FileShotValid();
    DirectoryShotValid();
    FileBecameDirectory();
    LeafRowsSum(FILE_SHOT, DIRECTORY_SHOT);
  }
}
