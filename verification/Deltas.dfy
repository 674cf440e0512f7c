/** Comparing two snapshots path by path, and filtering what changed. */
module Deltas {
  import opened Options
  import opened PathOrder
  import opened Ordering
  import opened Forest
  import opened Snapshot
  import opened SnapshotCheck

  /** An absolute path as its components. */
  type Path = seq<Name>

  /** A snapshot with the path it was taken at; None stands for the empty string. */
  datatype Shot = Shot(root: Option<Path>, fingerprint: string, cached: Cached)

  datatype Change = New | Grown | Shrunk | Removed

  datatype Delta = Delta(
    path: Path, depth: int, isDir: bool, change: Change, beforeApparent: int, afterApparent: int, apparentDelta: int,
    beforeAlloc: int, afterAlloc: int, allocatedDelta: int, beforeModTime: nat, afterModTime: nat)

  datatype DeltaError = DifferentRoots | InvalidLayout | Escapes | UnsupportedKind | BadDepth | BadLimit

  /** The path with its separators. */
  function Spelled(p: Path): string {
    if p == [] then "" else Join(Spelled(Dir(p)), p[|p| - 1])
  }

  /** The text between the separators. */
  function Split(s: string): (parts: seq<string>)
    ensures parts != [] && forall i :: 0 <= i < |parts| ==> '/' !in parts[i]
  {
    if s == "" then [""]
    else
      var rest := Split(s[1..]);
      if s[0] == '/' then [""] + rest else [[s[0]] + rest[0]] + rest[1..]
  }

  /** Lexical steps from p: empty parts and "." stay, ".." goes up as far as there is an up. */
  function Steps(p: Path, parts: seq<string>): Path
    requires forall i :: 0 <= i < |parts| ==> '/' !in parts[i]
  {
    if parts == [] then p
    else
      var q, part := Steps(p, parts[..|parts| - 1]), parts[|parts| - 1];
      if part == "" || part == "." then q else if part == ".." then Dir(q) else q + [part]
  }

  /** filepath.Join. */
  function PathJoin(p: Path, name: string): Path {
    Steps(p, Split(name))
  }

  lemma {:induction false} NoSeparator(s: string)
    requires '/' !in s
    ensures Split(s) == [s]
  {
    if s != "" {
      NoSeparator(s[1..]);
      assert s == [s[0]] + s[1..];
    }
  }

  /** A legal name is one more component. */
  lemma LegalJoin(p: Path, name: string)
    requires LegalName(name)
    ensures PathJoin(p, name) == p + [name]
  {
    NoSeparator(name);
    assert [name][..0] == [] && Steps(p, []) == p;
  }

  lemma {:induction false} SpelledInjective(p: Path, q: Path)
    requires Spelled(p) == Spelled(q)
    ensures p == q
  {
    if p != [] && q != [] {
      JoinInjective(Spelled(Dir(p)), p[|p| - 1], Spelled(Dir(q)), q[|q| - 1]);
      SpelledInjective(Dir(p), Dir(q));
      assert p == Dir(p) + [p[|p| - 1]] && q == Dir(q) + [q[|q| - 1]];
    }
  }

  function RelativeDepth(root: Path, path: Path): Result<nat, DeltaError> {
    if root <= path then Ok(|path| - |root|) else Err(Escapes)
  }

  predicate ParentKnown(rows: seq<Row>, i: nat)
    requires i < |rows|
  {
    0 <= rows[i].parent < i && rows[i].depth == rows[rows[i].parent].depth + 1
  }

  ghost predicate Flattenable(s: Shot) {
    var rows := s.cached.rows;
    && s.root.Some? && |rows| > 0 && rows[0].parent == -1
    && forall i :: 0 < i < |rows| ==> ParentKnown(rows, i)
  }

  function RowPath(root: Path, rows: seq<Row>, i: nat): Path
    requires i < |rows|
  {
    if i == 0 || !ParentKnown(rows, i) then root else PathJoin(RowPath(root, rows, rows[i].parent), rows[i].name)
  }

  /** The first n rows by path. A later row takes the place of an earlier one at the same path. */
  ghost function PathMap(root: Path, rows: seq<Row>, n: nat): map<Path, Row>
    requires n <= |rows|
  {
    if n == 0 then map[] else PathMap(root, rows, n - 1)[RowPath(root, rows, n - 1) := rows[n - 1]]
  }

  ghost function Flattened(s: Shot): map<Path, Row>
    requires s.root.Some?
  {
    PathMap(s.root.value, s.cached.rows, |s.cached.rows|)
  }

  method FlattenPaths(s: Shot) returns (r: Result<map<Path, Row>, DeltaError>)
    ensures !Flattenable(s) ==> r == Err(InvalidLayout)
    ensures Flattenable(s) ==> r == Ok(Flattened(s))
  {
    hide RowPath, PathMap;
    var rows := s.cached.rows;
    if s.root.None? || |rows| == 0 || rows[0].parent != -1 { return Err(InvalidLayout); }
    var root := s.root.value;
    var paths := [root];
    var result := map[root := rows[0]];
    FirstPath(root, rows);
    for i := 1 to |rows|
      invariant |paths| == i && (forall j :: 0 <= j < i ==> paths[j] == RowPath(root, rows, j))
      invariant forall j :: 0 < j < i ==> ParentKnown(rows, j)
      invariant result == PathMap(root, rows, i)
    {
      var node := rows[i];
      if node.parent < 0 || node.parent >= i || node.depth != rows[node.parent].depth + 1 {
        assert !ParentKnown(rows, i);
        return Err(InvalidLayout);
      }
      NextPath(root, rows, i);
      paths := paths + [PathJoin(paths[node.parent], node.name)];
      result := result[paths[i] := node];
    }
    return Ok(result);
  }

  lemma FirstPath(root: Path, rows: seq<Row>)
    requires |rows| > 0
    ensures RowPath(root, rows, 0) == root && PathMap(root, rows, 1) == map[root := rows[0]]
  {
    assert PathMap(root, rows, 0) == map[];
  }

  lemma NextPath(root: Path, rows: seq<Row>, i: nat)
    requires 0 < i < |rows| && ParentKnown(rows, i)
    ensures RowPath(root, rows, i) == PathJoin(RowPath(root, rows, rows[i].parent), rows[i].name)
    ensures PathMap(root, rows, i + 1) == PathMap(root, rows, i)[RowPath(root, rows, i) := rows[i]]
  {
  }

  const NO_ROW := Row("", false, 0, NOTHING, false, false, 0)

  function RowAt(m: map<Path, Row>, p: Path): Row {
    if p in m then m[p] else NO_ROW
  }

  function MakeDelta(path: Path, before: Row, after: Row, change: Change): Delta {
    Delta(path, 0, if change == New then after.isDir else before.isDir, change,
          before.totals.apparent, after.totals.apparent, after.totals.apparent - before.totals.apparent,
          before.totals.alloc, after.totals.alloc, after.totals.alloc - before.totals.alloc,
          before.totals.mtime, after.totals.mtime)
  }

  /** Whether a path is reported: it came, went, or has other sizes than before. */
  predicate Differs(a: map<Path, Row>, b: map<Path, Row>, p: Path) {
    if p in a && p in b then a[p].totals.apparent != b[p].totals.apparent || a[p].totals.alloc != b[p].totals.alloc
    else p in a || p in b
  }

  /** What a reported path is called. */
  function ChangeOf(a: map<Path, Row>, b: map<Path, Row>, p: Path): Change {
    if p !in a then New
    else if p !in b then Removed
    else if b[p].totals.alloc != a[p].totals.alloc then (if b[p].totals.alloc < a[p].totals.alloc then Shrunk else Grown)
    else if b[p].totals.apparent < a[p].totals.apparent then Shrunk
    else Grown
  }

  function DeltaAt(a: map<Path, Row>, b: map<Path, Row>, p: Path): Delta {
    MakeDelta(p, RowAt(a, p), RowAt(b, p), ChangeOf(a, b, p))
  }

  ghost function Changed(a: map<Path, Row>, b: map<Path, Row>): set<Path> {
    set p | p in a.Keys + b.Keys && Differs(a, b, p)
  }

  function Abs(n: int): int {
    if n < 0 then -n else n
  }

  predicate DeltaBefore(x: Delta, y: Delta) {
    if Abs(x.allocatedDelta) != Abs(y.allocatedDelta) then Abs(x.allocatedDelta) > Abs(y.allocatedDelta)
    else Less(Spelled(x.path), Spelled(y.path))
  }

  const BY_MAGNITUDE: (Delta, Delta) -> bool := (x: Delta, y: Delta) => DeltaBefore(x, y)

  /** The reported rows of the paths in s. */
  ghost function RowsFor(a: map<Path, Row>, b: map<Path, Row>, root: Path, s: set<Path>): set<Delta> {
    set p | p in s :: DeltaAt(a, b, p).(depth := |p| - |root|)
  }

  lemma MagnitudeLaws()
    ensures Asymmetric(BY_MAGNITUDE) && Transitive(BY_MAGNITUDE)
  {
    forall x, y | BY_MAGNITUDE(x, y)
      ensures !BY_MAGNITUDE(y, x)
    {
      if Less(Spelled(x.path), Spelled(y.path)) {
        LessAsymmetric(Spelled(x.path), Spelled(y.path));
      }
    }
    forall x, y, z | BY_MAGNITUDE(x, y) && BY_MAGNITUDE(y, z)
      ensures BY_MAGNITUDE(x, z)
    {
      if Less(Spelled(x.path), Spelled(y.path)) && Less(Spelled(y.path), Spelled(z.path)) {
        LessTransitive(Spelled(x.path), Spelled(y.path), Spelled(z.path));
      }
    }
  }

  lemma MagnitudeDecides(s: set<Delta>)
    requires forall x, y :: x in s && y in s && x.path == y.path ==> x == y
    ensures Decides(s, BY_MAGNITUDE)
  {
    forall x, y | x in s && y in s && x != y
      ensures BY_MAGNITUDE(x, y) || BY_MAGNITUDE(y, x)
    {
      LessTotal(Spelled(x.path), Spelled(y.path));
      if Spelled(x.path) == Spelled(y.path) {
        SpelledInjective(x.path, y.path);
      }
    }
  }

  /** l holds exactly one row for every path of s. */
  ghost predicate OneEach(l: seq<Delta>, a: map<Path, Row>, b: map<Path, Row>, s: set<Path>) {
    && (forall i :: 0 <= i < |l| ==> l[i].path in s && l[i] == DeltaAt(a, b, l[i].path))
    && (forall p :: p in s ==> HasRow(l, p))
    && forall i, j :: 0 <= i < j < |l| ==> l[i].path != l[j].path
  }

  ghost predicate HasRow(l: seq<Delta>, p: Path) {
    exists i :: 0 <= i < |l| && l[i].path == p
  }

  lemma OneMoreRow(l: seq<Delta>, a: map<Path, Row>, b: map<Path, Row>, s: set<Path>, p: Path)
    requires OneEach(l, a, b, s) && p !in s
    ensures OneEach(l + [DeltaAt(a, b, p)], a, b, s + {p})
  {
    var r := l + [DeltaAt(a, b, p)];
    assert r[|l|].path == p;
    forall q | q in s + {p}
      ensures HasRow(r, q)
    {
      if q != p {
        assert HasRow(l, q);
        var i :| 0 <= i < |l| && l[i].path == q;
        assert r[i].path == q;
      }
    }
  }

  /** The first loop of Compare: the paths of the older snapshot, which leave the newer one's map. */
  method ReportKnown(a: map<Path, Row>, b: map<Path, Row>) returns (deltas: seq<Delta>, after: map<Path, Row>)
    ensures OneEach(deltas, a, b, Changed(a, b) * a.Keys) && after == b - a.Keys
  {
    hide OneEach, DeltaAt, Differs, Changed, MakeDelta, ChangeOf;
    deltas, after := [], b;
    var todo := a.Keys;
    ghost var seen: set<Path> := {};
    NoRows(a, b);
    while todo != {}
      invariant seen <= a.Keys && todo == a.Keys - seen
      invariant after == b - seen && OneEach(deltas, a, b, Changed(a, b) * seen)
      decreases |todo|
    {
      var path :| path in todo;
      todo := todo - {path};
      var change := Compared(a, b, path);
      after := after - {path};
      OneMoreSeen(deltas, a, b, seen, path);
      if change.Some? {
        deltas := deltas + [MakeDelta(path, a[path], RowAt(b, path), change.value)];
      }
      seen := seen + {path};
      assert after == b - seen;
    }
    assert seen == a.Keys;
  }

  lemma OneMoreSeen(l: seq<Delta>, a: map<Path, Row>, b: map<Path, Row>, seen: set<Path>, p: Path)
    requires p in a && p !in seen && OneEach(l, a, b, Changed(a, b) * seen)
    ensures !Differs(a, b, p) ==> OneEach(l, a, b, Changed(a, b) * (seen + {p}))
    ensures Differs(a, b, p) ==>
      OneEach(l + [MakeDelta(p, a[p], RowAt(b, p), ChangeOf(a, b, p))], a, b, Changed(a, b) * (seen + {p}))
  {
    hide OneEach;
    if Differs(a, b, p) {
      OneMoreRow(l, a, b, Changed(a, b) * seen, p);
      assert Changed(a, b) * (seen + {p}) == Changed(a, b) * seen + {p};
    } else {
      assert Changed(a, b) * (seen + {p}) == Changed(a, b) * seen;
    }
  }

  /** The body of that loop: what to report about a path of the older snapshot. */
  method Compared(a: map<Path, Row>, b: map<Path, Row>, path: Path) returns (change: Option<Change>)
    requires path in a
    ensures change.Some? <==> Differs(a, b, path)
    ensures change.Some? ==> change.value == ChangeOf(a, b, path)
  {
    if path !in b { return Some(Removed); }
    var earlier, node := a[path], b[path];
    if earlier.totals.apparent == node.totals.apparent && earlier.totals.alloc == node.totals.alloc { return None; }
    change := Some(Grown);
    if node.totals.alloc < earlier.totals.alloc
      || (node.totals.alloc == earlier.totals.alloc && node.totals.apparent < earlier.totals.apparent) {
      change := Some(Shrunk);
    }
  }

  lemma NoRows(a: map<Path, Row>, b: map<Path, Row>)
    ensures OneEach([], a, b, Changed(a, b) * {})
  {
  }

  /** The second loop: what is left of the newer snapshot. */
  method ReportNew(a: map<Path, Row>, b: map<Path, Row>, known: seq<Delta>, after: map<Path, Row>)
    returns (deltas: seq<Delta>)
    requires OneEach(known, a, b, Changed(a, b) * a.Keys) && after == b - a.Keys
    ensures OneEach(deltas, a, b, Changed(a, b))
  {
    hide OneEach, MakeDelta, DeltaAt, Changed, ChangeOf, Differs;
    deltas := known;
    OnlyNew(a, b, after);
    var todo := after.Keys;
    ghost var seen := a.Keys;
    while todo != {}
      invariant todo <= after.Keys && todo !! seen
      invariant forall p :: p in after ==> p in todo || p in seen
      invariant a.Keys <= seen && OneEach(deltas, a, b, Changed(a, b) * seen)
      decreases |todo|
    {
      var path :| path in todo;
      todo := todo - {path};
      OneMoreNew(deltas, a, b, seen, path);
      deltas := deltas + [MakeDelta(path, NO_ROW, after[path], New)];
      seen := seen + {path};
    }
    AllSeen(a, b, seen);
  }

  lemma OnlyNew(a: map<Path, Row>, b: map<Path, Row>, after: map<Path, Row>)
    requires after == b - a.Keys
    ensures forall p :: p in after <==> p in b && p !in a
    ensures forall p :: p in after ==> after[p] == b[p]
  {
  }

  lemma OneMoreNew(l: seq<Delta>, a: map<Path, Row>, b: map<Path, Row>, seen: set<Path>, p: Path)
    requires p !in a && p in b && p !in seen && OneEach(l, a, b, Changed(a, b) * seen)
    ensures OneEach(l + [MakeDelta(p, NO_ROW, b[p], New)], a, b, Changed(a, b) * (seen + {p}))
  {
    hide OneEach;
    OneMoreRow(l, a, b, Changed(a, b) * seen, p);
    assert Changed(a, b) * (seen + {p}) == Changed(a, b) * seen + {p};
  }

  lemma AllSeen(a: map<Path, Row>, b: map<Path, Row>, seen: set<Path>)
    requires a.Keys <= seen && forall p :: p in b && p !in a ==> p in seen
    ensures Changed(a, b) * seen == Changed(a, b)
  {
  }

  /** The snapshots that Compare accepts. */
  ghost predicate Comparable(previous: Shot, current: Shot) {
    && previous.root == current.root && previous.fingerprint == current.fingerprint
    && Flattenable(previous) && Flattenable(current)
  }

  /** The answer of Compare: a row for every path that differs, the largest changes of allocation first. */
  ghost function Comparison(previous: Shot, current: Shot): seq<Delta>
    requires Comparable(previous, current)
  {
    var a, b := Flattened(previous), Flattened(current);
    InOrder(RowsFor(a, b, previous.root.value, Changed(a, b)), BY_MAGNITUDE)
  }

  // What the answer says, read off the rows of the two snapshots.

  function TotalsAt(m: map<Path, Row>, p: Path): Totals {
    if p in m then m[p].totals else Totals(0, 0, 0, 0, 0)
  }

  predicate LessThere(before: Totals, after: Totals) {
    after.alloc < before.alloc || (after.alloc == before.alloc && after.apparent < before.apparent)
  }

  /** One row: the sizes and times before and after, their differences, and what became of the path. */
  predicate RowSays(d: Delta, a: map<Path, Row>, b: map<Path, Row>, root: Path) {
    var p, before, after := d.path, TotalsAt(a, d.path), TotalsAt(b, d.path);
    && (p in a || p in b) && d.depth == |p| - |root|
    && d.beforeApparent == before.apparent && d.beforeAlloc == before.alloc && d.beforeModTime == before.mtime
    && d.afterApparent == after.apparent && d.afterAlloc == after.alloc && d.afterModTime == after.mtime
    && d.apparentDelta == after.apparent - before.apparent && d.allocatedDelta == after.alloc - before.alloc
    && d.isDir == (if p in a then a[p].isDir else b[p].isDir)
    && (d.change == New <==> p !in a) && (d.change == Removed <==> p !in b)
    && (d.change == Shrunk <==> p in a && p in b && LessThere(before, after))
    && (d.change == Grown <==> p in a && p in b && !LessThere(before, after))
  }

  predicate SizesDiffer(a: map<Path, Row>, b: map<Path, Row>, p: Path) {
    (p in a <==> p !in b) || (p in a && p in b
      && (a[p].totals.apparent != b[p].totals.apparent || a[p].totals.alloc != b[p].totals.alloc))
  }

  predicate Magnitude(n: int, m: int) {
    m >= 0 && (n == m || n == -m)
  }

  /** x may stand before y: its allocation changed more, or as much and its path comes first. */
  ghost predicate MayLead(x: Delta, y: Delta) {
    exists n, m: int :: Magnitude(x.allocatedDelta, n) && Magnitude(y.allocatedDelta, m)
      && (n > m || (n == m && Less(Spelled(x.path), Spelled(y.path))))
  }

  /** The whole report: a row for every path that differs and for no other, in order. */
  ghost predicate IsReport(l: seq<Delta>, a: map<Path, Row>, b: map<Path, Row>, root: Path) {
    && (forall i :: 0 <= i < |l| ==> RowSays(l[i], a, b, root) && SizesDiffer(a, b, l[i].path))
    && (forall p :: SizesDiffer(a, b, p) ==> HasRow(l, p))
    && (forall i, j :: 0 <= i < j < |l| ==> l[i].path != l[j].path && MayLead(l[i], l[j]))
  }

  lemma DeltaSays(a: map<Path, Row>, b: map<Path, Row>, root: Path, p: Path)
    requires p in Changed(a, b)
    ensures RowSays(DeltaAt(a, b, p).(depth := |p| - |root|), a, b, root)
  {
  }

  lemma ChangedIs(a: map<Path, Row>, b: map<Path, Row>, p: Path)
    ensures p in Changed(a, b) <==> SizesDiffer(a, b, p)
  {
  }

  lemma BeforeLeads(x: Delta, y: Delta)
    requires BY_MAGNITUDE(x, y)
    ensures MayLead(x, y) && x != y
  {
    assert Magnitude(x.allocatedDelta, Abs(x.allocatedDelta)) && Magnitude(y.allocatedDelta, Abs(y.allocatedDelta));
    LessIrreflexive(Spelled(x.path));
  }

  lemma ComparisonSays(previous: Shot, current: Shot)
    requires Comparable(previous, current)
    ensures IsReport(Comparison(previous, current), Flattened(previous), Flattened(current), previous.root.value)
  {
    hide Changed, DeltaBefore, PathMap, InOrder, DeltaAt, RowSays, SizesDiffer, MayLead;
    var a, b, root := Flattened(previous), Flattened(current), previous.root.value;
    var rows, l := RowsFor(a, b, root, Changed(a, b)), Comparison(previous, current);
    MagnitudeLaws();
    RowsByPath(a, b, root);
    MagnitudeDecides(rows);
    InOrderElements(rows, BY_MAGNITUDE);
    forall i | 0 <= i < |l|
      ensures l[i].path in Changed(a, b) && l[i] == DeltaAt(a, b, l[i].path).(depth := |l[i].path| - |root|)
      ensures RowSays(l[i], a, b, root) && SizesDiffer(a, b, l[i].path)
    {
      assert l[i] in Elements(l);
      RowOfPath(a, b, root, l[i]);
      DeltaSays(a, b, root, l[i].path);
      ChangedIs(a, b, l[i].path);
    }
    forall p | SizesDiffer(a, b, p)
      ensures HasRow(l, p)
    {
      ChangedIs(a, b, p);
      RowOfChange(a, b, root, p);
      assert DeltaAt(a, b, p).(depth := |p| - |root|) in Elements(l);
    }
    forall i, j | 0 <= i < j < |l|
      ensures l[i].path != l[j].path && MayLead(l[i], l[j])
    {
      assert BY_MAGNITUDE(l[i], l[j]);
      BeforeLeads(l[i], l[j]);
    }
  }

  lemma RowOfPath(a: map<Path, Row>, b: map<Path, Row>, root: Path, d: Delta)
    requires d in RowsFor(a, b, root, Changed(a, b))
    ensures d.path in Changed(a, b) && d == DeltaAt(a, b, d.path).(depth := |d.path| - |root|)
  {
    hide Changed;
  }

  lemma RowOfChange(a: map<Path, Row>, b: map<Path, Row>, root: Path, p: Path)
    requires p in Changed(a, b)
    ensures DeltaAt(a, b, p).(depth := |p| - |root|) in RowsFor(a, b, root, Changed(a, b))
    ensures DeltaAt(a, b, p).path == p
  {
    hide Changed;
  }

  lemma RowsByPath(a: map<Path, Row>, b: map<Path, Row>, root: Path)
    ensures var rows := RowsFor(a, b, root, Changed(a, b));
      forall x, y :: x in rows && y in rows && x.path == y.path ==> x == y
  {
    hide Changed;
  }

  /** No reported path escapes the root. */
  ghost predicate UnderRoot(previous: Shot, current: Shot)
    requires Comparable(previous, current)
  {
    forall p :: p in Changed(Flattened(previous), Flattened(current)) ==> previous.root.value <= p
  }

  method Compare(previous: Shot, current: Shot) returns (r: Result<seq<Delta>, DeltaError>)
    ensures r.Ok? <==> Comparable(previous, current) && UnderRoot(previous, current)
    ensures r.Ok? ==> r.value == Comparison(previous, current)
    ensures r.Ok? ==> IsReport(r.value, Flattened(previous), Flattened(current), previous.root.value)
    ensures r.Err? ==>
      (r.error == if previous.root != current.root || previous.fingerprint != current.fingerprint then DifferentRoots
                 else if Flattenable(previous) && Flattenable(current) then Escapes
                 else InvalidLayout)
  {
    hide OneEach, Changed, DeltaBefore, RowPath, PathMap, Flattenable, IsReport;
    if previous.root != current.root || previous.fingerprint != current.fingerprint { return Err(DifferentRoots); }
    var before :- FlattenPaths(previous);
    var after :- FlattenPaths(current);
    FlattenableRoot(previous);
    var root := previous.root.value;
    var known, left := ReportKnown(before, after);
    var deltas := ReportNew(before, after, known, left);
    var i := 0;
    ghost var plain := deltas;
    OneEachPaths(before, after, plain);
    while i < |deltas|
      invariant i <= |deltas| == |plain|
      invariant forall j :: 0 <= j < i ==> root <= plain[j].path && deltas[j] == plain[j].(depth := |plain[j].path| - |root|)
      invariant forall j :: i <= j < |plain| ==> deltas[j] == plain[j]
    {
      var depth :- RelativeDepth(root, deltas[i].path);
      deltas := deltas[i := deltas[i].(depth := depth)];
      i := i + 1;
    }
    DepthsSet(before, after, root, plain, deltas);
    SortedRows(previous, current, deltas);
    ComparisonSays(previous, current);
    return Ok(Sort(deltas, BY_MAGNITUDE));
  }

  lemma OneEachPaths(a: map<Path, Row>, b: map<Path, Row>, l: seq<Delta>)
    requires OneEach(l, a, b, Changed(a, b))
    ensures forall i :: 0 <= i < |l| ==> l[i].path in Changed(a, b)
    ensures forall p :: p in Changed(a, b) ==> exists i :: 0 <= i < |l| && l[i].path == p
  {
    hide Changed, DeltaAt;
    forall p | p in Changed(a, b)
      ensures exists i :: 0 <= i < |l| && l[i].path == p
    {
      assert HasRow(l, p);
    }
  }

  lemma FlattenableRoot(s: Shot)
    requires Flattenable(s)
    ensures s.root.Some?
  {
  }

  lemma DepthsSet(a: map<Path, Row>, b: map<Path, Row>, root: Path, plain: seq<Delta>, deltas: seq<Delta>)
    requires OneEach(plain, a, b, Changed(a, b)) && |deltas| == |plain|
    requires forall j :: 0 <= j < |plain| ==> deltas[j] == plain[j].(depth := |plain[j].path| - |root|)
    ensures Elements(deltas) == RowsFor(a, b, root, Changed(a, b))
    ensures forall i, j :: 0 <= i < j < |deltas| ==> deltas[i] != deltas[j]
  {
    hide Changed;
    forall p | p in Changed(a, b)
      ensures DeltaAt(a, b, p).(depth := |p| - |root|) in Elements(deltas)
    {
      assert HasRow(plain, p);
      var i :| 0 <= i < |plain| && plain[i].path == p;
      assert deltas[i] == DeltaAt(a, b, p).(depth := |p| - |root|);
    }
    forall d | d in Elements(deltas)
      ensures d in RowsFor(a, b, root, Changed(a, b))
    {
      var i :| 0 <= i < |deltas| && deltas[i] == d;
      assert plain[i].path in Changed(a, b);
    }
  }

  lemma SortedRows(previous: Shot, current: Shot, deltas: seq<Delta>)
    requires Comparable(previous, current)
    requires Elements(deltas) == RowsFor(Flattened(previous), Flattened(current), previous.root.value,
                                         Changed(Flattened(previous), Flattened(current)))
    requires forall i, j :: 0 <= i < j < |deltas| ==> deltas[i] != deltas[j]
    ensures Sort(deltas, BY_MAGNITUDE) == Comparison(previous, current)
  {
    hide PathMap, DeltaBefore;
    MagnitudeLaws();
    MagnitudeDecides(Elements(deltas));
    SortIsInOrder(deltas, BY_MAGNITUDE);
  }

  // Filtering.

  datatype Kind = Unset | All | File | Directory | Other(name: string)

  datatype Filter = Filter(kind: Kind, maxDepth: int, limit: int, leafOnly: bool)

  /** p is a proper ancestor of a row's path, at or below the root. */
  ghost predicate NonLeaf(deltas: seq<Delta>, root: Path, p: Path) {
    |root| <= |p| && exists i :: 0 <= i < |deltas| && StrictlyAbove(p, deltas[i].path)
  }

  predicate StrictlyAbove(p: Path, q: Path) {
    |p| < |q| && p <= q
  }

  ghost predicate Keeps(all: seq<Delta>, root: Path, filter: Filter, d: Delta) {
    && (filter.maxDepth >= 0 ==> |d.path| - |root| <= filter.maxDepth)
    && (filter.leafOnly ==> !NonLeaf(all, root, d.path))
    && (filter.kind == File ==> !d.isDir) && (filter.kind == Directory ==> d.isDir)
  }

  /** The kept rows among these, in their old order. */
  ghost function Kept(deltas: seq<Delta>, all: seq<Delta>, root: Path, filter: Filter): seq<Delta> {
    if deltas == [] then []
    else
      var d := deltas[|deltas| - 1];
      var before := Kept(deltas[..|deltas| - 1], all, root, filter);
      if Keeps(all, root, filter, d) then before + [d.(depth := |d.path| - |root|)] else before
  }

  ghost function Filtered(deltas: seq<Delta>, root: Path, filter: Filter): seq<Delta> {
    var kept := Kept(deltas, deltas, root, filter);
    if filter.limit <= 0 || |kept| <= filter.limit then kept else kept[..filter.limit]
  }

  /** What the caller asked for: the depth, the kind, and, if so asked, no other reported path below. */
  ghost predicate Wanted(deltas: seq<Delta>, root: Path, filter: Filter, i: nat)
    requires i < |deltas|
  {
    && (filter.maxDepth == -1 || |deltas[i].path| <= |root| + filter.maxDepth)
    && (filter.leafOnly ==> forall j :: 0 <= j < |deltas| ==> !(deltas[i].path < deltas[j].path))
    && !(filter.kind == File && deltas[i].isDir) && !(filter.kind == Directory && !deltas[i].isDir)
  }

  /** These are the places of the answer's rows: in order, all wanted, and up to the last of them all that are. */
  ghost predicate Places(deltas: seq<Delta>, root: Path, filter: Filter, answer: seq<Delta>, kept: seq<nat>, n: nat) {
    && |kept| == |answer| && n <= |deltas| && (forall k :: 0 <= k < |kept| ==> kept[k] < n)
    && (forall k :: 0 <= k < |kept| ==> answer[k] == deltas[kept[k]].(depth := |deltas[kept[k]].path| - |root|))
    && (forall j, k :: 0 <= j < k < |kept| ==> kept[j] < kept[k])
    && forall i :: 0 <= i < n ==> (Wanted(deltas, root, filter, i) <==> i in kept)
  }

  /** An answer to a filter: every wanted row up to some place, which is the end unless the limit is reached. */
  ghost predicate IsFiltered(deltas: seq<Delta>, root: Path, filter: Filter, answer: seq<Delta>) {
    exists kept, n :: Places(deltas, root, filter, answer, kept, n)
      && (if filter.limit <= 0 then n == |deltas|
          else |answer| <= filter.limit && (|answer| < filter.limit ==> n == |deltas|))
  }

  lemma KeepsWanted(deltas: seq<Delta>, root: Path, filter: Filter, i: nat)
    requires Refusal(deltas, root, filter).None? && i < |deltas|
    ensures Keeps(deltas, root, filter, deltas[i]) <==> Wanted(deltas, root, filter, i)
  {
    assert root <= deltas[i].path;
    forall j | 0 <= j < |deltas|
      ensures StrictlyAbove(deltas[i].path, deltas[j].path) <==> deltas[i].path < deltas[j].path
    {
    }
  }

  lemma {:induction false} KeptPlaces(deltas: seq<Delta>, root: Path, filter: Filter, n: nat) returns (kept: seq<nat>)
    requires Refusal(deltas, root, filter).None? && n <= |deltas|
    ensures Places(deltas, root, filter, Kept(deltas[..n], deltas, root, filter), kept, n)
  {
    hide Keeps, Wanted, Refusal;
    if n == 0 {
      kept := [];
    } else {
      kept := KeptPlaces(deltas, root, filter, n - 1);
      assert deltas[..n][..n - 1] == deltas[..n - 1];
      KeepsWanted(deltas, root, filter, n - 1);
      if Wanted(deltas, root, filter, n - 1) {
        kept := kept + [n - 1];
      }
    }
  }

  lemma FilteredSays(deltas: seq<Delta>, root: Path, filter: Filter)
    requires Refusal(deltas, root, filter).None?
    ensures IsFiltered(deltas, root, filter, Filtered(deltas, root, filter))
  {
    hide Wanted, Refusal, Kept;
    var kept := KeptPlaces(deltas, root, filter, |deltas|);
    assert deltas[..|deltas|] == deltas;
    var all, answer := Kept(deltas, deltas, root, filter), Filtered(deltas, root, filter);
    if |answer| == |all| {
      assert Places(deltas, root, filter, answer, kept, |deltas|);
    } else {
      var n := kept[|answer| - 1] + 1;
      FirstPlaces(deltas, root, filter, all, kept, |answer|);
      assert Places(deltas, root, filter, answer, kept[..|answer|], n);
    }
  }

  lemma FirstPlaces(deltas: seq<Delta>, root: Path, filter: Filter, all: seq<Delta>, kept: seq<nat>, m: nat)
    requires Places(deltas, root, filter, all, kept, |deltas|) && 0 < m <= |all|
    ensures Places(deltas, root, filter, all[..m], kept[..m], kept[m - 1] + 1)
  {
    hide Wanted;
    forall i | 0 <= i <= kept[m - 1]
      ensures i in kept <==> i in kept[..m]
    {
      if i in kept {
        var k :| 0 <= k < |kept| && kept[k] == i;
        assert k < m;
        assert kept[..m][k] == i;
      }
    }
  }

  /** The first failing check of FilterDeltas. */
  ghost function Refusal(deltas: seq<Delta>, root: Path, filter: Filter): Option<DeltaError> {
    if filter.kind.Other? then Some(UnsupportedKind)
    else if filter.maxDepth < -1 then Some(BadDepth)
    else if filter.limit < 0 then Some(BadLimit)
    else if exists i :: 0 <= i < |deltas| && !(root <= deltas[i].path) then Some(Escapes)
    else None
  }

  method FilterDeltas(deltas: seq<Delta>, root: Path, filter: Filter) returns (r: Result<seq<Delta>, DeltaError>)
    ensures Refusal(deltas, root, filter).Some? ==> r == Err(Refusal(deltas, root, filter).value)
    ensures Refusal(deltas, root, filter).None? ==> r == Ok(Filtered(deltas, root, filter))
    ensures r.Ok? ==> IsFiltered(deltas, root, filter, r.value)
  {
    hide Filtered, NonLeaf, IsFiltered;
    if Refusal(deltas, root, filter).None? {
      FilteredSays(deltas, root, filter);
    }
    if filter.kind.Other? { return Err(UnsupportedKind); }
    if filter.maxDepth < -1 { return Err(BadDepth); }
    if filter.limit < 0 { return Err(BadLimit); }
    var marks :- Mark(deltas, root);
    var kept := Select(deltas, root, filter, marks.0, marks.1);
    return Ok(kept);
  }

  /** The first loop of FilterDeltas: the depth of every row, and all proper ancestors of the rows. */
  method Mark(deltas: seq<Delta>, root: Path) returns (r: Result<(set<Path>, seq<nat>), DeltaError>)
    ensures r.Err? ==> r.error == Escapes && exists i :: 0 <= i < |deltas| && !(root <= deltas[i].path)
    ensures r.Ok? ==>
      && |r.value.1| == |deltas|
      && (forall i :: 0 <= i < |deltas| ==> root <= deltas[i].path && r.value.1[i] == |deltas[i].path| - |root|)
      && (forall q :: q in r.value.0 <==> NonLeaf(deltas, root, q))
  {
    hide NonLeaf;
    var nonLeaves: set<Path> := {};
    var depths: seq<nat> := [];
    NothingMarked(deltas, root);
    for i := 0 to |deltas|
      invariant |depths| == i && forall j :: 0 <= j < i ==> root <= deltas[j].path && depths[j] == |deltas[j].path| - |root|
      invariant forall q :: q in nonLeaves <==> NonLeaf(deltas[..i], root, q)
    {
      var depth :- RelativeDepth(root, deltas[i].path);
      depths := depths + [depth];
      OneMoreMarked(deltas, root, i);
      if depth > 0 {
        nonLeaves := MarkAncestors(nonLeaves, root, deltas[i].path);
      }
    }
    assert deltas[..|deltas|] == deltas;
    return Ok((nonLeaves, depths));
  }

  lemma NothingMarked(deltas: seq<Delta>, root: Path)
    ensures forall q :: !NonLeaf(deltas[..0], root, q)
  {
  }

  lemma OneMoreMarked(deltas: seq<Delta>, root: Path, i: nat)
    requires i < |deltas|
    ensures forall q :: NonLeaf(deltas[..i + 1], root, q) <==>
      NonLeaf(deltas[..i], root, q) || (|root| <= |q| && StrictlyAbove(q, deltas[i].path))
  {
    forall q
      ensures NonLeaf(deltas[..i + 1], root, q) <==>
        NonLeaf(deltas[..i], root, q) || (|root| <= |q| && StrictlyAbove(q, deltas[i].path))
    {
      if NonLeaf(deltas[..i], root, q) {
        var j :| 0 <= j < i && StrictlyAbove(q, deltas[..i][j].path);
        assert deltas[..i + 1][j] == deltas[..i][j];
      }
      if NonLeaf(deltas[..i + 1], root, q) {
        var j :| 0 <= j < i + 1 && StrictlyAbove(q, deltas[..i + 1][j].path);
        assert j < i ==> deltas[..i][j] == deltas[..i + 1][j];
      }
      assert deltas[..i + 1][i] == deltas[i];
    }
  }

  /** The inner loop of FilterDeltas. It meets the root because the path lies below it. */
  method MarkAncestors(marked: set<Path>, root: Path, path: Path) returns (r: set<Path>)
    requires root <= path && |root| < |path|
    ensures forall q :: q in r <==> q in marked || (|root| <= |q| && StrictlyAbove(q, path))
  {
    r := marked;
    var parent := Dir(path);
    while true
      invariant |root| <= |parent| < |path| && parent <= path && root <= parent
      invariant forall q :: q in r <==> q in marked || (|parent| < |q| && StrictlyAbove(q, path))
      decreases |parent|
    {
      r := r + {parent};
      SamePrefix(parent, path);
      if parent == root { break; }
      parent := Dir(parent);
    }
  }

  lemma SamePrefix(p: Path, path: Path)
    requires StrictlyAbove(p, path)
    ensures forall q :: StrictlyAbove(q, path) && |q| == |p| ==> q == p
  {
    forall q | StrictlyAbove(q, path) && |q| == |p|
      ensures q == p
    {
      assert q == path[..|p|] == p;
    }
  }

  /** The last loop of FilterDeltas. */
  method Select(deltas: seq<Delta>, root: Path, filter: Filter, nonLeaves: set<Path>, depths: seq<nat>)
    returns (result: seq<Delta>)
    requires |depths| == |deltas| && filter.limit >= 0 && filter.kind in {Unset, All, File, Directory}
    requires forall i :: 0 <= i < |deltas| ==> depths[i] == |deltas[i].path| - |root|
    requires forall q :: q in nonLeaves <==> NonLeaf(deltas, root, q)
    ensures result == Filtered(deltas, root, filter)
  {
    hide NonLeaf;
    result := [];
    for i := 0 to |deltas|
      invariant result == Kept(deltas[..i], deltas, root, filter)
      invariant filter.limit > 0 ==> |result| < filter.limit
    {
      var delta := deltas[i];
      assert deltas[..i + 1][..i] == deltas[..i];
      KeptGrows(deltas, root, filter, i + 1);
      if filter.maxDepth >= 0 && depths[i] > filter.maxDepth { continue; }
      if filter.leafOnly && delta.path in nonLeaves { continue; }
      if (filter.kind == File && delta.isDir) || (filter.kind == Directory && !delta.isDir) { continue; }
      result := result + [delta.(depth := depths[i])];
      if filter.limit > 0 && |result| == filter.limit { return; }
    }
    assert deltas[..|deltas|] == deltas;
  }

  lemma {:induction false} KeptGrows(deltas: seq<Delta>, root: Path, filter: Filter, i: nat)
    requires i <= |deltas|
    ensures Kept(deltas[..i], deltas, root, filter) <= Kept(deltas, deltas, root, filter)
    decreases |deltas| - i
  {
    hide Keeps;
    if i < |deltas| {
      KeptGrows(deltas, root, filter, i + 1);
      assert deltas[..i + 1][..i] == deltas[..i];
    } else {
      assert deltas[..i] == deltas;
    }
  }
}
