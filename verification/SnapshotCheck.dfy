/** validTreeLayout: one forward and one reverse pass over the rows. */
module SnapshotCheck {
  import opened Options
  import opened Forest
  import opened Snapshot
  import opened SnapshotLayout

  /** The largest 64-bit signed integer. */
  const MAX: int := 0x7FFF_FFFF_FFFF_FFFF

  /** base is the last component of the scanned root's path. */
  datatype Cached = Cached(base: string, files: int, dirs: int, errors: int, complete: bool, rows: seq<Row>)

  /** Every number of a row is a 64-bit signed integer. */
  ghost predicate InRange(rows: seq<Row>) {
    forall i :: 0 <= i < |rows| ==>
      && -MAX - 1 <= rows[i].totals.apparent <= MAX && -MAX - 1 <= rows[i].totals.alloc <= MAX
      && -MAX - 1 <= rows[i].totals.files <= MAX && -MAX - 1 <= rows[i].totals.dirs <= MAX
  }

  predicate LegalName(s: string) {
    s != "" && s != "." && s != ".." && '\0' !in s && '/' !in s && '\\' !in s
  }

  predicate HeaderValid(s: Cached) {
    && s.files >= 0 && s.dirs >= 0 && s.errors >= 0 && |s.rows| > 0
    && var root := s.rows[0];
    && root.parent == -1 && root.depth == 0 && root.name == s.base && !root.hardlink
    && if root.isDir then s.dirs >= 1 && root.totals.files == s.files && root.totals.dirs == s.dirs - 1
       else |s.rows| == 1 && s.files == 1 && s.dirs == 0 && root.totals.files == 0 && root.totals.dirs == 0
  }

  predicate RowSane(r: Row) {
    && r.depth >= 0 && r.totals.apparent >= 0 && r.totals.alloc >= 0 && r.totals.files >= 0 && r.totals.dirs >= 0
    && (r.hardlink ==> !r.isDir && r.totals.apparent == 0 && r.totals.alloc == 0)
  }

  predicate RowValid(rows: seq<Row>, i: nat)
    requires i < |rows|
  {
    RowSane(rows[i]) && (i > 0 ==> LegalName(rows[i].name) && Linked(rows, i))
  }

  ghost predicate SiblingsDiffer(rows: seq<Row>, n: nat)
    requires n <= |rows|
  {
    forall i, j :: 0 < i < j < n ==> rows[i].parent != rows[j].parent || rows[i].name != rows[j].name
  }

  function CountDirs(rows: seq<Row>, n: nat): nat
    requires n <= |rows|
  {
    if n == 0 then 0 else CountDirs(rows, n - 1) + if rows[n - 1].isDir then 1 else 0
  }

  /** The root counts as a file even if it failed. */
  function CountFiles(rows: seq<Row>, n: nat): nat
    requires n <= |rows|
  {
    if n == 0 then 0
    else CountFiles(rows, n - 1) + if !rows[n - 1].isDir && (n == 1 || !rows[n - 1].failed) then 1 else 0
  }

  function CountErrors(rows: seq<Row>, n: nat): nat
    requires n <= |rows|
  {
    if n == 0 then 0 else CountErrors(rows, n - 1) + if rows[n - 1].failed then 1 else 0
  }

  ghost predicate CountsMatch(s: Cached) {
    && CountDirs(s.rows, |s.rows|) == s.dirs && CountFiles(s.rows, |s.rows|) == s.files
    && CountErrors(s.rows, |s.rows|) == s.errors && (s.complete ==> s.errors == 0)
  }

  /** What the children of a row add up to. */
  ghost function KidsTotal(rows: seq<Row>, i: nat): Totals
    requires i < |rows|
  {
    KidsKnown(rows, i);
    SumOf(Built(rows), Where(Parents(rows), i))
  }

  lemma KidsKnown(rows: seq<Row>, i: nat)
    ensures forall c :: c in Where(Parents(rows), i) ==> c in Built(rows)
  {
    WhereIn(Parents(rows), i);
  }

  predicate Covers(own: Totals, kids: Totals) {
    && own.apparent == kids.apparent && own.alloc >= kids.alloc
    && own.files == kids.files && own.dirs == kids.dirs && own.mtime >= kids.mtime
  }

  ghost predicate SumMatches(rows: seq<Row>, i: nat)
    requires i < |rows|
  {
    if rows[i].isDir then Covers(rows[i].totals, KidsTotal(rows, i))
    else rows[i].totals.files == 0 && rows[i].totals.dirs == 0
  }

  /** A layout is accepted if it is one tree of sane rows whose directories hold what their children do. */
  ghost predicate LayoutValid(s: Cached) {
    && HeaderValid(s)
    && (forall i :: 0 <= i < |s.rows| ==> RowValid(s.rows, i)) && SiblingsDiffer(s.rows, |s.rows|)
    && CountsMatch(s)
    && forall i :: 0 <= i < |s.rows| ==> SumMatches(s.rows, i)
  }

  /** The forward pass. */
  method ForwardPass(s: Cached) returns (ok: bool)
    requires HeaderValid(s)
    ensures ok <==> (forall i :: 0 <= i < |s.rows| ==> RowValid(s.rows, i)) && SiblingsDiffer(s.rows, |s.rows|) && CountsMatch(s)
  {
    var rows := s.rows;
    var siblings: set<(int, string)> := {};
    var fileNodes, dirNodes, errorNodes := 0, 0, 0;
    for i := 0 to |rows|
      invariant forall j :: 0 <= j < i ==> RowValid(rows, j)
      invariant SiblingsDiffer(rows, i)
      invariant forall p, n :: (p, n) in siblings <==> exists j :: 0 < j < i && rows[j].parent == p && rows[j].name == n
      invariant dirNodes == CountDirs(rows, i) && fileNodes == CountFiles(rows, i) && errorNodes == CountErrors(rows, i)
    {
      var node := rows[i];
      if node.depth < 0 || node.totals.apparent < 0 || node.totals.alloc < 0 || node.totals.files < 0 || node.totals.dirs < 0 {
        assert !RowValid(rows, i);
        return false;
      }
      if node.isDir {
        dirNodes := dirNodes + 1;
      } else if i == 0 || !node.failed {
        fileNodes := fileNodes + 1;
      }
      if node.failed {
        errorNodes := errorNodes + 1;
      }
      if node.hardlink && (node.isDir || node.totals.apparent != 0 || node.totals.alloc != 0) {
        assert !RowValid(rows, i);
        return false;
      }
      if i == 0 {
        continue;
      }
      if !LegalName(node.name) || !Linked(rows, i) {
        assert !RowValid(rows, i);
        return false;
      }
      if (node.parent, node.name) in siblings {
        return false;
      }
      siblings := siblings + {(node.parent, node.name)};
    }
    ok := dirNodes == s.dirs && fileNodes == s.files && errorNodes == s.errors && (s.complete ==> s.errors == 0);
  }

  /** What a row adds to its parent's totals. */
  function RowContribution(r: Row): Totals {
    if r.isDir then r.totals.(dirs := r.totals.dirs + 1)
    else r.totals.(files := if r.failed then 0 else 1, dirs := 0)
  }

  lemma RowContributes(rows: seq<Row>, i: nat)
    requires i < |rows|
    ensures Contribution(NodeAt(rows, i)) == RowContribution(rows[i])
  {
  }

  /** The contributions of rows from i on to row p. */
  function SumFrom(rows: seq<Row>, i: nat, p: nat): Totals
    requires i <= |rows|
    decreases |rows| - i
  {
    if i == |rows| then NOTHING
    else if rows[i].parent == p then SumFrom(rows, i + 1, p).Plus(RowContribution(rows[i]))
    else SumFrom(rows, i + 1, p)
  }

  /** What the children of a row among the first i rows add up to. */
  ghost function KidsUpTo(rows: seq<Row>, i: nat, p: nat): Totals
    requires i <= |rows|
  {
    WhereIn(Parents(rows)[..i], p);
    SumOf(Built(rows), Where(Parents(rows)[..i], p))
  }

  lemma KidsOneMore(rows: seq<Row>, i: nat, p: nat)
    requires i < |rows|
    ensures KidsUpTo(rows, i + 1, p)
      == if rows[i].parent == p then KidsUpTo(rows, i, p).Plus(RowContribution(rows[i])) else KidsUpTo(rows, i, p)
  {
    RowContributes(rows, i);
    var q := Parents(rows)[..i + 1];
    WhereIn(Parents(rows)[..i], p);
    WhereIn(q, p);
    assert q[..i] == Parents(rows)[..i] && q[i] == rows[i].parent;
    assert Where(q, p) == Where(q[..i], p) + (if q[i] == p then [i] else []);
    if rows[i].parent == p {
      SumWithLast(Built(rows), Where(Parents(rows)[..i], p), i);
    } else {
      assert Where(q, p) == Where(q[..i], p);
    }
  }

  lemma KidsEnds(rows: seq<Row>, p: nat)
    ensures KidsUpTo(rows, 0, p) == NOTHING
    ensures p < |rows| ==> KidsUpTo(rows, |rows|, p) == KidsTotal(rows, p)
  {
    assert Parents(rows)[..0] == [] && Parents(rows)[..|rows|] == Parents(rows);
  }

  lemma {:induction false} SumSplits(rows: seq<Row>, i: nat, p: nat)
    requires i <= |rows|
    ensures KidsUpTo(rows, i, p).Plus(SumFrom(rows, i, p)) == KidsUpTo(rows, |rows|, p)
    decreases |rows| - i
  {
    hide KidsUpTo, NodeAt, RowContribution;
    if i == |rows| {
      PlusNothing(KidsUpTo(rows, i, p));
    } else {
      SumSplits(rows, i + 1, p);
      KidsOneMore(rows, i, p);
      var own, later := RowContribution(rows[i]), SumFrom(rows, i + 1, p);
      if rows[i].parent == p {
        PlusAssociative(KidsUpTo(rows, i, p), own, later);
        PlusSwaps(own, later);
      }
    }
  }

  lemma PlusSwaps(a: Totals, b: Totals)
    ensures a.Plus(b) == b.Plus(a)
  {
  }

  lemma SumWithLast(g: Forest<nat>, w: seq<nat>, i: nat)
    requires i in g && forall c :: c in w ==> c in g
    ensures SumOf(g, w + [i]) == SumOf(g, w).Plus(Contribution(g[i]))
  {
    assert (w + [i])[..|w|] == w;
  }

  lemma SumFromAll(rows: seq<Row>, p: nat)
    requires p < |rows|
    ensures SumFrom(rows, 0, p) == KidsTotal(rows, p)
  {
    SumSplits(rows, 0, p);
    KidsEnds(rows, p);
    PlusNothing(SumFrom(rows, 0, p));
  }

  /** Later rows of a parent add to its sums. */
  lemma {:induction false} SumFromGrows(rows: seq<Row>, i: nat, p: nat)
    requires i <= |rows| && forall j :: 0 <= j < |rows| ==> RowSane(rows[j])
    ensures 0 <= SumFrom(rows, i, p).apparent <= SumFrom(rows, 0, p).apparent
    ensures 0 <= SumFrom(rows, i, p).alloc <= SumFrom(rows, 0, p).alloc
    ensures 0 <= SumFrom(rows, i, p).files <= SumFrom(rows, 0, p).files
    ensures 0 <= SumFrom(rows, i, p).dirs <= SumFrom(rows, 0, p).dirs
  {
    SumFromNatural(rows, i, p);
    if i > 0 {
      SumFromGrows(rows, i - 1, p);
    }
  }

  lemma {:induction false} SumFromNatural(rows: seq<Row>, i: nat, p: nat)
    requires i <= |rows| && forall j :: 0 <= j < |rows| ==> RowSane(rows[j])
    ensures SumFrom(rows, i, p).apparent >= 0 && SumFrom(rows, i, p).alloc >= 0
    ensures SumFrom(rows, i, p).files >= 0 && SumFrom(rows, i, p).dirs >= 0
    decreases |rows| - i
  {
    if i < |rows| {
      SumFromNatural(rows, i + 1, p);
    }
  }

  /** Rows from i on have no children before i. */
  lemma {:induction false} SumFromLater(rows: seq<Row>, i: nat, p: nat)
    requires i <= p < |rows| && AllLinked(rows)
    ensures SumFrom(rows, i, p) == SumFrom(rows, 0, p)
  {
    if i > 0 {
      assert i - 1 > 0 ==> Linked(rows, i - 1);
      SumFromLater(rows, i - 1, p);
    }
  }

  /** The reverse pass. Its accumulators never leave the 64-bit range. */
  method ReversePass(rows: seq<Row>) returns (ok: bool)
    requires AllLinked(rows) && InRange(rows) && forall i :: 0 <= i < |rows| ==> RowSane(rows[i])
    ensures ok <==> forall i :: 0 <= i < |rows| ==> SumMatches(rows, i)
  {
    hide SumFrom, SumMatches, Contribution, RowSane, InRange, AllLinked;
    var n := |rows|;
    var sums := new Totals[n](_ => NOTHING);
    var i := n;
    NothingAccumulated(rows);
    while i > 0
      invariant 0 <= i <= n
      invariant forall p :: 0 <= p < n ==> sums[p] == SumFrom(rows, i, p) && TotalsFit(sums[p])
      invariant forall j :: i <= j < n ==> SumMatches(rows, j)
    {
      i := i - 1;
      CheckRow(rows, i);
      ParentBefore(rows, i);
      var row, kids := rows[i], sums[i];
      if !row.isDir {
        if row.totals.files != 0 || row.totals.dirs != 0 { return false; }
      } else if row.totals.apparent != kids.apparent || row.totals.alloc < kids.alloc || row.totals.files != kids.files
                || row.totals.dirs != kids.dirs || (kids.mtime != 0 && row.totals.mtime < kids.mtime) {
        return false;
      }
      AccumulateElsewhere(rows, i);
      if row.parent < 0 { continue; }
      AccumulateRow(rows, i);
      var fits, sum := AddChild(sums[row.parent], row);
      if !fits { return false; }
      sums[row.parent] := sum;
    }
    ok := true;
  }

  /** What one row adds to the accumulators of its parent, unless that leaves the 64-bit range. */
  method AddChild(sum: Totals, row: Row) returns (fits: bool, total: Totals)
    requires TotalsFit(sum) && RowSane(row)
    ensures fits <==> TotalsFit(sum.Plus(RowContribution(row)))
    ensures fits ==> total == sum.Plus(RowContribution(row))
  {
    total := sum;
    if sum.apparent > MAX - row.totals.apparent || sum.alloc > MAX - row.totals.alloc { return false, sum; }
    total := total.(apparent := sum.apparent + row.totals.apparent, alloc := sum.alloc + row.totals.alloc);
    if total.mtime < row.totals.mtime {
      total := total.(mtime := row.totals.mtime);
    }
    if row.isDir {
      if row.totals.files > MAX - sum.files || row.totals.dirs >= MAX - sum.dirs { return false, sum; }
      total := total.(files := sum.files + row.totals.files, dirs := sum.dirs + row.totals.dirs + 1);
    } else if !row.failed {
      if sum.files == MAX { return false, sum; }
      total := total.(files := sum.files + 1);
    }
    fits := true;
  }

  predicate TotalsFit(t: Totals) {
    0 <= t.apparent <= MAX && 0 <= t.alloc <= MAX && 0 <= t.files <= MAX && 0 <= t.dirs <= MAX
  }

  lemma NothingAccumulated(rows: seq<Row>)
    ensures forall p: nat :: SumFrom(rows, |rows|, p) == NOTHING
    ensures TotalsFit(NOTHING)
  {
  }

  lemma ParentBefore(rows: seq<Row>, i: nat)
    requires AllLinked(rows) && i < |rows| && forall j :: 0 <= j < |rows| ==> RowSane(rows[j])
    ensures rows[i].parent < i && (i > 0 ==> rows[i].parent >= 0) && RowSane(rows[i])
  {
    assert i > 0 ==> Linked(rows, i);
  }

  /** When its turn comes, a row's accumulators hold the sums over all its children. */
  lemma CheckRow(rows: seq<Row>, i: nat)
    requires AllLinked(rows) && i < |rows|
    ensures SumMatches(rows, i) <==>
      if rows[i].isDir then Covers(rows[i].totals, SumFrom(rows, i + 1, i))
      else rows[i].totals.files == 0 && rows[i].totals.dirs == 0
  {
    assert i > 0 ==> Linked(rows, i);
    assert SumFrom(rows, i, i) == SumFrom(rows, i + 1, i);
    SumFromLater(rows, i, i);
    SumFromAll(rows, i);
  }

  lemma AccumulateElsewhere(rows: seq<Row>, i: nat)
    requires i < |rows|
    ensures forall p: nat :: p != rows[i].parent ==> SumFrom(rows, i, p) == SumFrom(rows, i + 1, p)
  {
  }

  /** One more child. If its numbers do not fit, the parent's cannot match. */
  lemma AccumulateRow(rows: seq<Row>, i: nat)
    requires AllLinked(rows) && InRange(rows) && (forall j :: 0 <= j < |rows| ==> RowSane(rows[j]))
    requires 0 < i < |rows|
    ensures 0 <= rows[i].parent < i
    ensures SumFrom(rows, i, rows[i].parent) == SumFrom(rows, i + 1, rows[i].parent).Plus(RowContribution(rows[i]))
    ensures SumMatches(rows, rows[i].parent) ==> TotalsFit(SumFrom(rows, i, rows[i].parent))
  {
    assert Linked(rows, i);
    var p := rows[i].parent;
    SumFromGrows(rows, i, p);
    SumFromAll(rows, p);
  }

  /** validTreeLayout accepts exactly the valid layouts. */
  method ValidTreeLayout(s: Cached) returns (ok: bool)
    requires InRange(s.rows)
    ensures ok <==> LayoutValid(s)
  {
    hide SumMatches, CountsMatch, LegalName;
    if !HeaderValid(s) { return false; }
    ok := ForwardPass(s);
    if !ok { return false; }
    RowsLinked(s.rows);
    ok := ReversePass(s.rows);
  }

  lemma RowsLinked(rows: seq<Row>)
    requires |rows| > 0 && rows[0].parent == -1 && rows[0].depth == 0
    requires forall i :: 0 <= i < |rows| ==> RowValid(rows, i)
    ensures AllLinked(rows) && forall i :: 0 <= i < |rows| ==> RowSane(rows[i])
  {
    forall i | 0 <= i < |rows|
      ensures RowSane(rows[i]) && (i > 0 ==> Linked(rows, i))
    {
      assert RowValid(rows, i);
    }
  }

  /** ToTree: nodes first, then every node adopted by its parent. */
  method ToTree(s: Cached) returns (g: Option<Forest<nat>>)
    requires InRange(s.rows)
    ensures g.Some? <==> LayoutValid(s)
    ensures g.Some? ==> g.value == Built(s.rows) && Rooted(g.value, 0)
  {
    hide SumMatches, CountsMatch, LegalName, SiblingsDiffer, Rooted, Built;
    var ok := ValidTreeLayout(s);
    if !ok { return None; }
    RowsLinked(s.rows);
    BuiltRooted(s.rows);
    var nodes := MakeNodes(s.rows);
    nodes := AdoptAll(s.rows, nodes);
    g := Some(nodes);
  }

  /** The first loop of ToTree. */
  method MakeNodes(rows: seq<Row>) returns (nodes: Forest<nat>)
    requires AllLinked(rows)
    ensures (forall j: nat :: j in nodes <==> j < |rows|) && forall j :: 0 <= j < |rows| ==> nodes[j] == Alone(rows, j)
  {
    nodes := map[];
    for i := 0 to |rows|
      invariant forall j: nat :: j in nodes <==> j < i
      invariant forall j :: 0 <= j < i ==> nodes[j] == Alone(rows, j)
    {
      var f := rows[i];
      DepthsKnown(rows, i);
      nodes := nodes[i := Node(f.name, f.isDir, f.depth, f.totals, f.hardlink, f.failed, None, [])];
    }
  }

  /** The second loop of ToTree. */
  method AdoptAll(rows: seq<Row>, alone: Forest<nat>) returns (nodes: Forest<nat>)
    requires AllLinked(rows) && forall j: nat :: j in alone <==> j < |rows|
    requires forall j :: 0 <= j < |rows| ==> alone[j] == Alone(rows, j)
    ensures nodes == Built(rows)
  {
    hide Where, Built, Linked, AllLinked;
    nodes := alone;
    NothingAdopted(rows);
    for i := 0 to |rows|
      invariant forall j: nat :: j in nodes <==> j < |rows|
      invariant forall j :: 0 <= j < |rows| ==> nodes[j] == Adopting(rows, i, j)
    {
      AdoptOne(rows, i);
      if rows[i].parent < 0 { continue; }
      var p := rows[i].parent;
      nodes := nodes[p := nodes[p].(children := nodes[p].children + [i])];
      nodes := nodes[i := nodes[i].(parent := Some(p), depth := nodes[p].depth + 1)];
    }
    AllAdopted(rows, nodes);
  }

  function Alone(rows: seq<Row>, j: nat): Node<nat>
    requires j < |rows|
  {
    NodeAt(rows, j).(parent := None, children := [])
  }

  /** Node j once the first i rows have been adopted. */
  ghost function Adopting(rows: seq<Row>, i: nat, j: nat): Node<nat>
    requires j < |rows| && i <= |rows|
  {
    NodeAt(rows, j).(parent := if j < i then NodeAt(rows, j).parent else None, children := Where(Parents(rows)[..i], j))
  }

  lemma NothingAdopted(rows: seq<Row>)
    ensures forall j :: 0 <= j < |rows| ==> Adopting(rows, 0, j) == Alone(rows, j)
  {
    assert Parents(rows)[..0] == [];
  }

  lemma AdoptOne(rows: seq<Row>, i: nat)
    requires AllLinked(rows) && i < |rows|
    ensures forall j :: 0 <= j < |rows| ==> Adopting(rows, i + 1, j) == Adopting(rows, i, j).(
      parent := if j == i then NodeAt(rows, j).parent else Adopting(rows, i, j).parent,
      children := Adopting(rows, i, j).children + if rows[i].parent == j then [i] else [])
    ensures rows[i].parent >= 0 ==> rows[i].parent < i && NodeAt(rows, i).depth == NodeAt(rows, rows[i].parent).depth + 1
  {
    assert Parents(rows)[..i + 1][..i] == Parents(rows)[..i];
    DepthsKnown(rows, i);
    if i > 0 {
      assert Linked(rows, i);
      DepthsKnown(rows, rows[i].parent);
    }
  }

  lemma AllAdopted(rows: seq<Row>, nodes: Forest<nat>)
    requires forall j: nat :: j in nodes <==> j < |rows|
    requires forall j :: 0 <= j < |rows| ==> nodes[j] == Adopting(rows, |rows|, j)
    ensures nodes == Built(rows)
  {
    assert Parents(rows)[..|rows|] == Parents(rows);
    forall j: nat | j < |rows|
      ensures nodes[j] == NodeAt(rows, j)
    {
    }
    assert nodes.Keys == Built(rows).Keys;
  }
}
