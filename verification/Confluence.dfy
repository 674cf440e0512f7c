/** The authoritative tree of a file system is unique. */
module Confluence {
  import opened Options
  import opened PathOrder
  import opened Ordering
  import opened Forest
  import opened TotalsMeaning
  import opened Relocation
  import opened AliasGraph
  import opened FileSystem

  lemma PlaceOf(fs: FileSystem, root: DirKey, f: Tree, x: Ref) returns (p: DirKey)
    requires Complete(fs, root, f) && x in f && x != DirRef(root)
    ensures f[x].parent == Some(DirRef(p)) && DirRef(p) in f && Holds(fs, p, f[x].name)
    ensures EntryRef(fs, p, f[x].name) == x
    ensures IsName(f[x].name)
    ensures f[DirRef(p)].isDir && f[x].depth == f[DirRef(p)].depth + 1
    ensures PathOf(f, DirRef(root), x) == Join(PathOf(f, DirRef(root), DirRef(p)), f[x].name)
  {
    assert InPlace(fs, f, x);
    RootedParent(f, DirRef(root), x);
    p := f[x].parent.value.key;
  }

  /** Two complete trees show the same nodes: each node is reached from the root by entries. */
  lemma {:induction false} SameNodes(fs: FileSystem, root: DirKey, f: Tree, g: Tree, x: Ref)
    requires Complete(fs, root, f) && Complete(fs, root, g) && x in f
    ensures x in g
    decreases f[x].depth
  {
    hide Rooted;
    RootedHasRoot(f, g, DirRef(root));
    if x != DirRef(root) {
      var p := PlaceOf(fs, root, f, x);
      SameNodes(fs, root, f, g, DirRef(p));
      assert Holds(fs, p, f[x].name);
    }
  }

  lemma RootedHasRoot(f: Tree, g: Tree, root: Ref)
    requires Rooted(f, root) && Rooted(g, root)
    ensures root in f && root in g && f[root].depth == 0 == g[root].depth
    ensures f[root].parent == None == g[root].parent
  {
  }

  lemma CompleteIsRecorded(fs: FileSystem, root: DirKey, f: Tree)
    requires WellFormed(fs) && Complete(fs, root, f)
    requires forall x :: x in f ==> (f[x].isDir <==> x.DirRef?)
    ensures Recorded(f, root, FsEdges(fs))
  {
    forall k | DirRef(k) in f && k != root
      ensures OnEdge(f, FsEdges(fs), k)
    {
      var p := PlaceOf(fs, root, f, DirRef(k));
      assert Edge(f[DirRef(k)].name, k) in EdgeList(fs[p].entries);
    }
    forall k, e | e in EdgesOf(FsEdges(fs), k)
      ensures IsName(e.name)
    {
      assert Holds(fs, k, e.name);
    }
  }

  lemma KindsKnown(fs: FileSystem, root: DirKey, name: string, f: Tree, x: Ref)
    requires Authoritative(fs, root, name, f) && x in f
    ensures f[x].isDir <==> x.DirRef?
  {
    match x
    case DirRef(k) => assert DirShown(fs, f, k);
    case LeafRef(k, n) => assert LeafShown(fs, root, f, k, n);
  }

  /** Every node has the same path in both trees. */
  lemma SamePath(fs: FileSystem, root: DirKey, name: string, f: Tree, g: Tree, x: Ref)
    requires WellFormed(fs) && Authoritative(fs, root, name, f) && Authoritative(fs, root, name, g)
    requires f.Keys == g.Keys && x in f
    ensures PathOf(f, DirRef(root), x) == PathOf(g, DirRef(root), x)
  {
    hide Rooted, Canonical, WellFormed, Complete, PathOf;
    forall y | y in f
      ensures (f[y].isDir <==> y.DirRef?) && (g[y].isDir <==> y.DirRef?)
    {
      KindsKnown(fs, root, name, f, y);
      KindsKnown(fs, root, name, g, y);
    }
    CompleteIsRecorded(fs, root, f);
    CompleteIsRecorded(fs, root, g);
    PathsUnique(f, g, root, FsEdges(fs));
    CompleteRooted(fs, root, f);
    if x.DirRef? {
      assert x.key in Keys(f);
      assert DirPath(f, root, x.key) == DirPath(g, root, x.key);
    } else {
      var p := PlaceOf(fs, root, f, x);
      var q := PlaceOf(fs, root, g, x);
      assert p == x.dir == q;
      assert p in Keys(f);
      assert DirPath(f, root, p) == DirPath(g, root, p);
    }
  }

  lemma CompleteRooted(fs: FileSystem, root: DirKey, f: Tree)
    requires Complete(fs, root, f)
    ensures Rooted(f, DirRef(root)) && DirRef(root) in f
  {
  }

  /** Within one tree a path belongs to one node. */
  lemma {:induction false} PathsDistinct(fs: FileSystem, root: DirKey, f: Tree, x: Ref, y: Ref)
    requires Complete(fs, root, f) && x in f && y in f
    requires PathOf(f, DirRef(root), x) == PathOf(f, DirRef(root), y)
    ensures x == y
    decreases f[x].depth
  {
    hide Rooted, Complete, PathOf;
    CompleteRooted(fs, root, f);
    NonRootPath(f, DirRef(root), x);
    NonRootPath(f, DirRef(root), y);
    if x != DirRef(root) && y != DirRef(root) {
      var p := PlaceOf(fs, root, f, x);
      var q := PlaceOf(fs, root, f, y);
      JoinInjective(PathOf(f, DirRef(root), DirRef(p)), f[x].name, PathOf(f, DirRef(root), DirRef(q)), f[y].name);
      PathsDistinct(fs, root, f, DirRef(p), DirRef(q));
    }
  }

  lemma NonRootPath(f: Tree, root: Ref, x: Ref)
    requires Rooted(f, root) && x in f
    ensures PathOf(f, root, x) == "" <==> x == root
  {
    if x != root {
      RootedParent(f, root, x);
    }
  }

  /** Every node hangs in the same place in both trees. */
  lemma {:induction false} SamePlace(fs: FileSystem, root: DirKey, name: string, f: Tree, g: Tree, x: Ref)
    requires WellFormed(fs) && Authoritative(fs, root, name, f) && Authoritative(fs, root, name, g)
    requires f.Keys == g.Keys && x in f
    ensures f[x].parent == g[x].parent && f[x].name == g[x].name && f[x].depth == g[x].depth
    decreases f[x].depth
  {
    hide Rooted, Complete, PathOf, WellFormed, Canonical, Measured;
    CompleteRooted(fs, root, f);
    CompleteRooted(fs, root, g);
    RootedHasRoot(f, g, DirRef(root));
    if x != DirRef(root) {
      var p := PlaceOf(fs, root, f, x);
      var q := PlaceOf(fs, root, g, x);
      SamePath(fs, root, name, f, g, x);
      SamePath(fs, root, name, f, g, DirRef(p));
      JoinInjective(PathOf(f, DirRef(root), DirRef(p)), f[x].name, PathOf(g, DirRef(root), DirRef(q)), g[x].name);
      PathsDistinct(fs, root, g, DirRef(p), DirRef(q));
      SamePlace(fs, root, name, f, g, DirRef(p));
    }
  }

  lemma SameLeaf(fs: FileSystem, root: DirKey, name: string, f: Tree, g: Tree, k: DirKey, n: string)
    requires WellFormed(fs) && Authoritative(fs, root, name, f) && Authoritative(fs, root, name, g)
    requires f.Keys == g.Keys && LeafRef(k, n) in f
    ensures MeasuredAs(f[LeafRef(k, n)], g[LeafRef(k, n)]) && !f[LeafRef(k, n)].isDir
    ensures f[LeafRef(k, n)].children == [] == g[LeafRef(k, n)].children
  {
    var x := LeafRef(k, n);
    assert LeafShown(fs, root, f, k, n) && LeafShown(fs, root, g, k, n);
    CompleteRooted(fs, root, f);
    CompleteRooted(fs, root, g);
    hide Rooted, Complete, PathOf, WellFormed, Canonical, Measured;
    forall y | y in f
      ensures PathOf(f, DirRef(root), y) == PathOf(g, DirRef(root), y)
    {
      SamePath(fs, root, name, f, g, y);
    }
    assert IsDuplicate(fs, root, f, k, n) <==> IsDuplicate(fs, root, g, k, n);
    LeafHasNoChildren(f, DirRef(root), x);
    LeafHasNoChildren(g, DirRef(root), x);
  }

  /** A strictly sorted list is determined by its members. */
  lemma {:induction false} SortedSame(f: Tree, a: seq<Ref>, b: seq<Ref>)
    requires NameSorted(f, a) && NameSorted(f, b) && Distinct(a) && Distinct(b)
    requires forall x :: x in a <==> x in b
    requires forall x, y :: x in a && y in a && f[x].name == f[y].name ==> x == y
    ensures a == b
    decreases |a|
  {
    hide Less;
    EmptyTogether(a, b);
    if a != [] {
      var s, t, u, v := a[..|a| - 1], b[..|b| - 1], a[|a| - 1], b[|b| - 1];
      assert u in b && v in a;
      LastIsGreatest(f, a, v);
      LastIsGreatest(f, b, u);
      LessTotal(f[u].name, f[v].name);
      assert u == v;
      assert a == s + [u] && b == t + [v];
      assert u !in s && v !in t;
      forall x
        ensures x in s <==> x in t
      {
        assert x in s <==> x in a && x != u;
        assert x in t <==> x in b && x != v;
      }
      SortedSame(f, s, t);
    }
  }

  lemma LastIsGreatest(f: Tree, a: seq<Ref>, x: Ref)
    requires NameSorted(f, a) && x in a
    ensures x in f && a[|a| - 1] in f && !Less(f[a[|a| - 1]].name, f[x].name)
  {
    var i :| 0 <= i < |a| && a[i] == x;
    LessIrreflexive(f[x].name);
  }

  lemma SiblingNames(fs: FileSystem, root: DirKey, f: Tree, d: Ref, x: Ref, y: Ref)
    requires Complete(fs, root, f) && d in f && x in f[d].children && y in f[d].children
    ensures x in f && y in f
    ensures f[x].name == f[y].name ==> x == y
  {
    ChildDepth(f, DirRef(root), d, x);
    ChildDepth(f, DirRef(root), d, y);
    var p := PlaceOf(fs, root, f, x);
    var q := PlaceOf(fs, root, f, y);
  }

  lemma SameMembers(f: Tree, g: Tree, root: Ref, d: Ref)
    requires Rooted(f, root) && Rooted(g, root) && f.Keys == g.Keys && d in f
    requires forall x :: x in f ==> f[x].parent == g[x].parent
    ensures forall x :: x in f[d].children <==> x in g[d].children
  {
    forall x
      ensures x in f[d].children <==> x in g[d].children
    {
      if x in f[d].children {
        ChildDepth(f, root, d, x);
        RootedParent(g, root, x);
      }
      if x in g[d].children {
        ChildDepth(g, root, d, x);
        RootedParent(f, root, x);
      }
    }
  }

  lemma SameChildren(fs: FileSystem, root: DirKey, name: string, f: Tree, g: Tree, k: DirKey)
    requires WellFormed(fs) && Authoritative(fs, root, name, f) && Authoritative(fs, root, name, g)
    requires f.Keys == g.Keys && DirRef(k) in f
    ensures f[DirRef(k)].children == g[DirRef(k)].children
    ensures forall c :: c in f[DirRef(k)].children ==> c in f
  {
    hide Rooted, Complete, WellFormed, Canonical, Measured, NameSorted;
    var d := DirRef(k);
    CompleteRooted(fs, root, f);
    CompleteRooted(fs, root, g);
    forall x | x in f
      ensures f[x].parent == g[x].parent && f[x].name == g[x].name
    {
      SamePlace(fs, root, name, f, g, x);
    }
    SameMembers(f, g, DirRef(root), d);
    assert DirShown(fs, f, k) && DirShown(fs, g, k);
    SameNamesSorted(g, f, g[d].children);
    ChildrenKnown(f, DirRef(root), d);
    ChildrenKnown(g, DirRef(root), d);
    forall x, y | x in f[d].children && y in f[d].children && f[x].name == f[y].name
      ensures x == y
    {
      SiblingNames(fs, root, f, d, x, y);
    }
    SortedSame(f, f[d].children, g[d].children);
  }

  /** Everything but directory totals is the same. */
  lemma SameUpToTotals(fs: FileSystem, root: DirKey, name: string, f: Tree, g: Tree, x: Ref)
    requires WellFormed(fs) && Authoritative(fs, root, name, f) && Authoritative(fs, root, name, g)
    requires f.Keys == g.Keys && x in f
    ensures g[x] == f[x].(totals := g[x].totals)
    ensures x.LeafRef? ==> g[x] == f[x]
    ensures f[x].isDir <==> x.DirRef?
    ensures forall c :: c in f[x].children ==> c in f
  {
    hide Rooted, Complete, WellFormed, Canonical, Measured, NameSorted, PathOf;
    SamePlace(fs, root, name, f, g, x);
    match x
    case DirRef(k) =>
      assert DirShown(fs, f, k) && DirShown(fs, g, k);
      SameChildren(fs, root, name, f, g, k);
    case LeafRef(k, n) =>
      SameLeaf(fs, root, name, f, g, k, n);
  }

  /** With equal shape and equal leaves, the aggregate invariant fixes every total. */
  lemma {:induction false} SameTotals(f: Tree, g: Tree, root: Ref, self: map<Ref, SelfMetadata>, x: Ref, h: nat)
    requires Rooted(f, root) && Rooted(g, root) && Measured(f, root, self) && Measured(g, root, self)
    requires SameShape(f, g) && x in f && forall y :: y in f ==> f[y].depth <= h
    requires forall y :: y in f && !f[y].isDir ==> g[y] == f[y]
    ensures g[x] == f[x]
    decreases h - f[x].depth
  {
    hide Rooted, IsChild, Measured;
    if f[x].isDir {
      MeasuredAt(f, root, self, x);
      MeasuredAt(g, root, self, x);
      forall c | c in f[x].children
        ensures c in f && g[c] == f[c]
      {
        ChildDepth(f, root, x, c);
        SameTotals(f, g, root, self, c, h);
      }
      SumAgrees(f, g, f[x].children);
    }
  }

  lemma MeasuredAt(f: Tree, root: Ref, self: map<Ref, SelfMetadata>, d: Ref)
    requires Rooted(f, root) && Measured(f, root, self) && d in f && f[d].isDir
    ensures forall c :: c in f[d].children ==> c in f
    ensures f[d].totals == SelfOf(self, d).Plus(SumOf(f, f[d].children))
  {
    assert Balanced(f, root, self, d);
    ChildrenKnown(f, root, d);
  }

  /** Whatever order the scan's goroutines worked in, there is only one tree it can end with. */
  lemma AuthoritativeUnique(fs: FileSystem, root: DirKey, name: string, f: Tree, g: Tree)
    requires WellFormed(fs) && Authoritative(fs, root, name, f) && Authoritative(fs, root, name, g)
    ensures f == g
  {
    hide Rooted, Complete, WellFormed, Canonical, Measured;
    CompleteRooted(fs, root, f);
    CompleteRooted(fs, root, g);
    forall x
      ensures x in f <==> x in g
    {
      if x in f { SameNodes(fs, root, f, g, x); }
      if x in g { SameNodes(fs, root, g, f, x); }
    }
    assert f.Keys == g.Keys;
    forall x | x in f
      ensures g[x] == f[x].(totals := g[x].totals) && (!f[x].isDir ==> g[x] == f[x])
    {
      SameUpToTotals(fs, root, name, f, g, x);
    }
    var h := DepthBound(f);
    forall x | x in f
      ensures g[x] == f[x]
    {
      SameTotals(f, g, DirRef(root), SelfMap(fs), x, h);
    }
  }
}
