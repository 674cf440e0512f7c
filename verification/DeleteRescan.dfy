/** The in-memory delete against a scan of the file system without the deleted entry. */
module DeleteRescan {
  import opened Options
  import opened PathOrder
  import opened Ordering
  import opened Forest
  import opened TotalsMeaning
  import opened Relocation
  import opened Recompute
  import opened AliasGraph
  import opened FileOwners
  import opened FileSystem
  import opened Confluence
  import opened SnapshotLaws
  import opened CachedScan
  import opened TreeDelete
  import opened Mutations
  import opened Retiming

  /** Entry n of the shown directory k is what was deleted. */
  ghost predicate Deletion(fs: FileSystem, root: DirKey, name: string, f: Tree, k: DirKey, n: string) {
    && WellFormed(fs) && Unfollowed(fs, root) && Authoritative(fs, root, name, f)
    && DirRef(k) in f && Holds(fs, k, n)
  }

  lemma EntryUnique(fs: FileSystem, root: DirKey, k: DirKey, n: string, j: DirKey, m: string)
    requires Unfollowed(fs, root) && Holds(fs, k, n) && Holds(fs, j, m) && EntryRef(fs, k, n) == EntryRef(fs, j, m)
    ensures k == j && n == m
  {
    assert OneEntry(fs, k, n, j, m);
  }

  /** The deleted entry is shown in its directory under its name. */
  lemma DeletedNode(fs: FileSystem, root: DirKey, name: string, f: Tree, k: DirKey, n: string)
    requires Deletion(fs, root, name, f, k, n)
    ensures var x := EntryRef(fs, k, n);
      && Deletable(f, DirRef(root), x) && f[x].parent == Some(DirRef(k)) && f[x].name == n
  {
    hide Rooted, Measured, Canonical, Deletable;
    var x := EntryRef(fs, k, n);
    assert x in f && x != DirRef(root);
    var p := PlaceOf(fs, root, f, x);
    EntryUnique(fs, root, k, n, p, f[x].name);
    AnyDeletable(f, DirRef(root), x);
  }

  /** The file system without the entry: its directory is as it was inspected after the deletion, and nothing else
      changed. What was below the entry cannot be reached any more. */
  function Remaining(fs: FileSystem, k: DirKey, n: string, m: SelfMetadata): FileSystem
    requires k in fs
  {
    fs[k := Directory(m.alloc, m.mtime, fs[k].entries - {n}, fs[k].failed)]
  }

  /** The same entries as before, except the deleted one. */
  ghost predicate OneGone(fs: FileSystem, fs2: FileSystem, k: DirKey, n: string) {
    && fs2.Keys == fs.Keys && !Holds(fs2, k, n)
    && (forall j :: j in fs ==> fs2[j].failed == fs[j].failed)
    && (forall j, i :: Holds(fs2, j, i) ==> Holds(fs, j, i) && EntryAt(fs2, j, i) == EntryAt(fs, j, i))
    && (forall j, i :: Holds(fs, j, i) && (j != k || i != n) ==> Holds(fs2, j, i))
  }

  lemma RemainingIsOneGone(fs: FileSystem, k: DirKey, n: string, m: SelfMetadata)
    requires Holds(fs, k, n)
    ensures OneGone(fs, Remaining(fs, k, n, m), k, n)
  {
  }

  lemma OneGoneWellFormed(fs: FileSystem, fs2: FileSystem, k: DirKey, n: string)
    requires WellFormed(fs) && OneGone(fs, fs2, k, n)
    ensures WellFormed(fs2)
  {
    forall j, i | Holds(fs2, j, i)
      ensures IsName(i) && (EntryAt(fs2, j, i).DirEntry? ==> EntryAt(fs2, j, i).target in fs2)
    {
      assert Holds(fs, j, i);
    }
    forall j, i, p, q | Holds(fs2, j, i) && Holds(fs2, p, q)
      ensures SameFileSameBytes(EntryAt(fs2, j, i), EntryAt(fs2, p, q))
    {
      assert Holds(fs, j, i) && Holds(fs, p, q);
    }
  }

  // The patched tree, node by node.

  /** g is f without x's subtree: everything else is where it was, and leaves and flags are as they were. */
  ghost predicate Pruned(f: Tree, g: Tree, root: Ref, x: Ref)
    requires Rooted(f, root) && x in f
  {
    && g.Keys == f.Keys - Below(f, root, x)
    && forall y {:trigger g[y]} :: y in g ==> PrunedAt(f, g, x, y)
  }

  ghost predicate PrunedAt(f: Tree, g: Tree, x: Ref, y: Ref) {
    && y in f && y in g
    && g[y].name == f[y].name && g[y].parent == f[y].parent && g[y].isDir == f[y].isDir && g[y].depth == f[y].depth
    && g[y].hardlink == f[y].hardlink && g[y].failed == f[y].failed && (!f[y].isDir ==> g[y] == f[y])
    && g[y].children == Without(f[y].children, x)
  }

  lemma PatchedIsPruned(f: Tree, root: Ref, x: Ref, finished: nat, m: SelfMetadata)
    requires Deletable(f, root, x)
    ensures Rooted(f, root) && x in f && Pruned(f, Patched(f, root, x, finished, m), root, x)
  {
    hide Patched, Deletable, Rooted, Below, PrunedAt;
    DeletableIsCut(f, root, x);
    CutKeys(f, root, x);
    PatchedNode(f, root, x, finished, m, f[x].parent.value);
    CutKinds(f, root, x);
    CutLacks(f, root, x);
    var g := Patched(f, root, x, finished, m);
    forall y | y in g
      ensures PrunedAt(f, g, x, y)
    {
      PatchedPruned(f, root, x, finished, m, y);
    }
  }

  lemma CutLacks(f: Tree, root: Ref, x: Ref)
    requires Rooted(f, root) && x in f && f[x].parent.Some?
    ensures Cut(f, root, x).Keys == f.Keys - Below(f, root, x)
  {
  }

  lemma PatchedPruned(f: Tree, root: Ref, x: Ref, finished: nat, m: SelfMetadata, y: Ref)
    requires Deletable(f, root, x) && y in Patched(f, root, x, finished, m)
    ensures PrunedAt(f, Patched(f, root, x, finished, m), x, y)
  {
    hide Patched, Deletable, Rooted, Below, PatchedTotals;
    DeletableIsCut(f, root, x);
    CutKeys(f, root, x);
    PatchedNode(f, root, x, finished, m, f[x].parent.value);
    PatchedNode(f, root, x, finished, m, y);
    CutKinds(f, root, x);
    OnlyDirsAbove(f, root, x);
    CutChildren(f, root, x, y);
    LeafHasNoChildren(f, root, y);
  }

  lemma CutChildren(f: Tree, root: Ref, x: Ref, y: Ref)
    requires Rooted(f, root) && x in f && x != root && f[x].parent.Some? && y in Cut(f, root, x)
    ensures Cut(f, root, x)[y].children == Without(f[y].children, x)
  {
    if y != f[x].parent.value {
      assert x in f[y].children ==> IsChild(f, y, x);
      WithoutAbsent(f[y].children, x);
    }
  }

  lemma {:induction false} PrunedPath(f: Tree, g: Tree, root: Ref, x: Ref, y: Ref)
    requires Rooted(f, root) && Rooted(g, root) && x in f && x != root && Pruned(f, g, root, x) && y in g
    ensures PathOf(g, root, y) == PathOf(f, root, y)
    decreases g[y].depth
  {
    if y != root {
      assert HasParent(g, y);
      RootedParent(f, root, y);
      PrunedPath(f, g, root, x, g[y].parent.value);
    }
  }

  // Clause by clause.

  lemma PrunedComplete(
      fs: FileSystem, fs2: FileSystem, root: DirKey, f: Tree, g: Tree, k: DirKey, n: string)
    requires Unfollowed(fs, root) && Complete(fs, root, f) && Holds(fs, k, n) && OneGone(fs, fs2, k, n)
    requires EntryRef(fs, k, n) in f && Rooted(g, DirRef(root)) && EntryRef(fs, k, n) != DirRef(root)
    requires Rooted(f, DirRef(root)) && Pruned(f, g, DirRef(root), EntryRef(fs, k, n))
    ensures Complete(fs2, root, g)
  {
    hide Rooted, Below, Unfollowed;
    var x := EntryRef(fs, k, n);
    BelowItself(f, DirRef(root), x);
    forall y | y in g && y != DirRef(root)
      ensures InPlace(fs2, g, y)
    {
      assert InPlace(fs, f, y);
    }
    forall j, i | DirRef(j) in g && Holds(fs2, j, i)
      ensures EntryRef(fs2, j, i) in g
    {
      assert Holds(fs, j, i);
      StaysShown(fs, root, f, k, n, j, i);
    }
  }

  lemma BelowItself(f: Tree, root: Ref, x: Ref)
    requires Rooted(f, root) && x in f
    ensures x in Below(f, root, x)
  {
  }

  /** An entry of a directory that stays is still reached, unless it is the deleted one. */
  lemma StaysShown(fs: FileSystem, root: DirKey, f: Tree, k: DirKey, n: string, j: DirKey, i: string)
    requires Unfollowed(fs, root) && Complete(fs, root, f) && Holds(fs, k, n) && Holds(fs, j, i) && (j != k || i != n)
    requires Rooted(f, DirRef(root)) && EntryRef(fs, k, n) in f && EntryRef(fs, k, n) != DirRef(root)
    requires DirRef(j) in f && DirRef(j) !in Below(f, DirRef(root), EntryRef(fs, k, n))
    ensures EntryRef(fs, j, i) in f && EntryRef(fs, j, i) !in Below(f, DirRef(root), EntryRef(fs, k, n))
  {
    var x, y := EntryRef(fs, k, n), EntryRef(fs, j, i);
    assert y != DirRef(root);
    if x == y {
      EntryUnique(fs, root, k, n, j, i);
    }
    if y in Below(f, DirRef(root), x) {
      BelowParent(f, DirRef(root), x, y);
      var p := PlaceOf(fs, root, f, y);
      EntryUnique(fs, root, j, i, p, f[y].name);
    }
  }

  lemma PrunedCanonical(
      fs: FileSystem, fs2: FileSystem, root: DirKey, f: Tree, g: Tree, k: DirKey, n: string, x: Ref)
    requires OneGone(fs, fs2, k, n) && Rooted(f, DirRef(root)) && Rooted(g, DirRef(root)) && Canonical(f, root, FsEdges(fs))
    requires x in f && x != DirRef(root) && Pruned(f, g, DirRef(root), x)
    ensures Canonical(g, root, FsEdges(fs2))
  {
    hide Rooted, Below;
    forall p, e | DirRef(p) in g && e in EdgesOf(FsEdges(fs2), p) && DirRef(e.target) in g
      ensures Least(g, root, p, e)
    {
      assert Holds(fs2, p, e.name);
      assert e in EdgesOf(FsEdges(fs), p);
      assert Least(f, root, p, e);
      PrunedPath(f, g, DirRef(root), x, DirRef(p));
      PrunedPath(f, g, DirRef(root), x, DirRef(e.target));
    }
  }

  lemma PrunedDir(fs: FileSystem, fs2: FileSystem, root: DirKey, f: Tree, g: Tree, k: DirKey, n: string, x: Ref, j: DirKey)
    requires OneGone(fs, fs2, k, n) && Rooted(f, DirRef(root)) && Rooted(g, DirRef(root))
    requires x in f && Pruned(f, g, DirRef(root), x) && DirRef(j) in g && DirShown(fs, f, j)
    ensures DirShown(fs2, g, j)
  {
    var cs := f[DirRef(j)].children;
    WithoutSorted(f, f, cs, x);
    ChildrenKnown(g, DirRef(root), DirRef(j));
    hide Rooted, Below;
    var left := g[DirRef(j)].children;
    forall i | 0 <= i < |left|
      ensures left[i] in g && g[left[i]].name == f[left[i]].name
    {
      assert left[i] in left;
    }
  }

  /** y and the other entries of its file that stay. */
  ghost predicate LesserStays(
    fs: FileSystem, root: DirKey, f: Tree, gone: set<Ref>, key: FileKey, y: Ref)
    requires Rooted(f, DirRef(root)) && y in f
  {
    exists j, i {:trigger LeafRef(j, i)} :: LeafRef(j, i) in f && LeafRef(j, i) !in gone && IsFile(fs, j, i, key)
      && Less(PathOf(f, DirRef(root), LeafRef(j, i)), PathOf(f, DirRef(root), y))
  }

  lemma PrunedLeast(
      fs: FileSystem, fs2: FileSystem, root: DirKey, f: Tree, g: Tree, k: DirKey, n: string, key: FileKey, y: Ref)
    requires Holds(fs, k, n) && OneGone(fs, fs2, k, n) && Rooted(f, DirRef(root)) && Rooted(g, DirRef(root))
    requires EntryRef(fs, k, n) in f && EntryRef(fs, k, n) != DirRef(root)
    requires Pruned(f, g, DirRef(root), EntryRef(fs, k, n)) && y in g
    requires !LeastOfFile(fs, root, f, key, y) ==>
      LesserStays(fs, root, f, Below(f, DirRef(root), EntryRef(fs, k, n)), key, y)
    ensures LeastOfFile(fs2, root, g, key, y) <==> LeastOfFile(fs, root, f, key, y)
  {
    var x := EntryRef(fs, k, n);
    BelowItself(f, DirRef(root), x);
    hide Rooted, Below, PathOf;
    PrunedPath(f, g, DirRef(root), x, y);
    if LeastOfFile(fs, root, f, key, y) {
      forall j, i | LeafRef(j, i) in g && IsFile(fs2, j, i, key)
        ensures !Less(PathOf(g, DirRef(root), LeafRef(j, i)), PathOf(g, DirRef(root), y))
      {
        assert Holds(fs2, j, i) && Holds(fs, j, i);
        PrunedPath(f, g, DirRef(root), x, LeafRef(j, i));
      }
    } else {
      var j, i :| LeafRef(j, i) in f && LeafRef(j, i) !in Below(f, DirRef(root), x) && IsFile(fs, j, i, key)
        && Less(PathOf(f, DirRef(root), LeafRef(j, i)), PathOf(f, DirRef(root), y));
      assert LeafRef(j, i) in g;
      PrunedPath(f, g, DirRef(root), x, LeafRef(j, i));
      assert IsFile(fs2, j, i, key) by {
        assert Holds(fs, j, i);
      }
    }
  }

  /** The link count that the plan recorded was true: a file with one link has one name. */
  ghost predicate TrueLinks(fs: FileSystem, k: DirKey, n: string, links: Option<nat>)
    requires Holds(fs, k, n)
  {
    var e := EntryAt(fs, k, n);
    links.Some? && links.value <= 1 && e.FileEntry? && e.key.Some? ==>
      forall j, i {:trigger IsFile(fs, j, i, e.key.value)} :: IsFile(fs, j, i, e.key.value) ==> j == k && i == n
  }

  lemma LeafBelow(f: Tree, root: Ref, x: Ref)
    requires Rooted(f, root) && x in f && !f[x].isDir
    ensures Below(f, root, x) == {x}
  {
    LeafHasNoChildren(f, root, x);
    BelowUnfolds(f, root, x);
    assert BelowAny(f, root, []) == {};
  }

  /** A flagged entry is not the least of its file, and an unflagged one is. */
  lemma FlagSays(fs: FileSystem, root: DirKey, name: string, f: Tree, k: DirKey, n: string, key: FileKey)
    requires Authoritative(fs, root, name, f) && LeafRef(k, n) in f && IsFile(fs, k, n, key)
    ensures Rooted(f, DirRef(root)) && !f[LeafRef(k, n)].isDir
    ensures f[LeafRef(k, n)].hardlink <==> !LeastOfFile(fs, root, f, key, LeafRef(k, n))
  {
    assert LeafShown(fs, root, f, k, n);
    hide Rooted, Measured, Canonical, LeastOfFile;
    CompleteRooted(fs, root, f);
  }

  lemma LesserSurvives(
      fs: FileSystem, root: DirKey, name: string, f: Tree, k: DirKey, n: string, links: Option<nat>, key: FileKey,
      j0: DirKey, i0: string)
    requires Deletion(fs, root, name, f, k, n) && TrueLinks(fs, k, n, links) && Rooted(f, DirRef(root))
    requires EntryRef(fs, k, n) in f && !Ambiguous(f, EntryRef(fs, k, n), links, false)
    requires LeafRef(j0, i0) in f && LeafRef(j0, i0) !in Below(f, DirRef(root), EntryRef(fs, k, n))
    requires IsFile(fs, j0, i0, key) && !LeastOfFile(fs, root, f, key, LeafRef(j0, i0))
    ensures LesserStays(fs, root, f, Below(f, DirRef(root), EntryRef(fs, k, n)), key, LeafRef(j0, i0))
  {
    var x, y := EntryRef(fs, k, n), LeafRef(j0, i0);
    FlagSays(fs, root, name, f, j0, i0, key);
    BelowItself(f, DirRef(root), x);
    KindsKnown(fs, root, name, f, x);
    hide Rooted, Authoritative, WellFormed, Unfollowed, PathOf, Below;
    var j, i :| LeafRef(j, i) in f && IsFile(fs, j, i, key)
      && Less(PathOf(f, DirRef(root), LeafRef(j, i)), PathOf(f, DirRef(root), y));
    if LeafRef(j, i) in Below(f, DirRef(root), x) {
      assert !f[x].isDir;
      LeafBelow(f, DirRef(root), x);
      FlagSays(fs, root, name, f, k, n, key);
      FlaggedHasLesser(fs, root, f, k, n, links, key, y);
    }
  }

  /** If a file's flagged name goes, the lesser name that made it a duplicate is still there. */
  lemma FlaggedHasLesser(
      fs: FileSystem, root: DirKey, f: Tree, k: DirKey, n: string, links: Option<nat>, key: FileKey, y: Ref)
    requires Holds(fs, k, n) && TrueLinks(fs, k, n, links) && Rooted(f, DirRef(root))
    requires LeafRef(k, n) in f && y in f && y.LeafRef? && y != LeafRef(k, n) && IsFile(fs, k, n, key)
    requires IsFile(fs, y.dir, y.entry, key) && !f[LeafRef(k, n)].isDir && !Ambiguous(f, LeafRef(k, n), links, false)
    requires f[LeafRef(k, n)].hardlink <==> !LeastOfFile(fs, root, f, key, LeafRef(k, n))
    requires Less(PathOf(f, DirRef(root), LeafRef(k, n)), PathOf(f, DirRef(root), y))
    ensures LesserStays(fs, root, f, {LeafRef(k, n)}, key, y)
  {
    hide Rooted, PathOf;
    var x := LeafRef(k, n);
    assert f[x].hardlink;
    var j, i :| LeafRef(j, i) in f && IsFile(fs, j, i, key)
      && Less(PathOf(f, DirRef(root), LeafRef(j, i)), PathOf(f, DirRef(root), x));
    LessIrreflexive(PathOf(f, DirRef(root), x));
    LessTransitive(PathOf(f, DirRef(root), LeafRef(j, i)), PathOf(f, DirRef(root), x), PathOf(f, DirRef(root), y));
  }

  lemma PrunedLeaf(
      fs: FileSystem, fs2: FileSystem, root: DirKey, name: string, f: Tree, g: Tree, k: DirKey, n: string,
      links: Option<nat>, j: DirKey, i: string)
    requires Deletion(fs, root, name, f, k, n) && TrueLinks(fs, k, n, links) && OneGone(fs, fs2, k, n)
    requires Rooted(f, DirRef(root)) && Rooted(g, DirRef(root))
    requires EntryRef(fs, k, n) in f && EntryRef(fs, k, n) != DirRef(root)
    requires !Ambiguous(f, EntryRef(fs, k, n), links, false)
    requires Pruned(f, g, DirRef(root), EntryRef(fs, k, n)) && LeafRef(j, i) in g
    ensures LeafShown(fs2, root, g, j, i)
  {
    assert LeafShown(fs, root, f, j, i);
    BelowItself(f, DirRef(root), EntryRef(fs, k, n));
    hide Rooted, Authoritative, WellFormed, Unfollowed, PathOf, Below, LeastOfFile, Ambiguous, TrueLinks;
    assert Holds(fs2, j, i);
    var e := EntryAt(fs, j, i);
    if e.FileEntry? && e.key.Some? {
      if !LeastOfFile(fs, root, f, e.key.value, LeafRef(j, i)) {
        LesserSurvives(fs, root, name, f, k, n, links, e.key.value, j, i);
      }
      PrunedLeast(fs, fs2, root, f, g, k, n, e.key.value, LeafRef(j, i));
    }
  }

  lemma PrunedKind(f: Tree, g: Tree, root: Ref, x: Ref, d: Ref)
    requires Rooted(f, root) && x in f && Pruned(f, g, root, x) && d in g
    ensures d in f && g[d].isDir == f[d].isDir && g[d].name == f[d].name
  {
  }

  /** The pruned tree, measured by the own metadata of the remaining directories, is what a scan of them finds. */
  lemma PrunedAuthoritative(
      fs: FileSystem, fs2: FileSystem, root: DirKey, name: string, f: Tree, g: Tree, k: DirKey, n: string,
      links: Option<nat>)
    requires Deletion(fs, root, name, f, k, n) && TrueLinks(fs, k, n, links) && OneGone(fs, fs2, k, n)
    requires EntryRef(fs, k, n) in f && EntryRef(fs, k, n) != DirRef(root)
    requires !Ambiguous(f, EntryRef(fs, k, n), links, false)
    requires Rooted(f, DirRef(root)) && Pruned(f, g, DirRef(root), EntryRef(fs, k, n))
    requires Rooted(g, DirRef(root)) && Measured(g, DirRef(root), SelfMap(fs2))
    ensures Authoritative(fs2, root, name, g)
  {
    hide Rooted, Measured, Canonical, WellFormed, Unfollowed, Pruned, OneGone, DirShown, LeafShown, Complete, TrueLinks,
      Ambiguous, Below;
    var x := EntryRef(fs, k, n);
    PrunedComplete(fs, fs2, root, f, g, k, n);
    CompleteRooted(fs2, root, g);
    PrunedKind(f, g, DirRef(root), x, DirRef(root));
    PrunedCanonical(fs, fs2, root, f, g, k, n, x);
    forall j | DirRef(j) in g
      ensures DirShown(fs2, g, j)
    {
      PrunedKind(f, g, DirRef(root), x, DirRef(j));
      assert DirShown(fs, f, j);
      PrunedDir(fs, fs2, root, f, g, k, n, x, j);
    }
    forall j, i | LeafRef(j, i) in g
      ensures LeafShown(fs2, root, g, j, i)
    {
      PrunedLeaf(fs, fs2, root, name, f, g, k, n, links, j, i);
    }
  }

  // Own times: what the patched tree shows above the directory, and what the directories really have.

  lemma OwnRemaining(
      fs: FileSystem, root: DirKey, f: Tree, k: DirKey, n: string, finished: nat, m: SelfMetadata, j: DirKey)
    requires Holds(fs, k, n) && Deletable(f, DirRef(root), EntryRef(fs, k, n)) && j in fs
    requires f[EntryRef(fs, k, n)].parent == Some(DirRef(k)) && Measured(f, DirRef(root), SelfMap(fs))
    requires DirRef(j) in Patched(f, DirRef(root), EntryRef(fs, k, n), finished, m) && DirRef(j) in f && f[DirRef(j)].isDir
    ensures var x, d := EntryRef(fs, k, n), DirRef(j);
      var own, now := SelfOf(OwnAfter(f, DirRef(root), SelfMap(fs), x, finished, m), d), SelfOf(SelfMap(Remaining(fs, k, n, m)), d);
      && now == own.(mtime := now.mtime) && now.mtime <= own.mtime
      && (d !in DirsAbove(f, DirRef(root), x) || j == k ==> now.mtime == own.mtime)
      && (j != k ==> now == SelfOf(SelfMap(fs), d)) && (j == k ==> now == m.AsTotals())
  {
    var x, d := EntryRef(fs, k, n), DirRef(j);
    NotItsParent(f, DirRef(root), x, x);
    assert SelfOf(SelfMap(Remaining(fs, k, n, m)), d) == (if j == k then m.AsTotals() else SelfOf(SelfMap(fs), d));
    if d in DirsAbove(f, DirRef(root), x) {
      ShownNoEarlier(f, DirRef(root), SelfMap(fs), x, finished, m, d);
    }
    hide Deletable, Patched, DirsAbove, Measured;
  }

  /** Above the directory no shown time gets earlier, nor is any before the deletion. */
  lemma ShownNoEarlier(
      f: Tree, root: Ref, self: map<Ref, SelfMetadata>, x: Ref, finished: nat, m: SelfMetadata, d: Ref)
    requires Deletable(f, root, x) && Measured(f, root, self) && d in DirsAbove(f, root, x) && d in f && f[d].isDir
    requires d in Patched(f, root, x, finished, m)
    ensures Patched(f, root, x, finished, m)[d].totals.mtime
      == if d == f[x].parent.value then NewTime(f, root, x, m)
         else Later(Later(f[d].totals.mtime, finished), NewTime(f, root, x, m))
    ensures f[d].totals.mtime >= SelfOf(self, d).mtime
  {
    hide Patched, Below, Measured;
    DeletableIsCut(f, root, x);
    PatchedNode(f, root, x, finished, m, f[x].parent.value);
    PatchedNode(f, root, x, finished, m, d);
    CutKinds(f, root, x);
    TimeAt(f, root, self, d);
  }

  /** The patched tree and a tree of the same shape measured by the real own metadata of what remains. */
  ghost predicate TwoTimes(
    fs: FileSystem, root: DirKey, f: Tree, k: DirKey, n: string, finished: nat, m: SelfMetadata, scanned: Tree)
  {
    && Holds(fs, k, n) && Deletable(f, DirRef(root), EntryRef(fs, k, n)) && f[EntryRef(fs, k, n)].parent == Some(DirRef(k))
    && Measured(f, DirRef(root), SelfMap(fs))
    && (forall y :: y in f && f[y].isDir ==> y.DirRef? && y.key in fs)
    && var x := EntryRef(fs, k, n);
    && Pruned(f, Patched(f, DirRef(root), x, finished, m), DirRef(root), x)
    && TwoMeasures(Patched(f, DirRef(root), x, finished, m), scanned, DirRef(root),
                   OwnAfter(f, DirRef(root), SelfMap(fs), x, finished, m), SelfMap(Remaining(fs, k, n, m)))
  }

  /** What a scan of the remaining file system finds is the patched tree with its times rebuilt. */
  lemma DeleteIsRescan(
      fs: FileSystem, root: DirKey, name: string, f: Tree, k: DirKey, n: string, links: Option<nat>, finished: nat,
      m: SelfMetadata, h: nat)
    requires Deletion(fs, root, name, f, k, n) && Cacheable(fs) && m.alloc >= 0 && TrueLinks(fs, k, n, links)
    requires EntryRef(fs, k, n) in f && !Ambiguous(f, EntryRef(fs, k, n), links, false) && Bounded(f, h)
    ensures Deletable(f, DirRef(root), EntryRef(fs, k, n))
    ensures var g, fs2 := Patched(f, DirRef(root), EntryRef(fs, k, n), finished, m), Remaining(fs, k, n, m);
      && Rooted(g, DirRef(root)) && Bounded(g, h) && WellFormed(fs2)
      && Authoritative(fs2, root, name, Retime(g, DirRef(root), SelfMap(fs2), h))
      && TwoTimes(fs, root, f, k, n, finished, m, Retime(g, DirRef(root), SelfMap(fs2), h))
  {
    hide Rooted, Measured, Canonical, Deletable, Patched, ScannerTree, WellFormed, Cacheable, Unfollowed, OwnAfter, Pruned,
      Retime, Remaining, TrueLinks, Ambiguous, OneGone, Below, Complete, DirsAbove;
    var x, fs2, r := EntryRef(fs, k, n), Remaining(fs, k, n, m), DirRef(root);
    DeletedNode(fs, root, name, f, k, n);
    RootNotDeleted(fs, root, f, k, n);
    ScanIsScannerTree(fs, root, name, f);
    PatchedMeasured(f, r, SelfMap(fs), x, finished, m);
    PatchedIsPruned(f, r, x, finished, m);
    RemainingIsOneGone(fs, k, n, m);
    OneGoneWellFormed(fs, fs2, k, n);
    var g := Patched(f, r, x, finished, m);
    PrunedShape(f, g, r, x, h);
    DirsKnown(fs, root, name, f);
    forall d | d in g && g[d].isDir
      ensures SelfOf(SelfMap(fs2), d)
        == SelfOf(OwnAfter(f, r, SelfMap(fs), x, finished, m), d).(mtime := SelfOf(SelfMap(fs2), d).mtime)
    {
      OwnRemaining(fs, root, f, k, n, finished, m, d.key);
    }
    RetimeMeasured(g, r, OwnAfter(f, r, SelfMap(fs), x, finished, m), SelfMap(fs2), h);
    PrunedRetimed(f, g, Retime(g, r, SelfMap(fs2), h), r, x);
    PrunedAuthoritative(fs, fs2, root, name, f, Retime(g, r, SelfMap(fs2), h), k, n, links);
  }

  lemma PrunedShape(f: Tree, g: Tree, root: Ref, x: Ref, h: nat)
    requires Rooted(f, root) && x in f && Pruned(f, g, root, x) && Bounded(f, h)
    ensures Bounded(g, h) && forall y :: y in g ==> y in f && g[y].isDir == f[y].isDir
  {
    hide Rooted, Below;
  }

  lemma PrunedRetimed(f: Tree, g: Tree, s: Tree, root: Ref, x: Ref)
    requires Rooted(f, root) && x in f && Pruned(f, g, root, x) && SameButTimes(g, s)
    requires forall y :: y in g && !g[y].isDir ==> s[y] == g[y]
    ensures Pruned(f, s, root, x)
  {
    hide Rooted, Below;
    forall y | y in s
      ensures PrunedAt(f, s, x, y)
    {
      assert PrunedAt(f, g, x, y);
    }
  }

  lemma DirsKnown(fs: FileSystem, root: DirKey, name: string, f: Tree)
    requires Authoritative(fs, root, name, f)
    ensures forall y :: y in f && f[y].isDir ==> y.DirRef? && y.key in fs
  {
    forall y | y in f && f[y].isDir
      ensures y.DirRef? && y.key in fs
    {
      KindsKnown(fs, root, name, f, y);
    }
  }

  lemma RootNotDeleted(fs: FileSystem, root: DirKey, f: Tree, k: DirKey, n: string)
    requires Holds(fs, k, n) && Deletable(f, DirRef(root), EntryRef(fs, k, n))
    ensures Rooted(f, DirRef(root)) && EntryRef(fs, k, n) in f && EntryRef(fs, k, n) != DirRef(root)
  {
  }

  /** Every scan of the remaining file system finds the patched tree up to times. */
  lemma RescanFinds(
      fs: FileSystem, root: DirKey, name: string, f: Tree, k: DirKey, n: string, links: Option<nat>, finished: nat,
      m: SelfMetadata, scanned: Tree)
    requires Deletion(fs, root, name, f, k, n) && Cacheable(fs) && m.alloc >= 0 && TrueLinks(fs, k, n, links)
    requires EntryRef(fs, k, n) in f && !Ambiguous(f, EntryRef(fs, k, n), links, false)
    requires Authoritative(Remaining(fs, k, n, m), root, name, scanned)
    ensures TwoTimes(fs, root, f, k, n, finished, m, scanned)
  {
    hide Authoritative, Cacheable, TrueLinks, Ambiguous, Deletable, WellFormed, Unfollowed, Patched, Remaining, TwoTimes;
    DeletedNode(fs, root, name, f, k, n);
    var h := DepthBound(f);
    DeleteIsRescan(fs, root, name, f, k, n, links, finished, m, h);
    var g, fs2 := Patched(f, DirRef(root), EntryRef(fs, k, n), finished, m), Remaining(fs, k, n, m);
    AuthoritativeUnique(fs2, root, name, scanned, Retime(g, DirRef(root), SelfMap(fs2), h));
  }

  /** The directories above the deleted entry's own directory. */
  ghost function FurtherAbove(f: Tree, root: DirKey, k: DirKey, x: Ref): set<Ref>
    requires Deletable(f, DirRef(root), x)
  {
    DirsAbove(f, DirRef(root), x) - {DirRef(k)}
  }

  /** Whatever a scan of the remaining file system returns, it is the patched tree in everything but times. No time is
      later, and only directories above the entry's own may show an earlier one. */
  lemma RescanAgrees(
      fs: FileSystem, root: DirKey, name: string, f: Tree, k: DirKey, n: string, links: Option<nat>, finished: nat,
      m: SelfMetadata, scanned: Tree)
    requires Deletion(fs, root, name, f, k, n) && Cacheable(fs) && m.alloc >= 0 && TrueLinks(fs, k, n, links)
    requires EntryRef(fs, k, n) in f && !Ambiguous(f, EntryRef(fs, k, n), links, false)
    requires Authoritative(Remaining(fs, k, n, m), root, name, scanned)
    ensures Deletable(f, DirRef(root), EntryRef(fs, k, n))
    ensures var x := EntryRef(fs, k, n); var g := Patched(f, DirRef(root), x, finished, m);
      && SameButTimes(g, scanned)
      && (forall y :: y in g ==> scanned[y].totals.mtime <= g[y].totals.mtime)
      && (forall y :: y in g && y !in FurtherAbove(f, root, k, x) ==> scanned[y] == g[y])
  {
    hide Authoritative, Cacheable, TrueLinks, Ambiguous, Deletable, WellFormed, Unfollowed, Patched, Remaining, TwoTimes,
      FurtherAbove;
    RescanFinds(fs, root, name, f, k, n, links, finished, m, scanned);
    TimesDiffer(fs, root, f, k, n, finished, m, scanned);
  }

  lemma TimesDiffer(
      fs: FileSystem, root: DirKey, f: Tree, k: DirKey, n: string, finished: nat, m: SelfMetadata, s: Tree)
    requires TwoTimes(fs, root, f, k, n, finished, m, s)
    ensures Deletable(f, DirRef(root), EntryRef(fs, k, n))
    ensures var x := EntryRef(fs, k, n); var g := Patched(f, DirRef(root), x, finished, m);
      && SameButTimes(g, s)
      && (forall y :: y in g ==> s[y].totals.mtime <= g[y].totals.mtime)
      && (forall y :: y in g && y !in FurtherAbove(f, root, k, x) ==> s[y] == g[y])
  {
    hide Rooted, Measured, Deletable, Patched, OwnAfter, Remaining, Pruned, DirsAbove, Below;
    var x, r, fs2 := EntryRef(fs, k, n), DirRef(root), Remaining(fs, k, n, m);
    var g, own := Patched(f, r, x, finished, m), OwnAfter(f, r, SelfMap(fs), x, finished, m);
    RootNotDeleted(fs, root, f, k, n);
    var h := DepthBound(f);
    PrunedShape(f, g, r, x, h);
    var u := g.Keys - FurtherAbove(f, root, k, x);
    RestClosed(fs, root, f, k, n, finished, m);
    forall d | d in g && g[d].isDir
      ensures SelfOf(SelfMap(fs2), d).mtime <= SelfOf(own, d).mtime
      ensures d in u ==> SelfOf(SelfMap(fs2), d).mtime == SelfOf(own, d).mtime
    {
      OwnRemaining(fs, root, f, k, n, finished, m, d.key);
    }
    forall y | y in g
      ensures s[y].totals.mtime <= g[y].totals.mtime && (y in u ==> s[y] == g[y])
    {
      TimesNoLater(g, s, r, own, SelfMap(fs2), y, h);
      if y in u {
        TimesSame(g, s, r, own, SelfMap(fs2), u, y, h);
      }
    }
  }

  /** What lies below the entry's directory, or beside the way to it, is not above it. */
  lemma RestClosed(fs: FileSystem, root: DirKey, f: Tree, k: DirKey, n: string, finished: nat, m: SelfMetadata)
    requires Holds(fs, k, n) && Deletable(f, DirRef(root), EntryRef(fs, k, n)) && f[EntryRef(fs, k, n)].parent == Some(DirRef(k))
    requires var x := EntryRef(fs, k, n); Pruned(f, Patched(f, DirRef(root), x, finished, m), DirRef(root), x)
    ensures var x := EntryRef(fs, k, n); var g := Patched(f, DirRef(root), x, finished, m);
      Closed(g, g.Keys - FurtherAbove(f, root, k, x))
  {
    var x, r := EntryRef(fs, k, n), DirRef(root);
    var g := Patched(f, r, x, finished, m);
    DeletableIsCut(f, r, x);
    CutLacks(f, r, x);
    KidsUntouched(f, r, x);
    hide Rooted, Deletable, Patched, DirsAbove, Below, Cut;
    forall d, c | d in g && d !in FurtherAbove(f, root, k, x) && c in g[d].children
      ensures c in g && c !in FurtherAbove(f, root, k, x)
    {
      assert PrunedAt(f, g, x, d);
      if d != DirRef(k) {
        AwayFromParent(f, r, x, d);
        KidsElsewhere(f, r, x, d);
      }
    }
  }

  lemma AwayFromParent(f: Tree, root: Ref, x: Ref, d: Ref)
    requires Rooted(f, root) && x in f && x != root && d in f && d !in Below(f, root, x) && f[x].parent != Some(d)
    ensures Without(f[d].children, x) == f[d].children
  {
    assert x in f[d].children ==> IsChild(f, d, x);
    WithoutAbsent(f[d].children, x);
  }

  // When the times agree as well.

  ghost predicate HasUpper(fs: FileSystem, root: DirKey, f: Tree, k: DirKey) {
    && DirRef(k) in f && f[DirRef(k)].parent.Some? && f[DirRef(k)].parent.value in f
    && var q := f[DirRef(k)].parent.value;
    q.DirRef? && q.key in fs && forall c :: c in f[q].children ==> c in f
  }

  /** What a scan after the deletion shows at the directory that holds k: the latest of its own time, of its other
      entries as they were measured before, and of k as it is then. */
  ghost function TimeAfter(fs: FileSystem, root: DirKey, f: Tree, k: DirKey, n: string, m: SelfMetadata): nat
    requires HasUpper(fs, root, f, k) && Holds(fs, k, n) && Deletable(f, DirRef(root), EntryRef(fs, k, n))
  {
    var q := f[DirRef(k)].parent.value;
    WithoutMembers(f[q].children, DirRef(k));
    Later(NewTime(f, DirRef(root), EntryRef(fs, k, n), m), Newest(f, Without(f[q].children, DirRef(k)), fs[q.key].mtime))
  }

  /** The entry was directly in the root, or above its directory something else is at least as late as the deletion
      and as everything that its directory showed. */
  ghost predicate TimesStand(
    fs: FileSystem, root: DirKey, f: Tree, k: DirKey, n: string, finished: nat, m: SelfMetadata)
    requires Holds(fs, k, n) && Deletable(f, DirRef(root), EntryRef(fs, k, n)) && (k != root ==> HasUpper(fs, root, f, k))
  {
    k == root || TimeAfter(fs, root, f, k, n, m) >= Later(finished, f[DirRef(k)].totals.mtime)
  }

  /** A directory above k shows the later of the next one on the way to k and of everything else in it, before the
      deletion and after. */
  lemma OnTheWay(
      fs: FileSystem, root: DirKey, f: Tree, k: DirKey, n: string, finished: nat, m: SelfMetadata, s: Tree, d: Ref, b: Ref)
    requires TwoTimes(fs, root, f, k, n, finished, m, s) && d in f && b in f && b in f[d].children
    requires d in FurtherAbove(f, root, k, EntryRef(fs, k, n)) && b in DirsAbove(f, DirRef(root), EntryRef(fs, k, n))
    ensures d.DirRef? && d.key in fs && d in s && b in s && forall c :: c in Without(f[d].children, b) ==> c in f
    ensures f[d].totals.mtime == Later(f[b].totals.mtime, Newest(f, Without(f[d].children, b), fs[d.key].mtime))
    ensures s[d].totals.mtime == Later(s[b].totals.mtime, Newest(f, Without(f[d].children, b), fs[d.key].mtime))
  {
    hide Rooted, Measured, Patched, OwnAfter, Pruned, DirsAbove, Below, Remaining, NewTime;
    var x, r := EntryRef(fs, k, n), DirRef(root);
    WayParts(fs, root, f, k, n, finished, m, d, b);
    TimesDiffer(fs, root, f, k, n, finished, m, s);
    OwnRemaining(fs, root, f, k, n, finished, m, d.key);
    assert SelfOf(SelfMap(fs), d).mtime == fs[d.key].mtime;
    hide SelfMap, Newest, SelfOf, FurtherAbove, OwnAfter;
    LatestHere(f, r, SelfMap(fs), d, b);
    LatestHere(s, r, SelfMap(Remaining(fs, k, n, m)), d, b);
    WithoutMembers(f[d].children, b);
    NewestAgrees(f, s, Without(f[d].children, b), fs[d.key].mtime);
  }

  /** Of the entries of a directory above k only the next one on the way to k changes. */
  lemma WayParts(
      fs: FileSystem, root: DirKey, f: Tree, k: DirKey, n: string, finished: nat, m: SelfMetadata, d: Ref, b: Ref)
    requires Holds(fs, k, n) && Deletable(f, DirRef(root), EntryRef(fs, k, n)) && f[EntryRef(fs, k, n)].parent == Some(DirRef(k))
    requires var x := EntryRef(fs, k, n); Pruned(f, Patched(f, DirRef(root), x, finished, m), DirRef(root), x)
    requires forall y :: y in f && f[y].isDir ==> y.DirRef? && y.key in fs
    requires d in f && b in f && b in f[d].children
    requires d in FurtherAbove(f, root, k, EntryRef(fs, k, n)) && b in DirsAbove(f, DirRef(root), EntryRef(fs, k, n))
    ensures Rooted(f, DirRef(root)) && f[d].isDir && d.DirRef? && d.key in fs && Distinct(f[d].children)
    ensures var x := EntryRef(fs, k, n); var g := Patched(f, DirRef(root), x, finished, m);
      && d in g && g[d].children == f[d].children && g[d].isDir
      && forall c :: c in f[d].children ==> c in f && c in g && (c != b ==> g[c] == f[c] && c !in FurtherAbove(f, root, k, x))
  {
    var x, r := EntryRef(fs, k, n), DirRef(root);
    var g := Patched(f, r, x, finished, m);
    DeletableIsCut(f, r, x);
    OnlyDirsAbove(f, r, x);
    ChildrenKnown(f, r, d);
    AboveNotBelow(f, r, x, d);
    AwayFromParent(f, r, x, d);
    KidsElsewhere(f, r, x, d);
    hide Deletable, Patched, Below, Cut, Pruned;
    PatchedNode(f, r, x, finished, m, DirRef(k));
    CutKinds(f, r, x);
    PatchedChildren(f, r, x, finished, m, d);
    forall c | c in f[d].children && c != b
      ensures c !in DirsAbove(f, r, x) && c in g && g[c] == f[c]
    {
      OneOnTheWay(f, r, d, b, c, DirRef(k));
      NotItsParent(f, r, x, c);
      PatchedNode(f, r, x, finished, m, c);
    }
  }

  lemma AboveNotBelow(f: Tree, root: Ref, x: Ref, d: Ref)
    requires Deletable(f, root, x) && d in DirsAbove(f, root, x)
    ensures d in Cut(f, root, x) && d !in Below(f, root, x)
  {
    CutKeys(f, root, x);
  }

  lemma PatchedChildren(f: Tree, root: Ref, x: Ref, finished: nat, m: SelfMetadata, d: Ref)
    requires Deletable(f, root, x) && d in Cut(f, root, x) && d != f[x].parent.value
    ensures var g := Patched(f, root, x, finished, m);
      d in g && g.Keys == Cut(f, root, x).Keys && g[d].children == f[d].children && g[d].isDir == f[d].isDir
  {
    hide Patched, Below;
    PatchedNode(f, root, x, finished, m, d);
    CutKinds(f, root, x);
  }

  lemma OneOnTheWay(f: Tree, root: Ref, d: Ref, b: Ref, c: Ref, p: Ref)
    requires Rooted(f, root) && d in f && p in f && b in f[d].children && c in f[d].children && b in f && c in f && b != c
    requires b in Ancestors(f, root, p)
    ensures c !in Ancestors(f, root, p)
  {
    ChildDepth(f, root, d, b);
    ChildDepth(f, root, d, c);
  }

  /** The next directory on the way from d to k. */
  lemma NextDown(f: Tree, root: DirKey, k: DirKey, x: Ref, d: Ref) returns (b: Ref)
    requires Deletable(f, DirRef(root), x) && f[x].parent == Some(DirRef(k)) && d in f && d in FurtherAbove(f, root, k, x)
    ensures b in f && b in f[d].children && b in DirsAbove(f, DirRef(root), x) && f[b].depth == f[d].depth + 1
    ensures f[d].depth < f[DirRef(k)].depth && (b == DirRef(k) ==> f[DirRef(k)].parent == Some(d))
  {
    b := ChildOnPath(f, DirRef(root), d, DirRef(k));
    ChildDepth(f, DirRef(root), d, b);
  }

  /** If the times stand at the directory that holds k, they stand at every one above. */
  lemma {:induction false} StandsAbove(
      fs: FileSystem, root: DirKey, f: Tree, k: DirKey, n: string, finished: nat, m: SelfMetadata, s: Tree, d: Ref)
    requires TwoTimes(fs, root, f, k, n, finished, m, s) && HasUpper(fs, root, f, k) && k != root
    requires d in f && d in FurtherAbove(f, root, k, EntryRef(fs, k, n))
    requires TimesStand(fs, root, f, k, n, finished, m)
    ensures d in s && s[d].totals.mtime >= f[d].totals.mtime && s[d].totals.mtime >= finished
    ensures s[d].totals.mtime >= NewTime(f, DirRef(root), EntryRef(fs, k, n), m)
    decreases f[DirRef(k)].depth - f[d].depth
  {
    var x := EntryRef(fs, k, n);
    var b := NextDown(f, root, k, x, d);
    OnTheWay(fs, root, f, k, n, finished, m, s, d, b);
    if b == DirRef(k) {
      ShownAtDirectory(fs, root, f, k, n, finished, m, s);
    } else {
      StandsAbove(fs, root, f, k, n, finished, m, s, b);
    }
  }

  lemma ShownAtDirectory(
      fs: FileSystem, root: DirKey, f: Tree, k: DirKey, n: string, finished: nat, m: SelfMetadata, s: Tree)
    requires TwoTimes(fs, root, f, k, n, finished, m, s)
    ensures DirRef(k) in s && s[DirRef(k)].totals.mtime == NewTime(f, DirRef(root), EntryRef(fs, k, n), m)
  {
    hide Rooted, Measured, Patched, OwnAfter, Pruned, Below, Remaining, DirsAbove, Deletable, NewTime;
    var x, r := EntryRef(fs, k, n), DirRef(root);
    TimesDiffer(fs, root, f, k, n, finished, m, s);
    DeletableIsCut(f, r, x);
    OnlyDirsAbove(f, r, x);
    NotItsParent(f, r, x, x);
    PatchedNode(f, r, x, finished, m, DirRef(k));
    ShownNoEarlier(f, r, SelfMap(fs), x, finished, m, DirRef(k));
  }

  /** What the directory that holds k shows after the deletion, patched and scanned. */
  lemma UpperTimes(
      fs: FileSystem, root: DirKey, f: Tree, k: DirKey, n: string, finished: nat, m: SelfMetadata, s: Tree)
    requires TwoTimes(fs, root, f, k, n, finished, m, s) && HasUpper(fs, root, f, k) && k != root
    ensures var q, g := f[DirRef(k)].parent.value, Patched(f, DirRef(root), EntryRef(fs, k, n), finished, m);
      && q in FurtherAbove(f, root, k, EntryRef(fs, k, n)) && q in s && q in g
      && s[q].totals.mtime == TimeAfter(fs, root, f, k, n, m)
      && f[q].totals.mtime >= f[DirRef(k)].totals.mtime
      && g[q].totals.mtime == Later(Later(f[q].totals.mtime, finished), NewTime(f, DirRef(root), EntryRef(fs, k, n), m))
  {
    hide Measured, Patched, OwnAfter, Pruned, Below, Remaining, DirsAbove, Deletable, NewTime;
    var x, r := EntryRef(fs, k, n), DirRef(root);
    var q := f[DirRef(k)].parent.value;
    DeletableIsCut(f, r, x);
    ParentFurtherAbove(f, root, k, x);
    NotItsParent(f, r, x, x);
    OnTheWay(fs, root, f, k, n, finished, m, s, q, DirRef(k));
    ShownAtDirectory(fs, root, f, k, n, finished, m, s);
    OnlyDirsAbove(f, r, x);
    AboveNotBelow(f, r, x, q);
    PatchedNode(f, r, x, finished, m, q);
    ShownNoEarlier(f, r, SelfMap(fs), x, finished, m, q);
  }

  lemma ParentFurtherAbove(f: Tree, root: DirKey, k: DirKey, x: Ref)
    requires Deletable(f, DirRef(root), x) && f[x].parent == Some(DirRef(k)) && k != root && DirRef(k) in f
    ensures f[DirRef(k)].parent.Some? && f[DirRef(k)].parent.value in f
    ensures f[DirRef(k)].parent.value in FurtherAbove(f, root, k, x) && DirRef(k) in f[f[DirRef(k)].parent.value].children
  {
    RootedParent(f, DirRef(root), DirRef(k));
    ChildDepth(f, DirRef(root), f[DirRef(k)].parent.value, DirRef(k));
  }

  /** Also the times agree, if and only if they stand. */
  lemma TimesAgree(
      fs: FileSystem, root: DirKey, f: Tree, k: DirKey, n: string, finished: nat, m: SelfMetadata, s: Tree)
    requires TwoTimes(fs, root, f, k, n, finished, m, s) && (k != root ==> HasUpper(fs, root, f, k))
    ensures Patched(f, DirRef(root), EntryRef(fs, k, n), finished, m) == s <==> TimesStand(fs, root, f, k, n, finished, m)
  {
    hide Rooted, Measured, Patched, OwnAfter, Pruned, Below, Remaining, DirsAbove, NewTime, TimeAfter;
    var x, r := EntryRef(fs, k, n), DirRef(root);
    var g := Patched(f, r, x, finished, m);
    TimesDiffer(fs, root, f, k, n, finished, m, s);
    if k != root {
      UpperTimes(fs, root, f, k, n, finished, m, s);
    }
    if TimesStand(fs, root, f, k, n, finished, m) {
      forall y | y in g
        ensures s[y] == g[y]
      {
        if y in FurtherAbove(f, root, k, x) {
          StandsAt(fs, root, f, k, n, finished, m, s, y);
        }
      }
    }
  }

  lemma StandsAt(
      fs: FileSystem, root: DirKey, f: Tree, k: DirKey, n: string, finished: nat, m: SelfMetadata, s: Tree, y: Ref)
    requires TwoTimes(fs, root, f, k, n, finished, m, s) && (k != root ==> HasUpper(fs, root, f, k))
    requires TimesStand(fs, root, f, k, n, finished, m) && y in FurtherAbove(f, root, k, EntryRef(fs, k, n))
    requires y in Patched(f, DirRef(root), EntryRef(fs, k, n), finished, m)
    ensures y in s && s[y].totals.mtime >= Patched(f, DirRef(root), EntryRef(fs, k, n), finished, m)[y].totals.mtime
  {
    hide Measured, Patched, OwnAfter, Pruned, Below, Remaining, NewTime, TimeAfter, TimesStand;
    var x, r := EntryRef(fs, k, n), DirRef(root);
    DeletableIsCut(f, r, x);
    OnlyDirsAbove(f, r, x);
    NothingAboveRoot(f, root, k, x, y);
    ShownNoEarlier(f, r, SelfMap(fs), x, finished, m, y);
    StandsAbove(fs, root, f, k, n, finished, m, s, y);
  }

  lemma NothingAboveRoot(f: Tree, root: DirKey, k: DirKey, x: Ref, y: Ref)
    requires Deletable(f, DirRef(root), x) && f[x].parent == Some(DirRef(k)) && y in FurtherAbove(f, root, k, x)
    ensures k != root
  {
  }

  lemma AnyUpper(fs: FileSystem, root: DirKey, name: string, f: Tree, k: DirKey)
    requires Authoritative(fs, root, name, f) && DirRef(k) in f && k != root
    ensures HasUpper(fs, root, f, k)
  {
    hide Rooted, Measured, Canonical;
    var p := PlaceOf(fs, root, f, DirRef(k));
    ChildrenKnown(f, DirRef(root), DirRef(p));
  }

  /** A scan of the remaining file system returns the very tree that the delete left, times included, if and only if
      the times stand. */
  lemma RescanEqual(
      fs: FileSystem, root: DirKey, name: string, f: Tree, k: DirKey, n: string, links: Option<nat>, finished: nat,
      m: SelfMetadata, scanned: Tree)
    requires Deletion(fs, root, name, f, k, n) && Cacheable(fs) && m.alloc >= 0 && TrueLinks(fs, k, n, links)
    requires EntryRef(fs, k, n) in f && !Ambiguous(f, EntryRef(fs, k, n), links, false)
    requires Authoritative(Remaining(fs, k, n, m), root, name, scanned)
    ensures Deletable(f, DirRef(root), EntryRef(fs, k, n)) && (k != root ==> HasUpper(fs, root, f, k))
    ensures Patched(f, DirRef(root), EntryRef(fs, k, n), finished, m) == scanned
      <==> TimesStand(fs, root, f, k, n, finished, m)
    ensures k != root ==>
      (var q := f[DirRef(k)].parent.value; q in scanned && scanned[q].totals.mtime == TimeAfter(fs, root, f, k, n, m))
  {
    hide Authoritative, Cacheable, TrueLinks, Ambiguous, Deletable, WellFormed, Unfollowed, Patched, Remaining, TwoTimes,
      FurtherAbove, TimeAfter, TimesStand, HasUpper;
    RescanFinds(fs, root, name, f, k, n, links, finished, m, scanned);
    TimesDiffer(fs, root, f, k, n, finished, m, scanned);
    if k != root {
      AnyUpper(fs, root, name, f, k);
      UpperTimes(fs, root, f, k, n, finished, m, scanned);
    }
    TimesAgree(fs, root, f, k, n, finished, m, scanned);
  }

  // A deletion after which the times do not stand.

  const TOP := DirKey(0, 1, "")
  const INNER := DirKey(0, 2, "")
  const X_REF := LeafRef(INNER, "x")

  /** The root and its directory p are of time 1, and p holds the file x of time 9. */
  const BEFORE: FileSystem := map[
    TOP := Directory(0, 1, map["p" := DirEntry(INNER)], false),
    INNER := Directory(0, 1, map["x" := FileEntry(None, 0, 0, 9)], false)]

  const SHOWN: Tree := map[
    DirRef(TOP) := Node("", true, 0, Totals(0, 0, 1, 1, 9), false, false, None, [DirRef(INNER)]),
    DirRef(INNER) := Node("p", true, 1, Totals(0, 0, 1, 0, 9), false, false, Some(DirRef(TOP)), [X_REF]),
    X_REF := Node("x", false, 2, Totals(0, 0, 0, 0, 9), false, false, Some(DirRef(INNER)), [])]

  lemma ShownRooted()
    ensures Rooted(SHOWN, DirRef(TOP)) && PathOf(SHOWN, DirRef(TOP), DirRef(TOP)) == ""
    ensures PathOf(SHOWN, DirRef(TOP), DirRef(INNER)) == "p"
  {
    forall n | n in SHOWN && n != DirRef(TOP)
      ensures HasParent(SHOWN, n)
    {
    }
    assert HasParent(SHOWN, DirRef(INNER));
  }

  lemma SumOfOne<Id(!new)>(f: Forest<Id>, c: Id)
    requires c in f
    ensures SumOf(f, [c]) == NOTHING.Plus(Contribution(f[c]))
  {
    assert [c][..0] == [];
  }

  lemma ShownMeasured()
    ensures Rooted(SHOWN, DirRef(TOP)) && Measured(SHOWN, DirRef(TOP), SelfMap(BEFORE))
  {
    ShownRooted();
    ShownDirs();
    hide Rooted, SelfMap, SumOf, Balanced, SHOWN;
    forall d | d in SHOWN && SHOWN[d].isDir
      ensures Balanced(SHOWN, DirRef(TOP), SelfMap(BEFORE), d)
    {
      OneChildBalanced(d, if d == DirRef(TOP) then DirRef(INNER) else X_REF);
    }
  }

  lemma ShownDirs()
    ensures forall d :: d in SHOWN && SHOWN[d].isDir ==> d == DirRef(TOP) || d == DirRef(INNER)
    ensures DirRef(TOP) in SHOWN && DirRef(INNER) in SHOWN && X_REF in SHOWN
    ensures SHOWN[DirRef(TOP)].children == [DirRef(INNER)] && SHOWN[DirRef(INNER)].children == [X_REF]
    ensures SHOWN[DirRef(TOP)].totals == Totals(0, 0, 0, 0, 1).Plus(NOTHING.Plus(Contribution(SHOWN[DirRef(INNER)])))
    ensures SHOWN[DirRef(INNER)].totals == Totals(0, 0, 0, 0, 1).Plus(NOTHING.Plus(Contribution(SHOWN[X_REF])))
  {
    ShownKeys();
    ShownNodes();
    hide SHOWN;
  }

  lemma ShownKeys()
    ensures SHOWN.Keys == {DirRef(TOP), DirRef(INNER), X_REF}
  {
  }

  lemma ShownNodes()
    ensures DirRef(TOP) in SHOWN && DirRef(INNER) in SHOWN && X_REF in SHOWN
    ensures SHOWN[DirRef(TOP)].children == [DirRef(INNER)] && SHOWN[DirRef(TOP)].totals == Totals(0, 0, 1, 1, 9)
    ensures SHOWN[DirRef(INNER)].children == [X_REF] && SHOWN[DirRef(INNER)].totals == Totals(0, 0, 1, 0, 9)
    ensures SHOWN[X_REF].totals == Totals(0, 0, 0, 0, 9)
    ensures SHOWN[DirRef(TOP)].isDir && SHOWN[DirRef(INNER)].isDir && !SHOWN[X_REF].isDir
    ensures forall y :: y in SHOWN ==> !SHOWN[y].failed && !SHOWN[y].hardlink
    ensures SHOWN[DirRef(TOP)].name == "" && SHOWN[DirRef(INNER)].name == "p" && SHOWN[X_REF].name == "x"
    ensures SHOWN[DirRef(INNER)].parent == Some(DirRef(TOP)) && SHOWN[X_REF].parent == Some(DirRef(INNER))
  {
  }

  lemma OneChildBalanced(d: Ref, c: Ref)
    requires Rooted(SHOWN, DirRef(TOP)) && d in SHOWN && c in SHOWN && SHOWN[d].children == [c]
    requires d == DirRef(TOP) || d == DirRef(INNER)
    requires SHOWN[d].totals == Totals(0, 0, 0, 0, 1).Plus(NOTHING.Plus(Contribution(SHOWN[c])))
    ensures Balanced(SHOWN, DirRef(TOP), SelfMap(BEFORE), d)
  {
    OwnBefore();
    hide Rooted, SelfMap, SHOWN;
    SumOfOne(SHOWN, c);
  }

  lemma OwnBefore()
    ensures SelfOf(SelfMap(BEFORE), DirRef(TOP)) == SelfOf(SelfMap(BEFORE), DirRef(INNER)) == Totals(0, 0, 0, 0, 1)
  {
  }

  lemma BeforeHolds()
    ensures forall k, n :: Holds(BEFORE, k, n) <==> (k == TOP && n == "p") || (k == INNER && n == "x")
    ensures Holds(BEFORE, TOP, "p") && EntryAt(BEFORE, TOP, "p") == DirEntry(INNER)
    ensures Holds(BEFORE, INNER, "x") && EntryAt(BEFORE, INNER, "x") == FileEntry(None, 0, 0, 9)
    ensures BEFORE.Keys == {TOP, INNER}
  {
  }

  lemma BeforeFits()
    ensures WellFormed(BEFORE) && Unfollowed(BEFORE, TOP) && Cacheable(BEFORE)
  {
    BeforeHolds();
    hide Holds, EntryAt;
    assert BEFORE[TOP].alloc == 0 && BEFORE[INNER].alloc == 0;
    hide BEFORE;
  }

  lemma ShownComplete()
    ensures Complete(BEFORE, TOP, SHOWN)
  {
    ShownRooted();
    ShownKeys();
    ShownNodes();
    BeforeHolds();
    hide Rooted, Holds, EntryAt, BEFORE, SHOWN;
    forall x | x in SHOWN && x != DirRef(TOP)
      ensures InPlace(BEFORE, SHOWN, x)
    {
    }
  }

  lemma ShownDirectories()
    ensures DirShown(BEFORE, SHOWN, TOP) && DirShown(BEFORE, SHOWN, INNER)
  {
    ShownKeys();
    ShownNodes();
    assert !BEFORE[TOP].failed && !BEFORE[INNER].failed;
    BeforeHolds();
    hide BEFORE, SHOWN, Holds;
  }

  lemma ShownLeaf()
    ensures Rooted(SHOWN, DirRef(TOP)) && X_REF in SHOWN && LeafShown(BEFORE, TOP, SHOWN, INNER, "x")
  {
    ShownRooted();
    ShownNodes();
    BeforeHolds();
    hide Rooted, BEFORE, SHOWN, Holds, EntryAt;
  }

  lemma ShownCanonical()
    ensures Rooted(SHOWN, DirRef(TOP)) && Canonical(SHOWN, TOP, FsEdges(BEFORE))
  {
    ShownRooted();
    hide Rooted;
    forall p, e | DirRef(p) in SHOWN && e in EdgesOf(FsEdges(BEFORE), p) && DirRef(e.target) in SHOWN
      ensures Least(SHOWN, TOP, p, e)
    {
      assert p == TOP && e == Edge("p", INNER);
      LessIrreflexive("p");
    }
  }

  lemma ShownAuthoritative()
    ensures Deletion(BEFORE, TOP, "", SHOWN, INNER, "x") && Cacheable(BEFORE)
  {
    hide Rooted, Measured, Canonical, Complete, WellFormed, Unfollowed, Cacheable, DirShown, LeafShown;
    BeforeFits();
    BeforeHolds();
    ShownComplete();
    ShownMeasured();
    ShownCanonical();
    ShownKeys();
    ShownNodes();
    ShownDirectories();
    ShownLeaf();
    hide SHOWN, BEFORE, Holds;
  }

  /** x is deleted at time 5, and p is of time 5 then: the patched root still shows the time of x, and the scan that
      follows shows 5. */
  lemma RescanTimesDiffer() returns (scanned: Tree)
    ensures Deletion(BEFORE, TOP, "", SHOWN, INNER, "x") && Cacheable(BEFORE) && TrueLinks(BEFORE, INNER, "x", Some(1))
    ensures !Ambiguous(SHOWN, X_REF, Some(1), false) && Deletable(SHOWN, DirRef(TOP), X_REF)
    ensures Authoritative(Remaining(BEFORE, INNER, "x", SelfMetadata(0, 5)), TOP, "", scanned)
    ensures var patched := Patched(SHOWN, DirRef(TOP), X_REF, 5, SelfMetadata(0, 5));
      && DirRef(TOP) in patched && patched[DirRef(TOP)].totals.mtime == 9
      && DirRef(TOP) in scanned && scanned[DirRef(TOP)].totals.mtime == 5
  {
    hide Rooted, Measured, Canonical, Authoritative, Deletable, Patched, Deletion, Cacheable, Remaining, TwoTimes, NewTime,
      FurtherAbove, TimesStand, Retime;
    var m, r := SelfMetadata(0, 5), DirRef(TOP);
    ShownAuthoritative();
    DeleteIsRescan(BEFORE, TOP, "", SHOWN, INNER, "x", Some(1), 5, m, 2);
    scanned := Retime(Patched(SHOWN, r, X_REF, 5, m), r, SelfMap(Remaining(BEFORE, INNER, "x", m)), 2);
    RescanEqual(BEFORE, TOP, "", SHOWN, INNER, "x", Some(1), 5, m, scanned);
    UpperTimes(BEFORE, TOP, SHOWN, INNER, "x", 5, m, scanned);
    ExampleTimes(m);
  }

  lemma ExampleTimes(m: SelfMetadata)
    requires Deletable(SHOWN, DirRef(TOP), X_REF) && HasUpper(BEFORE, TOP, SHOWN, INNER)
    ensures NewTime(SHOWN, DirRef(TOP), X_REF, m) == m.mtime
    ensures TimeAfter(BEFORE, TOP, SHOWN, INNER, "x", m) == Later(m.mtime, 1)
  {
    hide Deletable;
    assert [X_REF][..0] == [] && [DirRef(INNER)][..0] == [];
    assert Without([X_REF], X_REF) == [] && Without([DirRef(INNER)], DirRef(INNER)) == [];
  }
}
