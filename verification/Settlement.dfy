/** From a finished discovery to the authoritative tree. */
module Settlement {
  import opened PathOrder
  import opened Forest
  import opened Ordering
  import opened TotalsMeaning
  import opened Relocation
  import opened ByteTransfer
  import opened AliasGraph
  import opened FileOwners
  import opened FileSystem
  import opened Confluence
  import opened Discovery
  import opened DiscoverySteps
  import opened Scanner

  /** No goroutine has anything left to do. */
  ghost predicate Terminal(fs: FileSystem, s: State) {
    forall a {:trigger Enabled(fs, s, a)} :: !Enabled(fs, s, a)
  }

  /** A terminal state has read and published everything below its root. */
  lemma TerminalDone(fs: FileSystem, root: DirKey, name: string, s: State, k: DirKey)
    requires Inv(fs, root, name, s) && Terminal(fs, s) && DirRef(k) in s.tree
    ensures s.plans == map[]
    ensures k in fs && k in s.finished && FinishSound(fs, s, k)
    ensures forall n :: Holds(fs, k, n) ==> IsShown(fs, s, k, n)
  {
    NoPlansLeft(fs, s);
    assert DirSound(fs, s, k);
    assert !Enabled(fs, s, Begin(k));
    assert StartSound(fs, s, k);
    NothingUnread(fs, s, k);
    assert !Enabled(fs, s, Finish(k));
    assert FinishSound(fs, s, k);
  }

  lemma NoPlansLeft(fs: FileSystem, s: State)
    requires Terminal(fs, s)
    ensures s.plans == map[]
  {
    PlansEnabled(fs, s);
  }

  lemma PlansEnabled(fs: FileSystem, s: State)
    ensures forall id :: id in s.plans ==> Enabled(fs, s, Publish(id.dir, id.name))
  {
  }

  lemma NothingUnread(fs: FileSystem, s: State, k: DirKey)
    requires Terminal(fs, s) && k in s.unread && k in fs && s.unread[k] <= fs[k].entries.Keys
    ensures s.unread[k] == {}
  {
    UnreadEnabled(fs, s, k);
  }

  lemma UnreadEnabled(fs: FileSystem, s: State, k: DirKey)
    requires k in s.unread && k in fs && s.unread[k] <= fs[k].entries.Keys
    ensures forall n :: n in s.unread[k] ==> Enabled(fs, s, Classify(k, n))
  {
  }

  /** The discovered tree, and every tree that differs only in which recorded edge each directory hangs
      on, shows exactly the entries of the shown directories. */
  lemma DiscoveredComplete(fs: FileSystem, root: DirKey, name: string, s: State, f: Tree)
    requires WellFormed(fs) && Inv(fs, root, name, s) && Terminal(fs, s)
    requires OnlyMoved(s.tree, f) && Recorded(f, root, s.edges)
    ensures Complete(fs, root, f)
  {
    hide Rooted, OnEdge, PlansSound, GroupsSound;
    forall x | x in f && x != DirRef(root)
      ensures InPlace(fs, f, x)
    {
      match x
      case DirRef(k) =>
        assert OnEdge(f, s.edges, k);
        DirInPlace(fs, root, s, f, k);
      case LeafRef(k, n) =>
        assert LeafSound(fs, s, k, n);
    }
    forall k | DirRef(k) in f
      ensures k in fs
    {
      assert DirSound(fs, s, k);
    }
    forall k, n | DirRef(k) in f && Holds(fs, k, n)
      ensures EntryRef(fs, k, n) in f
    {
      TerminalDone(fs, root, name, s, k);
      assert IsShown(fs, s, k, n);
      if EntryAt(fs, k, n).DirEntry? {
        assert WasRead(fs, s, k, n);
        assert ClaimHeld(s, EntryAt(fs, k, n).target);
      }
    }
  }

  lemma DirInPlace(fs: FileSystem, root: DirKey, s: State, f: Tree, k: DirKey)
    requires ClaimsSound(fs, s) && DirRef(k) in f && k != root && OnEdge(f, s.edges, k)
    ensures InPlace(fs, f, DirRef(k))
  {
    assert EdgesSound(fs, s, f[DirRef(k)].parent.value.key);
  }

  /** At the end the recorded edges are the file system's. */
  lemma DiscoveredEdges(fs: FileSystem, root: DirKey, name: string, s: State, f: Tree)
    requires Inv(fs, root, name, s) && Terminal(fs, s) && f.Keys == s.tree.Keys
    requires Rooted(f, DirRef(root)) && Canonical(f, root, s.edges)
    ensures Canonical(f, root, FsEdges(fs))
  {
    hide Rooted, TreeSound, PlansSound, GroupsSound, LeavesSound, Least;
    forall p, e | DirRef(p) in f && e in EdgesOf(FsEdges(fs), p) && DirRef(e.target) in f
      ensures Least(f, root, p, e)
    {
      assert DirRef(p) in s.tree;
      TerminalDone(fs, root, name, s, p);
      assert Holds(fs, p, e.name) && IsShown(fs, s, p, e.name);
      assert EdgesSound(fs, s, p);
    }
  }

  lemma DiscoveredGroup(fs: FileSystem, root: DirKey, name: string, s: State, f: Tree, key: FileKey)
    requires Inv(fs, root, name, s) && Terminal(fs, s) && key in s.groups
    requires OnlyMoved(s.tree, f) && Complete(fs, root, f)
    ensures GroupIn(f, DirRef(root), s.groups[key]) && HasCarrier(f, s.groups[key])
  {
    hide Rooted, PathOf, TreeSound, ClaimsSound, DirsSound;
    CompleteRooted(fs, root, f);
    NoPlansLeft(fs, s);
    var g := s.groups[key];
    assert GroupSound(fs, s, key);
    forall x | x in g.nodes
      ensures x in f && x != DirRef(root) && MemberShown(fs, s, key, f, x)
    {
      GroupMember(fs, s, key, f, x);
    }
    forall x, y | x in g.nodes && y in g.nodes && PathOf(f, DirRef(root), x) == PathOf(f, DirRef(root), y)
      ensures x == y
    {
      PathsDistinct(fs, root, f, x, y);
    }
    assert g.nodes[0] in g.nodes;
    CarriesFirst(fs, s, key, f);
  }

  ghost predicate MemberShown(fs: FileSystem, s: State, key: FileKey, f: Tree, x: Ref)
    requires key in s.groups && s.groups[key].nodes != []
  {
    && x in f && !f[x].isDir
    && if x == s.groups[key].nodes[0] then Carries(f, x, s.groups[key]) else Flagged(f, x)
  }

  lemma GroupMember(fs: FileSystem, s: State, key: FileKey, f: Tree, x: Ref)
    requires LeavesSound(fs, s) && key in s.groups && GroupSound(fs, s, key) && s.plans == map[]
    requires OnlyMoved(s.tree, f) && x in s.groups[key].nodes
    ensures x.LeafRef? && MemberShown(fs, s, key, f, x)
  {
    assert IsShown(fs, s, x.dir, x.entry);
    assert LeafSound(fs, s, x.dir, x.entry);
  }

  lemma CarriesFirst(fs: FileSystem, s: State, key: FileKey, f: Tree)
    requires key in s.groups && s.groups[key].nodes != []
    requires forall x :: x in s.groups[key].nodes ==> MemberShown(fs, s, key, f, x)
    ensures HasCarrier(f, s.groups[key])
  {
    var g := s.groups[key];
    assert g.nodes[0] in g.nodes;
    forall x | x in g.nodes
      ensures x in f && (x != g.nodes[0] ==> Flagged(f, x))
    {
      assert MemberShown(fs, s, key, f, x);
    }
    assert CarriesAlone(f, g, g.nodes[0]);
  }

  lemma DiscoveredGroups(fs: FileSystem, root: DirKey, name: string, s: State, f: Tree)
    requires Inv(fs, root, name, s) && Terminal(fs, s)
    requires OnlyMoved(s.tree, f) && Complete(fs, root, f) && Rooted(f, DirRef(root))
    ensures GroupsIn(f, DirRef(root), s.groups)
    ensures forall key :: key in s.groups ==> HasCarrier(f, s.groups[key])
  {
    hide Rooted, PathOf, TreeSound, ClaimsSound, DirsSound, GroupIn, HasCarrier, Complete, OnlyMoved;
    forall key | key in s.groups
      ensures GroupIn(f, DirRef(root), s.groups[key]) && HasCarrier(f, s.groups[key])
    {
      DiscoveredGroup(fs, root, name, s, f, key);
    }
    forall key, other, x | key in s.groups && other in s.groups && key != other && x in s.groups[key].nodes
      ensures x !in s.groups[other].nodes
    {
      assert GroupSound(fs, s, key) && GroupSound(fs, s, other);
    }
  }

  lemma DiscoveredSorted(fs: FileSystem, root: DirKey, name: string, s: State)
    requires Inv(fs, root, name, s) && Terminal(fs, s)
    ensures AllSorted(s.tree)
  {
    TreeParts(root, s);
    hide Rooted, Measured;
    forall d | d in s.tree
      ensures NameSorted(s.tree, s.tree[d].children)
    {
      if d.DirRef? {
        TerminalDone(fs, root, name, s, d.key);
      }
    }
  }

  /** g holds f's nodes at the same places. */
  ghost predicate SamePlaces(f: Tree, g: Tree) {
    f.Keys == g.Keys && forall x {:trigger g[x]} :: x in f ==>
      g[x].parent == f[x].parent && g[x].name == f[x].name && g[x].children == f[x].children
  }

  lemma {:induction false} SamePlacesPath(f: Tree, g: Tree, root: Ref, x: Ref)
    requires Rooted(f, root) && Rooted(g, root) && SamePlaces(f, g) && x in f
    ensures PathOf(g, root, x) == PathOf(f, root, x)
    decreases f[x].depth
  {
    if x != root {
      assert HasParent(f, x);
      SamePlacesPath(f, g, root, f[x].parent.value);
    }
  }

  lemma CompleteTransfers(fs: FileSystem, root: DirKey, f: Tree, g: Tree)
    requires Complete(fs, root, f) && Rooted(g, DirRef(root)) && SamePlaces(f, g)
    ensures Complete(fs, root, g)
  {
    hide Rooted;
    forall x | x in g && x != DirRef(root)
      ensures InPlace(fs, g, x)
    {
      assert InPlace(fs, f, x);
    }
  }

  lemma CanonicalTransfers(f: Tree, g: Tree, root: DirKey, edges: Edges)
    requires Rooted(f, DirRef(root)) && Rooted(g, DirRef(root)) && SamePlaces(f, g)
    requires Canonical(f, root, edges)
    ensures Canonical(g, root, edges)
  {
    hide Rooted;
    forall p, e | DirRef(p) in g && e in EdgesOf(edges, p) && DirRef(e.target) in g
      ensures Least(g, root, p, e)
    {
      assert Least(f, root, p, e);
      SamePlacesPath(f, g, DirRef(root), DirRef(p));
      SamePlacesPath(f, g, DirRef(root), DirRef(e.target));
    }
  }

  /** What the final locked step turns the discovered tree s.tree into: directories relocated to their
      least paths (moved), then file bytes to their least paths (owned), then totals rebuilt (f). */
  ghost predicate SettledBy(root: DirKey, s: State, moved: Tree, owned: Tree, f: Tree) {
    && OnlyMoved(s.tree, moved) && AllSorted(moved)
    && Recorded(moved, root, s.edges) && Canonical(moved, root, s.edges)
    && SameButBytes(moved, owned) && Rooted(owned, DirRef(root))
    && (forall key :: key in s.groups ==> OwnedByLeast(owned, DirRef(root), s.groups[key]))
    && (forall y :: y in moved && !moved[y].isDir && Ungrouped(s.groups, y) ==> owned[y] == moved[y])
    && DirRef(root) in owned && DirRef(root) in moved && owned[DirRef(root)].totals == moved[DirRef(root)].totals
    && Gap(owned, DirRef(root), s.self) == Gap(moved, DirRef(root), s.self)
    && SameShape(owned, f) && Rooted(f, DirRef(root)) && Measured(f, DirRef(root), s.self)
    && (forall y :: y in owned && !owned[y].isDir ==> f[y] == owned[y])
  }

  lemma SettledPlaces(root: DirKey, s: State, moved: Tree, owned: Tree, f: Tree)
    requires SettledBy(root, s, moved, owned, f)
    ensures SamePlaces(moved, owned) && SamePlaces(moved, f) && SamePlaces(owned, f)
    ensures forall x {:trigger f[x]} :: x in moved ==>
      f[x].isDir == moved[x].isDir && f[x].failed == moved[x].failed && (f[x].isDir ==> f[x].hardlink == moved[x].hardlink)
    ensures f.Keys == s.tree.Keys == moved.Keys == owned.Keys
  {
  }

  /** A directory of the settled tree shows its own metadata and its sorted entries. */
  lemma SettledDir(
      fs: FileSystem, root: DirKey, name: string, s: State, moved: Tree, owned: Tree, f: Tree, k: DirKey)
    requires Inv(fs, root, name, s) && Terminal(fs, s) && SettledBy(root, s, moved, owned, f) && DirRef(k) in f
    ensures DirShown(fs, f, k)
  {
    SettledPlaces(root, s, moved, owned, f);
    hide Rooted, Measured, SettledBy, Canonical;
    SettledMoves(root, s, moved, owned, f);
    TreeParts(root, s);
    TerminalDone(fs, root, name, s, k);
    assert DirSound(fs, s, k);
    assert NameSorted(moved, moved[DirRef(k)].children);
    SameNamesSorted(moved, f, moved[DirRef(k)].children);
  }

  lemma SettledMoves(root: DirKey, s: State, moved: Tree, owned: Tree, f: Tree)
    requires SettledBy(root, s, moved, owned, f)
    ensures OnlyMoved(s.tree, moved) && AllSorted(moved) && SameButBytes(moved, owned)
  {
  }

  lemma SettledMeasured(
      fs: FileSystem, root: DirKey, name: string, s: State, moved: Tree, owned: Tree, f: Tree)
    requires Inv(fs, root, name, s) && Terminal(fs, s) && SettledBy(root, s, moved, owned, f)
    ensures Measured(f, DirRef(root), SelfMap(fs))
  {
    SettledPlaces(root, s, moved, owned, f);
    TreeParts(root, s);
    SettledMoves(root, s, moved, owned, f);
    hide Rooted, SameButBytes, SameShape, AllSorted;
    forall d | d in f && f[d].isDir
      ensures Balanced(f, DirRef(root), SelfMap(fs), d)
    {
      assert s.tree[d].isDir && d.DirRef?;
      TerminalDone(fs, root, name, s, d.key);
      assert StartSound(fs, s, d.key);
      assert Balanced(f, DirRef(root), s.self, d);
      assert SelfOf(SelfMap(fs), d) == SelfOf(s.self, d);
    }
  }

  /** A leaf of the settled tree has the measurements it had when it was discovered, up to its bytes. */
  lemma SettledLeafKept(
      fs: FileSystem, root: DirKey, s: State, moved: Tree, owned: Tree, f: Tree, k: DirKey, n: string)
    requires LeavesSound(fs, s) && SettledBy(root, s, moved, owned, f) && LeafRef(k, n) in f
    ensures IsShown(fs, s, k, n) && !EntryAt(fs, k, n).DirEntry?
    ensures var v, e := f[LeafRef(k, n)], EntryAt(fs, k, n);
      && !v.isDir && v == owned[LeafRef(k, n)]
      && v.totals.files == 0 && v.totals.dirs == 0 && v.failed == e.BadEntry?
      && v.totals.mtime == (if e.FileEntry? then e.mtime else 0)
  {
    assert LeafSound(fs, s, k, n);
    hide Rooted;
    assert s.tree[LeafRef(k, n)].isDir == moved[LeafRef(k, n)].isDir;
    assert s.tree[LeafRef(k, n)].totals == moved[LeafRef(k, n)].totals;
    assert owned[LeafRef(k, n)].totals.files == 0;
  }

  /** An entry whose file has one name only is never touched by normalization. */
  lemma SettledAlone(
      fs: FileSystem, root: DirKey, s: State, moved: Tree, owned: Tree, f: Tree, k: DirKey, n: string)
    requires LeavesSound(fs, s) && GroupsSound(fs, s) && SettledBy(root, s, moved, owned, f) && LeafRef(k, n) in f
    requires Holds(fs, k, n) && EntryAt(fs, k, n).FileEntry? ==> EntryAt(fs, k, n).key.None?
    ensures IsShown(fs, s, k, n) && MeasuredAs(f[LeafRef(k, n)], LeafNode(n, EntryAt(fs, k, n), false))
  {
    SettledLeafKept(fs, root, s, moved, owned, f, k, n);
    assert LeafSound(fs, s, k, n);
    hide Rooted;
    forall key | key in s.groups
      ensures LeafRef(k, n) !in s.groups[key].nodes
    {
      assert GroupSound(fs, s, key);
    }
    assert Ungrouped(s.groups, LeafRef(k, n));
    assert s.tree[LeafRef(k, n)].totals == moved[LeafRef(k, n)].totals;
  }

  lemma SettledShared(
      fs: FileSystem, root: DirKey, s: State, moved: Tree, owned: Tree, f: Tree, k: DirKey, n: string, key: FileKey)
    requires LeavesSound(fs, s) && GroupsSound(fs, s) && SettledBy(root, s, moved, owned, f) && LeafRef(k, n) in f
    requires IsFile(fs, k, n, key)
    ensures Rooted(f, DirRef(root))
    ensures MeasuredAs(f[LeafRef(k, n)],
      LeafNode(n, EntryAt(fs, k, n), !LeastOfFile(fs, root, f, key, LeafRef(k, n))))
  {
    SettledLeafKept(fs, root, s, moved, owned, f, k, n);
    assert Registered(s, key, LeafRef(k, n)) && GroupSound(fs, s, key);
    SettledOwner(fs, root, s, moved, owned, f, k, n, key);
    hide Rooted, PathOf, IsOwner, LeastOfFile;
    assert OwnedByLeast(owned, DirRef(root), s.groups[key]);
  }

  /** The entries of a file that the tree shows are the ones that were registered. */
  lemma SettledOwner(
      fs: FileSystem, root: DirKey, s: State, moved: Tree, owned: Tree, f: Tree, k: DirKey, n: string, key: FileKey)
    requires LeavesSound(fs, s) && GroupsSound(fs, s) && SettledBy(root, s, moved, owned, f) && LeafRef(k, n) in f
    requires IsFile(fs, k, n, key)
    ensures Rooted(f, DirRef(root)) && Rooted(owned, DirRef(root)) && LeafRef(k, n) in owned && key in s.groups
    ensures forall y :: y in s.groups[key].nodes ==> y in owned
    ensures IsOwner(owned, DirRef(root), s.groups[key].nodes, LeafRef(k, n))
      <==> LeastOfFile(fs, root, f, key, LeafRef(k, n))
  {
    SettledPlaces(root, s, moved, owned, f);
    SettledGroup(fs, root, s, moved, owned, f, k, n, key);
    hide Rooted, PathOf, SamePlaces;
    forall y | y in f
      ensures PathOf(owned, DirRef(root), y) == PathOf(f, DirRef(root), y)
    {
      SamePlacesPath(owned, f, DirRef(root), y);
    }
    forall j, m | LeafRef(j, m) in f && IsFile(fs, j, m, key)
      ensures LeafRef(j, m) in s.groups[key].nodes
    {
      SettledGroup(fs, root, s, moved, owned, f, j, m, key);
    }
    hide SettledBy;
    GroupIsFile(fs, s, key);
  }

  lemma GroupIsFile(fs: FileSystem, s: State, key: FileKey)
    requires GroupsSound(fs, s) && key in s.groups
    ensures forall y :: y in s.groups[key].nodes ==> y.LeafRef? && IsFile(fs, y.dir, y.entry, key)
  {
    assert GroupSound(fs, s, key);
  }

  lemma SettledGroup(
      fs: FileSystem, root: DirKey, s: State, moved: Tree, owned: Tree, f: Tree, k: DirKey, n: string, key: FileKey)
    requires LeavesSound(fs, s) && GroupsSound(fs, s) && SettledBy(root, s, moved, owned, f) && LeafRef(k, n) in f
    requires IsFile(fs, k, n, key)
    ensures Rooted(f, DirRef(root)) && Rooted(owned, DirRef(root)) && owned.Keys == f.Keys
    ensures key in s.groups && LeafRef(k, n) in s.groups[key].nodes
    ensures forall y :: y in s.groups[key].nodes ==> y in owned
  {
    SettledLeafKept(fs, root, s, moved, owned, f, k, n);
    assert Registered(s, key, LeafRef(k, n));
    assert OwnedByLeast(owned, DirRef(root), s.groups[key]);
  }

  lemma SettledLeaf(
      fs: FileSystem, root: DirKey, s: State, moved: Tree, owned: Tree, f: Tree, k: DirKey, n: string)
    requires LeavesSound(fs, s) && GroupsSound(fs, s) && SettledBy(root, s, moved, owned, f) && LeafRef(k, n) in f
    ensures Rooted(f, DirRef(root)) && LeafShown(fs, root, f, k, n)
  {
    hide Rooted, LeafNode, LeastOfFile;
    SettledLeafKept(fs, root, s, moved, owned, f, k, n);
    var e := EntryAt(fs, k, n);
    if e.FileEntry? && e.key.Some? {
      SettledShared(fs, root, s, moved, owned, f, k, n, e.key.value);
    } else {
      SettledAlone(fs, root, s, moved, owned, f, k, n);
    }
  }

  /** Whatever the schedule was, the final step leaves the authoritative tree. */
  lemma SettledAuthoritative(
      fs: FileSystem, root: DirKey, name: string, s: State, moved: Tree, owned: Tree, f: Tree)
    requires WellFormed(fs) && Inv(fs, root, name, s) && Terminal(fs, s) && SettledBy(root, s, moved, owned, f)
    ensures Authoritative(fs, root, name, f)
  {
    SettledPlaces(root, s, moved, owned, f);
    hide Rooted, Measured, Canonical, Recorded, SameButBytes, SameShape, AllSorted, SamePlaces, Complete;
    hide WellFormed, TreeSound, PlansSound, ClaimsSound, FinishedSound, DirShown, LeafShown;
    DiscoveredComplete(fs, root, name, s, moved);
    RecordedRooted(moved, root, s.edges);
    CompleteTransfers(fs, root, moved, f);
    DiscoveredEdges(fs, root, name, s, moved);
    CanonicalTransfers(moved, f, root, FsEdges(fs));
    SettledMeasured(fs, root, name, s, moved, owned, f);
    assert f[DirRef(root)].name == name by { RootNameKept(root, s, moved, owned, f); }
    forall k | DirRef(k) in f
      ensures DirShown(fs, f, k)
    {
      SettledDir(fs, root, name, s, moved, owned, f, k);
    }
    forall k, n | LeafRef(k, n) in f
      ensures LeafShown(fs, root, f, k, n)
    {
      SettledLeaf(fs, root, s, moved, owned, f, k, n);
    }
  }

  lemma RootNameKept(root: DirKey, s: State, moved: Tree, owned: Tree, f: Tree)
    requires SettledBy(root, s, moved, owned, f) && Rooted(s.tree, DirRef(root))
    ensures DirRef(root) in s.tree && DirRef(root) in f && f[DirRef(root)].name == s.tree[DirRef(root)].name
  {
    SettledPlaces(root, s, moved, owned, f);
  }

  lemma RecordedRooted(f: Tree, root: DirKey, edges: Edges)
    requires Recorded(f, root, edges)
    ensures Rooted(f, DirRef(root)) && DirRef(root) in f
  {
  }

  lemma {:induction false} SumSetCounts(w: map<Ref, Totals>, v: map<Ref, Totals>, s: set<Ref>)
    requires s <= w.Keys && s <= v.Keys
    requires forall y :: y in s ==> w[y].files == v[y].files && w[y].dirs == v[y].dirs && w[y].mtime == v[y].mtime
    ensures SumSet(w, s).files == SumSet(v, s).files && SumSet(w, s).dirs == SumSet(v, s).dirs
    ensures SumSet(w, s).mtime == SumSet(v, s).mtime
  {
    if s != {} {
      SumSetCounts(w, v, s - {Pick(s)});
    }
  }

  lemma SettledOwns(root: DirKey, s: State, moved: Tree, owned: Tree, f: Tree)
    requires SettledBy(root, s, moved, owned, f)
    ensures Owns(moved, s.self) == Owns(s.tree, s.self) && Owns(f, s.self) == Owns(owned, s.self)
    ensures Owns(moved, s.self).Keys == moved.Keys && Owns(owned, s.self).Keys == owned.Keys
    ensures forall y :: y in moved ==> var a, b := Owns(moved, s.self)[y], Owns(owned, s.self)[y];
      a.files == b.files && a.dirs == b.dirs && a.mtime == b.mtime
    ensures f.Keys == s.tree.Keys == moved.Keys == owned.Keys
  {
    hide Rooted, SettledBy, Owns;
    SettledPlaces(root, s, moved, owned, f);
    SettledSteps(root, s, moved, owned, f);
    MovedOwns(s.tree, moved, s.self);
    OwnedOwns(moved, owned, s.self);
    RebuiltOwns(owned, f, s.self);
  }

  lemma SettledSteps(root: DirKey, s: State, moved: Tree, owned: Tree, f: Tree)
    requires SettledBy(root, s, moved, owned, f)
    ensures OnlyMoved(s.tree, moved) && SameButBytes(moved, owned) && SameShape(owned, f)
    ensures forall y :: y in owned && !owned[y].isDir ==> f[y] == owned[y]
  {
  }

  lemma MovedOwns(f: Tree, g: Tree, self: map<Ref, SelfMetadata>)
    requires OnlyMoved(f, g)
    ensures Owns(g, self) == Owns(f, self)
  {
    assert forall x :: x in f ==> Own(g, self, x) == Own(f, self, x);
  }

  lemma OwnedOwns(f: Tree, g: Tree, self: map<Ref, SelfMetadata>)
    requires SameButBytes(f, g)
    ensures Owns(f, self).Keys == f.Keys && Owns(g, self).Keys == g.Keys
    ensures forall y :: y in f ==> var a, b := Owns(f, self)[y], Owns(g, self)[y];
      a.files == b.files && a.dirs == b.dirs && a.mtime == b.mtime
  {
  }

  lemma RebuiltOwns(f: Tree, g: Tree, self: map<Ref, SelfMetadata>)
    requires SameShape(f, g) && forall y :: y in f && !f[y].isDir ==> g[y] == f[y]
    ensures Owns(g, self) == Owns(f, self)
  {
    assert forall x :: x in f ==> Own(g, self, x) == Own(f, self, x);
  }

  /** The root totals that the running scan had climbed to are the final ones: relocation, the choice
      of byte owners and the recomputation conserve them. */
  lemma GrandTotalConserved(fs: FileSystem, root: DirKey, name: string, s: State, moved: Tree, owned: Tree, f: Tree)
    requires Inv(fs, root, name, s) && Terminal(fs, s) && SettledBy(root, s, moved, owned, f)
    ensures DirRef(root) in f && DirRef(root) in s.tree && f[DirRef(root)].totals == s.tree[DirRef(root)].totals
  {
    hide Rooted, Measured, Canonical, Ungrouped, AllSorted, Recorded, SettledBy, Owns, Inv, Terminal;
    var r := DirRef(root);
    SettledOwns(root, s, moved, owned, f);
    RootNow(fs, root, name, s, moved, owned, f);
    RootCountsAll(s.tree, r, s.self);
    RootCountsAll(f, r, s.self);
    SumSetCounts(Owns(moved, s.self), Owns(owned, s.self), moved.Keys);
  }

  lemma RootNow(fs: FileSystem, root: DirKey, name: string, s: State, moved: Tree, owned: Tree, f: Tree)
    requires Inv(fs, root, name, s) && SettledBy(root, s, moved, owned, f)
    ensures var r := DirRef(root);
      && r in s.tree && r in moved && r in owned && r in f && s.tree[r].isDir && f[r].isDir
      && Rooted(s.tree, r) && Measured(s.tree, r, s.self) && Rooted(f, r) && Measured(f, r, s.self)
      && s.tree[r].totals == moved[r].totals == owned[r].totals
      && Gap(owned, r, s.self) == Gap(moved, r, s.self)
  {
    assert DirSound(fs, s, root);
  }

  /** Without followed links each directory has one entry, and discovery already hangs it there: relocation has
      nothing to move. */
  lemma UnfollowedIsCanonical(fs: FileSystem, root: DirKey, name: string, s: State)
    requires WellFormed(fs) && Unfollowed(fs, root) && Inv(fs, root, name, s) && Terminal(fs, s)
    ensures Rooted(s.tree, DirRef(root)) && Canonical(s.tree, root, s.edges)
  {
    hide Rooted;
    forall p, e | DirRef(p) in s.tree && e in EdgesOf(s.edges, p) && DirRef(e.target) in s.tree
      ensures Least(s.tree, root, p, e)
    {
      assert EdgesSound(fs, s, p) && IsShown(fs, s, p, e.name) && Holds(fs, p, e.name);
      assert e.target != root;
      DirPathUnfolds(s.tree, root, s.edges, e.target);
      var q := s.tree[DirRef(e.target)].parent.value.key;
      assert EdgesSound(fs, s, q) && IsShown(fs, s, q, s.tree[DirRef(e.target)].name);
      assert OneEntry(fs, p, e.name, q, s.tree[DirRef(e.target)].name);
      LessIrreflexive(DirPath(s.tree, root, e.target));
    }
  }

  /** So a scan that does not follow links may skip relocation and recomputation: once the bytes are on their least
      names, the tree that discovery left is settled. */
  lemma UnfollowedSettles(fs: FileSystem, root: DirKey, name: string, s: State, owned: Tree)
    requires WellFormed(fs) && Unfollowed(fs, root) && Inv(fs, root, name, s) && Terminal(fs, s)
    requires SameButBytes(s.tree, owned) && Rooted(owned, DirRef(root)) && Measured(owned, DirRef(root), s.self)
    requires forall key :: key in s.groups ==> OwnedByLeast(owned, DirRef(root), s.groups[key])
    requires forall y :: y in s.tree && !s.tree[y].isDir && Ungrouped(s.groups, y) ==> owned[y] == s.tree[y]
    requires DirRef(root) in owned && DirRef(root) in s.tree && owned[DirRef(root)].totals == s.tree[DirRef(root)].totals
    requires Rooted(s.tree, DirRef(root)) && Gap(owned, DirRef(root), s.self) == Gap(s.tree, DirRef(root), s.self)
    ensures SettledBy(root, s, s.tree, owned, owned) && Authoritative(fs, root, name, owned)
  {
    hide Rooted, Measured, Canonical, OwnedByLeast, Ungrouped, Gap, SameButBytes, Terminal, Unfollowed, WellFormed,
      Authoritative, Complete;
    OnlyMovedReflexive(s.tree);
    DiscoveredSorted(fs, root, name, s);
    UnfollowedIsCanonical(fs, root, name, s);
    TreeParts(root, s);
    SettledAuthoritative(fs, root, name, s, s.tree, owned, owned);
  }
}
