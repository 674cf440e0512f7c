/** The scan itself: the locked steps of its goroutines on the shared objects, and the final step. */
module Scan {
  import opened Forest
  import opened ByteTransfer
  import opened LiveTree
  import opened AliasGraph
  import opened FileOwners
  import opened FileSystem
  import opened Discovery
  import opened DiscoverySteps
  import opened Settlement
  import opened Scanner
  import opened ScanMeaning

  class Scan {
    const fs: FileSystem
    const rootKey: DirKey
    const name: string
    const tree: LiveTree<Ref>
    const scanner: Scanner
    /** Entries that a directory's goroutine has not classified yet. */
    var unread: map<DirKey, set<string>>
    /** Classified entries on their way into the tree. */
    var plans: map<EntryId, Plan>
    var finished: set<DirKey>

    constructor (fs: FileSystem, rootKey: DirKey, name: string)
      requires rootKey in fs
      ensures this.fs == fs && this.rootKey == rootKey && this.name == name
      ensures fresh(tree) && fresh(scanner) && Wired()
      ensures View() == Initial(rootKey, name) && Inv(fs, rootKey, name, View())
    {
      hide Inv;
      var t := new LiveTree<Ref>(DirRef(rootKey), name);
      var s := new Scanner(rootKey, t);
      this.fs, this.rootKey, this.name, tree, scanner := fs, rootKey, name, t, s;
      unread, plans, finished := map[], map[], {};
      new;
      InitialSound(fs, rootKey, name);
    }

    ghost predicate Wired() {
      scanner.tree == tree && scanner.rootKey == rootKey && tree.root == DirRef(rootKey)
    }

    ghost function View(): State
      reads this, tree, scanner
    {
      State(tree.nodes, tree.self, scanner.dirOrder, scanner.edges, scanner.fileGroups, unread, plans, finished)
    }

    ghost predicate Sound()
      reads this, tree, scanner
    {
      Wired() && WellFormed(fs) && Inv(fs, rootKey, name, View())
    }

    /** scanDir, first locked step. */
    method BeginDirectory(k: DirKey)
      requires Sound() && Enabled(fs, View(), Begin(k))
      modifies this, tree, scanner
      ensures Sound() && Step(fs, rootKey, old(View()), Begin(k), View())
    {
      hide Inv, Rooted, Measured, StartedUp, WellFormed, Unstarted;
      ghost var s := View();
      UnbegunUnstarted(fs, rootKey, name, s, k);
      SoundTree(fs, rootKey, name, s);
      tree.StartDirectory(DirRef(k), fs[k].alloc, fs[k].mtime);
      unread := unread[k := fs[k].entries.Keys];
      StepKeeps(fs, rootKey, name, s, Begin(k), View());
    }

    /** classifyEntry with claimDirectory and deduplicatedFile: their two locks protect the directory
        claims and the file groups. */
    method ClassifyEntry(k: DirKey, n: string)
      requires Sound() && Enabled(fs, View(), Classify(k, n))
      modifies this, scanner
      ensures Sound() && Step(fs, rootKey, old(View()), Classify(k, n), View())
    {
      hide Inv, WellFormed, LeafNode, Step;
      ghost var s := View();
      var e := fs[k].entries[n];
      unread := unread[k := unread[k] - {n}];
      match e {
        case BadEntry =>
          plans := plans[EntryId(k, n) := LeafPlan(LeafNode(n, e, false))];
        case DirEntry(target) =>
          var scan := target !in scanner.dirOrder;
          if scan {
            scanner.dirOrder := scanner.dirOrder + [target];
          }
          plans := plans[EntryId(k, n) := DirPlan(target, scan)];
        case FileEntry(key, apparent, alloc, _) =>
          var seen := key.Some? && key.value in scanner.fileGroups;
          if seen {
            var g := scanner.fileGroups[key.value];
            scanner.fileGroups := scanner.fileGroups[key.value := g.(nodes := g.nodes + [LeafRef(k, n)])];
          } else if key.Some? {
            scanner.fileGroups := scanner.fileGroups[key.value := FileGroup([LeafRef(k, n)], apparent, alloc)];
          }
          plans := plans[EntryId(k, n) := LeafPlan(LeafNode(n, e, seen))];
      }
      ClassifyIsStep(fs, rootKey, s, k, n, View());
      StepKeeps(fs, rootKey, name, s, Classify(k, n), View());
    }

    /** processDirectoryBatch, locked step, for one planned entry. */
    method PublishEntry(k: DirKey, n: string)
      requires Sound() && Enabled(fs, View(), Publish(k, n))
      modifies this, tree, scanner
      ensures Sound() && Step(fs, rootKey, old(View()), Publish(k, n), View())
    {
      hide Inv, Rooted, Measured, Published, WellFormed, Adoptable, LeafNode;
      ghost var s := View();
      PlanPublishable(fs, rootKey, name, s, k, n);
      SoundTree(fs, rootKey, name, s);
      var plan := plans[EntryId(k, n)];
      plans := plans - {EntryId(k, n)};
      match plan {
        case LeafPlan(v) =>
          tree.PublishLeaf(DirRef(k), LeafRef(k, n), v);
        case DirPlan(target, scan) =>
          scanner.edges := scanner.edges[k := EdgesOf(scanner.edges, k) + [Edge(n, target)]];
          if scan {
            tree.PublishDirectory(DirRef(k), DirRef(target), n);
          }
      }
      StepKeeps(fs, rootKey, name, s, Publish(k, n), View());
    }

    /** scanDir, deferred step: the error of an unreadable directory, and its children by name. */
    method FinishDirectory(k: DirKey)
      requires Sound() && Enabled(fs, View(), Finish(k))
      modifies this, tree
      ensures Sound() && Step(fs, rootKey, old(View()), Finish(k), View())
    {
      hide Inv, Rooted, Measured, ChildrenSorted, WellFormed;
      ghost var s := View();
      BegunInTree(fs, rootKey, name, s, k);
      SoundTree(fs, rootKey, name, s);
      ghost var f := tree.nodes[DirRef(k) := tree.nodes[DirRef(k)].(failed := fs[k].failed)];
      FlaggedRooted(tree.nodes, f, DirRef(rootKey), DirRef(k));
      tree.nodes := tree.nodes[DirRef(k) := tree.nodes[DirRef(k)].(failed := fs[k].failed)];
      tree.SortChildren(DirRef(k));
      SortedKeepsKeys(f, tree.nodes, DirRef(k));
      finished := finished + {k};
      StepKeeps(fs, rootKey, name, s, Finish(k), View());
    }

    /** The final locked step of a scan that follows links, after all goroutines are done. */
    method Settle()
      requires Sound() && Terminal(fs, View())
      modifies tree`nodes
      ensures Authoritative(fs, rootKey, name, tree.nodes)
      ensures NodesSay(fs, rootKey, tree.nodes) && RootSays(fs, rootKey, tree.nodes)
      ensures exists moved, owned :: SettledBy(rootKey, old(View()), moved, owned, tree.nodes)
      ensures DirRef(rootKey) in tree.nodes && DirRef(rootKey) in old(tree.nodes)
      ensures tree.nodes[DirRef(rootKey)].totals == old(tree.nodes)[DirRef(rootKey)].totals
    {
      hide Inv, Rooted, Measured, Recorded, Canonical, OnlyMoved, AllSorted, SameButBytes, SameShape, WellFormed, Terminal,
        GroupsIn, HasCarrier, OwnedByLeast, Ungrouped, Complete, Authoritative, EdgesOf, RootTotals, SettledBy, Gap,
        NodesSay, RootSays;
      ghost var s := View();
      SoundTree(fs, rootKey, name, s);
      DiscoveredSorted(fs, rootKey, name, s);
      EdgesClaimed(fs, rootKey, name, s);
      scanner.CanonicalizeDirectoryOwners();
      ghost var moved := tree.nodes;
      RecordedRooted(moved, rootKey, s.edges);
      DiscoveredComplete(fs, rootKey, name, s, moved);
      DiscoveredGroups(fs, rootKey, name, s, moved);
      scanner.NormalizeFileOwners();
      ghost var owned := tree.nodes;
      RootIsDir(fs, rootKey, name, s, moved, owned);
      scanner.RecomputeTree();
      SettledParts(rootKey, s, moved, owned, tree.nodes);
      SettledAuthoritative(fs, rootKey, name, s, moved, owned, tree.nodes);
      GrandTotalConserved(fs, rootKey, name, s, moved, owned, tree.nodes);
      NodesMeasured(fs, rootKey, name, tree.nodes);
      RootShowsFiles(fs, rootKey, name, tree.nodes);
    }

    /** The final locked step of a scan that does not follow links: only file owners are settled. */
    method SettleUnfollowed()
      requires Sound() && Terminal(fs, View()) && Unfollowed(fs, rootKey)
      modifies tree`nodes
      ensures Authoritative(fs, rootKey, name, tree.nodes)
      ensures NodesSay(fs, rootKey, tree.nodes) && RootSays(fs, rootKey, tree.nodes)
      ensures SettledBy(rootKey, old(View()), old(tree.nodes), tree.nodes, tree.nodes)
      ensures DirRef(rootKey) in tree.nodes && DirRef(rootKey) in old(tree.nodes)
      ensures tree.nodes[DirRef(rootKey)].totals == old(tree.nodes)[DirRef(rootKey)].totals
    {
      hide Inv, Rooted, Measured, Recorded, Canonical, OnlyMoved, AllSorted, SameButBytes, SameShape, WellFormed, Terminal,
        GroupsIn, HasCarrier, OwnedByLeast, Ungrouped, Complete, Authoritative, EdgesOf, SettledBy, Gap, Unfollowed,
        NodesSay, RootSays;
      ghost var s := View();
      SoundTree(fs, rootKey, name, s);
      OnlyMovedReflexive(s.tree);
      DiscoveredComplete(fs, rootKey, name, s, s.tree);
      DiscoveredGroups(fs, rootKey, name, s, s.tree);
      scanner.NormalizeFileOwners();
      UnfollowedSettles(fs, rootKey, name, s, tree.nodes);
      NodesMeasured(fs, rootKey, name, tree.nodes);
      RootShowsFiles(fs, rootKey, name, tree.nodes);
    }
  }

  lemma ClassifyIsStep(fs: FileSystem, root: DirKey, s: State, k: DirKey, n: string, t: State)
    requires Enabled(fs, s, Classify(k, n)) && t == Classified(s, k, n, EntryAt(fs, k, n))
    ensures Step(fs, root, s, Classify(k, n), t)
  {
  }

  lemma SettledParts(root: DirKey, s: State, moved: Tree, owned: Tree, f: Tree)
    requires Rooted(moved, DirRef(root)) && OnlyMoved(s.tree, moved) && AllSorted(moved) && Recorded(moved, root, s.edges)
    requires Canonical(moved, root, s.edges)
    requires SameButBytes(moved, owned) && Rooted(owned, DirRef(root))
    requires forall key :: key in s.groups ==> OwnedByLeast(owned, DirRef(root), s.groups[key])
    requires forall y :: y in moved && !moved[y].isDir && Ungrouped(s.groups, y) ==> owned[y] == moved[y]
    requires DirRef(root) in owned && DirRef(root) in moved
    requires RootTotals(owned, DirRef(root)) == RootTotals(moved, DirRef(root))
    requires Gap(owned, DirRef(root), s.self) == Gap(moved, DirRef(root), s.self)
    requires SameShape(owned, f) && Rooted(f, DirRef(root)) && Measured(f, DirRef(root), s.self)
    requires forall y :: y in owned && !owned[y].isDir ==> f[y] == owned[y]
    ensures SettledBy(root, s, moved, owned, f)
  {
    hide Rooted, Measured, Recorded, Canonical, OnlyMoved, AllSorted, OwnedByLeast, Ungrouped, Gap;
  }

  lemma SoundTree(fs: FileSystem, root: DirKey, name: string, s: State)
    requires Inv(fs, root, name, s)
    ensures Rooted(s.tree, DirRef(root)) && Measured(s.tree, DirRef(root), s.self) && Recorded(s.tree, root, s.edges)
    ensures forall x :: x in s.tree ==> (s.tree[x].isDir <==> x.DirRef?)
  {
  }

  lemma BegunInTree(fs: FileSystem, root: DirKey, name: string, s: State, k: DirKey)
    requires Inv(fs, root, name, s) && k in s.unread
    ensures DirRef(k) in s.tree && s.tree[DirRef(k)].isDir
  {
    assert StartSound(fs, s, k);
  }

  lemma UnbegunUnstarted(fs: FileSystem, root: DirKey, name: string, s: State, k: DirKey)
    requires Inv(fs, root, name, s) && DirRef(k) in s.tree && k !in s.unread
    ensures Unstarted(s.tree, s.self, DirRef(k))
  {
    assert DirSound(fs, s, k);
  }

  lemma SortedKeepsKeys(f: Tree, g: Tree, d: Ref)
    requires ChildrenSorted(f, g, d)
    ensures d in f && d in g
  {
  }

  lemma EdgesClaimed(fs: FileSystem, root: DirKey, name: string, s: State)
    requires Inv(fs, root, name, s)
    ensures forall k, e :: e in EdgesOf(s.edges, k) ==> e.target in s.claimed
  {
    forall k, e | e in EdgesOf(s.edges, k)
      ensures e.target in s.claimed
    {
      assert EdgesSound(fs, s, k);
      assert IsShown(fs, s, k, e.name);
      assert WasRead(fs, s, k, e.name);
    }
  }

  lemma RootIsDir(fs: FileSystem, root: DirKey, name: string, s: State, moved: Tree, owned: Tree)
    requires Inv(fs, root, name, s) && OnlyMoved(s.tree, moved) && SameButBytes(moved, owned)
    ensures DirRef(root) in owned && owned[DirRef(root)].isDir
  {
  }
}
