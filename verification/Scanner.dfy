/** The scanner's work after traversal: one owner for every directory and for every file, and
    totals rebuilt from scratch. */
module Scanner {
  import opened Options
  import opened PathOrder
  import opened Ordering
  import opened Forest
  import opened TotalsMeaning
  import opened Relocation
  import opened LiveTree
  import opened AliasGraph
  import opened DirectoryOwners
  import opened ByteTransfer
  import opened FileOwners
  import opened Recompute

  /** g differs from f only in where directories hang and what they are called. */
  ghost predicate OnlyMoved(f: Tree, g: Tree) {
    && g.Keys == f.Keys
    && (forall x {:trigger g[x]} :: x in f ==>
        && g[x].isDir == f[x].isDir && g[x].totals == f[x].totals
        && g[x].hardlink == f[x].hardlink && g[x].failed == f[x].failed
        && (!f[x].isDir || f[x].parent == None ==> g[x].parent == f[x].parent && g[x].name == f[x].name))
  }

  ghost predicate AllSorted(f: Tree) {
    forall d {:trigger NameSorted(f, f[d].children)} :: d in f ==> NameSorted(f, f[d].children)
  }

  lemma RelocatedOnlyMoves(f: Tree, g: Tree, root: Ref, n: Ref, p: Ref, name: string)
    requires Rooted(f, root) && Relocated(f, g, root, n, p, name) && f[n].isDir
    ensures OnlyMoved(f, g)
    ensures AllSorted(f) ==> AllSorted(g)
  {
    RootedParent(f, root, n);
    if AllSorted(f) {
      forall d | d in g
        ensures NameSorted(g, g[d].children)
      {
        assert ChildrenAfter(f, g, n, p, d);
        if d != p {
          assert NameSorted(f, f[d].children);
          assert forall x :: x in f[d].children ==> x in f;
          WithoutSorted(f, g, f[d].children, n);
        }
      }
    }
  }

  lemma OnlyMovedTransitive(f: Tree, g: Tree, h: Tree)
    requires OnlyMoved(f, g) && OnlyMoved(g, h)
    ensures OnlyMoved(f, h)
  {
  }

  class Scanner {
    const rootKey: DirKey
    const tree: LiveTree<Ref>
    /** Claimed directories in claim order. */
    var dirOrder: seq<DirKey>
    /** The visible entries recorded so far for each scanned directory. */
    var edges: Edges
    /** The entries of each file identity, in discovery order. */
    var fileGroups: map<FileKey, FileGroup<Ref>>

    constructor (rootKey: DirKey, tree: LiveTree<Ref>)
      requires tree.root == DirRef(rootKey)
      ensures this.rootKey == rootKey && this.tree == tree
      ensures dirOrder == [rootKey] && edges == map[] && fileGroups == map[]
    {
      this.rootKey, this.tree := rootKey, tree;
      dirOrder, edges, fileGroups := [rootKey], map[], map[];
    }

    ghost predicate EdgesKnown()
      reads this
    {
      forall k, e :: e in EdgesOf(edges, k) ==> e.target in dirOrder
    }

    /** canonicalizeDirectoryOwners: place every directory at its least visible path.

        Neither of the source's error returns is reachable: a popped candidate's parent is always
        measured and placed, so MoveTo always succeeds, and no measured directory is left over. */
    method CanonicalizeDirectoryOwners()
      requires tree.root == DirRef(rootKey) && Recorded(tree.nodes, rootKey, edges) && EdgesKnown()
      modifies tree`nodes
      ensures Recorded(tree.nodes, rootKey, edges) && Canonical(tree.nodes, rootKey, edges)
      ensures OnlyMoved(old(tree.nodes), tree.nodes)
      ensures AllSorted(old(tree.nodes)) ==> AllSorted(tree.nodes)
    {
      hide Rooted, OnEdge, ClosedUp, CoveredEdges, LeastSoFar, Monotone, Sound, OnlyMoved, AllSorted, Relocated, Pushed,
        Canonical, Shown, Movable;
      SearchBegins(tree.nodes, rootKey, edges);
      OnlyMovedReflexive(tree.nodes);
      RootPath(tree.nodes, rootKey);
      var placed := {rootKey};
      var frontier := PushDirectoryEdges([], rootKey, "");
      assert frontier == Pushed(tree.nodes, rootKey, EdgesOf(edges, rootKey), rootKey);
      while |frontier| > 0
        invariant Searching(tree.nodes, rootKey, edges, placed, frontier)
        invariant OnlyMoved(old(tree.nodes), tree.nodes)
        invariant AllSorted(old(tree.nodes)) ==> AllSorted(tree.nodes)
        decreases (set k | k in dirOrder) - placed, |frontier|
      {
        ghost var f := tree.nodes;
        ghost var before := frontier;
        var c, rest := PopLeast(frontier);
        frontier := rest;
        CandidateFacts(f, rootKey, edges, placed, before, c);
        if c.group in placed {
          SkipPlaced(f, rootKey, edges, placed, before, c, rest);
        } else if DirRef(c.group) !in tree.nodes {
          // Cancellation can leave a claimed directory that was never scanned.
          SkipUnscanned(f, rootKey, edges, placed, before, c, rest);
          placed := placed + {c.group};
        } else {
          var node := tree.nodes[DirRef(c.group)];
          if node.parent != Some(DirRef(c.parent)) || node.name != c.name {
            PlacedIsMovable(f, rootKey, edges, placed, c);
            var moved := tree.MoveTo(DirRef(c.group), DirRef(c.parent), c.name);
            ShownByMove(f, tree.nodes, rootKey, edges, placed, c);
            RelocatedOnlyMoves(f, tree.nodes, tree.root, DirRef(c.group), DirRef(c.parent), c.name);
            OnlyMovedTransitive(old(tree.nodes), f, tree.nodes);
          } else {
            ShownInPlace(f, rootKey, edges, placed, c);
          }
          ShownFacts(f, tree.nodes, rootKey, edges, placed, c);
          PlaceDirectory(f, tree.nodes, rootKey, edges, placed, before, c, rest);
          placed := placed + {c.group};
          frontier := PushDirectoryEdges(rest, c.group, c.path);
        }
      }
      SearchDone(tree.nodes, rootKey, edges, placed);
      for i := 0 to |dirOrder|
      {
        if DirRef(dirOrder[i]) in tree.nodes && dirOrder[i] !in placed {
          assert false;
        }
      }
    }

    /** pushDirectoryEdges: one candidate per visible entry of a placed directory. */
    method PushDirectoryEdges(frontier: seq<Candidate>, parent: DirKey, parentPath: string)
      returns (r: seq<Candidate>)
      requires Rooted(tree.nodes, DirRef(rootKey)) && DirRef(parent) in tree.nodes
      requires parentPath == DirPath(tree.nodes, rootKey, parent)
      ensures r == frontier + Pushed(tree.nodes, rootKey, EdgesOf(edges, parent), parent)
    {
      hide Rooted, DirPath;
      var es := EdgesOf(edges, parent);
      ghost var pushed := Pushed(tree.nodes, rootKey, es, parent);
      r := frontier;
      for i := 0 to |es|
        invariant r == frontier + pushed[..i]
      {
        var path := es[i].name;
        if parentPath != "" {
          path := parentPath + "/" + path;
        }
        r := r + [Candidate(path, es[i].name, parent, es[i].target)];
        assert pushed[..i + 1] == pushed[..i] + [pushed[i]];
      }
      assert pushed[..|es|] == pushed;
    }

    /** normalizeFileOwners: whatever order the identities and their entries were discovered in, the
        least path of each identity ends up carrying its bytes. */
    method NormalizeFileOwners()
      requires tree.Valid() && GroupsIn(tree.nodes, tree.root, fileGroups)
      requires forall k :: k in fileGroups ==> HasCarrier(tree.nodes, fileGroups[k])
      modifies tree`nodes
      ensures SameButBytes(old(tree.nodes), tree.nodes) && tree.Valid()
      ensures GroupsIn(tree.nodes, tree.root, fileGroups)
      ensures forall k :: k in fileGroups ==> OwnedByLeast(tree.nodes, tree.root, fileGroups[k])
      ensures forall y :: y in old(tree.nodes) && !old(tree.nodes)[y].isDir && Ungrouped(fileGroups, y) ==>
        tree.nodes[y] == old(tree.nodes)[y]
      ensures RootTotals(tree.nodes, tree.root) == RootTotals(old(tree.nodes), tree.root)
      ensures tree.root in old(tree.nodes) && tree.root in tree.nodes
      ensures Gap(tree.nodes, tree.root, tree.self) == Gap(old(tree.nodes), tree.root, tree.self)
      ensures old(Measured(tree.nodes, tree.root, tree.self)) ==> Measured(tree.nodes, tree.root, tree.self)
    {
      hide Rooted, Measured, OwnedByLeast, HasCarrier, GroupIn, RootTotals, Gap;
      ghost var root := tree.root;
      ghost var start := tree.nodes;
      var remaining := fileGroups.Keys;
      SameButBytesReflexive(start);
      RootIn(start, root);
      while remaining != {}
        invariant remaining <= fileGroups.Keys
        invariant Rooted(tree.nodes, root) && SameButBytes(start, tree.nodes)
        invariant GroupsIn(tree.nodes, root, fileGroups)
        invariant forall k :: k in remaining ==> HasCarrier(tree.nodes, fileGroups[k])
        invariant forall k :: k in fileGroups && k !in remaining ==> OwnedByLeast(tree.nodes, root, fileGroups[k])
        invariant forall y :: y in start && !start[y].isDir && Ungrouped(fileGroups, y) ==> tree.nodes[y] == start[y]
        invariant RootTotals(tree.nodes, root) == RootTotals(start, root)
        invariant root in start && root in tree.nodes && Gap(tree.nodes, root, tree.self) == Gap(start, root, tree.self)
        invariant old(Measured(tree.nodes, tree.root, tree.self)) ==> Measured(tree.nodes, root, tree.self)
        decreases remaining
      {
        var k :| k in remaining;
        ghost var before := tree.nodes;
        NormalizeGroup(fileGroups[k]);
        OtherGroupsKept(before, tree.nodes, root, fileGroups, k);
        SameButBytesTransitive(start, before, tree.nodes);
        remaining := remaining - {k};
      }
    }

    /** The body of normalizeFileOwners for one identity. */
    method NormalizeGroup(g: FileGroup<Ref>)
      requires tree.Valid() && GroupIn(tree.nodes, tree.root, g) && HasCarrier(tree.nodes, g)
      modifies tree`nodes
      ensures tree.Valid() && SameButBytes(old(tree.nodes), tree.nodes)
      ensures GroupIn(tree.nodes, tree.root, g) && OwnedByLeast(tree.nodes, tree.root, g)
      ensures forall y :: y in old(tree.nodes) && y !in g.nodes && !old(tree.nodes)[y].isDir ==>
        tree.nodes[y] == old(tree.nodes)[y]
      ensures RootTotals(tree.nodes, tree.root) == RootTotals(old(tree.nodes), tree.root)
      ensures tree.root in old(tree.nodes) && tree.root in tree.nodes
      ensures Gap(tree.nodes, tree.root, tree.self) == Gap(old(tree.nodes), tree.root, tree.self)
      ensures old(Measured(tree.nodes, tree.root, tree.self)) ==> Measured(tree.nodes, tree.root, tree.self)
    {
      hide Rooted, Measured, OwnedByLeast, IsOwner, Reassigned, RootTotals, Gap;
      ghost var root := tree.root;
      ghost var start := tree.nodes;
      ghost var bearer := CarrierOf(start, g);
      SameButBytesReflexive(start);
      RootIn(start, root);
      if |g.nodes| < 2 {
        LoneEntryOwns(start, root, g, bearer);
        return;
      }
      var owner := LeastEntry(g);
      AssigningBegins(start, root, g, owner);
      hide Assigning, SameButBytes;
      for i := 0 to |g.nodes|
        invariant Rooted(tree.nodes, root) && Assigning(start, tree.nodes, root, g, owner, i)
        invariant Measured(start, root, tree.self) ==> Measured(tree.nodes, root, tree.self)
        invariant root in tree.nodes && Gap(tree.nodes, root, tree.self) == Gap(start, root, tree.self)
      {
        AssigningStep(start, tree.nodes, root, g, owner, i);
        var apparent, alloc := 0, 0;
        if g.nodes[i] == owner {
          apparent, alloc := g.apparent, g.alloc;
        }
        AssignmentKeeps(tree.nodes, root, tree.self, g.nodes[i], apparent, alloc, g.nodes[i] != owner);
        tree.AssignBytes(g.nodes[i], apparent, alloc, g.nodes[i] != owner);
      }
      AssigningFacts(start, tree.nodes, root, g, owner, |g.nodes|);
      GroupKept(start, tree.nodes, root, g);
      AssigningEnds(start, tree.nodes, root, g, bearer, owner);
    }

    /** The owner selection of normalizeFileOwners. */
    method LeastEntry(g: FileGroup<Ref>) returns (owner: Ref)
      requires tree.Valid() && GroupIn(tree.nodes, tree.root, g)
      ensures owner in g.nodes && IsOwner(tree.nodes, tree.root, g.nodes, owner)
    {
      hide Rooted;
      owner := g.nodes[0];
      ghost var f, root := tree.nodes, tree.root;
      assert owner in g.nodes;
      LessIrreflexive(PathOf(f, root, owner));
      for i := 1 to |g.nodes|
        invariant owner in g.nodes
        invariant forall j :: 0 <= j < i ==> g.nodes[j] in f && !Less(PathOf(f, root, g.nodes[j]), PathOf(f, root, owner))
      {
        assert g.nodes[i] in g.nodes;
        var path := tree.Path(g.nodes[i]);
        var best := tree.Path(owner);
        if Less(path, best) {
          LessIrreflexive(path);
          forall j | 0 <= j < i
            ensures !Less(PathOf(f, root, g.nodes[j]), path)
          {
            if Less(PathOf(f, root, g.nodes[j]), path) {
              LessTransitive(PathOf(f, root, g.nodes[j]), path, best);
            }
          }
          owner := g.nodes[i];
        }
      }
    }

    /** recomputeDirectory on the root: the full aggregate invariant holds again. */
    method RecomputeTree()
      requires tree.Valid() && tree.root in tree.nodes && tree.nodes[tree.root].isDir
      modifies tree`nodes
      ensures tree.Valid() && SameShape(old(tree.nodes), tree.nodes)
      ensures Measured(tree.nodes, tree.root, tree.self)
      ensures forall x :: x in old(tree.nodes) && !old(tree.nodes)[x].isDir ==> tree.nodes[x] == old(tree.nodes)[x]
    {
      hide Rooted, Above;
      ghost var f := tree.nodes;
      ghost var h := DepthBound(f);
      RecomputeDirectory(tree.root, f, h);
      RebuiltAll(f, f, tree.nodes, tree.root, tree.self);
    }

    /** recomputeDirectory: totals from the directory's own metadata and its recomputed children. */
    method RecomputeDirectory(n: Ref, ghost f: Tree, ghost h: nat)
      requires Rooted(f, tree.root) && SameShape(f, tree.nodes) && n in f && f[n].isDir
      requires forall x :: x in f ==> f[x].depth <= h
      modifies tree`nodes
      ensures Rebuilt(f, old(tree.nodes), tree.nodes, tree.root, tree.self, Below(f, tree.root, n))
      decreases h - f[n].depth
    {
      hide Rooted, Above, BelowAny, Below, Rebuilt, IsChild, SelfOf, SumOf, Distinct, Balanced;
      ghost var start, root := tree.nodes, tree.root;
      var cs := tree.nodes[n].children;
      var total := SelfOf(tree.self, n);
      ChildrenKnown(f, root, n);
      NothingRebuilt(f, start, root, tree.self);
      BelowNone(f, root, cs[..0]);
      SumOfNone(start, total, cs);
      for i := 0 to |cs|
        invariant tree.nodes.Keys == f.Keys
        invariant Rebuilt(f, start, tree.nodes, root, tree.self, BelowAny(f, root, cs[..i]))
        invariant total == SelfOf(tree.self, n).Plus(SumOf(tree.nodes, cs[..i]))
      {
        ghost var done, before := BelowAny(f, root, cs[..i]), tree.nodes;
        var child := cs[i];
        RebuiltFacts(f, start, before, root, tree.self, done);
        ChildDepth(f, root, n, child);
        if tree.nodes[child].isDir {
          RecomputeDirectory(child, f, h);
        } else {
          LeafRebuilt(f, before, root, tree.self, child);
        }
        RebuiltNext(f, start, before, tree.nodes, root, tree.self, n, i);
        RebuiltFacts(f, start, tree.nodes, root, tree.self, BelowAny(f, root, cs[..i + 1]));
        total := WithChild(total, tree.nodes[child]);
        SumOneMore(tree.nodes, SelfOf(tree.self, n), cs, i);
      }
      assert cs[..|cs|] == cs;
      RebuiltTop(f, start, tree.nodes, root, tree.self, n);
      tree.nodes := tree.nodes[n := tree.nodes[n].(totals := total)];
    }

    /** The accumulation inside recomputeDirectory: one finished child. */
    method WithChild(sum: Totals, v: Node<Ref>) returns (total: Totals)
      ensures total == sum.Plus(Contribution(v))
    {
      total := sum;
      if v.isDir {
        total := total.(dirs := total.dirs + v.totals.dirs + 1, files := total.files + v.totals.files);
      } else if !v.failed {
        total := total.(files := total.files + 1);
      }
      total := total.(apparent := total.apparent + v.totals.apparent, alloc := total.alloc + v.totals.alloc);
      if total.mtime < v.totals.mtime {
        total := total.(mtime := v.totals.mtime);
      }
    }

    /** heap.Pop by its contract: a least candidate, and all the others. */
    method PopLeast(frontier: seq<Candidate>) returns (c: Candidate, rest: seq<Candidate>)
      requires |frontier| > 0
      ensures Popped(frontier, c, rest) && |rest| == |frontier| - 1
    {
      var best := 0;
      LessIrreflexive(frontier[0].path);
      for i := 1 to |frontier|
        invariant 0 <= best < i
        invariant forall j :: 0 <= j < i ==> !Less(frontier[j].path, frontier[best].path)
      {
        if CandidateLess(frontier[i], frontier[best]) {
          LeastSoFarShifts(frontier, best, i);
          best := i;
        } else {
          CandidateLessTotal(frontier[i], frontier[best]);
        }
      }
      c := frontier[best];
      rest := frontier[..best] + frontier[best + 1..];
      PoppedByCut(frontier, best);
    }
  }

  lemma CandidateLessTotal(a: Candidate, b: Candidate)
    requires !CandidateLess(a, b)
    ensures !Less(a.path, b.path)
  {
    LessIrreflexive(a.path);
  }

  lemma LeastSoFarShifts(frontier: seq<Candidate>, best: nat, i: nat)
    requires best < i < |frontier| && CandidateLess(frontier[i], frontier[best])
    requires forall j :: 0 <= j < i ==> !Less(frontier[j].path, frontier[best].path)
    ensures forall j :: 0 <= j <= i ==> !Less(frontier[j].path, frontier[i].path)
  {
    forall j | 0 <= j <= i
      ensures !Less(frontier[j].path, frontier[i].path)
    {
      LessIrreflexive(frontier[i].path);
      if j < i && Less(frontier[j].path, frontier[i].path) && frontier[i].path != frontier[best].path {
        LessTransitive(frontier[j].path, frontier[i].path, frontier[best].path);
      }
    }
  }

  lemma PoppedByCut(frontier: seq<Candidate>, best: nat)
    requires best < |frontier|
    requires forall j :: 0 <= j < |frontier| ==> !Less(frontier[j].path, frontier[best].path)
    ensures Popped(frontier, frontier[best], frontier[..best] + frontier[best + 1..])
  {
    var rest := frontier[..best] + frontier[best + 1..];
    forall x | x in frontier
      ensures x == frontier[best] || x in rest
    {
      var j :| 0 <= j < |frontier| && frontier[j] == x;
      if j < best {
        assert rest[j] == x;
      } else if j > best {
        assert rest[j - 1] == x;
      }
    }
  }

  lemma CandidateFacts(f: Tree, root: DirKey, edges: Edges, placed: set<DirKey>, frontier: seq<Candidate>, c: Candidate)
    requires Searching(f, root, edges, placed, frontier) && c in frontier
    ensures Sound(f, root, edges, placed, c)
    ensures DirRef(c.parent) in f && f[DirRef(c.parent)].isDir && IsName(c.name)
    ensures Edge(c.name, c.group) in EdgesOf(edges, c.parent)
  {
    assert Sound(f, root, edges, placed, c);
  }

  lemma ShownFacts(f: Tree, g: Tree, root: DirKey, edges: Edges, placed: set<DirKey>, c: Candidate)
    requires Shown(f, g, root, edges, placed, c)
    ensures Recorded(g, root, edges)
    ensures DirRef(c.group) in g && DirPath(g, root, c.group) == c.path
  {
  }

  lemma OnlyMovedReflexive(f: Tree)
    ensures OnlyMoved(f, f)
  {
  }

  lemma RootIn(f: Tree, root: Ref)
    requires Rooted(f, root)
    ensures root in f
  {
  }

  lemma SameButBytesReflexive(f: Tree)
    ensures SameButBytes(f, f)
  {
  }

  /** Some entry of the group carries its bytes and the others are flagged. */
  ghost predicate HasCarrier(f: Tree, g: FileGroup<Ref>) {
    && (forall x :: x in g.nodes ==> x in f)
    && exists o :: o in g.nodes && CarriesAlone(f, g, o)
  }

  lemma CarrierOf(f: Tree, g: FileGroup<Ref>) returns (o: Ref)
    requires HasCarrier(f, g)
    ensures forall x :: x in g.nodes ==> x in f
    ensures CarriesAlone(f, g, o)
  {
    o :| o in g.nodes && CarriesAlone(f, g, o);
  }

  /** The registered groups are well formed and share no entry. */
  ghost predicate GroupsIn(f: Tree, root: Ref, groups: map<FileKey, FileGroup<Ref>>)
    requires Rooted(f, root)
  {
    && (forall k :: k in groups ==> GroupIn(f, root, groups[k]))
    && (forall k, j, x :: k in groups && j in groups && k != j && x in groups[k].nodes ==> x !in groups[j].nodes)
  }

  ghost predicate Ungrouped(groups: map<FileKey, FileGroup<Ref>>, y: Ref) {
    forall k :: k in groups ==> y !in groups[k].nodes
  }

  lemma OtherGroupsKept(f: Tree, h: Tree, root: Ref, groups: map<FileKey, FileGroup<Ref>>, k: FileKey)
    requires Rooted(f, root) && Rooted(h, root) && SameButBytes(f, h)
    requires GroupsIn(f, root, groups) && k in groups && GroupIn(h, root, groups[k])
    requires forall y :: y in f && y !in groups[k].nodes && !f[y].isDir ==> h[y] == f[y]
    ensures GroupsIn(h, root, groups)
    ensures forall j :: j in groups && j != k && HasCarrier(f, groups[j]) ==> HasCarrier(h, groups[j])
    ensures forall j :: j in groups && j != k && OwnedByLeast(f, root, groups[j]) ==> OwnedByLeast(h, root, groups[j])
  {
    hide Rooted, GroupIn, SameButBytes, OwnedByLeast;
    forall j | j in groups && j != k
      ensures GroupIn(h, root, groups[j])
      ensures HasCarrier(f, groups[j]) ==> HasCarrier(h, groups[j])
      ensures OwnedByLeast(f, root, groups[j]) ==> OwnedByLeast(h, root, groups[j])
    {
      OtherGroupKept(f, h, root, groups[k], groups[j]);
      GroupNodesIn(h, root, groups[j]);
      if HasCarrier(f, groups[j]) {
        var o := CarrierOf(f, groups[j]);
        assert CarriesAlone(h, groups[j], o);
      }
    }
  }

  lemma GroupNodesIn(f: Tree, root: Ref, g: FileGroup<Ref>)
    requires Rooted(f, root) && GroupIn(f, root, g)
    ensures forall x :: x in g.nodes ==> x in f
  {
  }

  lemma AssignmentKeeps(f: Tree, root: Ref, self: map<Ref, SelfMetadata>, x: Ref, apparent: int, alloc: int, hardlink: bool)
    requires Rooted(f, root) && x in f && x != root && !f[x].isDir
    ensures var h := Reassigned(f, root, x, apparent, alloc, hardlink);
      Rooted(h, root) && (Measured(f, root, self) ==> Measured(h, root, self)) && Gap(h, root, self) == Gap(f, root, self)
  {
    hide Rooted, Measured, Reassigned, Gap;
    ReassignedRoot(f, root, x, apparent, alloc, hardlink);
    ReassignedGap(f, root, self, x, apparent, alloc, hardlink);
    ReassignedShape(f, root, x, apparent, alloc, hardlink);
    if Measured(f, root, self) {
      ReassignedMeasured(f, root, self, x, apparent, alloc, hardlink);
    }
  }

  lemma ReassignedRoot(f: Tree, root: Ref, x: Ref, apparent: int, alloc: int, hardlink: bool)
    requires Rooted(f, root) && x in f && x != root && !f[x].isDir
    ensures root in f && root in Reassigned(f, root, x, apparent, alloc, hardlink)
  {
    ReassignedShape(f, root, x, apparent, alloc, hardlink);
  }

  lemma AssigningFacts(start: Tree, f: Tree, root: Ref, g: FileGroup<Ref>, owner: Ref, i: nat)
    requires Rooted(start, root) && GroupIn(start, root, g) && i <= |g.nodes|
    requires Assigning(start, f, root, g, owner, i)
    ensures SameButBytes(start, f) && Rooted(f, root)
    ensures forall y :: y in start && y !in g.nodes && !start[y].isDir ==> y in f && f[y] == start[y]
  {
  }

  lemma BelowNone(f: Tree, root: Ref, cs: seq<Ref>)
    requires Rooted(f, root) && cs == []
    ensures BelowAny(f, root, cs) == {}
  {
  }

  lemma SumOfNone(g: Tree, own: Totals, cs: seq<Ref>)
    ensures own.Plus(SumOf(g, cs[..0])) == own
  {
    PlusNothing(own);
  }

  lemma RebuiltFacts(f: Tree, g0: Tree, g1: Tree, root: Ref, self: map<Ref, SelfMetadata>, s: set<Ref>)
    requires Rebuilt(f, g0, g1, root, self, s)
    ensures SameShape(f, g1) && Rooted(g1, root)
  {
  }

  /** A leaf is its own subtree, and it has nothing to rebuild. */
  lemma LeafRebuilt(f: Tree, g: Tree, root: Ref, self: map<Ref, SelfMetadata>, x: Ref)
    requires Rooted(f, root) && Rooted(g, root) && SameShape(f, g) && x in f && !f[x].isDir
    ensures Rebuilt(f, g, g, root, self, Below(f, root, x))
  {
    BelowUnfolds(f, root, x);
    LeafHasNoChildren(f, root, x);
    assert BelowAny(f, root, f[x].children) == {};
  }

  /** After one more child the finished part has grown by that child's subtree. */
  lemma RebuiltNext(
      f: Tree, g0: Tree, g1: Tree, g2: Tree, root: Ref, self: map<Ref, SelfMetadata>, n: Ref, i: nat)
    requires Rooted(f, root) && n in f && i < |f[n].children| && (forall c :: c in f[n].children ==> c in f)
    requires Rebuilt(f, g0, g1, root, self, BelowAny(f, root, f[n].children[..i]))
    requires Rebuilt(f, g1, g2, root, self, Below(f, root, f[n].children[i]))
    ensures Rebuilt(f, g0, g2, root, self, BelowAny(f, root, f[n].children[..i + 1]))
    ensures forall c :: c in f[n].children[..i] ==> c in g1 && c in g2
    ensures SumOf(g2, f[n].children[..i]) == SumOf(g1, f[n].children[..i])
  {
    hide Rooted, Above, BelowAny, Below, IsChild;
    var cs := f[n].children;
    BelowAnyAppend(f, root, n, i);
    BelowAnyClosed(f, root, cs[..i]);
    RebuiltJoin(f, g0, g1, g2, root, self, BelowAny(f, root, cs[..i]), Below(f, root, cs[i]));
    forall c | c in cs[..i]
      ensures c in g1 && c in g2 && g2[c] == g1[c]
    {
      SelfBelowAny(f, root, cs[..i], c);
      assert c !in Below(f, root, cs[i]);
    }
    SumAgrees(g1, g2, cs[..i]);
  }

  lemma SelfBelowAny(f: Tree, root: Ref, cs: seq<Ref>, c: Ref)
    requires Rooted(f, root) && c in cs && forall x :: x in cs ==> x in f
    ensures c in BelowAny(f, root, cs)
  {
    assert Above(f, root, c, c);
  }

  lemma SumOneMore(g: Tree, own: Totals, cs: seq<Ref>, i: nat)
    requires i < |cs| && forall c :: c in cs ==> c in g
    ensures own.Plus(SumOf(g, cs[..i])).Plus(Contribution(g[cs[i]])) == own.Plus(SumOf(g, cs[..i + 1]))
  {
    assert cs[..i + 1][..i] == cs[..i];
    PlusAssociative(own, SumOf(g, cs[..i]), Contribution(g[cs[i]]));
  }
}
