/** The interface's in-memory delete (removeDeletedNode). */
module Mutations {
  import opened Options
  import opened Forest
  import opened TotalsMeaning
  import opened Relocation
  import opened LiveTree
  import opened SnapshotCheck
  import opened SnapshotLaws
  import opened TreeDelete

  /** The failed entries among some nodes. */
  ghost function Failures<Id(!new)>(f: Forest<Id>, s: set<Id>): set<Id> {
    set y | y in s && y in f && f[y].failed
  }

  /** Bytes may have moved to another name of a file, or a link was followed: only a scan can tell. */
  ghost predicate Ambiguous<Id(!new)>(f: Forest<Id>, x: Id, links: Option<nat>, follow: bool)
    requires x in f
  {
    follow
    || if f[x].isDir then exists y :: y in f && !f[y].isDir && f[y].hardlink
       else !f[x].hardlink && (links.None? || links.value > 1)
  }

  /** Adding the change stays within 64 bits at every node of s. */
  ghost predicate Fits<Id(!new)>(g: Forest<Id>, s: set<Id>, delta: int) {
    delta < 0 || forall y :: y in s && y in g ==> g[y].totals.alloc + delta <= MAX
  }

  /** Some of the nodes of s have been shifted, and nothing else happened. */
  ghost predicate PartlyShifted<Id(!new)>(f: Forest<Id>, g: Forest<Id>, s: set<Id>, delta: int) {
    exists t: set<Id> :: t <= s && g == MapTo(f, t, Shifting(delta))
  }

  // Climbing from a directory to the root.

  ghost predicate Rewriting<Id(!new)>(
    f: Forest<Id>, root: Id, g: Forest<Id>, p: Option<Id>, climb: set<Id>, h: Totals -> Totals)
    requires Rooted(f, root)
  {
    && (p.Some? ==> p.value in f)
    && ClimbFrom(f, root, p) <= climb
    && g == MapTo(f, climb - ClimbFrom(f, root, p), h)
  }

  lemma NothingRewritten<Id(!new)>(f: Forest<Id>, root: Id, p: Option<Id>, h: Totals -> Totals)
    requires Rooted(f, root)
    requires p.Some? ==> p.value in f
    ensures Rewriting(f, root, f, p, ClimbFrom(f, root, p), h)
  {
  }

  lemma AllRewritten<Id(!new)>(f: Forest<Id>, root: Id, g: Forest<Id>, climb: set<Id>, h: Totals -> Totals)
    requires Rooted(f, root) && Rewriting(f, root, g, None, climb, h)
    ensures g == MapTo(f, climb, h)
  {
    assert climb - {} == climb;
  }

  lemma OneRewritten<Id(!new)>(
      f: Forest<Id>, root: Id, g: Forest<Id>, x: Id, climb: set<Id>, h: Totals -> Totals)
    requires Rooted(f, root) && Rewriting(f, root, g, Some(x), climb, h)
    ensures x in g && g[x] == f[x] && x in climb
    ensures f[x].parent.Some? ==> f[x].parent.value in f
    ensures Rewriting(f, root, g[x := f[x].(totals := h(f[x].totals))], f[x].parent, climb, h)
    ensures ClimbLeft(f, f[x].parent) < ClimbLeft(f, Some(x))
  {
    AncestorsUnfold(f, root, x);
    AncestorsMembers(f, root, x);
    hide Rooted, Above;
    var done := climb - Ancestors(f, root, x);
    var next := climb - ClimbFrom(f, root, f[x].parent);
    assert next == done + {x};
    MapToOneMore(f, done, x, h);
  }

  lemma MapToOneMore<Id(!new)>(f: Forest<Id>, s: set<Id>, x: Id, h: Totals -> Totals)
    requires x in f && x !in s
    ensures MapTo(f, s + {x}, h) == MapTo(f, s, h)[x := f[x].(totals := h(f[x].totals))]
    ensures MapTo(f, s, h)[x] == f[x]
  {
  }

  lemma MapToShape<Id(!new)>(f: Forest<Id>, root: Id, s: set<Id>, h: Totals -> Totals)
    requires Rooted(f, root)
    ensures SameShape(f, MapTo(f, s, h)) && Rooted(MapTo(f, s, h), root)
  {
    SameShapeRooted(f, MapTo(f, s, h), root);
  }

  class Session<Id(!new,==)> {
    const tree: LiveTree<Id>
    var files: int
    var dirs: int
    var errors: int
    var complete: bool
    var completeTree: bool
    var followSymlinks: bool

    constructor (tree: LiveTree<Id>, files: int, dirs: int, errors: int, completeTree: bool, followSymlinks: bool)
      ensures this.tree == tree && this.files == files && this.dirs == dirs && this.errors == errors
      ensures this.completeTree == completeTree && this.followSymlinks == followSymlinks
    {
      this.tree := tree;
      this.files, this.dirs, this.errors := files, dirs, errors;
      this.complete := completeTree && errors == 0;
      this.completeTree, this.followSymlinks := completeTree, followSymlinks;
    }

    ghost predicate Valid()
      reads this, tree
    {
      tree.Valid()
    }

    /** findNode. */
    method FindNode(path: string) returns (found: Option<Id>)
      requires Valid()
      ensures found.Some? ==> found.value in tree.nodes && PathOf(tree.nodes, tree.root, found.value) == path
      ensures found.None? ==> forall x :: x in tree.nodes ==> PathOf(tree.nodes, tree.root, x) != path
    {
      hide Rooted, PathOf;
      var todo := tree.nodes.Keys;
      while todo != {}
        invariant todo <= tree.nodes.Keys
        invariant forall x :: x in tree.nodes && x !in todo ==> PathOf(tree.nodes, tree.root, x) != path
        decreases |todo|
      {
        var x :| x in todo;
        todo := todo - {x};
        var candidate := tree.Path(x);
        if candidate == path { return Some(x); }
      }
      return None;
    }

    /** The walk of deletedCounts: the visited nodes, and how many of them failed. */
    method Walk(n: Id, ghost h: nat) returns (seen: set<Id>, failed: nat)
      requires Valid() && n in tree.nodes && forall x :: x in tree.nodes ==> tree.nodes[x].depth <= h
      ensures seen == Below(tree.nodes, tree.root, n) && failed == |Failures(tree.nodes, seen)|
      decreases h - tree.nodes[n].depth
    {
      hide Rooted, Below, BelowAny;
      ghost var f, root := tree.nodes, tree.root;
      var cs := tree.nodes[n].children;
      seen, failed := {n}, if tree.nodes[n].failed then 1 else 0;
      assert Failures(f, {n}) == if f[n].failed then {n} else {};
      BelowUnfolds(f, root, n);
      BelowAnyGrows(f, root, n, 0);
      for i := 0 to |cs|
        invariant seen == {n} + BelowAny(f, root, cs[..i]) && failed == |Failures(f, seen)|
      {
        ChildDepth(f, root, n, cs[i]);
        var more, bad := Walk(cs[i], h);
        BelowAnyAppend(f, root, n, i);
        ApartFromChild(f, root, n, i);
        FailuresApart(f, seen, more);
        seen, failed := seen + more, failed + bad;
        BelowAnyGrows(f, root, n, i);
      }
      assert cs[..|cs|] == cs;
    }

    /** deletedCounts. */
    method DeletedCounts(x: Id) returns (count: int, folders: int, failed: nat, gone: set<Id>)
      requires Valid() && x in tree.nodes
      ensures count == Contribution(tree.nodes[x]).files && folders == Contribution(tree.nodes[x]).dirs
      ensures gone == Below(tree.nodes, tree.root, x) && failed == |Failures(tree.nodes, gone)|
    {
      count, folders := 0, 0;
      if tree.nodes[x].isDir {
        count, folders := tree.nodes[x].totals.files, tree.nodes[x].totals.dirs + 1;
      } else if !tree.nodes[x].failed {
        count := 1;
      }
      ghost var h := DepthBound(tree.nodes);
      gone, failed := Walk(x, h);
    }

    /** deleteNeedsReconciliation; links is the link count that the plan recorded. */
    method DeleteNeedsReconciliation(x: Id, links: Option<nat>) returns (needed: bool)
      requires Valid() && x in tree.nodes
      ensures needed <==> Ambiguous(tree.nodes, x, links, followSymlinks)
    {
      if followSymlinks { return true; }
      if !tree.nodes[x].isDir {
        if tree.nodes[x].hardlink { return false; }
        return links.None? || links.value > 1;
      }
      var todo := tree.nodes.Keys;
      while todo != {}
        invariant todo <= tree.nodes.Keys
        invariant forall y :: y in tree.nodes && y !in todo ==> tree.nodes[y].isDir || !tree.nodes[y].hardlink
        decreases |todo|
      {
        var y :| y in todo;
        if !tree.nodes[y].isDir && tree.nodes[y].hardlink { return true; }
        todo := todo - {y};
      }
      return false;
    }

    /** The node leaves its parent's children. Nothing refers to its subtree any more. */
    method Unlink(x: Id, p: Id, gone: set<Id>)
      requires Valid() && Deletable(tree.nodes, tree.root, x) && tree.nodes[x].parent == Some(p)
      requires gone == Below(tree.nodes, tree.root, x)
      modifies tree`nodes
      ensures Valid() && tree.nodes == Cut(old(tree.nodes), tree.root, x)
    {
      ghost var f := tree.nodes;
      CutRooted(f, tree.root, x);
      RootedParent(f, tree.root, x);
      ChildrenKnown(f, tree.root, p);
      var i := tree.IndexOfChild(p, x);
      var cs := tree.nodes[p].children;
      WithoutIsCut(cs, i);
      var kept := tree.nodes[p].(children := cs[..i] + cs[i + 1..]);
      hide Rooted, Below;
      tree.nodes := tree.nodes[p := kept] - gone;
      assert tree.nodes == Cut(f, tree.root, x);
    }

    /** The loop that takes sizes and counts from p and its ancestors. */
    method TakeUp(p: Id, gone: Totals, finished: nat)
      requires Valid() && p in tree.nodes
      modifies tree`nodes
      ensures tree.nodes == MapTo(old(tree.nodes), Ancestors(old(tree.nodes), tree.root, p), Lowering(gone, finished))
    {
      hide Rooted, Above, MapTo;
      ghost var f, root, h := tree.nodes, tree.root, Lowering(gone, finished);
      var ancestor := Some(p);
      ghost var climb := ClimbFrom(f, root, ancestor);
      NothingRewritten(f, root, ancestor, h);
      while ancestor.Some?
        invariant Rewriting(f, root, tree.nodes, ancestor, climb, h)
        decreases ClimbLeft(f, ancestor)
      {
        OneRewritten(f, root, tree.nodes, ancestor.value, climb, h);
        var v := tree.nodes[ancestor.value];
        var t := v.totals.(apparent := SubtractFloor(v.totals.apparent, gone.apparent),
                           alloc := SubtractFloor(v.totals.alloc, gone.alloc),
                           files := SubtractFloor(v.totals.files, gone.files),
                           dirs := SubtractFloor(v.totals.dirs, gone.dirs));
        if finished != 0 && finished > t.mtime {
          t := t.(mtime := finished);
        }
        tree.nodes := tree.nodes[ancestor.value := v.(totals := t)];
        ancestor := v.parent;
      }
      AllRewritten(f, root, tree.nodes, climb, h);
    }

    /** The loop that moves allocations by the change of p's own. An overflow stops it halfway. */
    method ShiftUp(p: Id, delta: int) returns (ok: bool)
      requires Valid() && p in tree.nodes
      modifies tree`nodes
      ensures Valid() && SameShape(old(tree.nodes), tree.nodes)
      ensures ok <==> Fits(old(tree.nodes), Ancestors(old(tree.nodes), tree.root, p), delta)
      ensures ok ==>
        tree.nodes == MapTo(old(tree.nodes), Ancestors(old(tree.nodes), tree.root, p), Shifting(delta))
      ensures !ok ==> PartlyShifted(old(tree.nodes), tree.nodes, Ancestors(old(tree.nodes), tree.root, p), delta)
    {
      hide Rooted, Above, MapTo, Fits;
      ghost var f, root, h := tree.nodes, tree.root, Shifting(delta);
      var ancestor := Some(p);
      ghost var climb := ClimbFrom(f, root, ancestor);
      NothingRewritten(f, root, ancestor, h);
      FitsSoFar(f, climb - ClimbFrom(f, root, ancestor), delta);
      while ancestor.Some?
        invariant Rewriting(f, root, tree.nodes, ancestor, climb, h)
        invariant Fits(f, climb - ClimbFrom(f, root, ancestor), delta)
        decreases ClimbLeft(f, ancestor)
      {
        ghost var done := climb - ClimbFrom(f, root, ancestor);
        OneRewritten(f, root, tree.nodes, ancestor.value, climb, h);
        OneMoreFits(f, root, climb, ancestor.value, delta);
        var v := tree.nodes[ancestor.value];
        if delta < 0 {
          tree.nodes := tree.nodes[ancestor.value := v.(totals := v.totals.(alloc := SubtractFloor(v.totals.alloc, -delta)))];
          ancestor := v.parent;
          continue;
        }
        if delta > MAX - v.totals.alloc {
          MapToShape(f, root, done, h);
          return false;
        }
        tree.nodes := tree.nodes[ancestor.value := v.(totals := v.totals.(alloc := v.totals.alloc + delta))];
        ancestor := v.parent;
      }
      AllRewritten(f, root, tree.nodes, climb, h);
      MapToShape(f, root, climb, h);
      assert climb - {} == climb;
      return true;
    }

    /** The loop that carries p's new time to the ancestors above it. */
    method AgeUp(start: Option<Id>, newest: nat)
      requires Valid() && (start.Some? ==> start.value in tree.nodes)
      modifies tree`nodes
      ensures tree.nodes == MapTo(old(tree.nodes), ClimbFrom(old(tree.nodes), tree.root, start), Aging(newest))
    {
      hide Rooted, Above, MapTo;
      ghost var f, root, h := tree.nodes, tree.root, Aging(newest);
      var ancestor := start;
      ghost var climb := ClimbFrom(f, root, ancestor);
      NothingRewritten(f, root, ancestor, h);
      while ancestor.Some?
        invariant Rewriting(f, root, tree.nodes, ancestor, climb, h)
        decreases ClimbLeft(f, ancestor)
      {
        OneRewritten(f, root, tree.nodes, ancestor.value, climb, h);
        var v := tree.nodes[ancestor.value];
        if newest > v.totals.mtime {
          tree.nodes := tree.nodes[ancestor.value := v.(totals := v.totals.(mtime := newest))];
        } else {
          SameNodeAgain(tree.nodes, ancestor.value);
        }
        ancestor := v.parent;
      }
      AllRewritten(f, root, tree.nodes, climb, h);
    }

    /** refreshParentFilesystemMetadata; inspected is None if p cannot be inspected or is no directory now. */
    method RefreshParent(p: Id, previousSelf: int, inspected: Option<SelfMetadata>) returns (ok: bool)
      requires Valid() && p in tree.nodes
      modifies tree`nodes
      ensures Valid() && (forall c :: c in old(tree.nodes)[p].children ==> c in old(tree.nodes))
      ensures ok <==>
        (inspected.Some? && Fits(old(tree.nodes), Ancestors(old(tree.nodes), tree.root, p), inspected.value.alloc - previousSelf))
      ensures ok ==> tree.nodes == Refreshed(old(tree.nodes), p, Ancestors(old(tree.nodes), tree.root, p),
                                             inspected.value.alloc - previousSelf, inspected.value.mtime)
      ensures !ok ==> if inspected.None? then tree.nodes == old(tree.nodes)
        else PartlyShifted(old(tree.nodes), tree.nodes, Ancestors(old(tree.nodes), tree.root, p),
                           inspected.value.alloc - previousSelf)
    {
      hide Rooted, Fits, PartlyShifted, MapTo, SameShape, Ancestors;
      ghost var f, root := tree.nodes, tree.root;
      ChildrenKnown(f, root, p);
      if inspected.None? { return false; }
      var delta := inspected.value.alloc - previousSelf;
      ok := ShiftUp(p, delta);
      if !ok { return; }
      ghost var shifted := tree.nodes;
      ShapeKept(f, shifted, p);
      var newest := LatestOf(p, inspected.value.mtime);
      var v := tree.nodes[p];
      tree.nodes := tree.nodes[p := v.(totals := v.totals.(mtime := newest))];
      ParentChain(f, shifted, root, p, tree.nodes);
      ghost var timed := tree.nodes;
      AgeUp(v.parent, newest);
      MapToShape(timed, root, ClimbFrom(timed, root, v.parent), Aging(newest));
    }

    /** removeDeletedNode: path was deleted at time finished, and its directory was inspected afterwards. */
    method RemoveDeletedNode(path: string, links: Option<nat>, finished: nat, inspected: Option<SelfMetadata>)
      returns (removed: bool, exact: bool, ghost x: Id)
      requires Valid()
      modifies this`files, this`dirs, this`errors, this`complete, tree`nodes
      ensures Valid()
      ensures removed <==>
        (exists y :: y in old(tree.nodes) && y != tree.root && PathOf(old(tree.nodes), tree.root, y) == path)
      ensures !removed ==> !exact && tree.nodes == old(tree.nodes)
      ensures !removed ==> unchanged(this)
      ensures removed ==> x in old(tree.nodes) && PathOf(old(tree.nodes), tree.root, x) == path
      ensures removed ==> Deletable(old(tree.nodes), tree.root, x)
      ensures removed ==> (exact <==>
        (!Ambiguous(old(tree.nodes), x, links, followSymlinks) && inspected.Some?
         && RefreshFits(old(tree.nodes), tree.root, x, finished, inspected.value)))
      ensures removed && inspected.Some? && RefreshFits(old(tree.nodes), tree.root, x, finished, inspected.value) ==>
        tree.nodes == Patched(old(tree.nodes), tree.root, x, finished, inspected.value)
      ensures removed && inspected.None? ==> tree.nodes == Subtracted(old(tree.nodes), tree.root, x, finished)
      ensures removed ==> StatsPatched(old(tree.nodes), tree.root, x, old(files), old(dirs), old(errors), files, dirs, errors)
      ensures removed ==> (complete <==> (completeTree && errors == 0))
    {
      hide Rooted, PathOf, Deletable, Subtracted, Patched, RefreshFits, Ambiguous, Below, Contribution;
      ghost var f, root := tree.nodes, tree.root;
      RootPath(f, root);
      var node := FindNode(path);
      if node.None? || tree.nodes[node.value].parent.None? {
        NotBelowRoot(f, root, node, path);
        return false, false, root;
      }
      x := node.value;
      AnyDeletable(f, root, x);
      var ambiguous := DeleteNeedsReconciliation(node.value, links);
      var count, folders, failed, refreshed := PatchTree(node.value, finished, inspected);
      if !refreshed {
        ambiguous := true;
      }
      files := SubtractFloor(files, count);
      dirs := SubtractFloor(dirs, folders);
      errors := errors - failed;
      if errors < 0 {
        errors := 0;
      }
      complete := completeTree && errors == 0;
      return true, !ambiguous, x;
    }

    /** The part of removeDeletedNode that works on the tree. */
    method PatchTree(x: Id, finished: nat, inspected: Option<SelfMetadata>)
      returns (count: int, folders: int, failed: nat, refreshed: bool)
      requires Valid() && x in tree.nodes && x != tree.root
      modifies tree`nodes
      ensures Valid() && Deletable(old(tree.nodes), tree.root, x)
      ensures refreshed <==> inspected.Some? && RefreshFits(old(tree.nodes), tree.root, x, finished, inspected.value)
      ensures refreshed ==> tree.nodes == Patched(old(tree.nodes), tree.root, x, finished, inspected.value)
      ensures inspected.None? ==> tree.nodes == Subtracted(old(tree.nodes), tree.root, x, finished)
      ensures count == Contribution(old(tree.nodes)[x]).files && folders == Contribution(old(tree.nodes)[x]).dirs
      ensures failed == |Failures(old(tree.nodes), Below(old(tree.nodes), tree.root, x))|
    {
      hide Rooted, Deletable, Subtracted, Refreshed, RefreshFits, PartlyShifted, Below, MapTo, Failures, Fits;
      ghost var f, root := tree.nodes, tree.root;
      RootedParent(f, root, x);
      AnyDeletable(f, root, x);
      DeletableIsCut(f, root, x);
      var p := tree.nodes[x].parent.value;
      ChildrenKnown(f, root, p);
      var parentSelf := DirectorySelfAllocation(p);
      var gone;
      count, folders, failed, gone := DeletedCounts(x);
      var held := tree.nodes[x].totals.(files := count, dirs := folders);
      Unlink(x, p, gone);
      TakeUp(p, held, finished);
      SubtractedUp(f, root, x, finished, held);
      RefreshedUp(f, root, x, finished, inspected);
      refreshed := RefreshParent(p, parentSelf, inspected);
    }

    /** The loop over the children's times. */
    method LatestOf(p: Id, mtime: nat) returns (newest: nat)
      requires p in tree.nodes && forall c :: c in tree.nodes[p].children ==> c in tree.nodes
      ensures newest == Newest(tree.nodes, tree.nodes[p].children, mtime)
    {
      var cs := tree.nodes[p].children;
      newest := mtime;
      for i := 0 to |cs|
        invariant newest == Newest(tree.nodes, cs[..i], mtime)
      {
        assert cs[..i + 1][..i] == cs[..i];
        if tree.nodes[cs[i]].totals.mtime > newest {
          newest := tree.nodes[cs[i]].totals.mtime;
        }
      }
      assert cs[..|cs|] == cs;
    }

    /** directorySelfAllocation. */
    method DirectorySelfAllocation(p: Id) returns (alloc: int)
      requires p in tree.nodes && forall c :: c in tree.nodes[p].children ==> c in tree.nodes
      ensures alloc == LeftOver(tree.nodes, tree.nodes[p].children, tree.nodes[p].totals.alloc)
    {
      var cs := tree.nodes[p].children;
      alloc := tree.nodes[p].totals.alloc;
      for i := 0 to |cs|
        invariant alloc == LeftOver(tree.nodes, cs[..i], tree.nodes[p].totals.alloc)
      {
        assert cs[..i + 1][..i] == cs[..i];
        alloc := SubtractFloor(alloc, tree.nodes[cs[i]].totals.alloc);
      }
      assert cs[..|cs|] == cs;
    }
  }

  /** The refreshed allocation fits at the directory and at everything above it. */
  ghost predicate RefreshFits<Id(!new)>(f: Forest<Id>, root: Id, x: Id, finished: nat, m: SelfMetadata)
    requires Deletable(f, root, x)
  {
    Fits(Subtracted(f, root, x, finished), DirsAbove(f, root, x), Shift(f, root, x, m))
  }

  /** The scan's counters after the deletion. */
  ghost predicate StatsPatched<Id(!new)>(
    f: Forest<Id>, root: Id, x: Id, files: int, dirs: int, errors: int, files2: int, dirs2: int, errors2: int)
    requires Deletable(f, root, x)
  {
    && files2 == SubtractFloor(files, Contribution(f[x]).files)
    && dirs2 == SubtractFloor(dirs, Contribution(f[x]).dirs)
    && errors2 == SubtractFloor(errors, |Failures(f, Below(f, root, x))|)
  }

  lemma RootPath<Id(!new)>(f: Forest<Id>, root: Id)
    requires Rooted(f, root)
    ensures root in f && f[root].parent.None? && PathOf(f, root, root) == ""
    ensures forall y :: y in f && y != root ==> PathOf(f, root, y) != ""
  {
    forall y | y in f && y != root
      ensures PathOf(f, root, y) != ""
    {
      PathOfNonempty(f, root, y);
    }
  }

  lemma NotBelowRoot<Id(!new)>(f: Forest<Id>, root: Id, node: Option<Id>, path: string)
    requires Rooted(f, root)
    requires node.Some? ==> node.value in f && PathOf(f, root, node.value) == path && f[node.value].parent.None?
    requires node.None? ==> forall x :: x in f ==> PathOf(f, root, x) != path
    ensures forall y :: y in f && y != root ==> PathOf(f, root, y) != path
  {
    RootPath(f, root);
    if node.Some? {
      RootedParent(f, root, node.value);
    }
  }

  lemma SubtractedUp<Id(!new)>(f: Forest<Id>, root: Id, x: Id, finished: nat, held: Totals)
    requires Deletable(f, root, x) && held == f[x].totals.(files := Contribution(f[x]).files, dirs := Contribution(f[x]).dirs)
    ensures var c, p := Cut(f, root, x), f[x].parent.value;
      && Rooted(c, root) && p in c
      && MapTo(c, Ancestors(c, root, p), Lowering(held, finished)) == Subtracted(f, root, x, finished)
      && Rooted(Subtracted(f, root, x, finished), root) && p in Subtracted(f, root, x, finished)
  {
    CutAncestors(f, root, x);
    var c, p := Cut(f, root, x), f[x].parent.value;
    hide Rooted, Below, Ancestors;
    MapToShape(c, root, Ancestors(f, root, p), Lowering(Contribution(f[x]), finished));
  }

  lemma RefreshedUp<Id(!new)>(f: Forest<Id>, root: Id, x: Id, finished: nat, inspected: Option<SelfMetadata>)
    requires Deletable(f, root, x) && Rooted(Subtracted(f, root, x, finished), root)
    requires Rooted(Cut(f, root, x), root)
    ensures var g, p := Subtracted(f, root, x, finished), f[x].parent.value;
      p in g && Ancestors(g, root, p) == DirsAbove(f, root, x)
    ensures inspected.Some? ==> var g, p := Subtracted(f, root, x, finished), f[x].parent.value;
      RefreshFits(f, root, x, finished, inspected.value) <==>
        Fits(g, Ancestors(g, root, p), inspected.value.alloc - LeftOver(f, f[p].children, f[p].totals.alloc))
  {
    CutAncestors(f, root, x);
    var c, p := Cut(f, root, x), f[x].parent.value;
    hide Rooted, Below, Ancestors, Deletable;
    MapToShape(c, root, Ancestors(f, root, p), Lowering(Contribution(f[x]), finished));
    SameAncestors(c, Subtracted(f, root, x, finished), root, p);
  }

  lemma ShapeKept<Id(!new)>(f: Forest<Id>, g: Forest<Id>, p: Id)
    requires SameShape(f, g) && p in f && forall c :: c in f[p].children ==> c in f
    ensures p in g && g[p].children == f[p].children && g[p].parent == f[p].parent && forall c :: c in g[p].children ==> c in g
  {
  }

  /** Above p stand the same nodes before and after, and only totals differ. */
  lemma ParentChain<Id(!new)>(f: Forest<Id>, shifted: Forest<Id>, root: Id, p: Id, g: Forest<Id>)
    requires Rooted(f, root) && p in f && SameShape(f, shifted) && p in shifted
    requires SameShape(shifted, g)
    ensures Rooted(g, root) && p in g && g[p].parent == f[p].parent
    ensures f[p].parent.Some? ==> f[p].parent.value in g
    ensures ClimbFrom(g, root, f[p].parent) == Ancestors(f, root, p) - {p}
  {
    SameShapeTransitive(f, shifted, g);
    SameShapeRooted(f, g, root);
    AncestorsUnfold(f, root, p);
    if f[p].parent.Some? {
      SameAncestors(f, g, root, f[p].parent.value);
    }
  }

  lemma SameAncestors<Id(!new)>(f: Forest<Id>, g: Forest<Id>, root: Id, n: Id)
    requires Rooted(f, root) && Rooted(g, root) && SameShape(f, g) && n in f
    ensures Ancestors(g, root, n) == Ancestors(f, root, n)
  {
    forall y | y in f
      ensures Above(g, root, y, n) <==> Above(f, root, y, n)
    {
      if f[y].depth <= f[n].depth {
        SameLinksUp(f, g, root, n, f[y].depth);
      }
    }
  }

  lemma SameNodeAgain<Id(!new)>(g: Forest<Id>, x: Id)
    requires x in g
    ensures g[x := g[x].(totals := g[x].totals.(mtime := g[x].totals.mtime))] == g
  {
  }

  lemma FitsSoFar<Id(!new)>(g: Forest<Id>, s: set<Id>, delta: int)
    requires s == {}
    ensures Fits(g, s, delta)
  {
  }

  lemma OneMoreFits<Id(!new)>(f: Forest<Id>, root: Id, climb: set<Id>, x: Id, delta: int)
    requires Rooted(f, root) && x in f && x in climb && ClimbFrom(f, root, Some(x)) <= climb
    requires f[x].parent.Some? ==> f[x].parent.value in f
    ensures f[x].totals.alloc + delta > MAX && delta >= 0 ==> !Fits(f, climb, delta)
    ensures Fits(f, climb - ClimbFrom(f, root, Some(x)), delta) && (delta < 0 || f[x].totals.alloc + delta <= MAX) ==>
      Fits(f, climb - ClimbFrom(f, root, f[x].parent), delta)
  {
    AncestorsUnfold(f, root, x);
  }

  lemma ApartFromChild<Id(!new)>(f: Forest<Id>, root: Id, n: Id, i: nat)
    requires Rooted(f, root) && n in f && i < |f[n].children| && forall c :: c in f[n].children ==> c in f
    ensures ({n} + BelowAny(f, root, f[n].children[..i])) !! Below(f, root, f[n].children[i])
  {
    BelowAnyAppend(f, root, n, i);
    BelowUnfolds(f, root, n);
    var c := f[n].children[i];
    assert c in f[n].children;
    assert forall x :: x in Below(f, root, c) ==> x in BelowAny(f, root, f[n].children);
  }

  lemma FailuresApart<Id(!new)>(f: Forest<Id>, s: set<Id>, t: set<Id>)
    requires s !! t
    ensures |Failures(f, s + t)| == |Failures(f, s)| + |Failures(f, t)|
  {
    assert Failures(f, s + t) == Failures(f, s) + Failures(f, t);
  }

  /** The scan's counters are the root's counts. */
  ghost predicate StatsMatch<Id(!new)>(f: Forest<Id>, root: Id, files: int, dirs: int, errors: int) {
    && root in f && files == f[root].totals.files && dirs == f[root].totals.dirs + 1
    && errors == |Failures(f, f.Keys)|
  }

  /** The counters still match, without any of them stopping at zero. */
  lemma StatsStillMatch<Id(!new)>(
      f: Forest<Id>, root: Id, self: map<Id, SelfMetadata>, x: Id, finished: nat, m: SelfMetadata,
      files: int, dirs: int, errors: int, files2: int, dirs2: int, errors2: int)
    requires Deletable(f, root, x) && ScannerTree(f, root, self) && m.alloc >= 0
    requires StatsMatch(f, root, files, dirs, errors)
    requires StatsPatched(f, root, x, files, dirs, errors, files2, dirs2, errors2)
    ensures StatsMatch(Patched(f, root, x, finished, m), root, files2, dirs2, errors2)
    ensures files >= Contribution(f[x]).files && dirs > Contribution(f[x]).dirs
    ensures errors >= |Failures(f, Below(f, root, x))|
  {
    hide Patched, Deletable, ScannerTree, Cut, PatchedTotals, SizesGone, Shift, Below;
    DeletableIsCut(f, root, x);
    CutKeys(f, root, x);
    CutKinds(f, root, x);
    AncestorsHave(f, root, f[x].parent.value);
    PatchedNode(f, root, x, finished, m, root);
    var g := Patched(f, root, x, finished, m);
    NoFloor(f, root, self, x, m, root,
      if root == f[x].parent.value then NewTime(f, root, x, m)
      else Later(Later(f[root].totals.mtime, finished), NewTime(f, root, x, m)));
    NaturalTree(f, root, self);
    CountsGone(f[root].totals, Contribution(f[x]), Shift(f, root, x, m));
    FailuresLeft(f, root, x, finished, m);
  }

  lemma CountsGone(t: Totals, gone: Totals, shift: int)
    ensures t.Plus(SizesGone(gone, shift)).files == t.files - gone.files
    ensures t.Plus(SizesGone(gone, shift)).dirs == t.dirs - gone.dirs
  {
  }

  lemma FailuresLeft<Id(!new)>(f: Forest<Id>, root: Id, x: Id, finished: nat, m: SelfMetadata)
    requires Deletable(f, root, x)
    ensures var g := Patched(f, root, x, finished, m);
      |Failures(g, g.Keys)| + |Failures(f, Below(f, root, x))| == |Failures(f, f.Keys)|
  {
    hide Patched;
    var g := Patched(f, root, x, finished, m);
    DeletableIsCut(f, root, x);
    CutKeys(f, root, x);
    PatchedNode(f, root, x, finished, m, root);
    forall y | y in g
      ensures g[y].failed == f[y].failed
    {
      PatchedNode(f, root, x, finished, m, y);
    }
    assert Failures(f, g.Keys) == Failures(g, g.Keys);
    assert f.Keys == g.Keys + Below(f, root, x);
    FailuresApart(f, g.Keys, Below(f, root, x));
  }

  /** The patched tree can be stored as a complete snapshot: it is accepted when it is read back. */
  lemma PatchedSnapshotAccepted<Id(!new)>(
      f: Forest<Id>, root: Id, self: map<Id, SelfMetadata>, x: Id, finished: nat, m: SelfMetadata,
      order: seq<Id>, s: Cached)
    requires Deletable(f, root, x) && ScannerTree(f, root, self) && m.alloc >= 0
    requires root in Patched(f, root, x, finished, m) && SnapshotOf(Patched(f, root, x, finished, m), root, order, s)
    ensures LayoutValid(s)
  {
    hide Deletable, ScannerTree, Patched, SnapshotOf, LayoutValid;
    DeleteKeepsScannerTree(f, root, self, x, finished, m);
    ScannerSnapshotAccepted(Patched(f, root, x, finished, m), root, OwnAfter(f, root, self, x, finished, m), order, s);
  }
}
