/** The live tree: one mutable tree guarded by a lock, updated entry by entry.

    Nodes live in one arena, and a node pointer is an id of that arena. Every method that the
    scanner runs under the lock is here with its loop over the parent chain. */
module LiveTree {
  import opened Options
  import opened PathOrder
  import opened Ordering
  import opened Forest
  import opened TotalsMeaning
  import opened Relocation
  import opened ByteTransfer

  class LiveTree<Id(!new,==)> {
    const root: Id
    var nodes: Forest<Id>
    /** A directory's own inode, kept apart because its totals already include its children. */
    var self: map<Id, SelfMetadata>

    ghost predicate Valid()
      reads this
    {
      Rooted(nodes, root)
    }

    /** The tree before anything is read: a lone root directory. */
    constructor (root: Id, name: string)
      ensures this.root == root && self == map[] && nodes == LoneRoot(root, name)
      ensures Valid()
    {
      this.root := root;
      nodes := LoneRoot(root, name);
      self := map[];
      new;
      hide Rooted, LoneRoot;
      LoneRootRooted(root, name);
    }

    /** propagateSelf: a directory's own allocation and mtime reach each of its ancestors. */
    method PropagateSelf(n: Id)
      requires Valid() && n in nodes
      modifies this`nodes
      ensures n == root ==> nodes == old(nodes)
      ensures n != root ==> HasParent(old(nodes), n)
      ensures n != root ==> nodes == AddUp(old(nodes), root, old(nodes[n].parent.value),
                                           SelfMetadata(old(nodes[n].totals.alloc), old(nodes[n].totals.mtime)).AsTotals())
    {
      hide Rooted, Above, AddTo;
      ghost var f := nodes;
      var alloc, mtime := nodes[n].totals.alloc, nodes[n].totals.mtime;
      ghost var delta := Totals(0, alloc, 0, 0, mtime);
      var p := nodes[n].parent;
      RootedParent(f, root, n);
      ghost var climb := ClimbFrom(f, root, p);
      NothingClimbed(f, root, p, delta);
      while p.Some?
        invariant Climbing(f, root, nodes, p, climb, delta)
        decreases ClimbLeft(f, p)
      {
        ClimbStep(f, root, nodes, p.value, climb, delta);
        var v := nodes[p.value];
        var newest := if v.totals.mtime < mtime then mtime else v.totals.mtime;
        nodes := nodes[p.value := v.(totals := v.totals.(alloc := v.totals.alloc + alloc, mtime := newest))];
        p := v.parent;
      }
      ClimbDone(f, root, nodes, climb, delta);
    }

    /** propagateFile: a finished leaf reaches each of its ancestors; a failed stat counts no file. */
    method PropagateFile(leaf: Id)
      requires Valid() && leaf in nodes && !nodes[leaf].isDir
      modifies this`nodes
      ensures leaf == root ==> nodes == old(nodes)
      ensures leaf != root ==> HasParent(old(nodes), leaf)
      ensures leaf != root ==>
                nodes == AddUp(old(nodes), root, old(nodes[leaf].parent.value), Contribution(old(nodes[leaf])))
    {
      hide Rooted, Above, AddTo;
      ghost var f := nodes;
      var measured := nodes[leaf];
      ghost var delta := Contribution(measured);
      var p := measured.parent;
      RootedParent(f, root, leaf);
      ghost var climb := ClimbFrom(f, root, p);
      NothingClimbed(f, root, p, delta);
      while p.Some?
        invariant Climbing(f, root, nodes, p, climb, delta)
        decreases ClimbLeft(f, p)
      {
        ClimbStep(f, root, nodes, p.value, climb, delta);
        var v := nodes[p.value];
        var t := v.totals.(apparent := v.totals.apparent + measured.totals.apparent,
                           alloc := v.totals.alloc + measured.totals.alloc);
        if !measured.failed {
          t := t.(files := t.files + 1);
        }
        if t.mtime < measured.totals.mtime {
          t := t.(mtime := measured.totals.mtime);
        }
        nodes := nodes[p.value := v.(totals := t)];
        p := v.parent;
      }
      ClimbDone(f, root, nodes, climb, delta);
    }

    /** bumpDirCount: a new directory is counted once by each of its ancestors. */
    method BumpDirCount(child: Id)
      requires Valid() && child in nodes
      modifies this`nodes
      ensures child == root ==> nodes == old(nodes)
      ensures child != root ==> HasParent(old(nodes), child)
      ensures child != root ==> nodes == AddUp(old(nodes), root, old(nodes[child].parent.value), ONE_DIRECTORY)
    {
      hide Rooted, Above, AddTo;
      ghost var f := nodes;
      var p := nodes[child].parent;
      RootedParent(f, root, child);
      ghost var climb := ClimbFrom(f, root, p);
      NothingClimbed(f, root, p, ONE_DIRECTORY);
      while p.Some?
        invariant Climbing(f, root, nodes, p, climb, ONE_DIRECTORY)
        decreases ClimbLeft(f, p)
      {
        ClimbStep(f, root, nodes, p.value, climb, ONE_DIRECTORY);
        var v := nodes[p.value];
        nodes := nodes[p.value := v.(totals := v.totals.(dirs := v.totals.dirs + 1))];
        p := v.parent;
      }
      ClimbDone(f, root, nodes, climb, ONE_DIRECTORY);
    }

    /** The first locked step of scanDir: publish the directory's own metadata. */
    method StartDirectory(d: Id, alloc: int, mtime: nat)
      requires Valid() && Measured(nodes, root, self)
      requires Unstarted(nodes, self, d)
      modifies this
      ensures Valid() && Measured(nodes, root, self)
      ensures self == old(self)[d := SelfMetadata(alloc, mtime)]
      ensures nodes == StartedUp(old(nodes), root, old(self), d, SelfMetadata(alloc, mtime))
    {
      hide Rooted, Measured, AddUp, Grown;
      ghost var m := SelfMetadata(alloc, mtime);
      StartedRooted(nodes, root, self, d, m);
      StartKeeps(nodes, root, self, d, m);
      var v := nodes[d];
      nodes := nodes[d := v.(totals := v.totals.(alloc := alloc, mtime := mtime))];
      self := self[d := SelfMetadata(alloc, mtime)];
      PropagateSelf(d);
    }

    /** Inside the batch step: a measured leaf is attached and its contribution propagated. */
    method PublishLeaf(p: Id, leaf: Id, v: Node<Id>)
      requires Valid() && Measured(nodes, root, self)
      requires Adoptable(nodes, p, leaf, v) && !v.isDir
      modifies this`nodes
      ensures Valid() && Measured(nodes, root, self)
      ensures nodes == Published(old(nodes), root, p, leaf, v)
    {
      hide Rooted, Measured, AddUp, Adopted, Grown;
      PublishKeeps(nodes, root, self, p, leaf, v);
      Adopt(p, leaf, v);
      PropagateFile(leaf);
    }

    /** Inside the batch step: a directory placeholder is attached and counted. */
    method PublishDirectory(p: Id, child: Id, name: string)
      requires Valid() && Measured(nodes, root, self) && child !in self
      requires Adoptable(nodes, p, child, Placeholder(name))
      modifies this`nodes
      ensures Valid() && Measured(nodes, root, self)
      ensures nodes == Published(old(nodes), root, p, child, Placeholder(name))
    {
      hide Rooted, Measured, AddUp, Adopted, Grown;
      PublishKeeps(nodes, root, self, p, child, Placeholder(name));
      Adopt(p, child, Placeholder(name));
      BumpDirCount(child);
    }

    /** MoveTo: detach n's subtree and hang it below parent under name, keeping the names sorted.
        It refuses the root and any parent inside n's own subtree. */
    method MoveTo(n: Id, parent: Id, name: string) returns (ok: bool)
      requires Valid() && n in nodes && parent in nodes && nodes[parent].isDir && IsName(name)
      modifies this`nodes
      ensures ok <==> Movable(old(nodes), root, n, parent, name)
      ensures ok ==> Valid() && Relocated(old(nodes), nodes, root, n, parent, name)
      ensures !ok ==> nodes == old(nodes)
    {
      hide Rooted, Above, SubtreeIntact, Rebased, Relocated, Detached, IsName, Unattached, Below, NodeAfter, Distinct;
      ghost var f := nodes;
      RootedParent(f, root, n);
      if nodes[n].parent == None {
        return false;
      }
      var inside := IsAncestor(n, parent);
      if inside {
        return false;
      }
      DetachedIntact(f, root, n, parent, name);
      Detach(n, parent, name);
      ghost var h := DepthBound(f);
      RebaseDepth(n, nodes[parent].depth + 1, f, h);
      UnattachedChildren(f, root, n, parent, name);
      AttachSorted(n, parent);
      AttachedIsRelocated(f, root, n, parent, name, nodes);
      RelocatedRooted(f, nodes, root, n, parent, name);
      ok := true;
    }

    /** First half of MoveTo: leave the old parent's slice and take the new name and parent pointer. */
    method Detach(n: Id, parent: Id, name: string)
      requires Valid() && n in nodes && HasParent(nodes, n) && nodes[n].parent.value != n
      modifies this`nodes
      ensures nodes == Detached(old(nodes), n, name, parent)
    {
      hide Rooted, Distinct, IsName;
      var q := nodes[n].parent.value;
      var index := IndexOfChild(q, n);
      var cs := nodes[q].children;
      ChildrenKnown(nodes, root, q);
      WithoutIsCut(cs, index);
      nodes := nodes[q := nodes[q].(children := cs[..index] + cs[index + 1..])];
      nodes := nodes[n := nodes[n].(name := name, parent := Some(parent))];
    }

    /** Second half of MoveTo: append n to the new parent's slice and sort the slice. */
    method AttachSorted(n: Id, parent: Id)
      requires parent in nodes && forall c :: c in nodes[parent].children + [n] ==> c in nodes
      modifies this`nodes
      ensures nodes == old(nodes[parent := nodes[parent].(children := SortByName(nodes, nodes[parent].children + [n]))])
    {
      hide SortByName;
      ghost var d := nodes;
      var joined := nodes[parent].children + [n];
      nodes := nodes[parent := nodes[parent].(children := joined)];
      SortNamesAgree(d, nodes, joined);
      nodes := nodes[parent := nodes[parent].(children := SortByName(nodes, joined))];
    }

    /** The cycle check of MoveTo: does the chain above node pass through n? */
    method IsAncestor(n: Id, node: Id) returns (found: bool)
      requires Valid() && n in nodes && node in nodes
      ensures found <==> Above(nodes, root, n, node)
    {
      hide Rooted, Above;
      var p := Some(node);
      while p.Some?
        invariant p.Some? ==> p.value in nodes
        invariant n in Ancestors(nodes, root, node) <==> n in ClimbFrom(nodes, root, p)
        decreases ClimbLeft(nodes, p)
      {
        AncestorsUnfold(nodes, root, p.value);
        AncestorsMembers(nodes, root, p.value);
        if p.value == n {
          AncestorsMembers(nodes, root, node);
          return true;
        }
        p := nodes[p.value].parent;
      }
      AncestorsMembers(nodes, root, node);
      found := false;
    }

    /** The position search of MoveTo. */
    method IndexOfChild(q: Id, n: Id) returns (index: nat)
      requires q in nodes && n in nodes[q].children
      ensures index < |nodes[q].children| && nodes[q].children[index] == n
    {
      var cs := nodes[q].children;
      index := 0;
      while cs[index] != n
        invariant index < |cs| && n in cs[index..]
        decreases |cs| - index
      {
        index := index + 1;
      }
    }

    /** rebaseDepth: rewrite the depths of a whole subtree. */
    method RebaseDepth(n: Id, depth: nat, ghost f: Forest<Id>, ghost h: nat)
      requires Rooted(f, root) && n in f && nodes.Keys == f.Keys && SubtreeIntact(f, nodes, root, n)
      requires forall x :: x in f ==> f[x].depth <= h
      modifies this`nodes
      ensures nodes == Rebased(old(nodes), f, Below(f, root, n), depth - f[n].depth)
      decreases h - f[n].depth
    {
      hide Rooted, Above, SubtreeIntact, Rebased, Below, BelowAny;
      ghost var start, shift := nodes, depth - f[n].depth;
      IntactHere(f, nodes, root, n);
      nodes := nodes[n := nodes[n].(depth := depth)];
      var cs := nodes[n].children;
      RebasedOne(start, f, n, shift);
      BelowAnyGrows(f, root, n, 0);
      for i := 0 to |cs|
        invariant forall c :: c in cs ==> c in f
        invariant nodes.Keys == f.Keys
        invariant nodes == Rebased(start, f, {n} + BelowAny(f, root, cs[..i]), shift)
      {
        ghost var done := {n} + BelowAny(f, root, cs[..i]);
        ChildIntact(f, start, root, n, i, done, shift);
        RebasedAt(start, f, done, shift, cs[i]);
        nodes := nodes[cs[i] := nodes[cs[i]].(parent := Some(n))];
        SameParentAgain(Rebased(start, f, done, shift), cs[i], n);
        RebaseDepth(cs[i], depth + 1, f, h);
        RebasedTwice(start, f, done, Below(f, root, cs[i]), shift);
        BelowAnyGrows(f, root, n, i);
      }
      BelowAnyGrows(f, root, n, |cs|);
    }

    /** Path: the names from below the root down to n, joined by slashes. */
    method Path(n: Id) returns (path: string)
      requires Valid() && n in nodes
      ensures path == PathOf(nodes, root, n)
    {
      hide Rooted;
      RootedParent(nodes, root, n);
      if nodes[n].parent == None {
        return "";
      }
      path := nodes[n].name;
      var p := nodes[n].parent.value;
      while p != root
        invariant p in nodes
        invariant PathOf(nodes, root, n) == Join(PathOf(nodes, root, p), path)
        decreases nodes[p].depth
      {
        RootedParent(nodes, root, p);
        PathOfNonempty(nodes, root, p);
        JoinAssociative(PathOf(nodes, root, nodes[p].parent.value), nodes[p].name, path);
        path := nodes[p].name + "/" + path;
        p := nodes[p].parent.value;
      }
    }

    /** Inside normalizeFileOwners: one entry takes its final bytes and its ancestors the change. */
    method AssignBytes(x: Id, apparent: int, alloc: int, hardlink: bool)
      requires Valid() && x in nodes && x != root && !nodes[x].isDir
      modifies this`nodes
      ensures nodes == Reassigned(old(nodes), root, x, apparent, alloc, hardlink)
    {
      hide Rooted, Above, AddTo;
      WithBytesShape(nodes, root, x, apparent, alloc, hardlink);
      ghost var delta := ByteDelta(nodes[x], apparent, alloc);
      var deltaApparent := apparent - nodes[x].totals.apparent;
      var deltaAlloc := alloc - nodes[x].totals.alloc;
      nodes := nodes[x := nodes[x].(totals := nodes[x].totals.(apparent := apparent, alloc := alloc),
                                    hardlink := hardlink)];
      ghost var f := nodes;
      var p := nodes[x].parent;
      ghost var climb := ClimbFrom(f, root, p);
      NothingClimbed(f, root, p, delta);
      while p.Some?
        invariant Climbing(f, root, nodes, p, climb, delta)
        decreases ClimbLeft(f, p)
      {
        ClimbStep(f, root, nodes, p.value, climb, delta);
        var v := nodes[p.value];
        nodes := nodes[p.value := v.(totals := v.totals.(apparent := v.totals.apparent + deltaApparent,
                                                         alloc := v.totals.alloc + deltaAlloc))];
        p := v.parent;
      }
      ClimbDone(f, root, nodes, climb, delta);
    }

    /** The deferred sort at the end of scanDir. */
    method SortChildren(d: Id)
      requires Valid() && d in nodes
      modifies this`nodes
      ensures Valid()
      ensures ChildrenSorted(old(nodes), nodes, d)
    {
      ChildrenKnown(nodes, root, d);
      ghost var f := nodes;
      SortSorts(f, f[d].children);
      nodes := nodes[d := nodes[d].(children := SortByName(nodes, nodes[d].children))];
      SameNamesSorted(f, nodes, nodes[d].children);
      SortedRooted(f, nodes, root, d);
    }

    /** Adopt: link a fresh child at the end of the children. */
    method Adopt(p: Id, c: Id, v: Node<Id>)
      requires Valid() && Adoptable(nodes, p, c, v)
      modifies this`nodes
      ensures Valid() && nodes == Adopted(old(nodes), p, c, v)
      ensures c in nodes && c != root && nodes[c].parent == Some(p)
      ensures nodes[c].isDir == v.isDir && Contribution(nodes[c]) == Contribution(v)
    {
      AdoptedRooted(nodes, root, p, c, v);
      hide Rooted, IsName;
      var depth := nodes[p].depth + 1;
      nodes := nodes[p := nodes[p].(children := nodes[p].children + [c])];
      nodes := nodes[c := v.(parent := Some(p), depth := depth)];
    }
  }

  lemma AncestorsMembers<Id(!new)>(f: Forest<Id>, root: Id, n: Id)
    requires Rooted(f, root) && n in f
    ensures n in Ancestors(f, root, n)
    ensures forall x :: x in f ==> (x in Ancestors(f, root, n) <==> Above(f, root, x, n))
  {
  }

  lemma PathOfNonempty<Id(!new)>(f: Forest<Id>, root: Id, n: Id)
    requires Rooted(f, root) && n in f && n != root
    ensures HasParent(f, n) && PathOf(f, root, n) != ""
    ensures PathOf(f, root, n) == Join(PathOf(f, root, f[n].parent.value), f[n].name)
  {
    RootedParent(f, root, n);
  }

  lemma JoinAssociative(a: string, b: string, c: string)
    requires b != ""
    ensures Join(Join(a, b), c) == Join(a, b + "/" + c)
  {
  }

  lemma SameParentAgain<Id(!new)>(g: Forest<Id>, c: Id, n: Id)
    requires c in g && g[c].parent == Some(n)
    ensures g[c := g[c].(parent := Some(n))] == g
  {
  }

  lemma IntactHere<Id(!new)>(f: Forest<Id>, g: Forest<Id>, root: Id, n: Id)
    requires Rooted(f, root) && n in f && g.Keys == f.Keys && SubtreeIntact(f, g, root, n)
    ensures g[n].children == f[n].children
  {
    assert n in Below(f, root, n);
  }

  lemma RebasedOne<Id(!new)>(g: Forest<Id>, f: Forest<Id>, n: Id, shift: int)
    requires g.Keys == f.Keys && n in f && f[n].depth + shift >= 0
    ensures Rebased(g, f, {n}, shift) == g[n := g[n].(depth := f[n].depth + shift)]
  {
  }

  lemma RebasedAt<Id(!new)>(g: Forest<Id>, f: Forest<Id>, s: set<Id>, shift: int, c: Id)
    requires g.Keys == f.Keys && c in f
    ensures Rebased(g, f, s, shift).Keys == f.Keys
    ensures Rebased(g, f, s, shift)[c].parent == g[c].parent
  {
  }

  lemma UnattachedChildren<Id(!new)>(f: Forest<Id>, root: Id, n: Id, p: Id, name: string)
    requires Rooted(f, root) && Movable(f, root, n, p, name) && HasParent(f, n) && f[n].parent.value != n
    ensures var d := Unattached(f, root, n, p, name);
      p in d && n in d && forall c :: c in d[p].children + [n] ==> c in d
    ensures Unattached(f, root, n, p, name)
      == Rebased(Detached(f, n, name, p), f, Below(f, root, n), f[p].depth + 1 - f[n].depth)
  {
    var d := Unattached(f, root, n, p, name);
    forall c | c in d[p].children
      ensures c in d
    {
      WithoutMembers(f[p].children, n);
      assert c in f[p].children;
      assert IsChild(f, p, c);
    }
  }

  lemma {:induction false} SortNamesAgree<Id(!new)>(d: Forest<Id>, g: Forest<Id>, cs: seq<Id>)
    requires forall x :: x in cs ==> x in d && x in g && g[x].name == d[x].name
    ensures SortByName(g, cs) == SortByName(d, cs)
  {
    if cs != [] {
      assert cs[|cs| - 1] in cs;
      SortNamesAgree(d, g, cs[..|cs| - 1]);
      InsertNamesAgree(d, g, SortByName(d, cs[..|cs| - 1]), cs[|cs| - 1]);
    }
  }

  lemma {:induction false} InsertNamesAgree<Id(!new)>(d: Forest<Id>, g: Forest<Id>, cs: seq<Id>, c: Id)
    requires c in d && c in g && g[c].name == d[c].name
    requires forall x :: x in cs ==> x in d && x in g && g[x].name == d[x].name
    ensures InsertByName(g, cs, c) == InsertByName(d, cs, c)
  {
    if cs != [] {
      assert cs[|cs| - 1] in cs;
      InsertNamesAgree(d, g, cs[..|cs| - 1], c);
    }
  }

  /** g is f with the children of d put in name order and nothing else changed. */
  ghost predicate ChildrenSorted<Id(!new)>(f: Forest<Id>, g: Forest<Id>, d: Id) {
    && d in f && d in g
    && g == f[d := f[d].(children := g[d].children)]
    && (forall c :: c in g[d].children <==> c in f[d].children)
    && (Distinct(f[d].children) ==> Distinct(g[d].children))
    && NameSorted(g, g[d].children)
  }

  lemma SortedRooted<Id(!new)>(f: Forest<Id>, g: Forest<Id>, root: Id, d: Id)
    requires Rooted(f, root) && ChildrenSorted(f, g, d)
    ensures Rooted(g, root)
  {
    forall n | n in g && n != root
      ensures HasParent(g, n)
    {
      assert HasParent(f, n);
    }
    forall n, c | n in g && c in g[n].children
      ensures IsChild(g, n, c)
    {
      assert IsChild(f, n, c);
    }
  }

  const ONE_DIRECTORY := Totals(0, 0, 0, 1, 0)

  /** A directory child before its own scan has begun. */
  function Placeholder<Id>(name: string): Node<Id> {
    Node(name, true, 0, NOTHING, false, false, None, [])
  }

  lemma SameShapeTransitive<Id(!new)>(f: Forest<Id>, g: Forest<Id>, h: Forest<Id>)
    requires SameShape(f, g) && SameShape(g, h)
    ensures SameShape(f, h)
  {
  }

  ghost predicate Unstarted<Id(!new)>(f: Forest<Id>, self: map<Id, SelfMetadata>, d: Id) {
    d in f && f[d].isDir && f[d].children == [] && f[d].totals == NOTHING && d !in self
  }

  ghost function Started<Id(!new)>(f: Forest<Id>, d: Id, m: SelfMetadata): Forest<Id>
    requires d in f
  {
    f[d := f[d].(totals := m.AsTotals())]
  }

  lemma StartedRooted<Id(!new)>(f: Forest<Id>, root: Id, self: map<Id, SelfMetadata>, d: Id, m: SelfMetadata)
    requires Rooted(f, root) && Unstarted(f, self, d)
    ensures SameShape(f, Started(f, d, m)) && Rooted(Started(f, d, m), root)
    ensures d != root ==> HasParent(Started(f, d, m), d) && f[d].parent.value in f
  {
    SameShapeRooted(f, Started(f, d, m), root);
    RootedParent(Started(f, d, m), root, d);
  }

  /** Writing a directory's own metadata leaves only its parent out of balance. */
  lemma StartedBalance<Id(!new)>(
      f: Forest<Id>, root: Id, self: map<Id, SelfMetadata>, d: Id, m: SelfMetadata)
    requires Rooted(f, root) && Measured(f, root, self) && Unstarted(f, self, d)
    requires Rooted(Started(f, d, m), root)
    ensures d == root ==> Measured(Started(f, d, m), root, self[d := m])
    ensures d != root ==> f[d].parent.Some?
    ensures d != root ==> OffBy(Started(f, d, m), root, self[d := m], f[d].parent.value, m.AsTotals())
  {
    var g := Started(f, d, m);
    forall x | x in g && g[x].isDir && f[d].parent != Some(x)
      ensures Balanced(g, root, self[d := m], x)
    {
      StartElsewhere(f, root, self, d, m, x);
    }
    if d != root {
      RootedParent(f, root, d);
      StartAtParent(f, root, self, d, m);
    }
  }

  lemma StartElsewhere<Id(!new)>(
      f: Forest<Id>, root: Id, self: map<Id, SelfMetadata>, d: Id, m: SelfMetadata, x: Id)
    requires Rooted(f, root) && Measured(f, root, self) && Unstarted(f, self, d)
    requires Rooted(Started(f, d, m), root)
    requires x in f && f[x].isDir && f[d].parent != Some(x)
    ensures Balanced(Started(f, d, m), root, self[d := m], x)
  {
    hide Rooted, Balanced, Measured;
    if x == d {
      EmptyBalanced(Started(f, d, m), root, self[d := m], d);
    } else {
      StartBeside(f, root, self, d, m, x);
    }
  }

  lemma StartBeside<Id(!new)>(
      f: Forest<Id>, root: Id, self: map<Id, SelfMetadata>, d: Id, m: SelfMetadata, x: Id)
    requires Rooted(f, root) && Measured(f, root, self) && Unstarted(f, self, d)
    requires Rooted(Started(f, d, m), root)
    requires x in f && f[x].isDir && f[d].parent != Some(x) && x != d
    ensures Balanced(Started(f, d, m), root, self[d := m], x)
  {
    var g := Started(f, d, m);
    assert Balanced(f, root, self, x);
    var cs := f[x].children;
    forall c | c in cs
      ensures c in f && c in g && c != d
    {
      assert IsChild(f, x, c);
    }
    SumAgrees(f, g, cs);
  }

  lemma StartAtParent<Id(!new)>(
      f: Forest<Id>, root: Id, self: map<Id, SelfMetadata>, d: Id, m: SelfMetadata)
    requires Rooted(f, root) && Measured(f, root, self) && Unstarted(f, self, d)
    requires HasParent(f, d)
    ensures LacksDelta(Started(f, d, m), self[d := m], f[d].parent.value, m.AsTotals())
  {
    var g := Started(f, d, m);
    var p := f[d].parent.value;
    assert Balanced(f, root, self, p) && Distinct(f[p].children);
    var cs := f[p].children;
    forall c | c in cs
      ensures c in f && c in g
    {
      assert IsChild(f, p, c);
    }
    hide Rooted, Measured;
    StartedSum(f, d, m, cs);
    PlusAssociative(SelfOf(self, p), SumOf(f, cs), m.AsTotals());
  }

  lemma StartedSum<Id(!new)>(f: Forest<Id>, d: Id, m: SelfMetadata, cs: seq<Id>)
    requires d in f && f[d].isDir && f[d].totals == NOTHING && Distinct(cs) && d in cs
    requires forall c :: c in cs ==> c in f
    ensures SumOf(Started(f, d, m), cs) == SumOf(f, cs).Plus(m.AsTotals())
  {
    SumOneChanged(f, Started(f, d, m), cs, d, m.AsTotals());
  }

  /** The tree after a directory's own metadata was published. */
  ghost function StartedUp<Id(!new)>(
      f: Forest<Id>, root: Id, self: map<Id, SelfMetadata>, d: Id, m: SelfMetadata): Forest<Id>
    requires Rooted(f, root) && Unstarted(f, self, d)
  {
    StartedRooted(f, root, self, d, m);
    if d == root then Started(f, d, m) else AddUp(Started(f, d, m), root, f[d].parent.value, m.AsTotals())
  }

  /** The tree after a leaf or a directory placeholder was attached and counted. */
  ghost function Published<Id(!new)>(f: Forest<Id>, root: Id, p: Id, c: Id, v: Node<Id>): Forest<Id>
    requires Rooted(f, root) && Adoptable(f, p, c, v)
  {
    AdoptedRooted(f, root, p, c, v);
    AddUp(Adopted(f, p, c, v), root, p, Contribution(v))
  }

  /** h is g with totals changed at nodes that have children, and nothing else changed. */
  ghost predicate Grown<Id(!new)>(g: Forest<Id>, h: Forest<Id>) {
    && SameShape(g, h)
    && forall x {:trigger h[x]} :: x in g && g[x].children == [] ==> h[x] == g[x]
  }

  lemma AddUpGrows<Id(!new)>(g: Forest<Id>, root: Id, p: Id, delta: Totals)
    requires Rooted(g, root) && p in g && g[p].children != []
    ensures Grown(g, AddUp(g, root, p, delta))
  {
    forall x | x in g && Above(g, root, x, p)
      ensures g[x].children != []
    {
      if x != p {
        var c := ChildOnPath(g, root, x, p);
      }
    }
  }

  lemma StartKeeps<Id(!new)>(f: Forest<Id>, root: Id, self: map<Id, SelfMetadata>, d: Id, m: SelfMetadata)
    requires Rooted(f, root) && Measured(f, root, self) && Unstarted(f, self, d)
    ensures var h := StartedUp(f, root, self, d, m);
      Rooted(h, root) && Measured(h, root, self[d := m]) && Grown(Started(f, d, m), h)
  {
    hide Rooted, Measured, AddUp, OffBy, SelfOf, Grown;
    StartedRooted(f, root, self, d, m);
    StartedBalance(f, root, self, d, m);
    var g := Started(f, d, m);
    if d != root {
      var p := f[d].parent.value;
      AddUpBalances(g, root, self[d := m], p, m.AsTotals());
      AddUpGrows(g, root, p, m.AsTotals());
    } else {
      GrownReflexive(g);
    }
  }

  lemma GrownReflexive<Id(!new)>(g: Forest<Id>)
    ensures Grown(g, g)
  {
  }

  lemma PublishKeeps<Id(!new)>(
      f: Forest<Id>, root: Id, self: map<Id, SelfMetadata>, p: Id, c: Id, v: Node<Id>)
    requires Rooted(f, root) && Measured(f, root, self) && Adoptable(f, p, c, v)
    requires v.isDir ==> v.totals == NOTHING && c !in self
    ensures var h := Published(f, root, p, c, v);
      Rooted(h, root) && Measured(h, root, self) && Grown(Adopted(f, p, c, v), h)
  {
    hide Rooted, Measured, AddUp, OffBy, Grown;
    AdoptedBalance(f, root, self, p, c, v);
    var g := Adopted(f, p, c, v);
    AddUpBalances(g, root, self, p, Contribution(v));
    AddUpGrows(g, root, p, Contribution(v));
  }

  function LoneRoot<Id(!new)>(root: Id, name: string): (f: Forest<Id>) {
    map[root := Node(name, true, 0, NOTHING, false, false, None, [])]
  }

  lemma LoneRootRooted<Id(!new)>(root: Id, name: string)
    ensures Rooted(LoneRoot(root, name), root)
  {
    LoneNodeRooted(LoneRoot(root, name), root);
  }

  lemma LoneNodeRooted<Id(!new)>(f: Forest<Id>, root: Id)
    requires f.Keys == {root} && f[root].parent == None && f[root].depth == 0 && f[root].children == []
    ensures Rooted(f, root)
  {
  }

  lemma LoneNodeMeasured<Id(!new)>(f: Forest<Id>, root: Id, self: map<Id, SelfMetadata>)
    requires f.Keys == {root} && Rooted(f, root) && f[root].children == [] && f[root].totals == NOTHING
    requires root !in self
    ensures Measured(f, root, self)
  {
    hide Rooted, Balanced;
    EmptyBalanced(f, root, self, root);
    forall d | d in f
      ensures d == root
    {
      assert d in f.Keys;
    }
  }

  /** Where a climb that starts at a parent pointer passes. */
  ghost function ClimbFrom<Id(!new)>(f: Forest<Id>, root: Id, start: Option<Id>): set<Id>
    requires Rooted(f, root)
    requires start.Some? ==> start.value in f
  {
    if start.Some? then Ancestors(f, root, start.value) else {}
  }

  ghost function ClimbLeft<Id(!new)>(f: Forest<Id>, p: Option<Id>): nat {
    if p.Some? && p.value in f then f[p.value].depth + 1 else 0
  }

  /** A climb that has reached p updated every node of its way below p and nothing else. */
  ghost predicate Climbing<Id(!new)>(
    f: Forest<Id>, root: Id, g: Forest<Id>, p: Option<Id>, climb: set<Id>, delta: Totals)
    requires Rooted(f, root)
  {
    && (p.Some? ==> p.value in f)
    && ClimbFrom(f, root, p) <= climb
    && g == AddTo(f, climb - ClimbFrom(f, root, p), delta)
  }

  lemma NothingClimbed<Id(!new)>(f: Forest<Id>, root: Id, p: Option<Id>, delta: Totals)
    requires Rooted(f, root)
    requires p.Some? ==> p.value in f
    ensures Climbing(f, root, f, p, ClimbFrom(f, root, p), delta)
  {
  }

  lemma ClimbDone<Id(!new)>(f: Forest<Id>, root: Id, g: Forest<Id>, climb: set<Id>, delta: Totals)
    requires Rooted(f, root) && Climbing(f, root, g, None, climb, delta)
    ensures g == AddTo(f, climb, delta)
    ensures climb == {} ==> g == f
  {
    assert climb - {} == climb;
  }

  lemma ClimbStep<Id(!new)>(f: Forest<Id>, root: Id, g: Forest<Id>, x: Id, climb: set<Id>, delta: Totals)
    requires Rooted(f, root) && Climbing(f, root, g, Some(x), climb, delta)
    ensures x in g && g[x] == f[x]
    ensures f[x].parent.Some? ==> f[x].parent.value in f
    ensures Climbing(f, root, g[x := f[x].(totals := f[x].totals.Plus(delta))], f[x].parent, climb, delta)
    ensures ClimbLeft(f, f[x].parent) < ClimbLeft(f, Some(x))
  {
    AncestorsUnfold(f, root, x);
    hide Rooted, Above;
    var done := climb - Ancestors(f, root, x);
    var next := climb - ClimbFrom(f, root, f[x].parent);
    assert next == done + {x};
    AddToOneMore(f, done, x, delta);
  }

  lemma AddToOneMore<Id(!new)>(f: Forest<Id>, s: set<Id>, x: Id, delta: Totals)
    requires x in f && x !in s
    ensures AddTo(f, s + {x}, delta) == AddTo(f, s, delta)[x := f[x].(totals := f[x].totals.Plus(delta))]
    ensures AddTo(f, s, delta)[x] == f[x]
  {
  }
}
