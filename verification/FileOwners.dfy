/** File identities that appear under several names: which entry carries the bytes. */
module FileOwners {
  import opened PathOrder
  import opened Ordering
  import opened Forest
  import opened Relocation
  import opened ByteTransfer

  /** fileKey: one physical file. */
  datatype FileKey = FileKey(dev: nat, ino: nat, path: string)

  /** fileGroup: all entries of one identity and the bytes they share. */
  datatype FileGroup<Id> = FileGroup(nodes: seq<Id>, apparent: int, alloc: int)

  /** x carries the bytes of its identity. */
  ghost predicate Carries<Id(!new)>(f: Forest<Id>, x: Id, g: FileGroup<Id>)
    requires x in f
  {
    f[x].totals.apparent == g.apparent && f[x].totals.alloc == g.alloc && !f[x].hardlink
  }

  /** x is shown, flagged and empty. */
  ghost predicate Flagged<Id(!new)>(f: Forest<Id>, x: Id)
    requires x in f
  {
    f[x].totals.apparent == 0 && f[x].totals.alloc == 0 && f[x].hardlink
  }

  ghost predicate CarriesAlone<Id(!new)>(f: Forest<Id>, g: FileGroup<Id>, o: Id)
    requires forall x :: x in g.nodes ==> x in f
  {
    o in g.nodes && Carries(f, o, g) && forall x :: x in g.nodes && x != o ==> Flagged(f, x)
  }

  /** No entry of the group has a lesser path than x. */
  ghost predicate IsOwner<Id(!new)>(f: Forest<Id>, root: Id, nodes: seq<Id>, x: Id)
    requires Rooted(f, root) && x in f && forall y :: y in nodes ==> y in f
  {
    forall y {:trigger PathOf(f, root, y)} :: y in nodes ==> !Less(PathOf(f, root, y), PathOf(f, root, x))
  }

  /** The group's bytes sit on its least path and nowhere else. */
  ghost predicate OwnedByLeast<Id(!new)>(f: Forest<Id>, root: Id, g: FileGroup<Id>)
    requires Rooted(f, root)
  {
    && (forall x :: x in g.nodes ==> x in f)
    && (forall x :: x in g.nodes ==> if IsOwner(f, root, g.nodes, x) then Carries(f, x, g) else Flagged(f, x))
  }

  /** A well-formed group of the tree: distinct leaves with distinct paths, none of them the root. */
  ghost predicate GroupIn<Id(!new)>(f: Forest<Id>, root: Id, g: FileGroup<Id>)
    requires Rooted(f, root)
  {
    && g.nodes != [] && Distinct(g.nodes)
    && (forall x :: x in g.nodes ==> x in f && x != root && !f[x].isDir)
    && (forall x, y :: x in g.nodes && y in g.nodes && PathOf(f, root, x) == PathOf(f, root, y) ==> x == y)
  }

  /** The bytes of a group's entries, added up. */
  ghost function GroupBytes<Id(!new)>(f: Forest<Id>, nodes: seq<Id>): (int, int)
    requires forall x :: x in nodes ==> x in f
  {
    if nodes == [] then (0, 0)
    else
      var last := nodes[|nodes| - 1];
      assert last in nodes;
      var rest := GroupBytes(f, nodes[..|nodes| - 1]);
      (rest.0 + f[last].totals.apparent, rest.1 + f[last].totals.alloc)
  }

  lemma {:induction false} GroupBytesAgree<Id(!new)>(f: Forest<Id>, g: Forest<Id>, nodes: seq<Id>)
    requires forall x :: x in nodes ==> x in f && x in g && g[x].totals == f[x].totals
    ensures GroupBytes(g, nodes) == GroupBytes(f, nodes)
  {
    if nodes != [] {
      assert nodes[|nodes| - 1] in nodes;
      GroupBytesAgree(f, g, nodes[..|nodes| - 1]);
    }
  }

  lemma {:induction false} GroupBytesOneChanged<Id(!new)>(f: Forest<Id>, g: Forest<Id>, nodes: seq<Id>, x: Id)
    requires Distinct(nodes) && x in nodes
    requires forall y :: y in nodes ==> y in f && y in g && (y != x ==> g[y].totals == f[y].totals)
    ensures GroupBytes(g, nodes) == (GroupBytes(f, nodes).0 + g[x].totals.apparent - f[x].totals.apparent,
                                     GroupBytes(f, nodes).1 + g[x].totals.alloc - f[x].totals.alloc)
  {
    var init, last := nodes[..|nodes| - 1], nodes[|nodes| - 1];
    assert last in nodes;
    if last == x {
      assert x !in init;
      GroupBytesAgree(f, g, init);
    } else {
      assert x in init;
      GroupBytesOneChanged(f, g, init, x);
    }
  }

  lemma {:induction false} GroupBytesZero<Id(!new)>(f: Forest<Id>, nodes: seq<Id>)
    requires forall x :: x in nodes ==> x in f && f[x].totals.apparent == 0 && f[x].totals.alloc == 0
    ensures GroupBytes(f, nodes) == (0, 0)
  {
    if nodes != [] {
      assert nodes[|nodes| - 1] in nodes;
      GroupBytesZero(f, nodes[..|nodes| - 1]);
    }
  }

  ghost function RootTotals<Id(!new)>(f: Forest<Id>, root: Id): Totals
    requires Rooted(f, root)
  {
    f[root].totals
  }

  /** One carrier and otherwise empty entries: the group adds up to its identity's bytes. */
  lemma {:induction false} CarrierBytes<Id(!new)>(f: Forest<Id>, g: FileGroup<Id>, nodes: seq<Id>, o: Id)
    requires Distinct(nodes) && o in nodes
    requires forall x :: x in nodes ==> x in f
    requires f[o].totals.apparent == g.apparent && f[o].totals.alloc == g.alloc
    requires forall x :: x in nodes && x != o ==> Flagged(f, x)
    ensures GroupBytes(f, nodes) == (g.apparent, g.alloc)
  {
    var init, last := nodes[..|nodes| - 1], nodes[|nodes| - 1];
    assert last in nodes;
    if last == o {
      assert o !in init;
      assert forall x :: x in init ==> Flagged(f, x);
      GroupBytesZero(f, init);
    } else {
      assert o in init;
      CarrierBytes(f, g, init, o);
      assert Flagged(f, last);
    }
  }

  /** How far the assignment loop of one group has come: the first i entries are final. */
  ghost predicate Assigning<Id(!new)>(
    start: Forest<Id>, f: Forest<Id>, root: Id, g: FileGroup<Id>, owner: Id, i: nat)
    requires Rooted(start, root) && GroupIn(start, root, g) && i <= |g.nodes|
  {
    && SameButBytes(start, f) && Rooted(f, root)
    && (forall j :: 0 <= j < i ==> if g.nodes[j] == owner then Carries(f, g.nodes[j], g) else Flagged(f, g.nodes[j]))
    && (forall j :: i <= j < |g.nodes| ==> f[g.nodes[j]] == start[g.nodes[j]])
    && (forall y :: y in start && y !in g.nodes && !start[y].isDir ==> f[y] == start[y])
    && f[root].totals.apparent - GroupBytes(f, g.nodes).0 == start[root].totals.apparent - GroupBytes(start, g.nodes).0
    && f[root].totals.alloc - GroupBytes(f, g.nodes).1 == start[root].totals.alloc - GroupBytes(start, g.nodes).1
  }

  lemma AssigningBegins<Id(!new)>(start: Forest<Id>, root: Id, g: FileGroup<Id>, owner: Id)
    requires Rooted(start, root) && GroupIn(start, root, g)
    ensures Assigning(start, start, root, g, owner, 0)
  {
  }

  /** One assignment extends the finished prefix and moves the root totals with the group's bytes. */
  lemma AssigningStep<Id(!new)>(start: Forest<Id>, f: Forest<Id>, root: Id, g: FileGroup<Id>, owner: Id, i: nat)
    requires Rooted(start, root) && GroupIn(start, root, g) && i < |g.nodes|
    requires Assigning(start, f, root, g, owner, i)
    ensures g.nodes[i] in f && g.nodes[i] != root && !f[g.nodes[i]].isDir
    ensures var mine := g.nodes[i] == owner;
      var h := Reassigned(f, root, g.nodes[i], if mine then g.apparent else 0, if mine then g.alloc else 0, !mine);
      Assigning(start, h, root, g, owner, i + 1)
  {
    var x := g.nodes[i];
    var mine := x == owner;
    var apparent, alloc := if mine then g.apparent else 0, if mine then g.alloc else 0;
    assert x in g.nodes;
    ReassignedShape(f, root, x, apparent, alloc, !mine);
    var h := Reassigned(f, root, x, apparent, alloc, !mine);
    AssignedOthers(start, f, h, root, g, x);
    AssigningNodes(start, f, h, root, g, owner, i);
    GroupBytesOneChanged(f, h, g.nodes, x);
    SameButBytesTransitive(start, f, h);
  }

  lemma AssignedOthers<Id(!new)>(start: Forest<Id>, f: Forest<Id>, h: Forest<Id>, root: Id, g: FileGroup<Id>, x: Id)
    requires Rooted(start, root) && GroupIn(start, root, g) && SameButBytes(start, f)
    requires forall y :: y in f && y != x && !f[y].isDir ==> y in h && h[y] == f[y]
    ensures forall y :: y in g.nodes && y != x ==> y in f && y in h && h[y] == f[y]
  {
    forall y | y in g.nodes && y != x
      ensures y in f && y in h && h[y] == f[y]
    {
      assert f[y].isDir == start[y].isDir;
    }
  }

  lemma AssigningNodes<Id(!new)>(
      start: Forest<Id>, f: Forest<Id>, h: Forest<Id>, root: Id, g: FileGroup<Id>, owner: Id, i: nat)
    requires Rooted(start, root) && GroupIn(start, root, g) && i < |g.nodes|
    requires Assigning(start, f, root, g, owner, i)
    requires forall y :: y in g.nodes ==> y in h && (y != g.nodes[i] ==> h[y] == f[y])
    requires if g.nodes[i] == owner then Carries(h, g.nodes[i], g) else Flagged(h, g.nodes[i])
    ensures forall j :: 0 <= j <= i ==>
      if g.nodes[j] == owner then Carries(h, g.nodes[j], g) else Flagged(h, g.nodes[j])
    ensures forall j :: i < j < |g.nodes| ==> h[g.nodes[j]] == start[g.nodes[j]]
  {
    forall j | 0 <= j < |g.nodes|
      ensures g.nodes[j] in h && (j != i ==> h[g.nodes[j]] == f[g.nodes[j]])
    {
      assert g.nodes[j] in g.nodes;
    }
  }

  /** The finished group: the owner alone carries the bytes and the root totals are what they were. */
  lemma AssigningEnds<Id(!new)>(
      start: Forest<Id>, f: Forest<Id>, root: Id, g: FileGroup<Id>, bearer: Id, owner: Id)
    requires Rooted(start, root) && GroupIn(start, root, g) && CarriesAlone(start, g, bearer)
    requires owner in g.nodes && IsOwner(start, root, g.nodes, owner)
    requires Assigning(start, f, root, g, owner, |g.nodes|)
    ensures OwnedByLeast(f, root, g)
    ensures RootTotals(f, root) == RootTotals(start, root)
  {
    CarrierBytes(start, g, g.nodes, bearer);
    forall x | x in g.nodes
      ensures x in f && if x == owner then Carries(f, x, g) else Flagged(f, x)
    {
      var j :| 0 <= j < |g.nodes| && g.nodes[j] == x;
    }
    CarrierBytes(f, g, g.nodes, owner);
    forall x | x in g.nodes
      ensures if IsOwner(f, root, g.nodes, x) then Carries(f, x, g) else Flagged(f, x)
    {
      OneOwner(start, f, root, g, owner, x);
    }
  }

  lemma OneOwner<Id(!new)>(start: Forest<Id>, f: Forest<Id>, root: Id, g: FileGroup<Id>, owner: Id, x: Id)
    requires Rooted(start, root) && GroupIn(start, root, g) && Rooted(f, root) && SameButBytes(start, f)
    requires owner in g.nodes && IsOwner(start, root, g.nodes, owner) && x in g.nodes
    ensures forall y :: y in g.nodes ==> y in f
    ensures IsOwner(f, root, g.nodes, x) <==> x == owner
  {
    hide Rooted;
    forall y | y in g.nodes
      ensures y in f && PathOf(f, root, y) == PathOf(start, root, y)
    {
      SameButBytesPath(start, f, root, y);
    }
    if x != owner {
      LessTotal(PathOf(start, root, x), PathOf(start, root, owner));
    }
  }

  /** A group of one entry that carries its bytes needs nothing. */
  lemma LoneEntryOwns<Id(!new)>(f: Forest<Id>, root: Id, g: FileGroup<Id>, o: Id)
    requires Rooted(f, root) && GroupIn(f, root, g) && CarriesAlone(f, g, o) && |g.nodes| < 2
    ensures OwnedByLeast(f, root, g)
  {
    assert g.nodes == [o];
    LessIrreflexive(PathOf(f, root, o));
  }

  /** Work on one group leaves the state of every other group's entries as it was. */
  lemma OtherGroupKept<Id(!new)>(f: Forest<Id>, h: Forest<Id>, root: Id, g: FileGroup<Id>, other: FileGroup<Id>)
    requires Rooted(f, root) && Rooted(h, root) && SameButBytes(f, h)
    requires GroupIn(f, root, g) && GroupIn(f, root, other)
    requires forall x :: x in other.nodes ==> x !in g.nodes
    requires forall y :: y in f && y !in g.nodes && !f[y].isDir ==> h[y] == f[y]
    ensures GroupIn(h, root, other)
    ensures forall o :: CarriesAlone(f, other, o) ==> CarriesAlone(h, other, o)
    ensures OwnedByLeast(f, root, other) ==> OwnedByLeast(h, root, other)
  {
    hide Rooted;
    forall x | x in other.nodes
      ensures x in h && h[x] == f[x] && PathOf(h, root, x) == PathOf(f, root, x)
    {
      SameButBytesPath(f, h, root, x);
    }
    if OwnedByLeast(f, root, other) {
      forall x | x in other.nodes
        ensures if IsOwner(h, root, other.nodes, x) then Carries(h, x, other) else Flagged(h, x)
      {
        assert IsOwner(h, root, other.nodes, x) <==> IsOwner(f, root, other.nodes, x);
      }
    }
  }

  lemma GroupKept<Id(!new)>(f: Forest<Id>, h: Forest<Id>, root: Id, g: FileGroup<Id>)
    requires Rooted(f, root) && Rooted(h, root) && SameButBytes(f, h) && GroupIn(f, root, g)
    ensures GroupIn(h, root, g)
  {
    hide Rooted;
    forall x | x in g.nodes
      ensures x in h && !h[x].isDir && PathOf(h, root, x) == PathOf(f, root, x)
    {
      SameButBytesPath(f, h, root, x);
    }
  }
}
