/** The best-first search of canonicalizeDirectoryOwners: its state between two pops of the heap. */
module DirectoryOwners {
  import opened Options
  import opened PathOrder
  import opened Forest
  import opened Relocation
  import opened AliasGraph

  /** dirPathCandidate: a directory reachable as name inside an already placed parent. */
  datatype Candidate = Candidate(path: string, name: string, parent: DirKey, group: DirKey)

  /** dirPathHeap.Less. */
  predicate CandidateLess(a: Candidate, b: Candidate) {
    if a.path != b.path then Less(a.path, b.path) else DirKeyLess(a.group, b.group)
  }

  ghost function CandidateFor(f: Tree, root: DirKey, p: DirKey, e: Edge): Candidate
    requires Rooted(f, DirRef(root)) && DirRef(p) in f
  {
    Candidate(Join(DirPath(f, root, p), e.name), e.name, p, e.target)
  }

  /** Placed directories hang below placed directories only. */
  ghost predicate ClosedUp(f: Tree, root: DirKey, placed: set<DirKey>)
    requires Rooted(f, DirRef(root))
  {
    && root in placed
    && (forall k {:trigger ParentPlaced(f, placed, k)} ::
        k in placed && DirRef(k) in f && k != root ==> ParentPlaced(f, placed, k))
  }

  ghost predicate ParentPlaced(f: Tree, placed: set<DirKey>, k: DirKey)
    requires DirRef(k) in f
  {
    f[DirRef(k)].parent.Some? && f[DirRef(k)].parent.value.DirRef? && f[DirRef(k)].parent.value.key in placed
  }

  ghost predicate Placed(f: Tree, placed: set<DirKey>, k: DirKey) {
    k in placed && DirRef(k) in f
  }

  ghost predicate Sound(f: Tree, root: DirKey, edges: Edges, placed: set<DirKey>, c: Candidate)
    requires Rooted(f, DirRef(root))
  {
    && Placed(f, placed, c.parent)
    && Edge(c.name, c.group) in EdgesOf(edges, c.parent)
    && c == CandidateFor(f, root, c.parent, Edge(c.name, c.group))
  }

  /** An edge out of a placed directory leads to a placed one or waits in the frontier. */
  ghost predicate Covered(f: Tree, root: DirKey, placed: set<DirKey>, frontier: seq<Candidate>, p: DirKey, e: Edge)
    requires Rooted(f, DirRef(root)) && DirRef(p) in f
  {
    e.target in placed || CandidateFor(f, root, p, e) in frontier
  }

  /** No waiting candidate is less than a path already given out. */
  ghost predicate NotBefore(f: Tree, root: DirKey, c: Candidate, k: DirKey)
    requires Rooted(f, DirRef(root)) && DirRef(k) in f
  {
    !Less(c.path, DirPath(f, root, k))
  }

  ghost predicate SoundFrontier(
    f: Tree, root: DirKey, edges: Edges, placed: set<DirKey>, frontier: seq<Candidate>)
    requires Rooted(f, DirRef(root))
  {
    forall c {:trigger Sound(f, root, edges, placed, c)} ::
      c in frontier ==> Sound(f, root, edges, placed, c)
  }

  ghost predicate CoveredEdges(
    f: Tree, root: DirKey, edges: Edges, placed: set<DirKey>, frontier: seq<Candidate>)
    requires Rooted(f, DirRef(root))
  {
    forall p, e {:trigger Covered(f, root, placed, frontier, p, e)} ::
      Placed(f, placed, p) && e in EdgesOf(edges, p) ==> Covered(f, root, placed, frontier, p, e)
  }

  ghost predicate LeastSoFar(f: Tree, root: DirKey, edges: Edges, placed: set<DirKey>)
    requires Rooted(f, DirRef(root))
  {
    forall p, e {:trigger Least(f, root, p, e)} ::
      Placed(f, placed, p) && e in EdgesOf(edges, p) && Placed(f, placed, e.target) ==> Least(f, root, p, e)
  }

  ghost predicate Monotone(f: Tree, root: DirKey, placed: set<DirKey>, frontier: seq<Candidate>)
    requires Rooted(f, DirRef(root))
  {
    forall c, k {:trigger NotBefore(f, root, c, k)} ::
      c in frontier && Placed(f, placed, k) ==> NotBefore(f, root, c, k)
  }

  /** The loop invariant of the search. */
  ghost predicate Searching(
    f: Tree, root: DirKey, edges: Edges, placed: set<DirKey>, frontier: seq<Candidate>)
  {
    && Recorded(f, root, edges)
    && ClosedUp(f, root, placed)
    && SoundFrontier(f, root, edges, placed, frontier)
    && CoveredEdges(f, root, edges, placed, frontier)
    && LeastSoFar(f, root, edges, placed)
    && Monotone(f, root, placed, frontier)
  }

  /** The heap pop: a least candidate leaves, all the others stay. */
  ghost predicate Popped(frontier: seq<Candidate>, c: Candidate, rest: seq<Candidate>) {
    && c in frontier
    && (forall x :: x in rest ==> x in frontier && !Less(x.path, c.path))
    && (forall x :: x in frontier ==> x == c || x in rest)
  }

  /** A placed directory lies outside the subtree of every directory not yet placed. */
  lemma {:induction false} PlacedOutside(
      f: Tree, root: DirKey, edges: Edges, placed: set<DirKey>, g: DirKey, k: DirKey)
    requires Recorded(f, root, edges) && ClosedUp(f, root, placed)
    requires DirRef(g) in f && g !in placed && Placed(f, placed, k)
    ensures !Above(f, DirRef(root), DirRef(g), DirRef(k))
    decreases f[DirRef(k)].depth
  {
    AncestorsUnfold(f, DirRef(root), DirRef(k));
    assert Above(f, DirRef(root), DirRef(g), DirRef(k)) ==>
        DirRef(g) in Ancestors(f, DirRef(root), DirRef(k));
    if k != root {
      assert ParentPlaced(f, placed, k);
      PlacedOutside(f, root, edges, placed, g, f[DirRef(k)].parent.value.key);
    }
  }

  /** The edges of a placed directory as new candidates. */
  ghost function Pushed(f: Tree, root: DirKey, edges: seq<Edge>, p: DirKey): seq<Candidate>
    requires Rooted(f, DirRef(root)) && DirRef(p) in f
  {
    seq(|edges|, i requires 0 <= i < |edges| => CandidateFor(f, root, p, edges[i]))
  }

  lemma PushedMembers(f: Tree, root: DirKey, edges: seq<Edge>, p: DirKey)
    requires Rooted(f, DirRef(root)) && DirRef(p) in f
    ensures forall e :: e in edges ==> CandidateFor(f, root, p, e) in Pushed(f, root, edges, p)
    ensures forall c :: c in Pushed(f, root, edges, p) ==>
      Edge(c.name, c.group) in edges && c == CandidateFor(f, root, p, Edge(c.name, c.group))
  {
    var cs := Pushed(f, root, edges, p);
    forall e | e in edges
      ensures CandidateFor(f, root, p, e) in cs
    {
      var i :| 0 <= i < |edges| && edges[i] == e;
      assert cs[i] == CandidateFor(f, root, p, e);
    }
  }

  /** The search starts with the root placed and its edges waiting. */
  lemma SearchBegins(f: Tree, root: DirKey, edges: Edges)
    requires Recorded(f, root, edges)
    ensures DirRef(root) in f
    ensures Searching(f, root, edges, {root}, Pushed(f, root, EdgesOf(edges, root), root))
  {
    PushedMembers(f, root, EdgesOf(edges, root), root);
    RootPath(f, root);
  }

  /** A popped candidate for a placed directory is dropped. */
  lemma SkipPlaced(f: Tree, root: DirKey, edges: Edges, placed: set<DirKey>,
                   frontier: seq<Candidate>, c: Candidate, rest: seq<Candidate>)
    requires Searching(f, root, edges, placed, frontier) && Popped(frontier, c, rest)
    requires c.group in placed
    ensures Searching(f, root, edges, placed, rest)
  {
    hide Rooted, OnEdge, ClosedUp, LeastSoFar;
    forall p, e | Placed(f, placed, p) && e in EdgesOf(edges, p)
      ensures Covered(f, root, placed, rest, p, e)
    {
      assert Covered(f, root, placed, frontier, p, e);
    }
    forall x | x in rest
      ensures Sound(f, root, edges, placed, x)
    {
    }
    forall x, k | x in rest && Placed(f, placed, k)
      ensures NotBefore(f, root, x, k)
    {
    }
  }

  /** A claimed directory that was never scanned is settled without moving anything. */
  lemma SkipUnscanned(f: Tree, root: DirKey, edges: Edges, placed: set<DirKey>,
                      frontier: seq<Candidate>, c: Candidate, rest: seq<Candidate>)
    requires Searching(f, root, edges, placed, frontier) && Popped(frontier, c, rest)
    requires DirRef(c.group) !in f
    ensures Searching(f, root, edges, placed + {c.group}, rest)
  {
    hide Rooted, OnEdge;
    var more := placed + {c.group};
    forall p, e | Placed(f, more, p) && e in EdgesOf(edges, p)
      ensures Covered(f, root, more, rest, p, e)
    {
      assert Covered(f, root, placed, frontier, p, e);
    }
    forall x | x in rest
      ensures Sound(f, root, edges, more, x)
    {
      assert Sound(f, root, edges, placed, x);
    }
    forall x, k | x in rest && Placed(f, more, k)
      ensures NotBefore(f, root, x, k)
    {
    }
    forall k | k in more && DirRef(k) in f && k != root
      ensures ParentPlaced(f, more, k)
    {
      assert ParentPlaced(f, placed, k);
    }
    assert forall k :: Placed(f, more, k) ==> Placed(f, placed, k);
  }

  /** The tree g shows c's directory where c says; every placed directory stays where f had it. */
  ghost predicate Shown(f: Tree, g: Tree, root: DirKey, edges: Edges, placed: set<DirKey>, c: Candidate) {
    && Recorded(f, root, edges) && Recorded(g, root, edges) && g.Keys == f.Keys
    && DirRef(c.group) in g && DirRef(c.parent) in g
    && g[DirRef(c.group)].parent == Some(DirRef(c.parent))
    && DirPath(g, root, c.group) == c.path
    && (forall k {:trigger Placed(f, placed, k)} :: Placed(f, placed, k) ==>
        DirPath(g, root, k) == DirPath(f, root, k) && g[DirRef(k)].parent == f[DirRef(k)].parent)
  }

  lemma ShownInPlace(f: Tree, root: DirKey, edges: Edges, placed: set<DirKey>, c: Candidate)
    requires Recorded(f, root, edges) && ClosedUp(f, root, placed) && Sound(f, root, edges, placed, c)
    requires DirRef(c.group) in f && c.group !in placed
    requires f[DirRef(c.group)].parent == Some(DirRef(c.parent)) && f[DirRef(c.group)].name == c.name
    ensures Shown(f, f, root, edges, placed, c)
  {
    DirPathUnfolds(f, root, edges, c.group);
  }

  lemma ShownByMove(f: Tree, g: Tree, root: DirKey, edges: Edges, placed: set<DirKey>, c: Candidate)
    requires Recorded(f, root, edges) && ClosedUp(f, root, placed) && Sound(f, root, edges, placed, c)
    requires DirRef(c.group) in f && c.group !in placed
    requires Relocated(f, g, DirRef(root), DirRef(c.group), DirRef(c.parent), c.name)
    ensures Shown(f, g, root, edges, placed, c)
  {
    RelocatedRooted(f, g, DirRef(root), DirRef(c.group), DirRef(c.parent), c.name);
    MovedRecorded(f, g, root, edges, c);
    RelocatedPathMoved(f, g, DirRef(root), DirRef(c.group), DirRef(c.parent), c.name);
    forall k | Placed(f, placed, k)
      ensures DirPath(g, root, k) == DirPath(f, root, k) && g[DirRef(k)].parent == f[DirRef(k)].parent
    {
      PlacedOutside(f, root, edges, placed, c.group, k);
      RelocatedPathKept(f, g, DirRef(root), DirRef(c.group), DirRef(c.parent), c.name, DirRef(k));
    }
  }

  lemma MovedRecorded(f: Tree, g: Tree, root: DirKey, edges: Edges, c: Candidate)
    requires Recorded(f, root, edges) && Rooted(g, DirRef(root))
    requires Edge(c.name, c.group) in EdgesOf(edges, c.parent)
    requires Relocated(f, g, DirRef(root), DirRef(c.group), DirRef(c.parent), c.name)
    ensures Recorded(g, root, edges)
    ensures g[DirRef(c.group)].parent == Some(DirRef(c.parent))
  {
    forall k | DirRef(k) in g && k != root
      ensures OnEdge(g, edges, k)
    {
      assert OnEdge(f, edges, k);
      assert g[DirRef(k)].name == if k == c.group then c.name else f[DirRef(k)].name;
    }
    forall x | x in g
      ensures g[x].isDir <==> x.DirRef?
    {
      assert f[x].isDir <==> x.DirRef?;
    }
  }

  /** MoveTo cannot refuse: the candidate's parent is placed, so it lies outside the moved subtree. */
  lemma PlacedIsMovable(f: Tree, root: DirKey, edges: Edges, placed: set<DirKey>, c: Candidate)
    requires Recorded(f, root, edges) && ClosedUp(f, root, placed) && Sound(f, root, edges, placed, c)
    requires DirRef(c.group) in f && c.group !in placed
    ensures Movable(f, DirRef(root), DirRef(c.group), DirRef(c.parent), c.name)
  {
    PlacedOutside(f, root, edges, placed, c.group, c.parent);
  }

  /** Placing a popped directory and pushing its edges keeps the search invariant. */
  lemma PlaceDirectory(f: Tree, g: Tree, root: DirKey, edges: Edges, placed: set<DirKey>,
                       frontier: seq<Candidate>, c: Candidate, rest: seq<Candidate>)
    requires Searching(f, root, edges, placed, frontier) && Popped(frontier, c, rest)
    requires c.group !in placed && Shown(f, g, root, edges, placed, c)
    ensures Searching(g, root, edges, placed + {c.group},
                      rest + Pushed(g, root, EdgesOf(edges, c.group), c.group))
  {
    var more := placed + {c.group};
    var next := rest + Pushed(g, root, EdgesOf(edges, c.group), c.group);
    PlaceClosed(f, g, root, edges, placed, frontier, c);
    PlaceSound(f, g, root, edges, placed, frontier, c, rest);
    PlaceCovered(f, g, root, edges, placed, frontier, c, rest);
    PlaceMonotone(f, g, root, edges, placed, frontier, c, rest);
    PlaceLeast(f, g, root, edges, placed, frontier, c, rest);
  }

  lemma PlaceClosed(f: Tree, g: Tree, root: DirKey, edges: Edges, placed: set<DirKey>,
                    frontier: seq<Candidate>, c: Candidate)
    requires Searching(f, root, edges, placed, frontier) && c in frontier
    requires c.group !in placed && Shown(f, g, root, edges, placed, c)
    ensures ClosedUp(g, root, placed + {c.group})
  {
    hide Rooted, OnEdge, CoveredEdges, LeastSoFar, Monotone;
    var more := placed + {c.group};
    assert Sound(f, root, edges, placed, c);
    forall k | k in more && DirRef(k) in g && k != root
      ensures ParentPlaced(g, more, k)
    {
      if k != c.group {
        assert Placed(f, placed, k);
        assert ParentPlaced(f, placed, k);
      }
    }
  }

  lemma PlaceSound(f: Tree, g: Tree, root: DirKey, edges: Edges, placed: set<DirKey>,
                   frontier: seq<Candidate>, c: Candidate, rest: seq<Candidate>)
    requires Searching(f, root, edges, placed, frontier) && Popped(frontier, c, rest)
    requires c.group !in placed && Shown(f, g, root, edges, placed, c)
    ensures SoundFrontier(g, root, edges, placed + {c.group},
                          rest + Pushed(g, root, EdgesOf(edges, c.group), c.group))
  {
    hide Rooted, OnEdge, CoveredEdges, LeastSoFar, Monotone, ClosedUp, Pushed, EdgesOf;
    var more := placed + {c.group};
    PushedMembers(g, root, EdgesOf(edges, c.group), c.group);
    var pushed := Pushed(g, root, EdgesOf(edges, c.group), c.group);
    forall x | x in rest + pushed
      ensures Sound(g, root, edges, more, x)
    {
      if x in rest {
        assert Sound(f, root, edges, placed, x);
      }
    }
  }

  lemma PlaceCovered(f: Tree, g: Tree, root: DirKey, edges: Edges, placed: set<DirKey>,
                     frontier: seq<Candidate>, c: Candidate, rest: seq<Candidate>)
    requires Searching(f, root, edges, placed, frontier) && Popped(frontier, c, rest)
    requires c.group !in placed && Shown(f, g, root, edges, placed, c)
    ensures CoveredEdges(g, root, edges, placed + {c.group},
                         rest + Pushed(g, root, EdgesOf(edges, c.group), c.group))
  {
    hide Rooted, OnEdge, LeastSoFar, Monotone, ClosedUp, SoundFrontier, Pushed, EdgesOf;
    var more := placed + {c.group};
    PushedMembers(g, root, EdgesOf(edges, c.group), c.group);
    var pushed := Pushed(g, root, EdgesOf(edges, c.group), c.group);
    forall p, e | Placed(g, more, p) && e in EdgesOf(edges, p)
      ensures Covered(g, root, more, rest + pushed, p, e)
    {
      if p == c.group {
        assert CandidateFor(g, root, p, e) in pushed;
      } else {
        assert Placed(f, placed, p);
        assert Covered(f, root, placed, frontier, p, e);
        assert CandidateFor(g, root, p, e) == CandidateFor(f, root, p, e);
      }
    }
  }

  lemma PlaceMonotone(f: Tree, g: Tree, root: DirKey, edges: Edges, placed: set<DirKey>,
                      frontier: seq<Candidate>, c: Candidate, rest: seq<Candidate>)
    requires Searching(f, root, edges, placed, frontier) && Popped(frontier, c, rest)
    requires c.group !in placed && Shown(f, g, root, edges, placed, c)
    ensures Monotone(g, root, placed + {c.group},
                     rest + Pushed(g, root, EdgesOf(edges, c.group), c.group))
  {
    hide Rooted, OnEdge, LeastSoFar, ClosedUp, SoundFrontier, CoveredEdges, Pushed, EdgesOf;
    var more := placed + {c.group};
    PushedMembers(g, root, EdgesOf(edges, c.group), c.group);
    var pushed := Pushed(g, root, EdgesOf(edges, c.group), c.group);
    forall x, k | x in rest + pushed && Placed(g, more, k)
      ensures NotBefore(g, root, x, k)
    {
      PlacedPathsBounded(f, g, root, edges, placed, frontier, c, k);
      if x in rest {
        if k != c.group {
          assert Placed(f, placed, k);
          assert NotBefore(f, root, x, k);
        }
      } else {
        JoinAfterBound(c.path, x.name, DirPath(g, root, k));
      }
    }
  }

  /** Everything placed so far, c's directory included, has a path no greater than c's. */
  lemma PlacedPathsBounded(f: Tree, g: Tree, root: DirKey, edges: Edges, placed: set<DirKey>,
                           frontier: seq<Candidate>, c: Candidate, k: DirKey)
    requires Searching(f, root, edges, placed, frontier) && c in frontier
    requires Shown(f, g, root, edges, placed, c) && Placed(g, placed + {c.group}, k)
    ensures !Less(c.path, DirPath(g, root, k))
  {
    hide Rooted, OnEdge, LeastSoFar, ClosedUp, SoundFrontier, CoveredEdges;
    if k == c.group {
      LessIrreflexive(c.path);
    } else {
      assert Placed(f, placed, k);
      assert NotBefore(f, root, c, k);
    }
  }

  lemma JoinAfterBound(path: string, name: string, bound: string)
    requires name != "" && !Less(path, bound)
    ensures !Less(Join(path, name), bound)
  {
    JoinIsLater(path, name);
    if Less(Join(path, name), bound) {
      LessTransitive(path, Join(path, name), bound);
    }
  }

  lemma PlaceLeast(f: Tree, g: Tree, root: DirKey, edges: Edges, placed: set<DirKey>,
                   frontier: seq<Candidate>, c: Candidate, rest: seq<Candidate>)
    requires Searching(f, root, edges, placed, frontier) && Popped(frontier, c, rest)
    requires c.group !in placed && Shown(f, g, root, edges, placed, c)
    ensures LeastSoFar(g, root, edges, placed + {c.group})
  {
    hide Rooted, OnEdge, ClosedUp, SoundFrontier, Monotone;
    var more := placed + {c.group};
    forall p, e | Placed(g, more, p) && e in EdgesOf(edges, p) && Placed(g, more, e.target)
      ensures Least(g, root, p, e)
    {
      if p == c.group {
        PlacedPathsBounded(f, g, root, edges, placed, frontier, c, e.target);
        JoinAfterBound(c.path, e.name, DirPath(g, root, e.target));
      } else {
        assert Placed(f, placed, p);
        if e.target == c.group {
          assert Covered(f, root, placed, frontier, p, e);
          LessIrreflexive(c.path);
        } else {
          assert Placed(f, placed, e.target);
          assert Least(f, root, p, e);
        }
      }
    }
  }

  /** With an empty frontier every scanned directory has been placed. */
  lemma {:induction false} AllPlaced(f: Tree, root: DirKey, edges: Edges, placed: set<DirKey>, k: DirKey)
    requires Searching(f, root, edges, placed, []) && DirRef(k) in f
    ensures k in placed
    decreases f[DirRef(k)].depth
  {
    if k != root {
      DirPathUnfolds(f, root, edges, k);
      var p := f[DirRef(k)].parent.value.key;
      AllPlaced(f, root, edges, placed, p);
      assert Placed(f, placed, p);
      assert Covered(f, root, placed, [], p, Edge(f[DirRef(k)].name, k));
    }
  }

  /** The finished search is the fixpoint. */
  lemma SearchDone(f: Tree, root: DirKey, edges: Edges, placed: set<DirKey>)
    requires Searching(f, root, edges, placed, [])
    ensures Canonical(f, root, edges)
    ensures forall k :: DirRef(k) in f ==> k in placed
  {
    forall k | DirRef(k) in f
      ensures Placed(f, placed, k)
    {
      AllPlaced(f, root, edges, placed, k);
    }
  }
}
