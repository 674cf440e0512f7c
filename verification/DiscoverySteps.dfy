/** Every locked step of discovery keeps the invariant of the shared state. */
module DiscoverySteps {
  import opened Options
  import opened PathOrder
  import opened Ordering
  import opened Forest
  import opened TotalsMeaning
  import opened Relocation
  import opened LiveTree
  import opened Recompute
  import opened AliasGraph
  import opened FileSystem
  import opened Discovery

  lemma RecordedSameShape(f: Tree, g: Tree, root: DirKey, edges: Edges)
    requires Recorded(f, root, edges) && SameShape(f, g) && Rooted(g, DirRef(root))
    ensures Recorded(g, root, edges)
  {
    forall k | DirRef(k) in g && k != root
      ensures OnEdge(g, edges, k)
    {
      assert OnEdge(f, edges, k);
    }
  }

  // Begin.

  lemma BeginReads(fs: FileSystem, root: DirKey, s: State, k: DirKey, t: State)
    requires Enabled(fs, s, Begin(k)) && Begins(fs, root, s, k, t)
    ensures forall j, n :: WasRead(fs, t, j, n) <==> WasRead(fs, s, j, n)
    ensures forall j, n :: IsShown(fs, t, j, n) <==> IsShown(fs, s, j, n)
  {
    forall j, n
      ensures WasRead(fs, t, j, n) <==> WasRead(fs, s, j, n)
    {
    }
    forall j, n
      ensures IsShown(fs, t, j, n) <==> IsShown(fs, s, j, n)
    {
      assert WasRead(fs, t, j, n) <==> WasRead(fs, s, j, n);
    }
  }

  lemma BeginTree(fs: FileSystem, root: DirKey, s: State, k: DirKey, t: State)
    requires TreeSound(root, s) && Enabled(fs, s, Begin(k)) && Begins(fs, root, s, k, t)
    ensures TreeSound(root, t)
    ensures SameShape(s.tree, t.tree)
    ensures forall x {:trigger t.tree[x]} :: x in s.tree && s.tree[x].children == [] && x != DirRef(k) ==>
      t.tree[x] == s.tree[x]
  {
    hide Rooted, Measured, Recorded, SelfIn, StartedUp;
    StartedRooted(s.tree, DirRef(root), s.self, DirRef(k), SelfIn(fs, k));
    StartKeeps(s.tree, DirRef(root), s.self, DirRef(k), SelfIn(fs, k));
    SameShapeTransitive(s.tree, Started(s.tree, DirRef(k), SelfIn(fs, k)), t.tree);
    RecordedSameShape(s.tree, t.tree, root, s.edges);
  }

  lemma BeginDirs(fs: FileSystem, root: DirKey, name: string, s: State, k: DirKey, t: State)
    requires DirsSound(fs, root, name, s) && Enabled(fs, s, Begin(k)) && Begins(fs, root, s, k, t)
    requires SameShape(s.tree, t.tree)
    requires forall x {:trigger t.tree[x]} :: x in s.tree && s.tree[x].children == [] && x != DirRef(k) ==>
      t.tree[x] == s.tree[x]
    ensures DirsSound(fs, root, name, t)
  {
    hide StartedUp, Rooted;
    forall j | DirRef(j) in t.tree
      ensures DirSound(fs, t, j)
    {
      assert DirSound(fs, s, j);
    }
    forall j | j in t.unread
      ensures StartSound(fs, t, j)
    {
      assert j != k ==> StartSound(fs, s, j);
    }
  }

  lemma BeginLeaves(fs: FileSystem, root: DirKey, s: State, k: DirKey, t: State)
    requires Enabled(fs, s, Begin(k)) && Begins(fs, root, s, k, t)
    requires LeavesSound(fs, s) && Rooted(s.tree, DirRef(root)) && t.tree.Keys == s.tree.Keys
    requires forall x :: x in s.tree ==> (s.tree[x].isDir <==> x.DirRef?)
    requires forall x {:trigger t.tree[x]} :: x in s.tree && s.tree[x].children == [] && x != DirRef(k) ==>
      t.tree[x] == s.tree[x]
    ensures LeavesSound(fs, t)
  {
    BeginReads(fs, root, s, k, t);
    hide StartedUp, Rooted, WasRead, Unstarted;
    forall j, n | LeafRef(j, n) in t.tree
      ensures LeafSound(fs, t, j, n)
    {
      LeafHasNoChildren(s.tree, DirRef(root), LeafRef(j, n));
      assert LeafSound(fs, s, j, n);
      assert IsShown(fs, t, j, n);
    }
  }

  lemma BeginPlans(fs: FileSystem, root: DirKey, s: State, k: DirKey, t: State)
    requires Enabled(fs, s, Begin(k)) && Begins(fs, root, s, k, t) && t.tree.Keys == s.tree.Keys
    requires PlansSound(fs, root, s) && ClaimsSound(fs, s) && GroupsSound(fs, s)
    ensures PlansSound(fs, root, t) && ClaimsSound(fs, t) && GroupsSound(fs, t)
  {
    BeginReads(fs, root, s, k, t);
    hide StartedUp, Rooted, WasRead, Unstarted;
    forall id | id in t.plans
      ensures PlanSound(fs, root, t, id)
    {
      assert PlanSound(fs, root, s, id);
    }
    forall c | c in t.claimed
      ensures ClaimHeld(t, c)
    {
      assert ClaimHeld(s, c);
    }
    forall j
      ensures EdgesSound(fs, t, j)
    {
      assert EdgesSound(fs, s, j);
    }
    forall key | key in t.groups
      ensures GroupSound(fs, t, key)
    {
      assert GroupSound(fs, s, key);
    }
    forall j, n, key | WasRead(fs, t, j, n) && IsFile(fs, j, n, key)
      ensures Registered(t, key, LeafRef(j, n))
    {
      assert Registered(s, key, LeafRef(j, n));
    }
  }

  lemma BeginFinished(fs: FileSystem, root: DirKey, s: State, k: DirKey, t: State)
    requires Enabled(fs, s, Begin(k)) && Begins(fs, root, s, k, t)
    requires FinishedSound(fs, s) && SameShape(s.tree, t.tree)
    ensures FinishedSound(fs, t)
  {
    hide StartedUp, Rooted;
    forall j | j in t.finished
      ensures FinishSound(fs, t, j)
    {
      assert FinishSound(fs, s, j);
    }
  }

  // Classify.

  lemma ClassifyFrame(s: State, k: DirKey, n: string, e: Entry, t: State)
    requires k in s.unread && t == Classified(s, k, n, e)
    ensures t.tree == s.tree && t.self == s.self && t.edges == s.edges && t.finished == s.finished
    ensures t.unread == s.unread[k := s.unread[k] - {n}]
    ensures EntryId(k, n) in t.plans && t.plans == s.plans[EntryId(k, n) := t.plans[EntryId(k, n)]]
    ensures forall c :: c in s.claimed ==> c in t.claimed
    ensures forall c :: c in t.claimed && c !in s.claimed ==> t.plans[EntryId(k, n)] == DirPlan(c, true)
    ensures e.DirEntry? ==> e.target in t.claimed
    ensures forall c :: t.plans[EntryId(k, n)] == DirPlan(c, true) ==> c !in s.claimed
  {
  }

  lemma ClassifyReads(fs: FileSystem, s: State, k: DirKey, n: string, t: State)
    requires Enabled(fs, s, Classify(k, n)) && t == Classified(s, k, n, EntryAt(fs, k, n))
    ensures forall j, m :: WasRead(fs, t, j, m) <==> WasRead(fs, s, j, m) || (j == k && m == n)
    ensures forall j, m :: IsShown(fs, t, j, m) ==> IsShown(fs, s, j, m)
    ensures (forall id :: id in s.plans ==> WasRead(fs, s, id.dir, id.name)) ==>
      forall j, m :: IsShown(fs, s, j, m) ==> IsShown(fs, t, j, m)
    ensures !WasRead(fs, s, k, n) && t.tree == s.tree && t.edges == s.edges
  {
    ClassifyFrame(s, k, n, EntryAt(fs, k, n), t);
    hide Classified;
    forall j, m
      ensures WasRead(fs, t, j, m) <==> WasRead(fs, s, j, m) || (j == k && m == n)
    {
    }
    forall j, m | IsShown(fs, t, j, m)
      ensures IsShown(fs, s, j, m)
    {
      assert WasRead(fs, t, j, m);
    }
    if forall id :: id in s.plans ==> WasRead(fs, s, id.dir, id.name) {
      forall j, m | IsShown(fs, s, j, m)
        ensures IsShown(fs, t, j, m)
      {
        assert WasRead(fs, t, j, m);
      }
    }
  }

  lemma ClassifyDirs(fs: FileSystem, root: DirKey, name: string, s: State, k: DirKey, n: string, t: State)
    requires DirsSound(fs, root, name, s)
    requires Enabled(fs, s, Classify(k, n)) && t == Classified(s, k, n, EntryAt(fs, k, n))
    ensures DirsSound(fs, root, name, t)
  {
    ClassifyFrame(s, k, n, EntryAt(fs, k, n), t);
    hide Classified;
    forall j | DirRef(j) in t.tree
      ensures DirSound(fs, t, j)
    {
      assert DirSound(fs, s, j);
    }
    forall j | j in t.unread
      ensures StartSound(fs, t, j)
    {
      assert StartSound(fs, s, j);
    }
  }

  /** Registration never changes which entry of a file came first. */
  lemma ClassifyLater(fs: FileSystem, s: State, k: DirKey, n: string, t: State, j: DirKey, m: string)
    requires GroupsSound(fs, s) && WasRead(fs, s, j, m)
    requires Enabled(fs, s, Classify(k, n)) && t == Classified(s, k, n, EntryAt(fs, k, n))
    ensures Later(t, j, m, EntryAt(fs, j, m)) <==> Later(s, j, m, EntryAt(fs, j, m))
  {
    var e := EntryAt(fs, j, m);
    if e.FileEntry? && e.key.Some? {
      assert IsFile(fs, j, m, e.key.value);
      assert Registered(s, e.key.value, LeafRef(j, m));
    }
  }

  lemma ClassifyLeaves(fs: FileSystem, root: DirKey, s: State, k: DirKey, n: string, t: State)
    requires LeavesSound(fs, s) && PlansSound(fs, root, s) && GroupsSound(fs, s)
    requires Enabled(fs, s, Classify(k, n)) && t == Classified(s, k, n, EntryAt(fs, k, n))
    ensures LeavesSound(fs, t)
  {
    PlansWereRead(fs, root, s);
    ClassifyReads(fs, s, k, n, t);
    hide Classified;
    forall j, m | LeafRef(j, m) in t.tree
      ensures LeafSound(fs, t, j, m)
    {
      assert LeafSound(fs, s, j, m);
      assert IsShown(fs, t, j, m);
      ClassifyLater(fs, s, k, n, t, j, m);
    }
  }

  lemma PlansWereRead(fs: FileSystem, root: DirKey, s: State)
    requires PlansSound(fs, root, s)
    ensures forall id :: id in s.plans ==> WasRead(fs, s, id.dir, id.name)
  {
    forall id | id in s.plans
      ensures WasRead(fs, s, id.dir, id.name)
    {
      assert PlanSound(fs, root, s, id);
    }
  }

  lemma ClassifyPlans(fs: FileSystem, root: DirKey, name: string, s: State, k: DirKey, n: string, t: State)
    requires DirsSound(fs, root, name, s) && PlansSound(fs, root, s) && GroupsSound(fs, s) && ClaimsSound(fs, s)
    requires Enabled(fs, s, Classify(k, n)) && t == Classified(s, k, n, EntryAt(fs, k, n))
    ensures PlansSound(fs, root, t)
  {
    ClassifyFrame(s, k, n, EntryAt(fs, k, n), t);
    ClassifyReads(fs, s, k, n, t);
    hide Classified, WasRead, Later, LeafNode;
    forall id | id in t.plans
      ensures PlanSound(fs, root, t, id)
    {
      if id == EntryId(k, n) {
        NewPlan(fs, root, name, s, k, n, t);
      } else {
        assert PlanSound(fs, root, s, id);
        ClassifyLater(fs, s, k, n, t, id.dir, id.name);
      }
    }
    ClassifyPlansApart(fs, root, s, k, n, t);
  }

  /** A directory is planned for scanning once only: its claim was still free when the plan was made. */
  lemma ClassifyPlansApart(fs: FileSystem, root: DirKey, s: State, k: DirKey, n: string, t: State)
    requires PlansSound(fs, root, s) && ClaimsSound(fs, s)
    requires Enabled(fs, s, Classify(k, n)) && t == Classified(s, k, n, EntryAt(fs, k, n))
    ensures ClaimedOnce(t)
  {
    ClassifyFrame(s, k, n, EntryAt(fs, k, n), t);
    hide Classified;
    forall i | i in s.plans && s.plans[i].DirPlan?
      ensures s.plans[i].target in s.claimed
    {
      assert PlanSound(fs, root, s, i);
    }
  }

  lemma NewPlan(fs: FileSystem, root: DirKey, name: string, s: State, k: DirKey, n: string, t: State)
    requires DirsSound(fs, root, name, s) && GroupsSound(fs, s)
    requires Enabled(fs, s, Classify(k, n)) && t == Classified(s, k, n, EntryAt(fs, k, n))
    ensures EntryId(k, n) in t.plans && PlanSound(fs, root, t, EntryId(k, n))
  {
    ClassifyReads(fs, s, k, n, t);
    var e := EntryAt(fs, k, n);
    if e.DirEntry? && DirRef(e.target) in s.tree {
      assert DirSound(fs, s, e.target);
    }
    if e.FileEntry? && e.key.Some? && e.key.value in s.groups {
      assert GroupSound(fs, s, e.key.value);
    }
  }

  lemma ClassifyClaims(fs: FileSystem, root: DirKey, s: State, k: DirKey, n: string, t: State)
    requires PlansSound(fs, root, s) && ClaimsSound(fs, s)
    requires Enabled(fs, s, Classify(k, n)) && t == Classified(s, k, n, EntryAt(fs, k, n))
    ensures ClaimsSound(fs, t)
  {
    ClassifyFrame(s, k, n, EntryAt(fs, k, n), t);
    hide Classified;
    PlansWereRead(fs, root, s);
    ClassifyReads(fs, s, k, n, t);
    forall c | c in t.claimed
      ensures ClaimHeld(t, c)
    {
      if c in s.claimed {
        assert ClaimHeld(s, c);
        if DirRef(c) !in s.tree {
          var id :| id in s.plans && s.plans[id] == DirPlan(c, true);
          assert id in t.plans && t.plans[id] == DirPlan(c, true);
        }
      } else {
        assert t.plans[EntryId(k, n)] == DirPlan(c, true);
      }
    }
    forall j, m | WasRead(fs, t, j, m) && EntryAt(fs, j, m).DirEntry?
      ensures EntryAt(fs, j, m).target in t.claimed
    {
      assert WasRead(fs, s, j, m) || (j == k && m == n);
    }
    forall j
      ensures EdgesSound(fs, t, j)
    {
      assert EdgesSound(fs, s, j);
    }
  }

  lemma ClassifyGroups(fs: FileSystem, s: State, k: DirKey, n: string, t: State)
    requires WellFormed(fs) && GroupsSound(fs, s)
    requires Enabled(fs, s, Classify(k, n)) && t == Classified(s, k, n, EntryAt(fs, k, n))
    ensures GroupsSound(fs, t)
  {
    ClassifyReads(fs, s, k, n, t);
    forall key | key in t.groups
      ensures GroupSound(fs, t, key)
    {
      if key in s.groups {
        assert GroupSound(fs, s, key);
        if t.groups[key] != s.groups[key] {
          var first := s.groups[key].nodes[0];
          assert first in s.groups[key].nodes;
          assert SameFileSameBytes(EntryAt(fs, first.dir, first.entry), EntryAt(fs, k, n));
          DistinctAppend(s.groups[key].nodes, LeafRef(k, n));
        }
      }
    }
    forall j, m, key | WasRead(fs, t, j, m) && IsFile(fs, j, m, key)
      ensures Registered(t, key, LeafRef(j, m))
    {
      if WasRead(fs, s, j, m) {
        assert Registered(s, key, LeafRef(j, m));
      }
    }
  }

  lemma ClassifyFinished(fs: FileSystem, s: State, k: DirKey, n: string, t: State)
    requires FinishedSound(fs, s)
    requires Enabled(fs, s, Classify(k, n)) && t == Classified(s, k, n, EntryAt(fs, k, n))
    ensures FinishedSound(fs, t)
  {
    ClassifyFrame(s, k, n, EntryAt(fs, k, n), t);
    hide Classified;
    forall j | j in t.finished
      ensures FinishSound(fs, t, j)
    {
      assert FinishSound(fs, s, j);
    }
  }

  // Publish.

  /** t is s with the fresh childless node c attached below p as its last child, and totals grown. */
  ghost predicate Attached(f: Tree, g: Tree, p: Ref, c: Ref, v: Node<Ref>) {
    && p in f && c !in f && c != p && g.Keys == f.Keys + {c}
    && (forall x {:trigger g[x]} :: x in f ==>
        && g[x] == f[x].(totals := g[x].totals, children := g[x].children)
        && g[x].children == (if x == p then f[x].children + [c] else f[x].children)
        && (f[x].children == [] && x != p ==> g[x] == f[x]))
    && g[c] == v.(parent := Some(p), depth := g[c].depth)
  }

  lemma PublishedIsAttached(f: Tree, root: Ref, self: map<Ref, SelfMetadata>, p: Ref, c: Ref, v: Node<Ref>)
    requires Rooted(f, root) && Measured(f, root, self) && Adoptable(f, p, c, v)
    requires v.isDir ==> v.totals == NOTHING && c !in self
    ensures var h := Published(f, root, p, c, v);
      Rooted(h, root) && Measured(h, root, self) && Attached(f, h, p, c, v)
  {
    PublishKeeps(f, root, self, p, c, v);
    hide Rooted, Measured, Published;
    var g, h := Adopted(f, p, c, v), Published(f, root, p, c, v);
    assert h[c] == g[c];
    assert forall x :: x in f ==> x in g && h[x] == g[x].(totals := h[x].totals);
  }

  lemma PublishReads(fs: FileSystem, root: DirKey, s: State, k: DirKey, n: string, t: State)
    requires PlansSound(fs, root, s) && EntryId(k, n) in s.plans && t.unread == s.unread
    requires t.plans == s.plans - {EntryId(k, n)}
    ensures forall j, m :: WasRead(fs, t, j, m) <==> WasRead(fs, s, j, m)
    ensures forall j, m :: IsShown(fs, t, j, m) <==> IsShown(fs, s, j, m) || (j == k && m == n)
    ensures WasRead(fs, s, k, n) && !IsShown(fs, s, k, n) && k in s.unread && PlanSound(fs, root, s, EntryId(k, n))
  {
    assert PlanSound(fs, root, s, EntryId(k, n));
    forall j, m
      ensures WasRead(fs, t, j, m) <==> WasRead(fs, s, j, m)
    {
    }
    hide WasRead, PlanSound, PlansSound;
    forall j, m
      ensures IsShown(fs, t, j, m) <==> IsShown(fs, s, j, m) || (j == k && m == n)
    {
      assert WasRead(fs, t, j, m) <==> WasRead(fs, s, j, m);
      assert EntryId(j, m) in t.plans <==> EntryId(j, m) in s.plans && !(j == k && m == n);
    }
  }

  /** Every publication that attaches a node attaches it like this. */
  ghost predicate Attaches(s: State, k: DirKey, n: string, t: State, c: Ref, v: Node<Ref>) {
    && EntryId(k, n) in s.plans
    && t.unread == s.unread && t.self == s.self && t.claimed == s.claimed && t.groups == s.groups
    && t.finished == s.finished && t.plans == s.plans - {EntryId(k, n)}
    && v.name == n && v.children == [] && v.depth == 0 && v.parent == None
    && Attached(s.tree, t.tree, DirRef(k), c, v)
    && match s.plans[EntryId(k, n)]
       case LeafPlan(w) => c == LeafRef(k, n) && v == w && t.edges == s.edges
       case DirPlan(target, scan) =>
         c == DirRef(target) && v == Placeholder(n) && scan
         && t.edges == s.edges[k := EdgesOf(s.edges, k) + [Edge(n, target)]]
  }

  lemma AttachRecorded(f: Tree, g: Tree, root: DirKey, edges: Edges, k: DirKey, c: Ref, v: Node<Ref>)
    requires Recorded(f, root, edges) && Rooted(g, DirRef(root)) && Attached(f, g, DirRef(k), c, v)
    requires v.isDir <==> c.DirRef?
    requires c.DirRef? ==> Edge(v.name, c.key) in EdgesOf(edges, k)
    ensures Recorded(g, root, edges)
  {
    forall j | DirRef(j) in g && j != root
      ensures OnEdge(g, edges, j)
    {
      assert DirRef(j) in f ==> OnEdge(f, edges, j);
    }
  }

  lemma EdgeRecorded(f: Tree, root: DirKey, edges: Edges, k: DirKey, n: string, target: DirKey)
    requires Recorded(f, root, edges) && IsName(n)
    ensures Recorded(f, root, edges[k := EdgesOf(edges, k) + [Edge(n, target)]])
  {
    var after := edges[k := EdgesOf(edges, k) + [Edge(n, target)]];
    forall j, e
      ensures e in EdgesOf(after, j) <==> e in EdgesOf(edges, j) || (j == k && e == Edge(n, target))
    {
    }
    hide EdgesOf;
    forall j | DirRef(j) in f && j != root
      ensures OnEdge(f, after, j)
    {
      assert OnEdge(f, edges, j);
    }
  }

  lemma AttachDirs(
      fs: FileSystem, root: DirKey, name: string, s: State, k: DirKey, n: string, t: State, c: Ref, v: Node<Ref>)
    requires DirsSound(fs, root, name, s) && PlansSound(fs, root, s) && ClaimsSound(fs, s) && WellFormed(fs)
    requires FinishedSound(fs, s) && Attaches(s, k, n, t, c, v)
    ensures DirsSound(fs, root, name, t)
  {
    assert PlanSound(fs, root, s, EntryId(k, n));
    assert k in s.finished ==> FinishSound(fs, s, k);
    forall j | DirRef(j) in t.tree
      ensures DirSound(fs, t, j)
    {
      if DirRef(j) in s.tree {
        assert DirSound(fs, s, j);
      } else {
        AttachedDirSound(fs, root, name, s, k, n, t, c, v, j);
      }
    }
    forall j | j in t.unread
      ensures StartSound(fs, t, j)
    {
      assert StartSound(fs, s, j);
    }
  }

  lemma AttachedDirSound(
      fs: FileSystem, root: DirKey, name: string, s: State, k: DirKey, n: string, t: State, c: Ref, v: Node<Ref>,
      j: DirKey)
    requires DirsSound(fs, root, name, s) && PlansSound(fs, root, s) && ClaimsSound(fs, s) && WellFormed(fs)
    requires Attaches(s, k, n, t, c, v) && c == DirRef(j)
    ensures DirSound(fs, t, j)
  {
    assert PlanSound(fs, root, s, EntryId(k, n));
    assert WasRead(fs, s, k, n) && Holds(fs, k, n);
    assert j in s.unread ==> StartSound(fs, s, j);
  }

  lemma AttachLeaves(fs: FileSystem, root: DirKey, s: State, k: DirKey, n: string, t: State, c: Ref, v: Node<Ref>)
    requires LeavesSound(fs, s) && PlansSound(fs, root, s) && Attaches(s, k, n, t, c, v)
    requires forall x :: x in s.tree && x.LeafRef? ==> s.tree[x].children == []
    ensures LeavesSound(fs, t)
  {
    PublishReads(fs, root, s, k, n, t);
    hide WasRead, LeafNode;
    forall j, m | LeafRef(j, m) in t.tree
      ensures LeafSound(fs, t, j, m)
    {
      assert IsShown(fs, t, j, m) <==> IsShown(fs, s, j, m) || (j == k && m == n);
      if LeafRef(j, m) in s.tree {
        assert LeafSound(fs, s, j, m);
      }
    }
  }

  lemma AttachPlans(fs: FileSystem, root: DirKey, s: State, k: DirKey, n: string, t: State, c: Ref, v: Node<Ref>)
    requires PlansSound(fs, root, s) && Attaches(s, k, n, t, c, v)
    ensures PlansSound(fs, root, t)
  {
    PublishReads(fs, root, s, k, n, t);
    hide WasRead, LeafNode;
    forall id | id in t.plans
      ensures PlanSound(fs, root, t, id)
    {
      assert PlanSound(fs, root, s, id);
      assert WasRead(fs, t, id.dir, id.name);
    }
  }

  lemma AttachClaims(fs: FileSystem, root: DirKey, s: State, k: DirKey, n: string, t: State, c: Ref, v: Node<Ref>)
    requires PlansSound(fs, root, s) && ClaimsSound(fs, s) && Attaches(s, k, n, t, c, v)
    ensures ClaimsSound(fs, t)
  {
    PublishReads(fs, root, s, k, n, t);
    hide WasRead, LeafNode;
    forall d | d in t.claimed
      ensures ClaimHeld(t, d)
    {
      assert ClaimHeld(s, d);
      if DirRef(d) !in t.tree {
        var id :| id in s.plans && s.plans[id] == DirPlan(d, true);
        assert id in t.plans && t.plans[id] == DirPlan(d, true);
      }
    }
    forall j
      ensures EdgesSound(fs, t, j)
    {
      EdgesAfter(fs, root, s, k, n, t, j);
    }
  }

  lemma EdgesAfter(fs: FileSystem, root: DirKey, s: State, k: DirKey, n: string, t: State, j: DirKey)
    requires PlansSound(fs, root, s) && EdgesSound(fs, s, j) && EntryId(k, n) in s.plans
    requires t.unread == s.unread && t.plans == s.plans - {EntryId(k, n)}
    requires match s.plans[EntryId(k, n)]
             case LeafPlan(w) => t.edges == s.edges
             case DirPlan(target, _) => t.edges == s.edges[k := EdgesOf(s.edges, k) + [Edge(n, target)]]
    ensures EdgesSound(fs, t, j)
  {
    PublishReads(fs, root, s, k, n, t);
    hide WasRead, LeafNode;
    forall e: Edge
      ensures e in EdgesOf(t.edges, j) <==>
        IsShown(fs, t, j, e.name) && EntryAt(fs, j, e.name) == DirEntry(e.target)
    {
      assert IsShown(fs, t, j, e.name) <==> IsShown(fs, s, j, e.name) || (j == k && e.name == n);
    }
  }

  lemma SameGroups(fs: FileSystem, s: State, t: State)
    requires GroupsSound(fs, s) && t.groups == s.groups && t.unread == s.unread
    ensures GroupsSound(fs, t)
  {
    forall key | key in t.groups
      ensures GroupSound(fs, t, key)
    {
      assert GroupSound(fs, s, key);
    }
    forall j, m, key | WasRead(fs, t, j, m) && IsFile(fs, j, m, key)
      ensures Registered(t, key, LeafRef(j, m))
    {
      assert WasRead(fs, s, j, m);
      assert Registered(s, key, LeafRef(j, m));
    }
  }

  lemma AttachFinished(fs: FileSystem, root: DirKey, s: State, k: DirKey, n: string, t: State, c: Ref, v: Node<Ref>)
    requires FinishedSound(fs, s) && Attaches(s, k, n, t, c, v)
    ensures FinishedSound(fs, t)
  {
    forall j | j in t.finished
      ensures FinishSound(fs, t, j)
    {
      assert FinishSound(fs, s, j);
      assert j != k;
      SameNamesSorted(s.tree, t.tree, s.tree[DirRef(j)].children);
    }
  }

  // Finish.

  lemma FinishTree(fs: FileSystem, root: DirKey, s: State, k: DirKey, t: State)
    requires TreeSound(root, s) && Enabled(fs, s, Finish(k)) && Finishes(fs, s, k, t)
    ensures TreeSound(root, t)
  {
    hide NameSorted, Measured;
    var f := s.tree[DirRef(k) := s.tree[DirRef(k)].(failed := fs[k].failed)];
    FlaggedRooted(s.tree, f, DirRef(root), DirRef(k));
    SortedRooted(f, t.tree, DirRef(root), DirRef(k));
    ReorderedMeasured(s.tree, t.tree, DirRef(root), s.self, DirRef(k));
    forall j | DirRef(j) in t.tree && j != root
      ensures OnEdge(t.tree, t.edges, j)
    {
      assert OnEdge(s.tree, s.edges, j);
    }
  }

  lemma FlaggedRooted(f: Tree, g: Tree, root: Ref, d: Ref)
    requires Rooted(f, root) && d in f && d in g && g == f[d := f[d].(failed := g[d].failed)]
    ensures Rooted(g, root)
  {
    forall n | n in g && n != root
      ensures HasParent(g, n)
    {
      assert HasParent(f, n);
    }
    forall n, c | n in g && c in g[n].children
      ensures IsChild(g, n, c)
    {
      assert IsChild(f, n, c);
    }
  }

  lemma ReorderedMeasured(f: Tree, g: Tree, root: Ref, self: map<Ref, SelfMetadata>, d: Ref)
    requires Rooted(f, root) && Rooted(g, root) && Measured(f, root, self) && d in f && f[d].isDir && d in g
    requires g == f[d := f[d].(failed := g[d].failed, children := g[d].children)]
    requires forall c :: c in g[d].children <==> c in f[d].children
    ensures Measured(g, root, self)
  {
    forall x | x in g && g[x].isDir
      ensures Balanced(g, root, self, x)
    {
      assert Balanced(f, root, self, x);
      ReorderedSum(f, g, root, d, x);
    }
  }

  lemma ReorderedSum(f: Tree, g: Tree, root: Ref, d: Ref, x: Ref)
    requires Rooted(f, root) && Rooted(g, root) && d in f && f[d].isDir && d in g && x in f
    requires g == f[d := f[d].(failed := g[d].failed, children := g[d].children)]
    requires forall c :: c in g[d].children <==> c in f[d].children
    ensures forall c :: c in f[x].children ==> c in f
    ensures forall c :: c in g[x].children ==> c in g
    ensures SumOf(g, g[x].children) == SumOf(f, f[x].children)
  {
    ChildrenKnown(f, root, x);
    ChildrenKnown(g, root, x);
    hide Rooted;
    SumReordered(g, g[x].children, f[x].children);
    SumAgrees(f, g, f[x].children);
  }

  lemma FinishRest(fs: FileSystem, root: DirKey, name: string, s: State, k: DirKey, t: State)
    requires Enabled(fs, s, Finish(k)) && Finishes(fs, s, k, t)
    requires DirsSound(fs, root, name, s) && LeavesSound(fs, s)
    ensures DirsSound(fs, root, name, t) && LeavesSound(fs, t)
  {
    hide NameSorted, Distinct, Rooted;
    forall j | DirRef(j) in t.tree
      ensures DirSound(fs, t, j)
    {
      assert DirSound(fs, s, j);
    }
    forall j | j in t.unread
      ensures StartSound(fs, t, j)
    {
      assert StartSound(fs, s, j);
    }
    assert forall j, m :: IsShown(fs, t, j, m) <==> IsShown(fs, s, j, m);
    forall j, m | LeafRef(j, m) in t.tree
      ensures LeafSound(fs, t, j, m)
    {
      assert LeafSound(fs, s, j, m);
    }
  }

  lemma FinishPlans(fs: FileSystem, root: DirKey, s: State, k: DirKey, t: State)
    requires Enabled(fs, s, Finish(k)) && Finishes(fs, s, k, t)
    requires PlansSound(fs, root, s) && ClaimsSound(fs, s) && GroupsSound(fs, s)
    ensures PlansSound(fs, root, t) && ClaimsSound(fs, t) && GroupsSound(fs, t)
  {
    hide NameSorted, Distinct, Rooted;
    SameGroups(fs, s, t);
    assert forall j, m :: WasRead(fs, t, j, m) <==> WasRead(fs, s, j, m);
    assert forall j, m :: IsShown(fs, t, j, m) <==> IsShown(fs, s, j, m);
    hide WasRead, IsShown;
    forall id | id in t.plans
      ensures PlanSound(fs, root, t, id)
    {
      assert PlanSound(fs, root, s, id);
    }
    forall d | d in t.claimed
      ensures ClaimHeld(t, d)
    {
      assert ClaimHeld(s, d);
    }
    forall j
      ensures EdgesSound(fs, t, j)
    {
      assert EdgesSound(fs, s, j);
    }
  }

  lemma FinishFinished(fs: FileSystem, s: State, k: DirKey, t: State)
    requires Enabled(fs, s, Finish(k)) && Finishes(fs, s, k, t) && FinishedSound(fs, s)
    ensures FinishedSound(fs, t)
  {
    forall j | j in t.finished
      ensures FinishSound(fs, t, j)
    {
      if j != k {
        assert FinishSound(fs, s, j);
        SameNamesSorted(s.tree, t.tree, s.tree[DirRef(j)].children);
      }
    }
  }

  // Whole steps and whole runs.

  lemma BeginKeeps(fs: FileSystem, root: DirKey, name: string, s: State, k: DirKey, t: State)
    requires Inv(fs, root, name, s) && Enabled(fs, s, Begin(k)) && Begins(fs, root, s, k, t)
    ensures Inv(fs, root, name, t)
  {
    hide TreeSound, DirsSound, LeavesSound, PlansSound, ClaimsSound, GroupsSound, FinishedSound, Begins, Enabled;
    BeginTree(fs, root, s, k, t);
    BeginDirs(fs, root, name, s, k, t);
    TreeParts(root, s);
    BeginLeaves(fs, root, s, k, t);
    BeginPlans(fs, root, s, k, t);
    BeginFinished(fs, root, s, k, t);
  }

  lemma TreeParts(root: DirKey, s: State)
    requires TreeSound(root, s)
    ensures Rooted(s.tree, DirRef(root)) && Measured(s.tree, DirRef(root), s.self) && Recorded(s.tree, root, s.edges)
    ensures forall x :: x in s.tree ==> (s.tree[x].isDir <==> x.DirRef?)
    ensures forall x :: x in s.tree && x.LeafRef? ==> s.tree[x].children == []
  {
    forall x | x in s.tree && x.LeafRef?
      ensures s.tree[x].children == []
    {
      LeafHasNoChildren(s.tree, DirRef(root), x);
    }
  }

  lemma ClassifyKeeps(fs: FileSystem, root: DirKey, name: string, s: State, k: DirKey, n: string, t: State)
    requires WellFormed(fs) && Inv(fs, root, name, s)
    requires Enabled(fs, s, Classify(k, n)) && t == Classified(s, k, n, EntryAt(fs, k, n))
    ensures Inv(fs, root, name, t)
  {
    ClassifyFrame(s, k, n, EntryAt(fs, k, n), t);
    hide Classified;
    ClassifyTree(root, s, t);
    hide TreeSound, DirsSound, LeavesSound, PlansSound, ClaimsSound, GroupsSound, FinishedSound;
    ClassifyDirs(fs, root, name, s, k, n, t);
    ClassifyLeaves(fs, root, s, k, n, t);
    ClassifyPlans(fs, root, name, s, k, n, t);
    ClassifyClaims(fs, root, s, k, n, t);
    ClassifyGroups(fs, s, k, n, t);
    ClassifyFinished(fs, s, k, n, t);
  }

  lemma ClassifyTree(root: DirKey, s: State, t: State)
    requires TreeSound(root, s) && t.tree == s.tree && t.self == s.self && t.edges == s.edges
    ensures TreeSound(root, t)
  {
  }

  /** In a sound state every planned entry can be published. */
  lemma PlanPublishable(fs: FileSystem, root: DirKey, name: string, s: State, k: DirKey, n: string)
    requires WellFormed(fs) && Inv(fs, root, name, s) && EntryId(k, n) in s.plans
    ensures IsName(n) && DirRef(k) in s.tree && s.tree[DirRef(k)].isDir && k !in s.finished
    ensures match s.plans[EntryId(k, n)]
            case LeafPlan(v) => Adoptable(s.tree, DirRef(k), LeafRef(k, n), v) && !v.isDir
            case DirPlan(target, scan) =>
              scan ==> Adoptable(s.tree, DirRef(k), DirRef(target), Placeholder(n)) && DirRef(target) !in s.self
  {
    TreeParts(root, s);
    assert PlanSound(fs, root, s, EntryId(k, n));
    assert WasRead(fs, s, k, n) && Holds(fs, k, n);
    assert StartSound(fs, s, k);
    assert k in s.finished ==> FinishSound(fs, s, k);
    match s.plans[EntryId(k, n)]
    case LeafPlan(v) =>
      assert LeafRef(k, n) in s.tree ==> LeafSound(fs, s, k, n);
    case DirPlan(target, scan) =>
      assert target in s.unread ==> StartSound(fs, s, target);
  }

  lemma PublishAttaches(
      fs: FileSystem, root: DirKey, name: string, s: State, k: DirKey, n: string, t: State, c: Ref, v: Node<Ref>)
    requires WellFormed(fs) && Inv(fs, root, name, s) && EntryId(k, n) in s.plans && Publishes(root, s, k, n, t)
    requires match s.plans[EntryId(k, n)]
             case LeafPlan(w) => c == LeafRef(k, n) && v == w
             case DirPlan(target, scan) => scan && c == DirRef(target) && v == Placeholder(n)
    ensures Attaches(s, k, n, t, c, v) && TreeSound(root, t)
  {
    PlanPublishable(fs, root, name, s, k, n);
    TreeParts(root, s);
    PublishedIsAttached(s.tree, DirRef(root), s.self, DirRef(k), c, v);
    hide Rooted, Measured, Recorded, Published, Attached, LeafNode;
    assert PlanSound(fs, root, s, EntryId(k, n));
    if c.DirRef? {
      EdgeRecorded(s.tree, root, s.edges, k, n, c.key);
    }
    AttachRecorded(s.tree, t.tree, root, t.edges, k, c, v);
  }

  lemma AttachKeeps(
      fs: FileSystem, root: DirKey, name: string, s: State, k: DirKey, n: string, t: State, c: Ref, v: Node<Ref>)
    requires WellFormed(fs) && Inv(fs, root, name, s) && Attaches(s, k, n, t, c, v) && TreeSound(root, t)
    ensures Inv(fs, root, name, t)
  {
    hide TreeSound, DirsSound, LeavesSound, PlansSound, ClaimsSound, GroupsSound, FinishedSound;
    TreeParts(root, s);
    AttachDirs(fs, root, name, s, k, n, t, c, v);
    AttachLeaves(fs, root, s, k, n, t, c, v);
    AttachPlans(fs, root, s, k, n, t, c, v);
    AttachClaims(fs, root, s, k, n, t, c, v);
    SameGroups(fs, s, t);
    AttachFinished(fs, root, s, k, n, t, c, v);
  }

  /** A directory entry whose target someone else scans leaves only its edge. */
  lemma EdgeOnlyKeeps(fs: FileSystem, root: DirKey, name: string, s: State, k: DirKey, n: string, t: State)
    requires WellFormed(fs) && Inv(fs, root, name, s) && EntryId(k, n) in s.plans && Publishes(root, s, k, n, t)
    requires s.plans[EntryId(k, n)].DirPlan? && !s.plans[EntryId(k, n)].scan
    ensures Inv(fs, root, name, t)
  {
    PlanPublishable(fs, root, name, s, k, n);
    TreeParts(root, s);
    PublishReads(fs, root, s, k, n, t);
    EdgeRecorded(s.tree, root, s.edges, k, n, s.plans[EntryId(k, n)].target);
    hide Rooted, Measured, Recorded, WasRead, LeafNode;
    SameGroups(fs, s, t);
    EdgeOnlyDirs(fs, root, name, s, k, n, t);
    EdgeOnlyClaims(fs, root, s, k, n, t);
  }

  lemma EdgeOnlyDirs(fs: FileSystem, root: DirKey, name: string, s: State, k: DirKey, n: string, t: State)
    requires DirsSound(fs, root, name, s) && LeavesSound(fs, s) && PlansSound(fs, root, s) && FinishedSound(fs, s)
    requires EntryId(k, n) in s.plans && Publishes(root, s, k, n, t)
    requires s.plans[EntryId(k, n)].DirPlan? && !s.plans[EntryId(k, n)].scan
    ensures DirsSound(fs, root, name, t) && LeavesSound(fs, t) && FinishedSound(fs, t)
  {
    PublishReads(fs, root, s, k, n, t);
    hide Rooted, WasRead, LeafNode;
    forall j | DirRef(j) in t.tree
      ensures DirSound(fs, t, j)
    {
      assert DirSound(fs, s, j);
    }
    forall j | j in t.unread
      ensures StartSound(fs, t, j)
    {
      assert StartSound(fs, s, j);
    }
    forall j, m | LeafRef(j, m) in t.tree
      ensures LeafSound(fs, t, j, m)
    {
      assert LeafSound(fs, s, j, m);
      assert IsShown(fs, t, j, m);
    }
    forall j | j in t.finished
      ensures FinishSound(fs, t, j)
    {
      assert FinishSound(fs, s, j);
    }
  }

  lemma EdgeOnlyClaims(fs: FileSystem, root: DirKey, s: State, k: DirKey, n: string, t: State)
    requires ClaimsSound(fs, s) && PlansSound(fs, root, s)
    requires EntryId(k, n) in s.plans && Publishes(root, s, k, n, t)
    requires s.plans[EntryId(k, n)].DirPlan? && !s.plans[EntryId(k, n)].scan
    ensures ClaimsSound(fs, t) && PlansSound(fs, root, t)
  {
    PublishReads(fs, root, s, k, n, t);
    hide Rooted, WasRead, LeafNode;
    forall id | id in t.plans
      ensures PlanSound(fs, root, t, id)
    {
      assert PlanSound(fs, root, s, id);
      assert WasRead(fs, t, id.dir, id.name);
    }
    forall d | d in t.claimed
      ensures ClaimHeld(t, d)
    {
      assert ClaimHeld(s, d);
      if DirRef(d) !in t.tree {
        var id :| id in s.plans && s.plans[id] == DirPlan(d, true);
        assert id in t.plans && t.plans[id] == DirPlan(d, true);
      }
    }
    forall j
      ensures EdgesSound(fs, t, j)
    {
      EdgesAfter(fs, root, s, k, n, t, j);
    }
  }

  /** The invariant survives every step of every goroutine. */
  lemma StepKeeps(fs: FileSystem, root: DirKey, name: string, s: State, a: Action, t: State)
    requires WellFormed(fs) && Inv(fs, root, name, s) && Step(fs, root, s, a, t)
    ensures Inv(fs, root, name, t)
  {
    hide Inv;
    match a
    case Begin(k) =>
      BeginKeeps(fs, root, name, s, k, t);
    case Classify(k, n) =>
      ClassifyKeeps(fs, root, name, s, k, n, t);
    case Publish(k, n) =>
      match s.plans[EntryId(k, n)] {
        case LeafPlan(v) =>
          PublishAttaches(fs, root, name, s, k, n, t, LeafRef(k, n), v);
          AttachKeeps(fs, root, name, s, k, n, t, LeafRef(k, n), v);
        case DirPlan(target, scan) =>
          if scan {
            PublishAttaches(fs, root, name, s, k, n, t, DirRef(target), Placeholder(n));
            AttachKeeps(fs, root, name, s, k, n, t, DirRef(target), Placeholder(n));
          } else {
            EdgeOnlyKeeps(fs, root, name, s, k, n, t);
          }
      }
    case Finish(k) =>
      FinishKeeps(fs, root, name, s, k, t);
  }

  lemma FinishKeeps(fs: FileSystem, root: DirKey, name: string, s: State, k: DirKey, t: State)
    requires Inv(fs, root, name, s) && Enabled(fs, s, Finish(k)) && Finishes(fs, s, k, t)
    ensures Inv(fs, root, name, t)
  {
    hide TreeSound, DirsSound, LeavesSound, PlansSound, ClaimsSound, GroupsSound, FinishedSound, Finishes, Enabled;
    FinishTree(fs, root, s, k, t);
    FinishRest(fs, root, name, s, k, t);
    FinishPlans(fs, root, s, k, t);
    FinishFinished(fs, s, k, t);
  }

  lemma InitialSound(fs: FileSystem, root: DirKey, name: string)
    requires root in fs
    ensures Inv(fs, root, name, Initial(root, name))
  {
    var s := Initial(root, name);
    LoneRootRooted(DirRef(root), name);
    LoneNodeMeasured(s.tree, DirRef(root), s.self);
    assert DirSound(fs, s, root);
    assert ClaimHeld(s, root);
  }
}
