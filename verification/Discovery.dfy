/** Concurrent discovery: the shared state of a scan and the locked steps that change it.

    The goroutines of a scan interleave freely. Every step below is one critical section, and a run
    is any sequence of enabled steps; the order in which the scanner's own batches and recursion
    perform them is one of these. */
module Discovery {
  import opened Options
  import opened Ordering
  import opened Forest
  import opened Relocation
  import opened LiveTree
  import opened AliasGraph
  import opened FileOwners
  import opened FileSystem

  datatype EntryId = EntryId(dir: DirKey, name: string)

  /** entryPlan: a classified entry that is not published yet. scan says that the classifying
      goroutine claimed the directory and must publish its node. */
  datatype Plan = LeafPlan(node: Node<Ref>) | DirPlan(target: DirKey, scan: bool)

  datatype State = State(
    tree: Tree, self: map<Ref, SelfMetadata>, claimed: seq<DirKey>, edges: Edges,
    groups: map<FileKey, FileGroup<Ref>>,
    unread: map<DirKey, set<string>>, plans: map<EntryId, Plan>, finished: set<DirKey>)

  datatype Action =
    | Begin(dir: DirKey)
    | Classify(dir: DirKey, name: string)
    | Publish(dir: DirKey, name: string)
    | Finish(dir: DirKey)

  ghost function Initial(root: DirKey, name: string): State {
    State(LoneRoot(DirRef(root), name), map[], [root], map[], map[], map[], map[], {})
  }

  ghost predicate Enabled(fs: FileSystem, s: State, a: Action) {
    match a
    case Begin(k) => DirRef(k) in s.tree && k !in s.unread && k in fs
    case Classify(k, n) => k in s.unread && n in s.unread[k] && Holds(fs, k, n)
    case Publish(k, n) => EntryId(k, n) in s.plans
    case Finish(k) =>
      k in s.unread && s.unread[k] == {} && (forall n :: EntryId(k, n) !in s.plans) && k !in s.finished && k in fs
  }

  function SelfIn(fs: FileSystem, k: DirKey): SelfMetadata
    requires k in fs
  {
    SelfMetadata(fs[k].alloc, fs[k].mtime)
  }

  /** The directory's own metadata is published and its entries become readable. */
  ghost predicate Begins(fs: FileSystem, root: DirKey, s: State, k: DirKey, t: State)
    requires k in fs
  {
    && Rooted(s.tree, DirRef(root)) && Unstarted(s.tree, s.self, DirRef(k))
    && t == s.(tree := StartedUp(s.tree, DirRef(root), s.self, DirRef(k), SelfIn(fs, k)),
               self := s.self[DirRef(k) := SelfIn(fs, k)],
               unread := s.unread[k := fs[k].entries.Keys])
  }

  /** The first name of a file carries its bytes, and the first claimant of a directory has to scan it. */
  function PlanFor(s: State, k: DirKey, n: string, e: Entry): Plan {
    match e
    case BadEntry => LeafPlan(LeafNode(n, e, false))
    case DirEntry(target) => DirPlan(target, target !in s.claimed)
    case FileEntry(key, _, _, _) => LeafPlan(LeafNode(n, e, key.Some? && key.value in s.groups))
  }

  function ClaimsAfter(s: State, e: Entry): seq<DirKey> {
    if e.DirEntry? && e.target !in s.claimed then s.claimed + [e.target] else s.claimed
  }

  function GroupsAfter(s: State, k: DirKey, n: string, e: Entry): map<FileKey, FileGroup<Ref>> {
    if !e.FileEntry? || e.key.None? then s.groups
    else
      var key := e.key.value;
      s.groups[key :=
        if key in s.groups then s.groups[key].(nodes := s.groups[key].nodes + [LeafRef(k, n)])
        else FileGroup([LeafRef(k, n)], e.apparent, e.alloc)]
  }

  /** Entry e was classified: it is read, planned, and its identity is claimed or registered. */
  function Classified(s: State, k: DirKey, n: string, e: Entry): State
    requires k in s.unread
  {
    s.(unread := s.unread[k := s.unread[k] - {n}],
       plans := s.plans[EntryId(k, n) := PlanFor(s, k, n, e)],
       claimed := ClaimsAfter(s, e),
       groups := GroupsAfter(s, k, n, e))
  }

  /** A classified entry becomes visible: a leaf or a claimed directory's placeholder is attached, and
      a directory entry leaves its edge. */
  ghost predicate Publishes(root: DirKey, s: State, k: DirKey, n: string, t: State)
    requires EntryId(k, n) in s.plans
  {
    && Rooted(s.tree, DirRef(root))
    && var u := s.(plans := s.plans - {EntryId(k, n)});
    match s.plans[EntryId(k, n)]
    case LeafPlan(v) =>
      && Adoptable(s.tree, DirRef(k), LeafRef(k, n), v)
      && t == u.(tree := Published(s.tree, DirRef(root), DirRef(k), LeafRef(k, n), v))
    case DirPlan(target, scan) =>
      && (scan ==> Adoptable(s.tree, DirRef(k), DirRef(target), Placeholder(n)))
      && t == u.(edges := s.edges[k := EdgesOf(s.edges, k) + [Edge(n, target)]],
                 tree := if scan then Published(s.tree, DirRef(root), DirRef(k), DirRef(target), Placeholder(n))
                         else s.tree)
  }

  /** A directory is done: its error, if any, is noted and its children are sorted. */
  ghost predicate Finishes(fs: FileSystem, s: State, k: DirKey, t: State)
    requires k in fs
  {
    && DirRef(k) in s.tree && DirRef(k) in t.tree
    && ChildrenSorted(s.tree[DirRef(k) := s.tree[DirRef(k)].(failed := fs[k].failed)], t.tree, DirRef(k))
    && t == s.(tree := t.tree, finished := s.finished + {k})
  }

  ghost predicate Step(fs: FileSystem, root: DirKey, s: State, a: Action, t: State) {
    && Enabled(fs, s, a)
    && match a
       case Begin(k) => Begins(fs, root, s, k, t)
       case Classify(k, n) => t == Classified(s, k, n, EntryAt(fs, k, n))
       case Publish(k, n) => Publishes(root, s, k, n, t)
       case Finish(k) => Finishes(fs, s, k, t)
  }

  // What every reachable state satisfies.

  ghost predicate WasRead(fs: FileSystem, s: State, k: DirKey, n: string) {
    Holds(fs, k, n) && k in s.unread && n !in s.unread[k]
  }

  ghost predicate IsShown(fs: FileSystem, s: State, k: DirKey, n: string) {
    WasRead(fs, s, k, n) && EntryId(k, n) !in s.plans
  }

  /** The entry is a later name of a file that another entry registered first. */
  predicate Later(s: State, k: DirKey, n: string, e: Entry) {
    && e.FileEntry? && e.key.Some? && e.key.value in s.groups
    && s.groups[e.key.value].nodes != [] && s.groups[e.key.value].nodes[0] != LeafRef(k, n)
  }

  /** One rooted tree with exact totals, its directories hanging on recorded edges. */
  ghost predicate TreeSound(root: DirKey, s: State) {
    && Rooted(s.tree, DirRef(root))
    && Measured(s.tree, DirRef(root), s.self)
    && Recorded(s.tree, root, s.edges)
  }

  ghost predicate DirSound(fs: FileSystem, s: State, k: DirKey)
    requires DirRef(k) in s.tree
  {
    && k in fs && k in s.claimed && !s.tree[DirRef(k)].hardlink
    && (k !in s.unread ==> Unstarted(s.tree, s.self, DirRef(k)))
    && (k !in s.finished ==> !s.tree[DirRef(k)].failed)
  }

  ghost predicate StartSound(fs: FileSystem, s: State, k: DirKey)
    requires k in s.unread
  {
    && DirRef(k) in s.tree && k in fs && s.unread[k] <= fs[k].entries.Keys
    && DirRef(k) in s.self && s.self[DirRef(k)] == SelfIn(fs, k)
  }

  ghost predicate DirsSound(fs: FileSystem, root: DirKey, name: string, s: State) {
    && root in s.claimed && DirRef(root) in s.tree && s.tree[DirRef(root)].name == name
    && (forall k {:trigger DirSound(fs, s, k)} :: DirRef(k) in s.tree ==> DirSound(fs, s, k))
    && (forall k {:trigger StartSound(fs, s, k)} :: k in s.unread ==> StartSound(fs, s, k))
    && (forall x :: x in s.self ==> x.DirRef? && x.key in s.unread)
  }

  ghost predicate LeafSound(fs: FileSystem, s: State, k: DirKey, n: string)
    requires LeafRef(k, n) in s.tree
  {
    && IsShown(fs, s, k, n) && !EntryAt(fs, k, n).DirEntry?
    && s.tree[LeafRef(k, n)].parent == Some(DirRef(k)) && s.tree[LeafRef(k, n)].name == n
    && MeasuredAs(s.tree[LeafRef(k, n)], LeafNode(n, EntryAt(fs, k, n), Later(s, k, n, EntryAt(fs, k, n))))
  }

  ghost predicate LeavesSound(fs: FileSystem, s: State) {
    && (forall k, n {:trigger LeafSound(fs, s, k, n)} :: LeafRef(k, n) in s.tree ==> LeafSound(fs, s, k, n))
    && (forall k, n {:trigger IsShown(fs, s, k, n)} ::
        IsShown(fs, s, k, n) && !EntryAt(fs, k, n).DirEntry? ==> LeafRef(k, n) in s.tree)
  }

  ghost predicate PlanSound(fs: FileSystem, root: DirKey, s: State, id: EntryId)
    requires id in s.plans
  {
    && WasRead(fs, s, id.dir, id.name)
    && var e := EntryAt(fs, id.dir, id.name);
    match s.plans[id]
    case LeafPlan(v) => !e.DirEntry? && v == LeafNode(id.name, e, Later(s, id.dir, id.name, e))
    case DirPlan(target, scan) =>
      e == DirEntry(target) && (scan ==> DirRef(target) !in s.tree && target != root)
  }

  ghost predicate PlansSound(fs: FileSystem, root: DirKey, s: State) {
    && (forall id {:trigger PlanSound(fs, root, s, id)} :: id in s.plans ==> PlanSound(fs, root, s, id))
    && ClaimedOnce(s)
  }

  /** Each claimed directory is planned for scanning by one entry. */
  ghost predicate ClaimedOnce(s: State) {
    forall i, j :: i in s.plans && j in s.plans && IsScan(s.plans[i]) && s.plans[i] == s.plans[j] ==> i == j
  }

  predicate IsScan(p: Plan) {
    p.DirPlan? && p.scan
  }

  /** A claimed directory is in the tree, or its claimant is about to put it there. */
  ghost predicate ClaimHeld(s: State, t: DirKey) {
    DirRef(t) in s.tree || exists id :: id in s.plans && s.plans[id] == DirPlan(t, true)
  }

  ghost predicate ClaimsSound(fs: FileSystem, s: State) {
    && (forall t {:trigger ClaimHeld(s, t)} :: t in s.claimed ==> ClaimHeld(s, t))
    && (forall k, n {:trigger WasRead(fs, s, k, n)} :: WasRead(fs, s, k, n) && EntryAt(fs, k, n).DirEntry? ==>
        EntryAt(fs, k, n).target in s.claimed)
    && (forall k {:trigger EdgesSound(fs, s, k)} :: EdgesSound(fs, s, k))
  }

  ghost predicate EdgesSound(fs: FileSystem, s: State, k: DirKey) {
    forall e :: e in EdgesOf(s.edges, k) <==> IsShown(fs, s, k, e.name) && EntryAt(fs, k, e.name) == DirEntry(e.target)
  }

  ghost predicate GroupSound(fs: FileSystem, s: State, key: FileKey)
    requires key in s.groups
  {
    && s.groups[key].nodes != [] && Distinct(s.groups[key].nodes)
    && forall x :: x in s.groups[key].nodes ==>
         && x.LeafRef? && WasRead(fs, s, x.dir, x.entry) && IsFile(fs, x.dir, x.entry, key)
         && s.groups[key].apparent == EntryAt(fs, x.dir, x.entry).apparent
         && s.groups[key].alloc == EntryAt(fs, x.dir, x.entry).alloc
  }

  ghost predicate Registered(s: State, key: FileKey, x: Ref) {
    key in s.groups && x in s.groups[key].nodes
  }

  ghost predicate GroupsSound(fs: FileSystem, s: State) {
    && (forall key {:trigger GroupSound(fs, s, key)} :: key in s.groups ==> GroupSound(fs, s, key))
    && (forall k, n, key {:trigger Registered(s, key, LeafRef(k, n))} ::
        WasRead(fs, s, k, n) && IsFile(fs, k, n, key) ==> Registered(s, key, LeafRef(k, n)))
  }

  ghost predicate FinishSound(fs: FileSystem, s: State, k: DirKey) {
    && k in s.unread && s.unread[k] == {} && (forall n :: EntryId(k, n) !in s.plans)
    && k in fs && DirRef(k) in s.tree && s.tree[DirRef(k)].failed == fs[k].failed
    && NameSorted(s.tree, s.tree[DirRef(k)].children)
  }

  ghost predicate FinishedSound(fs: FileSystem, s: State) {
    forall k {:trigger FinishSound(fs, s, k)} :: k in s.finished ==> FinishSound(fs, s, k)
  }

  ghost predicate Inv(fs: FileSystem, root: DirKey, name: string, s: State) {
    && TreeSound(root, s) && DirsSound(fs, root, name, s) && LeavesSound(fs, s) && PlansSound(fs, root, s)
    && ClaimsSound(fs, s) && GroupsSound(fs, s) && FinishedSound(fs, s)
  }
}
