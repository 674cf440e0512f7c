/** The followed-directory graph: physical directories, the visible entries that reach them, and
    what it means for a tree to show each directory at its least visible path. */
module AliasGraph {
  import opened PathOrder
  import opened Forest
  import opened Relocation

  /** dirKey: one physical directory, by native identity or by canonical path. */
  datatype DirKey = DirKey(dev: nat, ino: nat, path: string)

  predicate DirKeyLess(a: DirKey, b: DirKey) {
    if a.path != b.path then Less(a.path, b.path)
    else if a.dev != b.dev then a.dev < b.dev
    else a.ino < b.ino
  }

  /** A node of the scanned tree: the one node of a physical directory, or an entry of one. */
  datatype Ref = DirRef(key: DirKey) | LeafRef(dir: DirKey, entry: string)

  type Tree = Forest<Ref>

  datatype Edge = Edge(name: string, target: DirKey)

  type Edges = map<DirKey, seq<Edge>>

  function EdgesOf(edges: Edges, k: DirKey): seq<Edge> {
    if k in edges then edges[k] else []
  }

  /** A directory node with a parent stands where one of the recorded edges puts it. */
  ghost predicate OnEdge(f: Tree, edges: Edges, k: DirKey)
    requires DirRef(k) in f
  {
    && f[DirRef(k)].parent.Some?
    && f[DirRef(k)].parent.value.DirRef?
    && Edge(f[DirRef(k)].name, k) in EdgesOf(edges, f[DirRef(k)].parent.value.key)
  }

  /** The tree and the recorded edges belong to one scan from root. */
  ghost predicate Recorded(f: Tree, root: DirKey, edges: Edges) {
    && Rooted(f, DirRef(root))
    && (forall x :: x in f ==> (f[x].isDir <==> x.DirRef?))
    && (forall k {:trigger OnEdge(f, edges, k)} :: DirRef(k) in f && k != root ==> OnEdge(f, edges, k))
    && (forall k, e :: e in EdgesOf(edges, k) ==> IsName(e.name))
  }

  ghost function DirPath(f: Tree, root: DirKey, k: DirKey): string
    requires Rooted(f, DirRef(root)) && DirRef(k) in f
  {
    PathOf(f, DirRef(root), DirRef(k))
  }

  /** No visible entry reaches e's directory at a lesser path than the tree shows it. */
  ghost predicate Least(f: Tree, root: DirKey, p: DirKey, e: Edge)
    requires Rooted(f, DirRef(root)) && DirRef(p) in f && DirRef(e.target) in f
  {
    !Less(Join(DirPath(f, root, p), e.name), DirPath(f, root, e.target))
  }

  /** Every directory's path is the least of parentPath + "/" + entryName over its incoming edges. */
  ghost predicate Canonical(f: Tree, root: DirKey, edges: Edges)
    requires Rooted(f, DirRef(root))
  {
    forall p, e {:trigger Least(f, root, p, e)} ::
      DirRef(p) in f && e in EdgesOf(edges, p) && DirRef(e.target) in f ==> Least(f, root, p, e)
  }

  lemma DirPathUnfolds(f: Tree, root: DirKey, edges: Edges, k: DirKey)
    requires Recorded(f, root, edges) && DirRef(k) in f && k != root
    ensures OnEdge(f, edges, k)
    ensures var p := f[DirRef(k)].parent.value.key;
      && DirRef(p) in f && IsName(f[DirRef(k)].name)
      && DirPath(f, root, k) == Join(DirPath(f, root, p), f[DirRef(k)].name)
      && Less(DirPath(f, root, p), DirPath(f, root, k))
      && f[DirRef(p)].depth < f[DirRef(k)].depth
  {
    assert OnEdge(f, edges, k);
    RootedParent(f, DirRef(root), DirRef(k));
    JoinIsLater(DirPath(f, root, f[DirRef(k)].parent.value.key), f[DirRef(k)].name);
  }

  /** The directories of a tree, as keys. */
  ghost function Keys(f: Tree): set<DirKey> {
    set x | x in f && x.DirRef? :: x.key
  }

  /** Directories that two trees show at different paths. */
  ghost function Disagreeing(f: Tree, g: Tree, root: DirKey): set<DirKey>
    requires Rooted(f, DirRef(root)) && Rooted(g, DirRef(root))
  {
    set k | k in Keys(f) && DirRef(k) in g && DirPath(f, root, k) != DirPath(g, root, k)
  }

  ghost function Lesser(a: string, b: string): string {
    if Less(b, a) then b else a
  }

  /** Where f shows k at a lesser path than g does, g disagrees with f about k's parent in f already,
      at a lesser path still. */
  lemma EarlierDisagreement(f: Tree, g: Tree, root: DirKey, edges: Edges, k: DirKey) returns (p: DirKey)
    requires Recorded(f, root, edges) && Recorded(g, root, edges) && Canonical(g, root, edges)
    requires Keys(f) == Keys(g) && DirRef(k) in f && DirRef(k) in g
    requires Less(DirPath(f, root, k), DirPath(g, root, k))
    ensures DirRef(p) in f && DirRef(p) in g
    ensures DirPath(f, root, p) != DirPath(g, root, p) && Less(DirPath(f, root, p), DirPath(f, root, k))
  {
    RootPath(f, root);
    RootPath(g, root);
    assert k != root;
    DirPathUnfolds(f, root, edges, k);
    p := f[DirRef(k)].parent.value.key;
    assert p in Keys(f);
    assert Least(g, root, p, Edge(f[DirRef(k)].name, k));
  }

  lemma RootPath(f: Tree, root: DirKey)
    requires Rooted(f, DirRef(root))
    ensures DirPath(f, root, root) == ""
  {
  }

  /** Below every disagreement lies one at a lesser path. */
  lemma DisagreementDescends(f: Tree, g: Tree, root: DirKey, edges: Edges, k: DirKey) returns (p: DirKey)
    requires Recorded(f, root, edges) && Recorded(g, root, edges)
    requires Canonical(f, root, edges) && Canonical(g, root, edges) && Keys(f) == Keys(g)
    requires k in Disagreeing(f, g, root)
    ensures p in Disagreeing(f, g, root)
    ensures Less(LesserPath(f, g, root, p), LesserPath(f, g, root, k))
  {
    hide Rooted, Canonical, OnEdge;
    var a, b := DirPath(f, root, k), DirPath(g, root, k);
    LessTotal(a, b);
    if Less(a, b) {
      LessAsymmetric(a, b);
      p := EarlierDisagreement(f, g, root, edges, k);
      LesserIsLess(DirPath(f, root, p), DirPath(g, root, p), a);
    } else {
      p := EarlierDisagreement(g, f, root, edges, k);
      LesserIsLess(DirPath(f, root, p), DirPath(g, root, p), b);
    }
  }

  ghost function LesserPath(f: Tree, g: Tree, root: DirKey, k: DirKey): string {
    if Rooted(f, DirRef(root)) && Rooted(g, DirRef(root)) && DirRef(k) in f && DirRef(k) in g
    then Lesser(DirPath(f, root, k), DirPath(g, root, k)) else ""
  }

  /** The fixpoint has one solution: edges alone fix every directory's path. */
  lemma PathsUnique(f: Tree, g: Tree, root: DirKey, edges: Edges)
    requires Recorded(f, root, edges) && Recorded(g, root, edges)
    requires Canonical(f, root, edges) && Canonical(g, root, edges)
    requires Keys(f) == Keys(g)
    ensures forall k :: k in Keys(f) ==> DirRef(k) in g && DirPath(f, root, k) == DirPath(g, root, k)
  {
    hide Rooted, Canonical, OnEdge, DirPath, LesserPath;
    var bad := Disagreeing(f, g, root);
    if bad != {} {
      var k := LeastExists(bad, (k: DirKey) => LesserPath(f, g, root, k));
      var p := DisagreementDescends(f, g, root, edges, k);
      assert false;
    }
    forall k | k in Keys(f)
      ensures DirRef(k) in g && DirPath(f, root, k) == DirPath(g, root, k)
    {
      assert k in Keys(g) && k !in bad;
    }
  }

  lemma LesserIsLess(a: string, b: string, c: string)
    requires Less(a, c) || Less(b, c)
    ensures Less(Lesser(a, b), c)
  {
    if Less(b, a) && Less(a, c) {
      LessTransitive(b, a, c);
    } else if !Less(b, a) && Less(b, c) {
      LessChain(a, b, c);
    }
  }

  lemma RootInTree(f: Tree, root: DirKey)
    requires Rooted(f, DirRef(root))
    ensures DirRef(root) in f
  {
  }
}
