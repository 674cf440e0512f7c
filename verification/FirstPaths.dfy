/** When the canonical path of a directory is the lexicographically first path that reaches it. */
module FirstPaths {
  import opened Options
  import opened PathOrder
  import opened Forest
  import opened AliasGraph

  // Walks of the graph and their paths.

  /** The directory that the first i entries of a walk lead to. */
  function At(root: DirKey, w: seq<Edge>, i: nat): DirKey
    requires i <= |w|
  {
    if i == 0 then root else w[i - 1].target
  }

  function End(root: DirKey, w: seq<Edge>): DirKey {
    At(root, w, |w|)
  }

  predicate IsStep(f: Tree, root: DirKey, edges: Edges, w: seq<Edge>, i: nat)
    requires i < |w|
  {
    w[i] in EdgesOf(edges, At(root, w, i)) && DirRef(w[i].target) in f
  }

  /** Visible entries from the root on, each of the scanned directory that the one before leads to. */
  ghost predicate IsWalk(f: Tree, root: DirKey, edges: Edges, w: seq<Edge>) {
    forall i {:trigger IsStep(f, root, edges, w, i)} :: 0 <= i < |w| ==> IsStep(f, root, edges, w, i)
  }

  /** The walk comes to no directory twice. */
  ghost predicate Simple(root: DirKey, w: seq<Edge>) {
    forall i, j :: 0 <= i < j <= |w| ==> At(root, w, i) != At(root, w, j)
  }

  function Names(w: seq<Edge>): (names: seq<string>)
    ensures |names| == |w| && forall i :: 0 <= i < |w| ==> names[i] == w[i].name
  {
    seq(|w|, i requires 0 <= i < |w| => w[i].name)
  }

  function Spelled(names: seq<string>): string {
    if names == [] then "" else if |names| == 1 then names[0] else names[0] + "/" + Spelled(names[1..])
  }

  function WalkPath(w: seq<Edge>): string {
    Spelled(Names(w))
  }

  ghost predicate AllNames(names: seq<string>) {
    forall i :: 0 <= i < |names| ==> IsName(names[i])
  }

  lemma {:induction false} SpelledAppend(names: seq<string>, n: string)
    requires AllNames(names) && IsName(n)
    ensures Spelled(names + [n]) == Join(Spelled(names), n)
    ensures names != [] ==> Spelled(names) != ""
  {
    if |names| == 0 {
      assert names + [n] == [n];
    } else {
      SpelledAppend(names[1..], n);
      assert (names + [n])[1..] == names[1..] + [n];
      if |names| == 1 {
        assert names[1..] == [];
        assert Spelled(names + [n]) == names[0] + "/" + Spelled([n]);
      } else {
        assert names[0] + "/" + (Spelled(names[1..]) + "/" + n) == names[0] + "/" + Spelled(names[1..]) + "/" + n;
      }
    }
  }

  // Comparing paths component by component.

  /** a comes before b, but not with the same name appended: b goes on after a with a character up to '/'. */
  lemma {:induction false} LessReversed(a: string, b: string, n: string)
    requires Less(a, b) && Less(b + "/" + n, a + "/" + n)
    ensures |a| < |b| && b[..|a|] == a && b[|a|] <= '/'
  {
    if a == "" {
      assert (a + "/" + n)[0] == '/' && (b + "/" + n)[0] == b[0];
    } else {
      assert (a + "/" + n)[0] == a[0] && (b + "/" + n)[0] == b[0];
      assert (a + "/" + n)[1..] == a[1..] + "/" + n && (b + "/" + n)[1..] == b[1..] + "/" + n;
      LessReversed(a[1..], b[1..], n);
      assert b[..|a|] == [b[0]] + b[1..][..|a| - 1] == [a[0]] + a[1..] == a;
    }
  }

  ghost predicate GoesOn(a: string, b: string, c: char) {
    |a| < |b| && b[..|a|] == a && b[|a|] == c
  }

  /** One path goes on after another: either with a further component, or its component at that place does. */
  lemma {:induction false} GoesOnWhere(a: seq<string>, b: seq<string>, c: char)
    requires AllNames(a) && AllNames(b) && a != [] && GoesOn(Spelled(a), Spelled(b), c)
    ensures c == '/' ==> |a| < |b| && b[..|a|] == a
    ensures c != '/' ==> |a| <= |b| && b[..|a| - 1] == a[..|a| - 1] && GoesOn(a[|a| - 1], b[|a| - 1], c)
  {
    assert b != [];
    var s, t := Spelled(a), Spelled(b);
    if |a| > 1 {
      SameFirst(a, b, c);
      GoesOnWhere(a[1..], b[1..], c);
      assert a == [a[0]] + a[1..] && b == [b[0]] + b[1..];
    } else {
      OneComponent(a[0], b, c);
    }
  }

  lemma FirstSlash(b: seq<string>)
    requires AllNames(b) && b != []
    ensures |b[0]| <= |Spelled(b)| && Spelled(b)[..|b[0]|] == b[0]
    ensures |b| > 1 ==> |b[0]| < |Spelled(b)| && Spelled(b)[|b[0]|] == '/' && Spelled(b)[|b[0]| + 1..] == Spelled(b[1..])
    ensures |b| == 1 ==> Spelled(b) == b[0]
    ensures forall i :: 0 <= i < |b[0]| ==> Spelled(b)[i] != '/'
  {
    forall i | 0 <= i < |b[0]|
      ensures Spelled(b)[i] != '/'
    {
      assert b[0][i] in b[0];
    }
  }

  lemma OneComponent(x: string, b: seq<string>, c: char)
    requires IsName(x) && AllNames(b) && b != [] && GoesOn(x, Spelled(b), c)
    ensures c == '/' ==> |b| > 1 && b[0] == x
    ensures c != '/' ==> GoesOn(x, b[0], c)
  {
    FirstSlash(b);
    var y, t := b[0], Spelled(b);
    assert forall i :: 0 <= i < |x| ==> x[i] in x && t[i] == x[i];
    assert |x| <= |y|;
    if |x| < |y| {
      assert y[..|x|] == t[..|x|];
    } else {
      assert y == x;
    }
  }

  lemma SameFirst(a: seq<string>, b: seq<string>, c: char)
    requires AllNames(a) && AllNames(b) && |a| > 1 && b != [] && GoesOn(Spelled(a), Spelled(b), c)
    ensures |b| > 1 && a[0] == b[0] && GoesOn(Spelled(a[1..]), Spelled(b[1..]), c)
  {
    FirstSlash(a);
    FirstSlash(b);
    var s, t, x, y := Spelled(a), Spelled(b), a[0], b[0];
    assert t[..|s|] == s;
    assert t[|x|] == s[|x|] == '/';
    assert |y| <= |x|;
    assert forall i :: 0 <= i < |s| ==> t[i] == s[i];
    assert |x| == |y|;
    assert x == s[..|x|] == t[..|x|] == y;
    var k := |x| + 1;
    assert t[k..][..|s| - k] == t[..|s|][k..];
  }

  // The canonical path of a directory is the path of a walk.

  lemma StepAt(f: Tree, root: DirKey, edges: Edges, w: seq<Edge>, i: nat)
    requires IsWalk(f, root, edges, w) && i < |w|
    ensures w[i] in EdgesOf(edges, At(root, w, i)) && DirRef(w[i].target) in f
  {
    assert IsStep(f, root, edges, w, i);
  }

  lemma WalkParts(f: Tree, root: DirKey, edges: Edges, v: seq<Edge>, e: Edge)
    ensures IsWalk(f, root, edges, v + [e]) <==>
      IsWalk(f, root, edges, v) && e in EdgesOf(edges, End(root, v)) && DirRef(e.target) in f
    ensures Names(v + [e]) == Names(v) + [e.name] && End(root, v + [e]) == e.target
    ensures forall i :: 0 <= i <= |v| ==> At(root, v + [e], i) == At(root, v, i)
    ensures Simple(root, v + [e]) ==> Simple(root, v)
  {
    var w := v + [e];
    forall i | 0 <= i < |v|
      ensures IsStep(f, root, edges, w, i) <==> IsStep(f, root, edges, v, i)
    {
    }
    assert IsStep(f, root, edges, w, |v|) <==> e in EdgesOf(edges, End(root, v)) && DirRef(e.target) in f;
    if Simple(root, w) {
      forall i, j | 0 <= i < j <= |v|
        ensures At(root, v, i) != At(root, v, j)
      {
        assert At(root, w, i) != At(root, w, j);
      }
    }
  }

  lemma WalkNames(f: Tree, root: DirKey, edges: Edges, w: seq<Edge>)
    requires Recorded(f, root, edges) && IsWalk(f, root, edges, w)
    ensures AllNames(Names(w))
  {
    forall i | 0 <= i < |w|
      ensures IsName(Names(w)[i])
    {
      StepAt(f, root, edges, w, i);
    }
  }

  /** From the root down the tree to k. */
  ghost function TreeWalk(f: Tree, root: DirKey, edges: Edges, k: DirKey): (w: seq<Edge>)
    requires Recorded(f, root, edges) && DirRef(k) in f
    ensures IsWalk(f, root, edges, w) && End(root, w) == k
    ensures WalkPath(w) == DirPath(f, root, k)
    ensures |w| == f[DirRef(k)].depth
    ensures forall i :: 0 <= i <= |w| ==> DirRef(At(root, w, i)) in f && f[DirRef(At(root, w, i))].depth == i
    decreases f[DirRef(k)].depth
  {
    if k == root then
      RootPath(f, root);
      RootInTree(f, root);
      []
    else
      DirPathUnfolds(f, root, edges, k);
      var p := f[DirRef(k)].parent.value.key;
      var v := TreeWalk(f, root, edges, p);
      var e := Edge(f[DirRef(k)].name, k);
      WalkParts(f, root, edges, v, e);
      WalkNames(f, root, edges, v);
      SpelledAppend(Names(v), e.name);
      OneDeeper(f, root, DirRef(k));
      v + [e]
  }

  lemma OneDeeper(f: Tree, root: DirKey, x: Ref)
    requires Rooted(f, DirRef(root)) && x in f && x != DirRef(root)
    ensures HasParent(f, x)
  {
    RootedParent(f, DirRef(root), x);
  }

  // Where names do not overtake each other, it is the first.

  /** n goes on after m with a character that sorts before the separator. */
  predicate Overtakes(m: string, n: string) {
    |m| < |n| && n[..|m|] == m && n[|m|] < '/'
  }

  /** No entry of a directory overtakes another. */
  ghost predicate NoOvertaking(edges: Edges) {
    forall k, e, g :: e in EdgesOf(edges, k) && g in EdgesOf(edges, k) ==> !Overtakes(e.name, g.name)
  }

  /** Entries of one directory have different names. */
  ghost predicate UniqueNames(edges: Edges) {
    forall k, e, g :: e in EdgesOf(edges, k) && g in EdgesOf(edges, k) && e.name == g.name ==> e == g
  }

  lemma {:induction false} SameNamesSameWalk(f: Tree, root: DirKey, edges: Edges, v: seq<Edge>, w: seq<Edge>, m: nat)
    requires UniqueNames(edges) && IsWalk(f, root, edges, v) && IsWalk(f, root, edges, w)
    requires m <= |v| && m <= |w| && forall i :: 0 <= i < m ==> v[i].name == w[i].name
    ensures v[..m] == w[..m] && At(root, v, m) == At(root, w, m)
  {
    hide IsWalk, EdgesOf;
    if m > 0 {
      SameNamesSameWalk(f, root, edges, v, w, m - 1);
      StepAt(f, root, edges, v, m - 1);
      StepAt(f, root, edges, w, m - 1);
      assert v[..m] == v[..m - 1] + [v[m - 1]] && w[..m] == w[..m - 1] + [w[m - 1]];
    }
  }

  /** A walk to p whose path goes on after p's own with the separator has been at p before; one that goes on with
      less has passed an entry that overtakes another. */
  lemma GoesOnBy(f: Tree, root: DirKey, edges: Edges, v: seq<Edge>, c: char)
    requires Recorded(f, root, edges) && UniqueNames(edges) && IsWalk(f, root, edges, v)
    requires End(root, v) != root && DirRef(End(root, v)) in f
    requires GoesOn(DirPath(f, root, End(root, v)), WalkPath(v), c)
    ensures c == '/' ==> !Simple(root, v)
    ensures c < '/' ==> !NoOvertaking(edges)
  {
    var p := End(root, v);
    var u := TreeWalk(f, root, edges, p);
    WalkNames(f, root, edges, u);
    WalkNames(f, root, edges, v);
    assert u != [];
    GoesOnWhere(Names(u), Names(v), c);
    if c == '/' {
      assert forall i :: 0 <= i < |u| ==> Names(v)[..|u|][i] == Names(u)[i];
      SameNamesSameWalk(f, root, edges, u, v, |u|);
      assert At(root, v, |u|) == At(root, v, |v|);
    } else if c < '/' {
      var m := |u| - 1;
      assert forall i :: 0 <= i < m ==> Names(v)[..m][i] == Names(u)[..m][i];
      SameNamesSameWalk(f, root, edges, u, v, m);
      StepAt(f, root, edges, u, m);
      StepAt(f, root, edges, v, m);
      assert Overtakes(u[m].name, v[m].name);
    }
  }

  /** No simple walk to a directory has a path before the one it is shown at. */
  lemma {:induction false} SimpleWalksNotBefore(f: Tree, root: DirKey, edges: Edges, w: seq<Edge>)
    requires Recorded(f, root, edges) && Canonical(f, root, edges) && UniqueNames(edges) && NoOvertaking(edges)
    requires IsWalk(f, root, edges, w) && Simple(root, w)
    ensures DirRef(End(root, w)) in f && !Less(WalkPath(w), DirPath(f, root, End(root, w)))
    decreases |w|
  {
    hide Canonical, Recorded, DirPath, NoOvertaking, UniqueNames;
    RecordedRoot(f, root, edges);
    if w != [] {
      var v, e := w[..|w| - 1], w[|w| - 1];
      assert w == v + [e];
      WalkParts(f, root, edges, v, e);
      SimpleWalksNotBefore(f, root, edges, v);
      WalkNames(f, root, edges, w);
      WalkNames(f, root, edges, v);
      SpelledAppend(Names(v), e.name);
      LeastAt(f, root, edges, End(root, v), e);
      if v != [] {
        NoReversal(f, root, edges, v, e);
      }
      var least, now := Join(DirPath(f, root, End(root, v)), e.name), DirPath(f, root, e.target);
      if Less(WalkPath(w), now) {
        LessIrreflexive(least);
        LessChain(least, WalkPath(w), now);
      }
    }
  }

  lemma RecordedRoot(f: Tree, root: DirKey, edges: Edges)
    requires Recorded(f, root, edges)
    ensures Rooted(f, DirRef(root)) && DirRef(root) in f && DirPath(f, root, root) == ""
  {
    RootInTree(f, root);
    RootPath(f, root);
  }

  lemma LeastAt(f: Tree, root: DirKey, edges: Edges, p: DirKey, e: Edge)
    requires Recorded(f, root, edges) && Canonical(f, root, edges)
    requires DirRef(p) in f && e in EdgesOf(edges, p) && DirRef(e.target) in f
    ensures !Less(Join(DirPath(f, root, p), e.name), DirPath(f, root, e.target))
  {
    assert Least(f, root, p, e);
  }

  /** The order of two paths to a directory is the order of the paths to an entry of it. */
  lemma NoReversal(f: Tree, root: DirKey, edges: Edges, v: seq<Edge>, e: Edge)
    requires Recorded(f, root, edges) && UniqueNames(edges) && NoOvertaking(edges)
    requires IsWalk(f, root, edges, v) && Simple(root, v)
    requires v != [] && DirRef(End(root, v)) in f && !Less(WalkPath(v), DirPath(f, root, End(root, v)))
    ensures !Less(Join(WalkPath(v), e.name), Join(DirPath(f, root, End(root, v)), e.name))
  {
    var a, b := DirPath(f, root, End(root, v)), WalkPath(v);
    assert At(root, v, 0) != At(root, v, |v|);
    NotTheRoot(f, root, edges, End(root, v));
    WalkNames(f, root, edges, v);
    SpelledAppend(Names(v), "n");
    LessTotal(a, b);
    if Less(Join(b, e.name), Join(a, e.name)) {
      LessIrreflexive(Join(a, e.name));
      LessReversed(a, b, e.name);
      GoesOnBy(f, root, edges, v, b[|a|]);
    }
  }

  lemma NotTheRoot(f: Tree, root: DirKey, edges: Edges, p: DirKey)
    requires Recorded(f, root, edges) && DirRef(p) in f && p != root
    ensures DirPath(f, root, p) != ""
  {
    DirPathUnfolds(f, root, edges, p);
  }

  lemma TreeWalkSimple(f: Tree, root: DirKey, edges: Edges, k: DirKey)
    requires Recorded(f, root, edges) && DirRef(k) in f
    ensures Simple(root, TreeWalk(f, root, edges, k))
  {
    var w := TreeWalk(f, root, edges, k);
    forall i, j | 0 <= i < j <= |w|
      ensures At(root, w, i) != At(root, w, j)
    {
      assert f[DirRef(At(root, w, i))].depth == i && f[DirRef(At(root, w, j))].depth == j;
    }
  }

  ghost predicate LeadsTo(f: Tree, root: DirKey, edges: Edges, w: seq<Edge>, k: DirKey) {
    IsWalk(f, root, edges, w) && End(root, w) == k
  }

  /** Where names do not overtake each other, every directory is shown at the first path that reaches it without
      coming anywhere twice. */
  lemma FirstSimplePath(f: Tree, root: DirKey, edges: Edges, k: DirKey)
    requires Recorded(f, root, edges) && Canonical(f, root, edges) && UniqueNames(edges) && NoOvertaking(edges)
    requires DirRef(k) in f
    ensures exists w :: LeadsTo(f, root, edges, w, k) && Simple(root, w) && WalkPath(w) == DirPath(f, root, k)
    ensures forall w :: LeadsTo(f, root, edges, w, k) && Simple(root, w) ==> !Less(WalkPath(w), DirPath(f, root, k))
  {
    hide Recorded, Canonical, UniqueNames, NoOvertaking;
    RecordedRoot(f, root, edges);
    TreeWalkSimple(f, root, edges, k);
    assert LeadsTo(f, root, edges, TreeWalk(f, root, edges, k), k);
    forall w | LeadsTo(f, root, edges, w, k) && Simple(root, w)
      ensures !Less(WalkPath(w), DirPath(f, root, k))
    {
      SimpleWalksNotBefore(f, root, edges, w);
    }
  }

  /** No walk comes back to where it was. */
  ghost predicate Acyclic(f: Tree, root: DirKey, edges: Edges) {
    forall w :: IsWalk(f, root, edges, w) ==> Simple(root, w)
  }

  /** Without cycles it is then the first of all paths that reach it. */
  lemma FirstReachablePath(f: Tree, root: DirKey, edges: Edges, k: DirKey)
    requires Recorded(f, root, edges) && Canonical(f, root, edges) && UniqueNames(edges) && NoOvertaking(edges)
    requires Acyclic(f, root, edges) && DirRef(k) in f
    ensures exists w :: LeadsTo(f, root, edges, w, k) && WalkPath(w) == DirPath(f, root, k)
    ensures forall w :: LeadsTo(f, root, edges, w, k) ==> !Less(WalkPath(w), DirPath(f, root, k))
  {
    hide Recorded, Canonical, UniqueNames, NoOvertaking, Simple;
    RecordedRoot(f, root, edges);
    FirstSimplePath(f, root, edges, k);
  }

  // Names that overtake, and cycles.

  const TOP := DirKey(0, 1, "")
  const SHARED := DirKey(0, 2, "")
  const INNER := DirKey(0, 3, "")

  function Folder(name: string, depth: nat, parent: Option<Ref>, children: seq<Ref>): Node<Ref> {
    Node(name, true, depth, NOTHING, false, false, parent, children)
  }

  /** SHARED below TOP under one name, INNER below it under another. */
  function Chain(name: string, inner: string): Tree {
    map[DirRef(TOP) := Folder("", 0, None, [DirRef(SHARED)]),
        DirRef(SHARED) := Folder(name, 1, Some(DirRef(TOP)), [DirRef(INNER)]),
        DirRef(INNER) := Folder(inner, 2, Some(DirRef(SHARED)), [])]
  }

  lemma ChainRooted(name: string, inner: string)
    requires IsName(name) && IsName(inner)
    ensures Rooted(Chain(name, inner), DirRef(TOP))
    ensures DirPath(Chain(name, inner), TOP, TOP) == "" && DirPath(Chain(name, inner), TOP, SHARED) == name
    ensures DirPath(Chain(name, inner), TOP, INNER) == name + "/" + inner
  {
    var f := Chain(name, inner);
    forall n | n in f && n != DirRef(TOP)
      ensures HasParent(f, n)
    {
    }
    assert Rooted(f, DirRef(TOP));
    RootPath(f, TOP);
    assert HasParent(f, DirRef(SHARED)) && HasParent(f, DirRef(INNER));
  }

  /** No directory has a simple walk with a path before its own. */
  ghost predicate AllFirst(f: Tree, root: DirKey, edges: Edges)
    requires Rooted(f, DirRef(root)) && DirRef(root) in f
  {
    forall w :: IsWalk(f, root, edges, w) && Simple(root, w) ==> NotBefore(f, root, w)
  }

  ghost predicate NotBefore(f: Tree, root: DirKey, w: seq<Edge>)
    requires Rooted(f, DirRef(root))
  {
    DirRef(End(root, w)) in f && !Less(WalkPath(w), DirPath(f, root, End(root, w)))
  }

  function TwoNames(m: string, n: string, x: string): Edges {
    map[TOP := [Edge(m, SHARED), Edge(n, SHARED)], SHARED := [Edge(x, INNER)]]
  }

  lemma {:induction false} OvertakingReverses(m: string, n: string, x: string)
    requires Overtakes(m, n)
    ensures Less(n + "/" + x, m + "/" + x)
  {
    assert (n + "/" + x)[0] == n[0];
    if m == "" {
      assert (m + "/" + x)[0] == '/';
    } else {
      assert n[0] == n[..|m|][0] == m[0];
      assert n[1..][..|m| - 1] == n[..|m|][1..] == m[1..];
      assert (n + "/" + x)[1..] == n[1..] + "/" + x && (m + "/" + x)[1..] == m[1..] + "/" + x;
      OvertakingReverses(m[1..], n[1..], x);
    }
  }

  lemma TwoNamesCanonical(m: string, n: string, x: string)
    requires IsName(m) && IsName(n) && IsName(x) && Less(m, n)
    ensures Recorded(Chain(m, x), TOP, TwoNames(m, n, x)) && Canonical(Chain(m, x), TOP, TwoNames(m, n, x))
  {
    var f, edges := Chain(m, x), TwoNames(m, n, x);
    ChainRooted(m, x);
    hide Rooted, DirPath;
    assert Edge(m, SHARED) in EdgesOf(edges, TOP) && Edge(x, INNER) in EdgesOf(edges, SHARED);
    assert OnEdge(f, edges, SHARED) && OnEdge(f, edges, INNER);
    LessIrreflexive(m);
    LessIrreflexive(m + "/" + x);
    LessAsymmetric(m, n);
  }

  /** Two names of one directory that holds another: the canonical paths are the first ones if and only if the lesser
      name is not overtaken by the other. */
  lemma TwoNamesExact(m: string, n: string, x: string)
    requires IsName(m) && IsName(n) && IsName(x) && Less(m, n)
    ensures Recorded(Chain(m, x), TOP, TwoNames(m, n, x)) && Canonical(Chain(m, x), TOP, TwoNames(m, n, x))
    ensures DirRef(TOP) in Chain(m, x)
    ensures AllFirst(Chain(m, x), TOP, TwoNames(m, n, x)) <==> !Overtakes(m, n)
  {
    hide Recorded, Canonical, Rooted, DirPath, Overtakes;
    var f, edges := Chain(m, x), TwoNames(m, n, x);
    TwoNamesCanonical(m, n, x);
    ChainRooted(m, x);
    if Overtakes(m, n) {
      SecondNameFirst(m, n, x);
    } else {
      TwoNamesUnique(m, n, x);
      forall w | IsWalk(f, TOP, edges, w) && Simple(TOP, w)
        ensures NotBefore(f, TOP, w)
      {
        SimpleWalksNotBefore(f, TOP, edges, w);
      }
    }
  }

  lemma TwoNamesUnique(m: string, n: string, x: string)
    requires Less(m, n) && !Overtakes(m, n)
    ensures UniqueNames(TwoNames(m, n, x)) && NoOvertaking(TwoNames(m, n, x))
  {
    LessIrreflexive(m);
    LessAsymmetric(m, n);
    if Overtakes(n, m) {
      assert m == n + m[|n|..];
      ExtensionIsLater(n, m[|n|..]);
    }
  }

  /** The walk through the second name. */
  lemma SecondNameFirst(m: string, n: string, x: string)
    requires IsName(m) && IsName(n) && IsName(x) && Overtakes(m, n)
    ensures var w := [Edge(n, SHARED), Edge(x, INNER)];
      && IsWalk(Chain(m, x), TOP, TwoNames(m, n, x), w) && Simple(TOP, w) && End(TOP, w) == INNER
      && WalkPath(w) == n + "/" + x && Less(WalkPath(w), m + "/" + x)
  {
    var f, edges, w := Chain(m, x), TwoNames(m, n, x), [Edge(n, SHARED), Edge(x, INNER)];
    assert Edge(n, SHARED) in EdgesOf(edges, TOP) && Edge(x, INNER) in EdgesOf(edges, SHARED);
    assert IsStep(f, TOP, edges, w, 0) && IsStep(f, TOP, edges, w, 1);
    assert Names(w) == [n, x] && [n, x][1..] == [x];
    assert Spelled([n, x]) == n + "/" + Spelled([x]) && Spelled([x]) == x;
    OvertakingReverses(m, n, x);
  }

  /** So the canonical path is not "the lexicographically first reachable path": with the names a and a-b for one
      directory, its entry x is shown at a/x, and a-b/x reaches it and comes first. */
  lemma FirstReachablePathDiffers()
    ensures var f, edges, w := Chain("a", "x"), TwoNames("a", "a-b", "x"), [Edge("a-b", SHARED), Edge("x", INNER)];
      && Recorded(f, TOP, edges) && Canonical(f, TOP, edges) && DirPath(f, TOP, INNER) == "a/x"
      && LeadsTo(f, TOP, edges, w, INNER) && Simple(TOP, w) && WalkPath(w) == "a-b/x" && Less("a-b/x", "a/x")
  {
    hide Recorded, Canonical, DirPath;
    assert Overtakes("a", "a-b");
    ExtensionIsLater("a", "-b");
    TwoNamesCanonical("a", "a-b", "x");
    ChainRooted("a", "x");
    SecondNameFirst("a", "a-b", "x");
  }

  const LOOP: Edges := map[TOP := [Edge("p", SHARED)], SHARED := [Edge("a", SHARED), Edge("x", INNER)]]

  /** And where walks may come back there need not be a first one: p has itself as an entry a, so before every walk to
      its entry x there is another. */
  lemma NoFirstPathOnCycle(w: seq<Edge>)
    requires LeadsTo(Chain("p", "x"), TOP, LOOP, w, INNER)
    ensures Recorded(Chain("p", "x"), TOP, LOOP) && Canonical(Chain("p", "x"), TOP, LOOP)
    ensures UniqueNames(LOOP) && NoOvertaking(LOOP)
    ensures exists v :: LeadsTo(Chain("p", "x"), TOP, LOOP, v, INNER) && Less(WalkPath(v), WalkPath(w))
  {
    hide Recorded, Canonical, UniqueNames, NoOvertaking, IsWalk, WalkPath, LOOP;
    LoopRecorded();
    LoopCanonical();
    LoopNames();
    var u := LastEntry(w);
    Detour(u);
  }

  lemma LastEntry(w: seq<Edge>) returns (u: seq<Edge>)
    requires LeadsTo(Chain("p", "x"), TOP, LOOP, w, INNER)
    ensures w == u + [Edge("x", INNER)] && u != [] && LeadsTo(Chain("p", "x"), TOP, LOOP, u, SHARED)
  {
    hide Simple;
    var e := w[|w| - 1];
    u := w[..|w| - 1];
    assert w == u + [e];
    WalkParts(Chain("p", "x"), TOP, LOOP, u, e);
  }

  /** A turn in the loop before the last entry comes first. */
  lemma Detour(u: seq<Edge>)
    requires LeadsTo(Chain("p", "x"), TOP, LOOP, u, SHARED) && u != [] && Recorded(Chain("p", "x"), TOP, LOOP)
    ensures var v, w := u + [Edge("a", SHARED)] + [Edge("x", INNER)], u + [Edge("x", INNER)];
      LeadsTo(Chain("p", "x"), TOP, LOOP, v, INNER) && Less(WalkPath(v), WalkPath(w))
  {
    hide Recorded, IsWalk, Simple;
    var f, turn, x := Chain("p", "x"), u + [Edge("a", SHARED)], Edge("x", INNER);
    assert Edge("a", SHARED) in EdgesOf(LOOP, SHARED) && x in EdgesOf(LOOP, SHARED);
    WalkParts(f, TOP, LOOP, u, Edge("a", SHARED));
    WalkParts(f, TOP, LOOP, turn, x);
    WalkParts(f, TOP, LOOP, u, x);
    WalkNames(f, TOP, LOOP, u);
    WalkNames(f, TOP, LOOP, turn);
    DetourPath(Names(u));
  }

  lemma DetourPath(names: seq<string>)
    requires AllNames(names) && names != []
    ensures Less(Spelled(names + ["a"] + ["x"]), Spelled(names + ["x"]))
  {
    var base := Spelled(names);
    SpelledAppend(names, "x");
    SpelledAppend(names, "a");
    SpelledAppend(names + ["a"], "x");
    assert Spelled(names + ["a"] + ["x"]) == base + "/a/x" == base + "/" + "a/x";
    CommonStart(base + "/", "a/x", "x");
  }

  lemma {:induction false} CommonStart(s: string, a: string, b: string)
    requires Less(a, b)
    ensures Less(s + a, s + b)
  {
    if s == "" {
      assert s + a == a && s + b == b;
    } else {
      CommonStart(s[1..], a, b);
      assert (s + a)[1..] == s[1..] + a && (s + b)[1..] == s[1..] + b;
    }
  }

  lemma LoopRecorded()
    ensures Recorded(Chain("p", "x"), TOP, LOOP)
  {
    var f := Chain("p", "x");
    ChainRooted("p", "x");
    hide Rooted, DirPath;
    assert Edge("p", SHARED) in EdgesOf(LOOP, TOP) && Edge("x", INNER) in EdgesOf(LOOP, SHARED);
    assert OnEdge(f, LOOP, SHARED) && OnEdge(f, LOOP, INNER);
  }

  lemma LoopCanonical()
    ensures Rooted(Chain("p", "x"), DirRef(TOP)) && Canonical(Chain("p", "x"), TOP, LOOP)
  {
    hide Rooted, DirPath, Less;
    ChainRooted("p", "x");
    LessIrreflexive("p");
    LessIrreflexive("p/x");
    ExtensionIsLater("p", "/a");
    assert Join("", "p") == "p" && Join("p", "x") == "p/x" && Join("p", "a") == "p" + "/a";
    LessAsymmetric("p", "p" + "/a");
  }

  lemma LoopNames()
    ensures UniqueNames(LOOP) && NoOvertaking(LOOP)
  {
  }
}
