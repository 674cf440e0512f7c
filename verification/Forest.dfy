/** The measured tree as a value: every node of the scan, keyed by its identity.

    A node's parent pointer and children slice are ids into the same map, so a map of this
    type is one moment of the pointer structure that the scanner's goroutines share. */
module Forest {
  import opened Options
  import opened PathOrder
  import opened Ordering

  /** The aggregate fields of a node. Times are nonnegative and 0 is the zero time. */
  datatype Totals = Totals(apparent: int, alloc: int, files: int, dirs: int, mtime: nat) {
    function Plus(other: Totals): Totals {
      Totals(apparent + other.apparent, alloc + other.alloc, files + other.files, dirs + other.dirs,
             if mtime < other.mtime then other.mtime else mtime)
    }
  }

  const NOTHING := Totals(0, 0, 0, 0, 0)

  datatype Node<Id> = Node(
    name: string, isDir: bool, depth: nat, totals: Totals, hardlink: bool, failed: bool,
    parent: Option<Id>, children: seq<Id>)

  type Forest<Id(!new)> = map<Id, Node<Id>>

  ghost predicate HasParent<Id(!new)>(f: Forest<Id>, n: Id)
    requires n in f
  {
    && f[n].parent.Some?
    && f[n].parent.value in f
    && var p := f[n].parent.value;
    && f[p].isDir
    && f[n].depth == f[p].depth + 1
    && n in f[p].children
    && IsName(f[n].name)
  }

  ghost predicate IsChild<Id(!new)>(f: Forest<Id>, n: Id, c: Id)
  {
    c in f && f[c].parent == Some(n)
  }

  lemma EmptyTogether<T(!new)>(a: seq<T>, b: seq<T>)
    requires forall x :: x in a <==> x in b
    ensures a == [] <==> b == []
  {
    if a != [] { HasMember(a, b); }
    if b != [] { HasMember(b, a); }
  }

  lemma HasMember<T(!new)>(a: seq<T>, b: seq<T>)
    requires a != [] && forall x :: x in a ==> x in b
    ensures b != []
  {
    assert a[0] in b;
  }

  /** Parent pointers and children slices describe one tree rooted at root, with correct depths. */
  ghost predicate Rooted<Id(!new)>(f: Forest<Id>, root: Id) {
    && root in f && f[root].parent == None && f[root].depth == 0
    && (forall n {:trigger HasParent(f, n)} :: n in f && n != root ==> HasParent(f, n))
    && (forall n, c :: n in f && c in f[n].children ==> IsChild(f, n, c))
    && (forall n :: n in f ==> Distinct(f[n].children))
  }

  /** The node at depth k on the way from the root to n. */
  ghost function Up<Id(!new)>(f: Forest<Id>, root: Id, n: Id, k: nat): (a: Id)
    requires Rooted(f, root) && n in f && k <= f[n].depth
    ensures a in f && f[a].depth == k
    decreases f[n].depth
  {
    if f[n].depth == k then n
    else
      assert HasParent(f, n);
      Up(f, root, f[n].parent.value, k)
  }

  /** a is n itself or one of n's ancestors. */
  ghost predicate Above<Id(!new)>(f: Forest<Id>, root: Id, a: Id, n: Id)
    requires Rooted(f, root) && n in f && a in f
  {
    f[a].depth <= f[n].depth && Up(f, root, n, f[a].depth) == a
  }

  lemma RootedParent<Id(!new)>(f: Forest<Id>, root: Id, n: Id)
    requires Rooted(f, root) && n in f
    ensures n == root ==> f[n].parent == None
    ensures n != root ==> HasParent(f, n)
  {
    assert n != root ==> HasParent(f, n);
  }

  lemma {:induction false} UpUp<Id(!new)>(f: Forest<Id>, root: Id, n: Id, k: nat, j: nat)
    requires Rooted(f, root) && n in f && j <= k <= f[n].depth
    ensures Up(f, root, Up(f, root, n, k), j) == Up(f, root, n, j)
    decreases f[n].depth
  {
    if f[n].depth != k {
      assert HasParent(f, n);
      UpUp(f, root, f[n].parent.value, k, j);
    }
  }

  lemma AboveTransitive<Id(!new)>(f: Forest<Id>, root: Id, a: Id, b: Id, c: Id)
    requires Rooted(f, root) && a in f && b in f && c in f
    requires Above(f, root, a, b) && Above(f, root, b, c)
    ensures Above(f, root, a, c)
  {
    UpUp(f, root, c, f[b].depth, f[a].depth);
  }

  /** The ancestor one level below a strict ancestor d is the only child of d on the way to n. */
  lemma ChildOnPath<Id(!new)>(f: Forest<Id>, root: Id, d: Id, n: Id) returns (c: Id)
    requires Rooted(f, root) && d in f && n in f && Above(f, root, d, n) && d != n
    ensures c in f[d].children && c in f && Above(f, root, c, n)
    ensures forall x :: x in f[d].children && Above(f, root, x, n) ==> x == c
  {
    assert f[d].depth < f[n].depth;
    c := Up(f, root, n, f[d].depth + 1);
    UpUp(f, root, n, f[d].depth + 1, f[d].depth);
    assert Up(f, root, c, f[d].depth) == d;
    assert c != root;
    assert HasParent(f, c);
    assert Up(f, root, f[c].parent.value, f[d].depth) == d;
    assert f[c].parent.value == d;
    forall x | x in f[d].children && Above(f, root, x, n)
      ensures x == c
    {
      ChildDepth(f, root, d, x);
    }
  }

  lemma ChildDepth<Id(!new)>(f: Forest<Id>, root: Id, d: Id, c: Id)
    requires Rooted(f, root) && d in f && c in f[d].children
    ensures c in f && c != root && f[c].parent == Some(d) && f[c].depth == f[d].depth + 1 && f[d].isDir
    ensures Above(f, root, d, c)
  {
    assert IsChild(f, d, c);
    assert HasParent(f, c);
  }

  lemma {:induction false} AboveRoot<Id(!new)>(f: Forest<Id>, root: Id, n: Id)
    requires Rooted(f, root) && n in f
    ensures Above(f, root, root, n)
    decreases f[n].depth
  {
    if n != root {
      assert HasParent(f, n);
      AboveRoot(f, root, f[n].parent.value);
    }
  }

  /** What one child adds to its directory's totals. */
  function Contribution<Id(!new)>(v: Node<Id>): Totals {
    if v.isDir then v.totals.(dirs := v.totals.dirs + 1)
    else v.totals.(files := if v.failed then 0 else 1, dirs := 0)
  }

  function SumOf<Id(!new)>(f: Forest<Id>, cs: seq<Id>): Totals
    requires forall c :: c in cs ==> c in f
  {
    if cs == [] then NOTHING
    else
      var last := cs[|cs| - 1];
      assert last in cs;
      SumOf(f, cs[..|cs| - 1]).Plus(Contribution(f[last]))
  }

  /** A directory's own inode: allocation and mtime known before its entries are read. */
  datatype SelfMetadata = SelfMetadata(alloc: int, mtime: nat) {
    function AsTotals(): Totals { Totals(0, alloc, 0, 0, mtime) }
  }

  function SelfOf<Id>(self: map<Id, SelfMetadata>, n: Id): Totals {
    if n in self then self[n].AsTotals() else NOTHING
  }

  /** A directory carries exactly its own inode plus the contributions of its children. */
  ghost predicate Balanced<Id(!new)>(f: Forest<Id>, root: Id, self: map<Id, SelfMetadata>, d: Id)
    requires Rooted(f, root) && d in f
  {
    assert forall c {:trigger IsChild(f, d, c)} :: c in f[d].children ==> IsChild(f, d, c);
    f[d].totals == SelfOf(self, d).Plus(SumOf(f, f[d].children))
  }

  /** The aggregate invariant: every directory of the tree is balanced. */
  ghost predicate Measured<Id(!new)>(f: Forest<Id>, root: Id, self: map<Id, SelfMetadata>)
    requires Rooted(f, root)
  {
    forall d {:trigger Balanced(f, root, self, d)} :: d in f && f[d].isDir ==> Balanced(f, root, self, d)
  }

  lemma {:induction false} SumAgrees<Id(!new)>(f: Forest<Id>, g: Forest<Id>, cs: seq<Id>)
    requires forall c :: c in cs ==> c in f && c in g && Contribution(f[c]) == Contribution(g[c])
    ensures SumOf(f, cs) == SumOf(g, cs)
  {
    if cs != [] {
      SumAgrees(f, g, cs[..|cs| - 1]);
      assert cs[|cs| - 1] in cs;
    }
  }

  lemma {:induction false} SumOneChanged<Id(!new)>(f: Forest<Id>, g: Forest<Id>, cs: seq<Id>, c: Id, delta: Totals)
    requires Distinct(cs) && c in cs
    requires forall x :: x in cs ==> x in f && x in g
    requires forall x :: x in cs && x != c ==> Contribution(f[x]) == Contribution(g[x])
    requires Contribution(g[c]) == Contribution(f[c]).Plus(delta)
    ensures SumOf(g, cs) == SumOf(f, cs).Plus(delta)
  {
    var rest, last := cs[..|cs| - 1], cs[|cs| - 1];
    assert last in cs;
    if last == c {
      assert c !in rest;
      SumAgrees(f, g, rest);
    } else {
      assert c in rest;
      SumOneChanged(f, g, rest, c, delta);
    }
  }

  /** n and all of its ancestors. */
  ghost function Ancestors<Id(!new)>(f: Forest<Id>, root: Id, n: Id): set<Id>
    requires Rooted(f, root) && n in f
  {
    set x | x in f && Above(f, root, x, n)
  }

  lemma AncestorsUnfold<Id(!new)>(f: Forest<Id>, root: Id, n: Id)
    requires Rooted(f, root) && n in f
    ensures n == root ==> f[n].parent == None && Ancestors(f, root, n) == {n}
    ensures n != root ==> f[n].parent.Some? && f[n].parent.value in f && f[f[n].parent.value].depth < f[n].depth
    ensures n != root ==> Ancestors(f, root, n) == Ancestors(f, root, f[n].parent.value) + {n}
    ensures n != root ==> n !in Ancestors(f, root, f[n].parent.value)
  {
    if n != root {
      assert HasParent(f, n);
      var p := f[n].parent.value;
      forall x | x in f
        ensures Above(f, root, x, n) <==> x == n || Above(f, root, x, p)
      {
      }
    } else {
      forall x | x in f && Above(f, root, x, n)
        ensures x == n
      {
      }
    }
  }

  /** The tree after delta has been added to every node of s. */
  ghost function AddTo<Id(!new)>(f: Forest<Id>, s: set<Id>, delta: Totals): Forest<Id> {
    map x | x in f :: if x in s then f[x].(totals := f[x].totals.Plus(delta)) else f[x]
  }

  /** The tree after delta has been added to n and to all of its ancestors. */
  ghost function AddUp<Id(!new)>(f: Forest<Id>, root: Id, n: Id, delta: Totals): Forest<Id>
    requires Rooted(f, root) && n in f
  {
    AddTo(f, Ancestors(f, root, n), delta)
  }

  /** f and g differ in totals only. */
  ghost predicate SameShape<Id(!new)>(f: Forest<Id>, g: Forest<Id>) {
    f.Keys == g.Keys && forall x :: x in f ==> g[x] == f[x].(totals := g[x].totals)
  }

  lemma SameShapeRooted<Id(!new)>(f: Forest<Id>, g: Forest<Id>, root: Id)
    requires Rooted(f, root) && SameShape(f, g)
    ensures Rooted(g, root)
  {
    forall n | n in g && n != root
      ensures HasParent(g, n)
    {
      assert HasParent(f, n);
    }
    forall n, c | n in g && c in g[n].children
      ensures IsChild(g, n, c)
    {
      assert IsChild(f, n, c);
    }
  }

  /** Way-points toward the root depend on parent pointers and depths only. */
  lemma {:induction false} SameLinksUp<Id(!new)>(f: Forest<Id>, g: Forest<Id>, root: Id, n: Id, k: nat)
    requires Rooted(f, root) && Rooted(g, root) && n in f && k <= f[n].depth
    requires forall x :: x in f ==> x in g && g[x].parent == f[x].parent && g[x].depth == f[x].depth
    ensures Up(g, root, n, k) == Up(f, root, n, k)
    decreases f[n].depth
  {
    if f[n].depth != k {
      assert HasParent(f, n);
      SameLinksUp(f, g, root, f[n].parent.value, k);
    }
  }

  /** Every directory is balanced except p, whose totals lack exactly delta. */
  ghost predicate OffBy<Id(!new)>(f: Forest<Id>, root: Id, self: map<Id, SelfMetadata>, p: Id, delta: Totals)
    requires Rooted(f, root)
  {
    && p in f && f[p].isDir
    && (forall d {:trigger Balanced(f, root, self, d)} ::
        d in f && f[d].isDir && d != p ==> Balanced(f, root, self, d))
    && LacksDelta(f, self, p, delta)
  }

  ghost predicate LacksDelta<Id(!new)>(f: Forest<Id>, self: map<Id, SelfMetadata>, p: Id, delta: Totals)
    requires p in f
  {
    && (forall c :: c in f[p].children ==> c in f)
    && f[p].totals.Plus(delta) == SelfOf(self, p).Plus(SumOf(f, f[p].children))
  }

  /** A correction at one directory, carried to all its ancestors, balances the whole tree again. */
  lemma AddUpBalances<Id(!new)>(f: Forest<Id>, root: Id, self: map<Id, SelfMetadata>, n: Id, delta: Totals)
    requires Rooted(f, root) && OffBy(f, root, self, n, delta)
    ensures SameShape(f, AddUp(f, root, n, delta)) && Rooted(AddUp(f, root, n, delta), root)
    ensures Measured(AddUp(f, root, n, delta), root, self)
  {
    var g := AddUp(f, root, n, delta);
    SameShapeRooted(f, g, root);
    forall d | d in g && g[d].isDir
      ensures Balanced(g, root, self, d)
    {
      AddUpBalancesAt(f, root, self, n, delta, d);
    }
  }

  lemma NoChildAbove<Id(!new)>(f: Forest<Id>, root: Id, d: Id, n: Id)
    requires Rooted(f, root) && d in f && n in f
    requires d == n || !Above(f, root, d, n)
    ensures forall c :: c in f[d].children ==> c in f && !Above(f, root, c, n)
  {
    forall c | c in f[d].children
      ensures c in f && !Above(f, root, c, n)
    {
      ChildDepth(f, root, d, c);
      if d != n && Above(f, root, c, n) {
        AboveTransitive(f, root, d, c, n);
      }
    }
  }

  lemma AddUpBalancesAt<Id(!new)>(f: Forest<Id>, root: Id, self: map<Id, SelfMetadata>, n: Id, delta: Totals, d: Id)
    requires Rooted(f, root) && n in f && f[n].isDir && d in f && f[d].isDir
    requires d != n ==> Balanced(f, root, self, d)
    requires LacksDelta(f, self, n, delta)
    requires Rooted(AddUp(f, root, n, delta), root)
    ensures Balanced(AddUp(f, root, n, delta), root, self, d)
  {
    var g := AddUp(f, root, n, delta);
    assert g[d].children == f[d].children;
    if d != n && Above(f, root, d, n) {
      AddUpSumOnPath(f, root, n, delta, d);
      PlusAssociative(SelfOf(self, d), SumOf(f, f[d].children), delta);
      assert g[d].totals == f[d].totals.Plus(delta);
    } else {
      AddUpSumOffPath(f, root, n, delta, d);
      assert g[d].totals == if d == n then f[d].totals.Plus(delta) else f[d].totals;
    }
  }

  lemma PlusNothing(a: Totals)
    ensures a.Plus(NOTHING) == a && NOTHING.Plus(a) == a
  {
  }

  lemma PlusSwap(a: Totals, b: Totals, c: Totals)
    ensures a.Plus(b).Plus(c) == a.Plus(c).Plus(b)
  {
  }

  lemma PlusAssociative(a: Totals, b: Totals, c: Totals)
    ensures a.Plus(b).Plus(c) == a.Plus(b.Plus(c))
  {
  }

  lemma AddUpSumOnPath<Id(!new)>(f: Forest<Id>, root: Id, n: Id, delta: Totals, d: Id)
    requires Rooted(f, root) && n in f && f[n].isDir && d in f && d != n && Above(f, root, d, n)
    ensures forall c :: c in f[d].children ==> c in f
    ensures SumOf(AddUp(f, root, n, delta), f[d].children) == SumOf(f, f[d].children).Plus(delta)
  {
    forall c | c in f[d].children
      ensures c in f
    {
      ChildDepth(f, root, d, c);
    }
    var c := ChildOnPath(f, root, d, n);
    PathNodesAreDirs(f, root, c, n);
    SumWithOneAdded(f, Ancestors(f, root, n), f[d].children, c, delta);
  }

  lemma SumWithOneAdded<Id(!new)>(f: Forest<Id>, s: set<Id>, cs: seq<Id>, c: Id, delta: Totals)
    requires Distinct(cs) && c in cs && c in s
    requires forall x :: x in cs ==> x in f && (x in s ==> x == c)
    requires f[c].isDir
    ensures SumOf(AddTo(f, s, delta), cs) == SumOf(f, cs).Plus(delta)
  {
    SumOneChanged(f, AddTo(f, s, delta), cs, c, delta);
  }

  lemma AddUpSumOffPath<Id(!new)>(f: Forest<Id>, root: Id, n: Id, delta: Totals, d: Id)
    requires Rooted(f, root) && n in f && d in f
    requires d == n || !Above(f, root, d, n)
    ensures forall c :: c in f[d].children ==> c in f
    ensures SumOf(AddUp(f, root, n, delta), f[d].children) == SumOf(f, f[d].children)
  {
    NoChildAbove(f, root, d, n);
    SumAgrees(f, AddUp(f, root, n, delta), f[d].children);
  }

  /** Everything above a directory is a directory. */
  lemma {:induction false} PathNodesAreDirs<Id(!new)>(f: Forest<Id>, root: Id, a: Id, n: Id)
    requires Rooted(f, root) && a in f && n in f && Above(f, root, a, n) && f[n].isDir
    ensures f[a].isDir
    decreases f[n].depth
  {
    if f[a].depth < f[n].depth {
      assert HasParent(f, n);
      PathNodesAreDirs(f, root, a, f[n].parent.value);
    }
  }

  /** Adopt: the tree after a fresh childless node v has been attached below p as its last child. */
  ghost function Adopted<Id(!new)>(f: Forest<Id>, p: Id, c: Id, v: Node<Id>): Forest<Id>
    requires p in f
  {
    f[p := f[p].(children := f[p].children + [c])][c := v.(parent := Some(p), depth := f[p].depth + 1)]
  }

  ghost predicate Adoptable<Id(!new)>(f: Forest<Id>, p: Id, c: Id, v: Node<Id>) {
    p in f && f[p].isDir && c !in f && v.children == [] && IsName(v.name)
  }

  lemma AdoptedRooted<Id(!new)>(f: Forest<Id>, root: Id, p: Id, c: Id, v: Node<Id>)
    requires Rooted(f, root) && Adoptable(f, p, c, v)
    ensures Rooted(Adopted(f, p, c, v), root)
  {
    var g := Adopted(f, p, c, v);
    AdoptedRoot(f, root, p, c, v);
    hide Adopted, HasParent, IsChild, Distinct;
    forall n | n in g && n != root
      ensures HasParent(g, n)
    {
      AdoptedHasParent(f, root, p, c, v, n);
    }
    forall n | n in g
      ensures Distinct(g[n].children) && forall x :: x in g[n].children ==> IsChild(g, n, x)
    {
      AdoptedChildren(f, root, p, c, v, n);
    }
  }

  lemma AdoptedRoot<Id(!new)>(f: Forest<Id>, root: Id, p: Id, c: Id, v: Node<Id>)
    requires Rooted(f, root) && Adoptable(f, p, c, v)
    ensures var g := Adopted(f, p, c, v); root in g && g[root].parent == None && g[root].depth == 0
  {
  }

  lemma AdoptedChildren<Id(!new)>(f: Forest<Id>, root: Id, p: Id, c: Id, v: Node<Id>, n: Id)
    requires Rooted(f, root) && Adoptable(f, p, c, v) && n in Adopted(f, p, c, v)
    ensures Distinct(Adopted(f, p, c, v)[n].children)
    ensures forall x :: x in Adopted(f, p, c, v)[n].children ==> IsChild(Adopted(f, p, c, v), n, x)
  {
    FreshHasNoParent(f, root, c);
    forall x | x in Adopted(f, p, c, v)[n].children
      ensures IsChild(Adopted(f, p, c, v), n, x)
    {
      assert x != c ==> IsChild(f, n, x);
    }
  }

  lemma AdoptedHasParent<Id(!new)>(f: Forest<Id>, root: Id, p: Id, c: Id, v: Node<Id>, n: Id)
    requires Rooted(f, root) && Adoptable(f, p, c, v)
    requires n in Adopted(f, p, c, v) && n != root
    ensures HasParent(Adopted(f, p, c, v), n)
  {
    assert n != c ==> HasParent(f, n);
  }

  lemma ChildrenKnown<Id(!new)>(f: Forest<Id>, root: Id, d: Id)
    requires Rooted(f, root) && d in f
    ensures Distinct(f[d].children) && forall c :: c in f[d].children ==> c in f
  {
    forall c | c in f[d].children
      ensures c in f
    {
      assert IsChild(f, d, c);
    }
  }

  lemma FreshHasNoParent<Id(!new)>(f: Forest<Id>, root: Id, c: Id)
    requires Rooted(f, root) && c !in f
    ensures forall n :: n in f ==> c !in f[n].children
  {
    forall n | n in f
      ensures c !in f[n].children
    {
      assert c in f[n].children ==> IsChild(f, n, c);
    }
  }

  lemma EmptyBalanced<Id(!new)>(f: Forest<Id>, root: Id, self: map<Id, SelfMetadata>, d: Id)
    requires Rooted(f, root) && d in f && f[d].children == [] && f[d].totals == SelfOf(self, d)
    ensures Balanced(f, root, self, d)
  {
    hide Rooted, IsChild, SelfOf;
    var own, sum := SelfOf(self, d), SumOf(f, f[d].children);
    assert sum == NOTHING;
    PlusNothing(own);
    assert f[d].totals == own.Plus(sum);
  }

  /** After an adoption only the adopting directory is out of balance, by what the child contributes. */
  lemma AdoptedBalance<Id(!new)>(
      f: Forest<Id>, root: Id, self: map<Id, SelfMetadata>, p: Id, c: Id, v: Node<Id>)
    requires Rooted(f, root) && Measured(f, root, self) && Adoptable(f, p, c, v)
    requires v.isDir ==> v.totals == NOTHING && c !in self
    ensures Rooted(Adopted(f, p, c, v), root)
    ensures OffBy(Adopted(f, p, c, v), root, self, p, Contribution(v))
  {
    var g := Adopted(f, p, c, v);
    AdoptedRooted(f, root, p, c, v);
    forall d | d in g && g[d].isDir && d != p
      ensures Balanced(g, root, self, d)
    {
      AdoptedElsewhere(f, root, self, p, c, v, d);
    }
    AdoptedHere(f, root, self, p, c, v);
  }

  lemma AdoptedElsewhere<Id(!new)>(
      f: Forest<Id>, root: Id, self: map<Id, SelfMetadata>, p: Id, c: Id, v: Node<Id>, d: Id)
    requires Rooted(f, root) && Measured(f, root, self) && Adoptable(f, p, c, v)
    requires v.isDir ==> v.totals == NOTHING && c !in self
    requires Rooted(Adopted(f, p, c, v), root)
    requires d in Adopted(f, p, c, v) && Adopted(f, p, c, v)[d].isDir && d != p
    ensures Balanced(Adopted(f, p, c, v), root, self, d)
  {
    var g := Adopted(f, p, c, v);
    if d == c {
      EmptyBalanced(g, root, self, d);
    } else {
      assert Balanced(f, root, self, d);
      var cs := f[d].children;
      forall x | x in cs
        ensures x in f && x in g && Contribution(f[x]) == Contribution(g[x])
      {
        assert IsChild(f, d, x);
      }
      hide Rooted;
      SumAgrees(f, g, cs);
    }
  }

  lemma AdoptedHere<Id(!new)>(
      f: Forest<Id>, root: Id, self: map<Id, SelfMetadata>, p: Id, c: Id, v: Node<Id>)
    requires Rooted(f, root) && Measured(f, root, self) && Adoptable(f, p, c, v)
    ensures p in Adopted(f, p, c, v) && LacksDelta(Adopted(f, p, c, v), self, p, Contribution(v))
  {
    var g := Adopted(f, p, c, v);
    assert Balanced(f, root, self, p);
    var cs := f[p].children;
    forall x | x in cs
      ensures x in f && x in g && Contribution(f[x]) == Contribution(g[x])
    {
      assert IsChild(f, p, x);
    }
    hide Rooted, Measured;
    SumAgrees(f, g, cs);
    assert (cs + [c])[..|cs|] == cs;
    assert SumOf(g, cs + [c]) == SumOf(g, cs).Plus(Contribution(v));
    PlusAssociative(SelfOf(self, p), SumOf(f, cs), Contribution(v));
  }
}
