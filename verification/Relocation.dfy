/** What moving a whole subtree below another directory does to the tree (tree.Node.MoveTo). */
module Relocation {
  import opened Options
  import opened PathOrder
  import opened Ordering
  import opened Forest
  import opened TotalsMeaning

  /** Children in the order sort.SliceStable leaves them: by name. */
  ghost predicate NameSorted<Id(!new)>(f: Forest<Id>, cs: seq<Id>) {
    && (forall i :: 0 <= i < |cs| ==> cs[i] in f)
    && (forall i, j :: 0 <= i < j < |cs| ==> !Less(f[cs[j]].name, f[cs[i]].name))
  }

  /** The library's stable sort by name: c goes behind every entry that does not sort after it. */
  function InsertByName<Id(!new)>(f: Forest<Id>, cs: seq<Id>, c: Id): seq<Id>
    requires c in f && forall x :: x in cs ==> x in f
  {
    if cs == [] then [c]
    else
      var last := cs[|cs| - 1];
      assert last in cs;
      if Less(f[c].name, f[last].name) then InsertByName(f, cs[..|cs| - 1], c) + [last] else cs + [c]
  }

  function SortByName<Id(!new)>(f: Forest<Id>, cs: seq<Id>): (r: seq<Id>)
    requires forall x :: x in cs ==> x in f
    ensures forall x :: x in r <==> x in cs
  {
    if cs == [] then []
    else
      var last := cs[|cs| - 1];
      assert last in cs && cs == cs[..|cs| - 1] + [last];
      var init := SortByName(f, cs[..|cs| - 1]);
      InsertMembers(f, init, last);
      InsertByName(f, init, last)
  }

  lemma {:induction false} InsertMembers<Id(!new)>(f: Forest<Id>, cs: seq<Id>, c: Id)
    requires c in f && forall x :: x in cs ==> x in f
    ensures forall x :: x in InsertByName(f, cs, c) <==> x == c || x in cs
    ensures Distinct(cs) && c !in cs ==> Distinct(InsertByName(f, cs, c))
  {
    if cs != [] {
      var init, last := cs[..|cs| - 1], cs[|cs| - 1];
      assert cs == init + [last];
      assert Distinct(cs) ==> Distinct(init) && last !in init;
      InsertMembers(f, init, c);
    }
  }

  lemma {:induction false} InsertSorted<Id(!new)>(f: Forest<Id>, cs: seq<Id>, c: Id)
    requires c in f && NameSorted(f, cs)
    ensures NameSorted(f, InsertByName(f, cs, c))
  {
    if cs != [] {
      var init, last := cs[..|cs| - 1], cs[|cs| - 1];
      var r := InsertByName(f, cs, c);
      if Less(f[c].name, f[last].name) {
        InsertSorted(f, init, c);
        InsertMembers(f, init, c);
        forall i | 0 <= i < |r| - 1
          ensures !Less(f[last].name, f[r[i]].name)
        {
          assert r[i] in InsertByName(f, init, c);
          if r[i] == c {
            LessAsymmetric(f[c].name, f[last].name);
          } else {
            assert r[i] in init;
          }
        }
      } else {
        forall i | 0 <= i < |cs|
          ensures !Less(f[c].name, f[cs[i]].name)
        {
          if i < |cs| - 1 && Less(f[c].name, f[cs[i]].name) {
            LessTotal(f[cs[i]].name, f[last].name);
            if f[cs[i]].name != f[last].name {
              LessTransitive(f[c].name, f[cs[i]].name, f[last].name);
            }
          }
        }
      }
    }
  }

  lemma {:induction false} SortSorts<Id(!new)>(f: Forest<Id>, cs: seq<Id>)
    requires forall x :: x in cs ==> x in f
    ensures NameSorted(f, SortByName(f, cs))
    ensures Distinct(cs) ==> Distinct(SortByName(f, cs))
  {
    if cs != [] {
      var init, last := cs[..|cs| - 1], cs[|cs| - 1];
      assert cs == init + [last];
      assert Distinct(cs) ==> Distinct(init) && last !in init;
      SortSorts(f, init);
      InsertSorted(f, SortByName(f, init), last);
      InsertMembers(f, SortByName(f, init), last);
    }
  }

  function Without<T(==)>(s: seq<T>, x: T): seq<T> {
    if s == [] then []
    else if s[|s| - 1] == x then Without(s[..|s| - 1], x)
    else Without(s[..|s| - 1], x) + [s[|s| - 1]]
  }

  lemma {:induction false} WithoutMembers<T(!new)>(s: seq<T>, x: T)
    ensures forall y :: y in Without(s, x) <==> y in s && y != x
    ensures Distinct(s) ==> Distinct(Without(s, x))
  {
    if s != [] {
      var init, last := s[..|s| - 1], s[|s| - 1];
      WithoutMembers(init, x);
      assert s == init + [last];
      assert Distinct(s) ==> Distinct(init) && last !in init;
    }
  }

  /** Taking one name out of a sorted list leaves it sorted. */
  lemma {:induction false} WithoutSorted<Id(!new)>(f: Forest<Id>, g: Forest<Id>, cs: seq<Id>, x: Id)
    requires NameSorted(f, cs)
    requires forall y :: y in cs && y != x ==> y in f && y in g && g[y].name == f[y].name
    ensures NameSorted(g, Without(cs, x))
  {
    if cs != [] {
      var init, last := cs[..|cs| - 1], cs[|cs| - 1];
      assert cs == init + [last] && last in cs;
      WithoutSorted(f, g, init, x);
      WithoutMembers(init, x);
      forall y | y in Without(init, x)
        ensures y in f && y in g && !Less(f[last].name, f[y].name) && g[y].name == f[y].name
      {
        EarlierName(f, cs, y);
      }
      var r := Without(init, x);
      assert forall i :: 0 <= i < |r| ==> r[i] in r;
    }
  }

  lemma EarlierName<Id(!new)>(f: Forest<Id>, cs: seq<Id>, y: Id)
    requires NameSorted(f, cs) && cs != [] && y in cs[..|cs| - 1]
    ensures y in f && y in cs && cs[|cs| - 1] in f && !Less(f[cs[|cs| - 1]].name, f[y].name)
  {
    var i :| 0 <= i < |cs| - 1 && cs[..|cs| - 1][i] == y;
    assert cs[i] == y;
  }

  lemma DistinctAppend<T(!new)>(s: seq<T>, x: T)
    requires Distinct(s) && x !in s
    ensures Distinct(s + [x])
  {
  }

  lemma {:induction false} WithoutAbsent<T(!new)>(s: seq<T>, x: T)
    requires x !in s
    ensures Without(s, x) == s
  {
    if s != [] {
      WithoutAbsent(s[..|s| - 1], x);
      assert s == s[..|s| - 1] + [s[|s| - 1]];
    }
  }

  /** Cutting out the one position of x is removing x. */
  lemma {:induction false} WithoutIsCut<T(!new)>(s: seq<T>, i: nat)
    requires Distinct(s) && i < |s|
    ensures Without(s, s[i]) == s[..i] + s[i + 1..]
  {
    var init := s[..|s| - 1];
    if i == |s| - 1 {
      WithoutAbsent(init, s[i]);
    } else {
      WithoutIsCut(init, i);
      assert init[..i] + init[i + 1..] + [s[|s| - 1]] == s[..i] + s[i + 1..];
    }
  }

  /** n may be moved below p: p is a directory outside n's subtree. */
  ghost predicate Movable<Id(!new)>(f: Forest<Id>, root: Id, n: Id, p: Id, name: string)
    requires Rooted(f, root)
  {
    n in f && n != root && p in f && f[p].isDir && !Above(f, root, n, p) && IsName(name)
  }

  /** Depth of x after the move: nodes below n shift with it, all others stay. */
  ghost function DepthAfter<Id(!new)>(f: Forest<Id>, root: Id, n: Id, p: Id, x: Id): nat
    requires Rooted(f, root) && n in f && p in f && x in f
  {
    if Above(f, root, n, x) then f[x].depth - f[n].depth + f[p].depth + 1 else f[x].depth
  }

  /** The node x after the move, with its new list of children given. */
  ghost function NodeAfter<Id(!new)>(
      f: Forest<Id>, root: Id, n: Id, p: Id, name: string, x: Id, children: seq<Id>): Node<Id>
    requires Rooted(f, root) && n in f && p in f && x in f
  {
    f[x].(
      name := if x == n then name else f[x].name,
      parent := if x == n then Some(p) else f[x].parent,
      depth := DepthAfter(f, root, n, p, x),
      children := children)
  }

  /** g's children of x: n leaves its old parent in place and joins p in name order. */
  ghost predicate ChildrenAfter<Id(!new)>(f: Forest<Id>, g: Forest<Id>, n: Id, p: Id, x: Id)
    requires x in f && x in g
  {
    if x == p then
      && Distinct(g[x].children)
      && (forall c :: c in g[x].children <==> c == n || c in f[x].children)
      && NameSorted(g, g[x].children)
    else
      g[x].children == Without(f[x].children, n)
  }

  /** g is f after n's subtree was moved below p under the new name. */
  ghost predicate Relocated<Id(!new)>(f: Forest<Id>, g: Forest<Id>, root: Id, n: Id, p: Id, name: string)
    requires Rooted(f, root)
  {
    && Movable(f, root, n, p, name)
    && g.Keys == f.Keys
    && (forall x {:trigger ChildrenAfter(f, g, n, p, x)} {:trigger g[x]} ::
        x in f ==> ChildrenAfter(f, g, n, p, x) && g[x] == NodeAfter(f, root, n, p, name, x, g[x].children))
  }

  lemma RelocatedHasParent<Id(!new)>(
      f: Forest<Id>, g: Forest<Id>, root: Id, n: Id, p: Id, name: string, x: Id)
    requires Rooted(f, root) && Relocated(f, g, root, n, p, name) && x in f && x != root
    ensures HasParent(g, x)
  {
    RootedParent(f, root, x);
    var q := f[x].parent.value;
    AncestorsUnfold(f, root, x);
    assert ChildrenAfter(f, g, n, p, p);
    assert ChildrenAfter(f, g, n, p, q);
    assert x != n ==> (n in Ancestors(f, root, x) <==> n in Ancestors(f, root, q));
    WithoutMembers(f[q].children, n);
  }

  /** The move keeps one rooted tree with correct depths. */
  lemma RelocatedRooted<Id(!new)>(f: Forest<Id>, g: Forest<Id>, root: Id, n: Id, p: Id, name: string)
    requires Rooted(f, root) && Relocated(f, g, root, n, p, name)
    ensures Rooted(g, root)
  {
    RelocatedRoot(f, g, root, n, p, name);
    forall x | x in g && x != root
      ensures HasParent(g, x)
    {
      RelocatedHasParent(f, g, root, n, p, name, x);
    }
    forall x, c | x in g && c in g[x].children
      ensures IsChild(g, x, c)
    {
      RelocatedIsChild(f, g, root, n, p, name, x, c);
    }
    forall x | x in g
      ensures Distinct(g[x].children)
    {
      assert ChildrenAfter(f, g, n, p, x);
      assert Distinct(f[x].children);
      WithoutMembers(f[x].children, n);
    }
  }

  lemma RelocatedRoot<Id(!new)>(f: Forest<Id>, g: Forest<Id>, root: Id, n: Id, p: Id, name: string)
    requires Rooted(f, root) && Relocated(f, g, root, n, p, name)
    ensures root in g && g[root].parent == None && g[root].depth == 0
  {
    assert ChildrenAfter(f, g, n, p, root);
    AncestorsUnfold(f, root, root);
    assert n !in Ancestors(f, root, root);
  }

  lemma RelocatedIsChild<Id(!new)>(
      f: Forest<Id>, g: Forest<Id>, root: Id, n: Id, p: Id, name: string, x: Id, c: Id)
    requires Rooted(f, root) && Relocated(f, g, root, n, p, name) && x in g && c in g[x].children
    ensures IsChild(g, x, c)
  {
    assert ChildrenAfter(f, g, n, p, x);
    WithoutMembers(f[x].children, n);
    assert c != n ==> IsChild(f, x, c);
    assert c in f;
    assert ChildrenAfter(f, g, n, p, c);
  }

  /** The slash-joined path of a node relative to the root, whose own path is empty. */
  ghost function PathOf<Id(!new)>(f: Forest<Id>, root: Id, n: Id): string
    requires Rooted(f, root) && n in f
    decreases f[n].depth
  {
    if n == root then ""
    else
      assert HasParent(f, n);
      Join(PathOf(f, root, f[n].parent.value), f[n].name)
  }

  /** Nodes outside the moved subtree keep their paths. */
  lemma {:induction false} RelocatedPathKept<Id(!new)>(
      f: Forest<Id>, g: Forest<Id>, root: Id, n: Id, p: Id, name: string, x: Id)
    requires Rooted(f, root) && Relocated(f, g, root, n, p, name) && Rooted(g, root)
    requires x in f && !Above(f, root, n, x)
    ensures PathOf(g, root, x) == PathOf(f, root, x)
    decreases f[x].depth
  {
    assert ChildrenAfter(f, g, n, p, x);
    if x != root {
      RootedParent(f, root, x);
      AncestorsUnfold(f, root, x);
      assert n !in Ancestors(f, root, x);
      RelocatedPathKept(f, g, root, n, p, name, f[x].parent.value);
    }
  }

  /** The moved node's path is its new parent's path joined with its new name. */
  lemma RelocatedPathMoved<Id(!new)>(f: Forest<Id>, g: Forest<Id>, root: Id, n: Id, p: Id, name: string)
    requires Rooted(f, root) && Relocated(f, g, root, n, p, name) && Rooted(g, root)
    ensures PathOf(g, root, n) == Join(PathOf(f, root, p), name)
  {
    assert ChildrenAfter(f, g, n, p, n);
    RootedParent(g, root, n);
    RelocatedPathKept(f, g, root, n, p, name, p);
  }

  /** Rebased depths: the nodes of s stand shift levels from where f has them. */
  ghost function Rebased<Id(!new)>(g: Forest<Id>, f: Forest<Id>, s: set<Id>, shift: int): (r: Forest<Id>)
    requires g.Keys == f.Keys
    ensures r.Keys == g.Keys
  {
    map x | x in g :: if x in s then g[x].(depth := Shifted(f[x].depth, shift)) else g[x]
  }

  function Shifted(depth: nat, shift: int): nat {
    if depth + shift < 0 then 0 else depth + shift
  }

  lemma RebasedTwice<Id(!new)>(g: Forest<Id>, f: Forest<Id>, s: set<Id>, t: set<Id>, shift: int)
    requires g.Keys == f.Keys
    ensures Rebased(Rebased(g, f, s, shift), f, t, shift) == Rebased(g, f, s + t, shift)
  {
  }

  /** Below n the slices and parent pointers are still those of f. */
  ghost predicate SubtreeIntact<Id(!new)>(f: Forest<Id>, g: Forest<Id>, root: Id, n: Id)
    requires Rooted(f, root) && n in f && g.Keys == f.Keys
  {
    forall x :: x in Below(f, root, n) ==>
      g[x].children == f[x].children && (x == n || g[x].parent == f[x].parent)
  }

  /** The subtree of a child is intact too, and stays so while depths are rewritten. */
  lemma ChildIntact<Id(!new)>(
      f: Forest<Id>, g: Forest<Id>, root: Id, n: Id, i: nat, s: set<Id>, shift: int)
    requires Rooted(f, root) && n in f && g.Keys == f.Keys && SubtreeIntact(f, g, root, n)
    requires i < |f[n].children|
    ensures var c := f[n].children[i];
      && c in f && c != n && f[c].depth == f[n].depth + 1
      && g[c].parent == Some(n)
      && SubtreeIntact(f, Rebased(g, f, s, shift), root, c)
  {
    var c := f[n].children[i];
    ChildDepth(f, root, n, c);
    forall x | x in Below(f, root, c)
      ensures x in Below(f, root, n) && x != n
    {
      AboveTransitive(f, root, n, c, x);
    }
    assert c in Below(f, root, c);
  }

  lemma BelowAnyGrows<Id(!new)>(f: Forest<Id>, root: Id, n: Id, i: nat)
    requires Rooted(f, root) && n in f && i <= |f[n].children|
    ensures forall c :: c in f[n].children ==> c in f
    ensures i == 0 ==> {n} + BelowAny(f, root, f[n].children[..i]) == {n}
    ensures i < |f[n].children| ==>
      {n} + BelowAny(f, root, f[n].children[..i + 1])
      == ({n} + BelowAny(f, root, f[n].children[..i])) + Below(f, root, f[n].children[i])
    ensures i == |f[n].children| ==> {n} + BelowAny(f, root, f[n].children[..i]) == Below(f, root, n)
  {
    hide Rooted, Above;
    BelowUnfolds(f, root, n);
    assert f[n].children[..|f[n].children|] == f[n].children;
    if i < |f[n].children| {
      BelowAnyAppend(f, root, n, i);
    }
  }

  /** What MoveTo has written when only the new parent's children are missing. */
  ghost function Detached<Id(!new)>(f: Forest<Id>, n: Id, name: string, p: Id): Forest<Id>
    requires n in f && f[n].parent.Some? && f[n].parent.value in f && n != f[n].parent.value
  {
    var q := f[n].parent.value;
    f[q := f[q].(children := Without(f[q].children, n))][n := f[n].(name := name, parent := Some(p))]
  }

  lemma DetachedIntact<Id(!new)>(f: Forest<Id>, root: Id, n: Id, p: Id, name: string)
    requires Rooted(f, root) && Movable(f, root, n, p, name)
    ensures HasParent(f, n) && f[n].parent.value != n
    ensures Detached(f, n, name, p).Keys == f.Keys
    ensures Detached(f, n, name, p)[p].depth == f[p].depth
    ensures SubtreeIntact(f, Detached(f, n, name, p), root, n)
  {
    RootedParent(f, root, n);
    AncestorsUnfold(f, root, n);
  }

  /** The forest MoveTo has built when only the new parent's slice still lacks n. */
  ghost function Unattached<Id(!new)>(f: Forest<Id>, root: Id, n: Id, p: Id, name: string): (d: Forest<Id>)
    requires Rooted(f, root) && Movable(f, root, n, p, name)
    requires HasParent(f, n) && f[n].parent.value != n
    ensures d.Keys == f.Keys
  {
    Rebased(Detached(f, n, name, p), f, Below(f, root, n), f[p].depth + 1 - f[n].depth)
  }

  lemma UnattachedNode<Id(!new)>(f: Forest<Id>, root: Id, n: Id, p: Id, name: string, x: Id)
    requires Rooted(f, root) && Movable(f, root, n, p, name) && x in f
    requires HasParent(f, n) && f[n].parent.value != n
    ensures var d := Unattached(f, root, n, p, name);
      d[x] == NodeAfter(f, root, n, p, name, x, d[x].children) && d[x].children == Without(f[x].children, n)
  {
    var d := Unattached(f, root, n, p, name);
    assert x in Below(f, root, n) <==> Above(f, root, n, x);
    assert d[x].children == if x == f[n].parent.value then Without(f[x].children, n) else f[x].children;
    if x != f[n].parent.value {
      OnlyParentHolds(f, root, n, x);
      WithoutAbsent(f[x].children, n);
    }
  }

  /** Attaching n to p and sorting p's children completes the relocation. */
  lemma AttachedIsRelocated<Id(!new)>(f: Forest<Id>, root: Id, n: Id, p: Id, name: string, g: Forest<Id>)
    requires Rooted(f, root) && Movable(f, root, n, p, name)
    requires HasParent(f, n) && f[n].parent.value != n
    requires var d := Unattached(f, root, n, p, name);
      && (forall c :: c in d[p].children + [n] ==> c in d)
      && g == d[p := d[p].(children := SortByName(d, d[p].children + [n]))]
    ensures Relocated(f, g, root, n, p, name)
  {
    hide Rooted, Above, Unattached, NodeAfter, HasParent;
    var d := Unattached(f, root, n, p, name);
    forall x | x in f
      ensures ChildrenAfter(f, g, n, p, x) && g[x] == NodeAfter(f, root, n, p, name, x, g[x].children)
    {
      UnattachedNode(f, root, n, p, name, x);
      if x == p {
        JoinedChildren(f, root, n, p, name, g);
        NodeAfterChildren(f, root, n, p, name, d[x].children, g[x].children);
      }
    }
  }

  lemma NodeAfterChildren<Id(!new)>(
      f: Forest<Id>, root: Id, n: Id, p: Id, name: string, cs: seq<Id>, ds: seq<Id>)
    requires Rooted(f, root) && n in f && p in f
    ensures NodeAfter(f, root, n, p, name, p, cs).(children := ds) == NodeAfter(f, root, n, p, name, p, ds)
  {
  }

  lemma JoinedChildren<Id(!new)>(f: Forest<Id>, root: Id, n: Id, p: Id, name: string, g: Forest<Id>)
    requires Rooted(f, root) && Movable(f, root, n, p, name)
    requires HasParent(f, n) && f[n].parent.value != n
    requires var d := Unattached(f, root, n, p, name);
      && (forall c :: c in d[p].children + [n] ==> c in d)
      && g == d[p := d[p].(children := SortByName(d, d[p].children + [n]))]
    ensures p in g && ChildrenAfter(f, g, n, p, p)
  {
    hide Rooted, Above, Unattached, NodeAfter, HasParent, InsertByName, SortByName;
    var d := Unattached(f, root, n, p, name);
    ChildrenKnown(f, root, p);
    UnattachedNode(f, root, n, p, name, p);
    WithoutMembers(f[p].children, n);
    DistinctAppend(d[p].children, n);
    SortSorts(d, d[p].children + [n]);
    SameNamesSorted(d, g, g[p].children);
  }

  lemma SameNamesSorted<Id(!new)>(d: Forest<Id>, g: Forest<Id>, cs: seq<Id>)
    requires NameSorted(d, cs)
    requires forall x :: x in d ==> x in g && g[x].name == d[x].name
    ensures NameSorted(g, cs)
  {
  }

  lemma OnlyParentHolds<Id(!new)>(f: Forest<Id>, root: Id, n: Id, x: Id)
    requires Rooted(f, root) && n in f && x in f && f[n].parent != Some(x)
    ensures n !in f[x].children
  {
    assert n in f[x].children ==> IsChild(f, x, n);
  }
}
