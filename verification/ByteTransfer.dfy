/** Moving bytes between entries of the measured tree without touching its shape. */
module ByteTransfer {
  import opened Options
  import opened Forest
  import opened Ordering
  import opened TotalsMeaning
  import opened Relocation

  /** f and g differ at most in apparent and allocated bytes and in the hardlink flags of leaves. */
  ghost predicate SameButBytes<Id(!new)>(f: Forest<Id>, g: Forest<Id>) {
    && g.Keys == f.Keys
    && forall x {:trigger g[x]} :: x in f ==>
         g[x] == f[x].(totals := f[x].totals.(apparent := g[x].totals.apparent, alloc := g[x].totals.alloc),
                       hardlink := if f[x].isDir then f[x].hardlink else g[x].hardlink)
  }

  lemma SameButBytesRooted<Id(!new)>(f: Forest<Id>, g: Forest<Id>, root: Id)
    requires Rooted(f, root) && SameButBytes(f, g)
    ensures Rooted(g, root)
  {
    forall n | n in g && n != root
      ensures HasParent(g, n)
    {
      assert HasParent(f, n);
    }
    forall n, c | n in g && c in g[n].children
      ensures IsChild(g, n, c)
    {
      assert IsChild(f, n, c);
    }
  }

  lemma {:induction false} SameButBytesPath<Id(!new)>(f: Forest<Id>, g: Forest<Id>, root: Id, x: Id)
    requires Rooted(f, root) && Rooted(g, root) && SameButBytes(f, g) && x in f
    ensures PathOf(g, root, x) == PathOf(f, root, x)
    decreases f[x].depth
  {
    if x != root {
      assert HasParent(f, x);
      SameButBytesPath(f, g, root, f[x].parent.value);
    }
  }

  lemma SameButBytesTransitive<Id(!new)>(f: Forest<Id>, g: Forest<Id>, h: Forest<Id>)
    requires SameButBytes(f, g) && SameButBytes(g, h)
    ensures SameButBytes(f, h)
  {
  }

  ghost function ByteDelta<Id(!new)>(v: Node<Id>, apparent: int, alloc: int): Totals {
    Totals(apparent - v.totals.apparent, alloc - v.totals.alloc, 0, 0, 0)
  }

  /** The leaf x with its bytes and flag rewritten. */
  ghost function WithBytes<Id(!new)>(f: Forest<Id>, x: Id, apparent: int, alloc: int, hardlink: bool): Forest<Id>
    requires x in f
  {
    f[x := f[x].(totals := f[x].totals.(apparent := apparent, alloc := alloc), hardlink := hardlink)]
  }

  lemma WithBytesShape<Id(!new)>(f: Forest<Id>, root: Id, x: Id, apparent: int, alloc: int, hardlink: bool)
    requires Rooted(f, root) && x in f && x != root && !f[x].isDir
    ensures var g := WithBytes(f, x, apparent, alloc, hardlink);
      SameButBytes(f, g) && Rooted(g, root) && HasParent(g, x) && g[x].parent == f[x].parent
  {
    var g := WithBytes(f, x, apparent, alloc, hardlink);
    SameButBytesRooted(f, g, root);
    RootedParent(g, root, x);
  }

  /** Rewriting a leaf's bytes leaves only its parent out of balance, by the change. */
  lemma WithBytesBalance<Id(!new)>(
      f: Forest<Id>, root: Id, self: map<Id, SelfMetadata>, x: Id, apparent: int, alloc: int, hardlink: bool)
    requires Rooted(f, root) && Measured(f, root, self) && x in f && x != root && !f[x].isDir
    requires Rooted(WithBytes(f, x, apparent, alloc, hardlink), root) && HasParent(f, x)
    ensures OffBy(WithBytes(f, x, apparent, alloc, hardlink), root, self, f[x].parent.value,
                  ByteDelta(f[x], apparent, alloc))
  {
    var g := WithBytes(f, x, apparent, alloc, hardlink);
    forall d | d in g && g[d].isDir && d != f[x].parent.value
      ensures Balanced(g, root, self, d)
    {
      WithBytesBeside(f, root, self, x, apparent, alloc, hardlink, d);
    }
    WithBytesAtParent(f, root, self, x, apparent, alloc, hardlink);
  }

  lemma WithBytesBeside<Id(!new)>(
      f: Forest<Id>, root: Id, self: map<Id, SelfMetadata>, x: Id, apparent: int, alloc: int, hardlink: bool, d: Id)
    requires Rooted(f, root) && Measured(f, root, self) && x in f && !f[x].isDir
    requires Rooted(WithBytes(f, x, apparent, alloc, hardlink), root)
    requires d in f && f[d].isDir && f[x].parent != Some(d)
    ensures Balanced(WithBytes(f, x, apparent, alloc, hardlink), root, self, d)
  {
    var g := WithBytes(f, x, apparent, alloc, hardlink);
    assert Balanced(f, root, self, d);
    forall c | c in f[d].children
      ensures c in f && c != x
    {
      assert IsChild(f, d, c);
    }
    SumAgrees(f, g, f[d].children);
  }

  lemma WithBytesAtParent<Id(!new)>(
      f: Forest<Id>, root: Id, self: map<Id, SelfMetadata>, x: Id, apparent: int, alloc: int, hardlink: bool)
    requires Rooted(f, root) && Measured(f, root, self) && x in f && !f[x].isDir && HasParent(f, x)
    ensures LacksDelta(WithBytes(f, x, apparent, alloc, hardlink), self, f[x].parent.value,
                       ByteDelta(f[x], apparent, alloc))
  {
    hide Rooted, Measured;
    var g := WithBytes(f, x, apparent, alloc, hardlink);
    var p := f[x].parent.value;
    BalancedParts(f, root, self, p);
    var cs := f[p].children;
    WithBytesSum(f, x, apparent, alloc, hardlink, cs);
    PlusAssociative(SelfOf(self, p), SumOf(f, cs), ByteDelta(f[x], apparent, alloc));
  }

  lemma BalancedParts<Id(!new)>(f: Forest<Id>, root: Id, self: map<Id, SelfMetadata>, d: Id)
    requires Rooted(f, root) && Measured(f, root, self) && d in f && f[d].isDir
    ensures Distinct(f[d].children) && forall c :: c in f[d].children ==> c in f
    ensures f[d].totals == SelfOf(self, d).Plus(SumOf(f, f[d].children))
  {
    assert Balanced(f, root, self, d);
    ChildrenKnown(f, root, d);
  }

  lemma WithBytesSum<Id(!new)>(f: Forest<Id>, x: Id, apparent: int, alloc: int, hardlink: bool, cs: seq<Id>)
    requires x in f && !f[x].isDir && Distinct(cs) && x in cs
    requires forall c :: c in cs ==> c in f
    ensures SumOf(WithBytes(f, x, apparent, alloc, hardlink), cs)
      == SumOf(f, cs).Plus(ByteDelta(f[x], apparent, alloc))
  {
    SumOneChanged(f, WithBytes(f, x, apparent, alloc, hardlink), cs, x, ByteDelta(f[x], apparent, alloc));
  }

  /** The tree after one leaf took new bytes and the change reached all its ancestors. */
  ghost function Reassigned<Id(!new)>(
      f: Forest<Id>, root: Id, x: Id, apparent: int, alloc: int, hardlink: bool): Forest<Id>
    requires Rooted(f, root) && x in f && x != root && !f[x].isDir
  {
    WithBytesShape(f, root, x, apparent, alloc, hardlink);
    AddUp(WithBytes(f, x, apparent, alloc, hardlink), root, f[x].parent.value, ByteDelta(f[x], apparent, alloc))
  }

  lemma ReassignedShape<Id(!new)>(f: Forest<Id>, root: Id, x: Id, apparent: int, alloc: int, hardlink: bool)
    requires Rooted(f, root) && x in f && x != root && !f[x].isDir
    ensures var h := Reassigned(f, root, x, apparent, alloc, hardlink);
      && SameButBytes(f, h) && Rooted(h, root)
      && h[x].totals.apparent == apparent && h[x].totals.alloc == alloc && h[x].hardlink == hardlink
      && (forall y :: y in f && y != x && !f[y].isDir ==> h[y] == f[y])
      && h[root].totals == f[root].totals.Plus(ByteDelta(f[x], apparent, alloc))
  {
    WithBytesShape(f, root, x, apparent, alloc, hardlink);
    var g := WithBytes(f, x, apparent, alloc, hardlink);
    var p := f[x].parent.value;
    AncestorsAreDirs(g, root, p);
    var h := Reassigned(f, root, x, apparent, alloc, hardlink);
    SameButBytesRooted(f, h, root);
  }

  lemma AncestorsAreDirs<Id(!new)>(f: Forest<Id>, root: Id, p: Id)
    requires Rooted(f, root) && p in f && f[p].isDir
    ensures root in Ancestors(f, root, p)
    ensures forall y :: y in Ancestors(f, root, p) ==> f[y].isDir
  {
    AboveRoot(f, root, p);
    forall y | y in Ancestors(f, root, p)
      ensures f[y].isDir
    {
      PathNodesAreDirs(f, root, y, p);
    }
  }

  lemma ReassignedMeasured<Id(!new)>(
      f: Forest<Id>, root: Id, self: map<Id, SelfMetadata>, x: Id, apparent: int, alloc: int, hardlink: bool)
    requires Rooted(f, root) && Measured(f, root, self) && x in f && x != root && !f[x].isDir
    requires Rooted(Reassigned(f, root, x, apparent, alloc, hardlink), root)
    ensures Measured(Reassigned(f, root, x, apparent, alloc, hardlink), root, self)
  {
    hide Rooted, Measured, OffBy, AddUp;
    WithBytesShape(f, root, x, apparent, alloc, hardlink);
    RootedParent(f, root, x);
    WithBytesBalance(f, root, self, x, apparent, alloc, hardlink);
    AddUpBalances(WithBytes(f, x, apparent, alloc, hardlink), root, self, f[x].parent.value,
                  ByteDelta(f[x], apparent, alloc));
  }

  /** By how much the root's bytes differ from the bytes that the tree's nodes hold. */
  ghost function Gap<Id(!new)>(f: Forest<Id>, root: Id, self: map<Id, SelfMetadata>): (int, int)
    requires root in f
  {
    var held := SumSet(Owns(f, self), f.Keys);
    (f[root].totals.apparent - held.apparent, f[root].totals.alloc - held.alloc)
  }

  lemma SumSetOneChanged<Id(!new)>(w: map<Id, Totals>, v: map<Id, Totals>, s: set<Id>, x: Id, delta: Totals)
    requires s <= w.Keys && s <= v.Keys && x in s && v[x] == w[x].Plus(delta)
    requires forall y :: y in s && y != x ==> v[y] == w[y]
    ensures SumSet(v, s) == SumSet(w, s).Plus(delta)
  {
    SumSetTake(w, s, x);
    SumSetTake(v, s, x);
    SumSetAgrees(w, v, s - {x});
    PlusAssociative(SumSet(w, s - {x}), w[x], delta);
  }

  lemma {:induction false} SumSetAgrees<Id(!new)>(w: map<Id, Totals>, v: map<Id, Totals>, s: set<Id>)
    requires s <= w.Keys && s <= v.Keys && forall y :: y in s ==> v[y] == w[y]
    ensures SumSet(v, s) == SumSet(w, s)
  {
    if s != {} {
      SumSetAgrees(w, v, s - {Pick(s)});
    }
  }

  /** A reassignment moves the root's bytes by exactly what the leaf gained. */
  lemma ReassignedGap<Id(!new)>(
      f: Forest<Id>, root: Id, self: map<Id, SelfMetadata>, x: Id, apparent: int, alloc: int, hardlink: bool)
    requires Rooted(f, root) && x in f && x != root && !f[x].isDir
    requires root in Reassigned(f, root, x, apparent, alloc, hardlink)
    ensures Gap(Reassigned(f, root, x, apparent, alloc, hardlink), root, self) == Gap(f, root, self)
  {
    ReassignedShape(f, root, x, apparent, alloc, hardlink);
    var h := Reassigned(f, root, x, apparent, alloc, hardlink);
    hide Rooted, Reassigned;
    SumSetOneChanged(Owns(f, self), Owns(h, self), f.Keys, x, ByteDelta(f[x], apparent, alloc));
  }
}
