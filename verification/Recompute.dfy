/** Rebuilding the totals of a subtree bottom-up (scanner.recomputeDirectory). */
module Recompute {
  import opened Ordering
  import opened Forest
  import opened TotalsMeaning
  import opened Relocation

  /** With the children of a member, s holds everything beneath it. */
  ghost predicate Closed<Id(!new)>(f: Forest<Id>, s: set<Id>) {
    forall d, c :: d in s && d in f && c in f[d].children ==> c in s
  }

  /** Between g0 and g1 exactly the directories of s were rewritten, and they balance now. */
  ghost predicate Rebuilt<Id(!new)>(
    f: Forest<Id>, g0: Forest<Id>, g1: Forest<Id>, root: Id, self: map<Id, SelfMetadata>, s: set<Id>)
  {
    && Rooted(g1, root) && SameShape(f, g0) && SameShape(f, g1)
    && (forall x {:trigger g1[x]} :: x in f && (x !in s || !f[x].isDir) ==> g1[x] == g0[x])
    && (forall d {:trigger Balanced(g1, root, self, d)} ::
        d in f && d in s && f[d].isDir ==> Balanced(g1, root, self, d))
  }

  lemma NothingRebuilt<Id(!new)>(f: Forest<Id>, g: Forest<Id>, root: Id, self: map<Id, SelfMetadata>)
    requires Rooted(f, root) && SameShape(f, g)
    ensures Rebuilt(f, g, g, root, self, {})
  {
    SameShapeRooted(f, g, root);
  }

  /** A directory keeps its balance while neither it nor its children change. */
  lemma BalancedFrame<Id(!new)>(f: Forest<Id>, g: Forest<Id>, root: Id, self: map<Id, SelfMetadata>, d: Id)
    requires Rooted(f, root) && Rooted(g, root) && d in f && d in g && g[d] == f[d]
    requires forall c :: c in f[d].children ==> c in f && c in g && g[c] == f[c]
    requires Balanced(f, root, self, d)
    ensures Balanced(g, root, self, d)
  {
    hide Rooted, IsChild;
    SumAgrees(f, g, f[d].children);
  }

  lemma RebuiltJoin<Id(!new)>(
      f: Forest<Id>, g0: Forest<Id>, g1: Forest<Id>, g2: Forest<Id>, root: Id, self: map<Id, SelfMetadata>,
      s: set<Id>, t: set<Id>)
    requires Rooted(f, root) && Closed(f, s) && s !! t
    requires Rebuilt(f, g0, g1, root, self, s) && Rebuilt(f, g1, g2, root, self, t)
    ensures Rebuilt(f, g0, g2, root, self, s + t)
  {
    forall d | d in f && d in s + t && f[d].isDir
      ensures Balanced(g2, root, self, d)
    {
      if d !in t {
        assert Balanced(g1, root, self, d);
        ChildrenKnown(f, root, d);
        BalancedFrame(g1, g2, root, self, d);
      }
    }
  }

  lemma BelowAnyClosed<Id(!new)>(f: Forest<Id>, root: Id, cs: seq<Id>)
    requires Rooted(f, root) && forall c :: c in cs ==> c in f
    ensures Closed(f, BelowAny(f, root, cs))
  {
    var s := BelowAny(f, root, cs);
    forall d, e | d in s && d in f && e in f[d].children
      ensures e in s
    {
      var c :| c in cs && Above(f, root, c, d);
      ChildDepth(f, root, d, e);
      AboveTransitive(f, root, c, d, e);
    }
  }

  /** Writing a directory's freshly added-up totals completes its subtree. */
  lemma RebuiltTop<Id(!new)>(
      f: Forest<Id>, g0: Forest<Id>, g1: Forest<Id>, root: Id, self: map<Id, SelfMetadata>, n: Id)
    requires Rooted(f, root) && n in f && f[n].isDir && (forall c :: c in f[n].children ==> c in f && c in g1)
    requires Rebuilt(f, g0, g1, root, self, BelowAny(f, root, f[n].children))
    requires n in g1
    ensures var total := SelfOf(self, n).Plus(SumOf(g1, f[n].children));
      Rebuilt(f, g0, g1[n := g1[n].(totals := total)], root, self, Below(f, root, n))
  {
    BelowUnfolds(f, root, n);
    BelowAnyClosed(f, root, f[n].children);
    RebuiltTopFrom(f, g0, g1, root, self, n, BelowAny(f, root, f[n].children));
  }

  lemma RebuiltTopFrom<Id(!new)>(
      f: Forest<Id>, g0: Forest<Id>, g1: Forest<Id>, root: Id, self: map<Id, SelfMetadata>, n: Id, s: set<Id>)
    requires Rooted(f, root) && n in f && f[n].isDir && (forall c :: c in f[n].children ==> c in f && c in g1)
    requires Closed(f, s) && n !in s && n in g1
    requires Rebuilt(f, g0, g1, root, self, s)
    ensures var total := SelfOf(self, n).Plus(SumOf(g1, f[n].children));
      Rebuilt(f, g0, g1[n := g1[n].(totals := total)], root, self, {n} + s)
  {
    hide Rooted, IsChild;
    var total := SelfOf(self, n).Plus(SumOf(g1, f[n].children));
    var g2 := g1[n := g1[n].(totals := total)];
    SameShapeRooted(f, g2, root);
    forall d | d in f && d in {n} + s && f[d].isDir
      ensures Balanced(g2, root, self, d)
    {
      ChildrenKnown(f, root, d);
      if d == n {
        NotOwnChild(f, root, n);
        SumAgrees(g1, g2, f[n].children);
      } else {
        assert Balanced(g1, root, self, d);
        BalancedFrame(g1, g2, root, self, d);
      }
    }
  }

  lemma NotOwnChild<Id(!new)>(f: Forest<Id>, root: Id, n: Id)
    requires Rooted(f, root) && n in f
    ensures n !in f[n].children
  {
    if n in f[n].children {
      ChildDepth(f, root, n, n);
    }
  }

  /** Everything lies below the root. */
  lemma RootedBelow<Id(!new)>(f: Forest<Id>, root: Id, x: Id)
    requires Rooted(f, root) && x in f
    ensures x in Below(f, root, root)
  {
    AboveRoot(f, root, x);
  }

  lemma RebuiltAll<Id(!new)>(f: Forest<Id>, g0: Forest<Id>, g1: Forest<Id>, root: Id, self: map<Id, SelfMetadata>)
    requires Rooted(f, root) && Rebuilt(f, g0, g1, root, self, Below(f, root, root))
    ensures Measured(g1, root, self)
  {
    forall d | d in g1 && g1[d].isDir
      ensures Balanced(g1, root, self, d)
    {
      RootedBelow(f, root, d);
    }
  }

  lemma {:induction false} SumWithout<Id(!new)>(f: Forest<Id>, cs: seq<Id>, x: Id)
    requires Distinct(cs) && x in cs && forall c :: c in cs ==> c in f
    ensures forall c :: c in Without(cs, x) ==> c in f
    ensures SumOf(f, cs) == SumOf(f, Without(cs, x)).Plus(Contribution(f[x]))
  {
    var init, last := cs[..|cs| - 1], cs[|cs| - 1];
    assert cs == init + [last];
    WithoutMembers(cs, x);
    if last == x {
      WithoutAbsent(init, x);
    } else {
      WithoutMembers(init, x);
      SumWithout(f, init, x);
      SumAppend(f, Without(init, x), last);
      PlusSwap(SumOf(f, Without(init, x)), Contribution(f[x]), Contribution(f[last]));
    }
  }

  lemma SumAppend<Id(!new)>(f: Forest<Id>, cs: seq<Id>, x: Id)
    requires x in f && forall c :: c in cs ==> c in f
    ensures SumOf(f, cs + [x]) == SumOf(f, cs).Plus(Contribution(f[x]))
  {
    assert (cs + [x])[..|cs|] == cs;
  }

  /** The order of the children does not matter to their sum. */
  lemma {:induction false} SumReordered<Id(!new)>(f: Forest<Id>, a: seq<Id>, b: seq<Id>)
    requires Distinct(a) && Distinct(b) && (forall x :: x in a <==> x in b) && forall c :: c in a ==> c in f
    ensures SumOf(f, a) == SumOf(f, b)
    decreases |a|
  {
    EmptyTogether(a, b);
    if b != [] {
      var x := b[|b| - 1];
      assert b == b[..|b| - 1] + [x];
      assert x in b;
      SumWithout(f, a, x);
      WithoutMembers(a, x);
      WithoutShorter(a, x);
      forall y
        ensures y in Without(a, x) <==> y in b[..|b| - 1]
      {
        assert y in b <==> y in b[..|b| - 1] || y == x;
      }
      SumReordered(f, Without(a, x), b[..|b| - 1]);
    }
  }

  lemma {:induction false} WithoutShorter<T(!new)>(s: seq<T>, x: T)
    ensures |Without(s, x)| <= |s|
    ensures x in s ==> |Without(s, x)| < |s|
  {
    if s != [] {
      WithoutShorter(s[..|s| - 1], x);
      assert s == s[..|s| - 1] + [s[|s| - 1]];
    }
  }
}
