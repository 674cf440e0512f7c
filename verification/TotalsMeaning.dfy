/** What the aggregate invariant says about whole subtrees: a directory's fields are the sums over
    the set of its measured descendants, each counted exactly once. */
module TotalsMeaning {
  import opened Forest
  import opened Ordering

  /** What one node brings to the totals on its own. A directory counts itself once. */
  ghost function Own<Id(!new)>(f: Forest<Id>, self: map<Id, SelfMetadata>, x: Id): Totals
    requires x in f
  {
    if f[x].isDir then SelfOf(self, x).(dirs := 1) else Contribution(f[x])
  }

  ghost function Owns<Id(!new)>(f: Forest<Id>, self: map<Id, SelfMetadata>): map<Id, Totals> {
    map x | x in f :: Own(f, self, x)
  }

  /** The sum of the weights of a finite set of nodes. */
  ghost function SumSet<Id(!new)>(w: map<Id, Totals>, s: set<Id>): Totals
    requires s <= w.Keys
  {
    if s == {} then NOTHING else SumSet(w, s - {Pick(s)}).Plus(w[Pick(s)])
  }

  lemma {:induction false} SumSetTake<Id(!new)>(w: map<Id, Totals>, s: set<Id>, y: Id)
    requires s <= w.Keys && y in s
    ensures SumSet(w, s) == SumSet(w, s - {y}).Plus(w[y])
  {
    var x := Pick(s);
    if x != y {
      var rest := s - {x} - {y};
      assert s - {y} - {x} == rest;
      SumSetTake(w, s - {x}, y);
      SumSetTake(w, s - {y}, x);
      PlusSwap(SumSet(w, rest), w[y], w[x]);
    }
  }

  lemma {:induction false} SumSetUnion<Id(!new)>(w: map<Id, Totals>, s: set<Id>, t: set<Id>)
    requires s <= w.Keys && t <= w.Keys && s !! t
    ensures SumSet(w, s + t) == SumSet(w, s).Plus(SumSet(w, t))
    decreases t
  {
    if t == {} {
      assert s + t == s;
      assert SumSet(w, t) == NOTHING;
      PlusNothing(SumSet(w, s));
    } else {
      var y :| y in t;
      var u, st := t - {y}, s + t;
      assert st - {y} == s + u;
      var before, after, own := SumSet(w, s), SumSet(w, u), w[y];
      assert SumSet(w, st) == before.Plus(after).Plus(own) by {
        SumSetTake(w, st, y);
        SumSetUnion(w, s, u);
      }
      assert SumSet(w, t) == after.Plus(own) by {
        SumSetTake(w, t, y);
      }
      PlusAssociative(before, after, own);
    }
  }

  /** n and everything beneath it. */
  ghost function Below<Id(!new)>(f: Forest<Id>, root: Id, n: Id): set<Id>
    requires Rooted(f, root) && n in f
  {
    set x | x in f && Above(f, root, n, x)
  }

  /** The union of the subtrees of a list of nodes. */
  ghost function BelowAny<Id(!new)>(f: Forest<Id>, root: Id, cs: seq<Id>): set<Id>
    requires Rooted(f, root)
    requires forall c :: c in cs ==> c in f
  {
    set x, c | c in cs && x in f && Above(f, root, c, x) :: x
  }

  lemma {:induction false} DepthBound<Id(!new)>(f: Forest<Id>) returns (h: nat)
    ensures forall x :: x in f ==> f[x].depth <= h
  {
    var keys := f.Keys;
    h := 0;
    while keys != {}
      invariant forall x :: x in f ==> x in keys || f[x].depth <= h
      decreases keys
    {
      var x :| x in keys;
      h := if h < f[x].depth then f[x].depth else h;
      keys := keys - {x};
    }
  }

  /** Every child's subtree lies apart from the subtrees of its siblings. */
  lemma SiblingSubtreesApart<Id(!new)>(f: Forest<Id>, root: Id, d: Id, c: Id, e: Id, x: Id)
    requires Rooted(f, root) && d in f && x in f
    requires c in f[d].children && e in f[d].children && c in f && e in f && c != e
    requires Above(f, root, c, x)
    ensures !Above(f, root, e, x)
  {
    ChildDepth(f, root, d, c);
    ChildDepth(f, root, d, e);
  }

  lemma BelowUnfolds<Id(!new)>(f: Forest<Id>, root: Id, n: Id)
    requires Rooted(f, root) && n in f
    ensures forall c :: c in f[n].children ==> c in f
    ensures Below(f, root, n) == {n} + BelowAny(f, root, f[n].children)
    ensures n !in BelowAny(f, root, f[n].children)
  {
    var cs := f[n].children;
    forall c | c in cs
      ensures c in f && f[c].depth == f[n].depth + 1 && Above(f, root, n, c)
    {
      ChildDepth(f, root, n, c);
    }
    forall x | x in Below(f, root, n) && x != n
      ensures x in BelowAny(f, root, cs)
    {
      var c := ChildOnPath(f, root, n, x);
    }
    forall x | x in BelowAny(f, root, cs)
      ensures x in Below(f, root, n)
    {
      var c :| c in cs && Above(f, root, c, x);
      AboveTransitive(f, root, n, c, x);
    }
  }

  lemma BelowAnyAppend<Id(!new)>(f: Forest<Id>, root: Id, d: Id, i: nat)
    requires Rooted(f, root) && d in f && i < |f[d].children|
    requires forall c :: c in f[d].children ==> c in f
    ensures BelowAny(f, root, f[d].children[..i + 1])
         == BelowAny(f, root, f[d].children[..i]) + Below(f, root, f[d].children[i])
    ensures BelowAny(f, root, f[d].children[..i]) !! Below(f, root, f[d].children[i])
  {
    var cs := f[d].children;
    assert cs[..i + 1] == cs[..i] + [cs[i]];
    forall x | x in BelowAny(f, root, cs[..i])
      ensures x !in Below(f, root, cs[i])
    {
      var c :| c in cs[..i] && Above(f, root, c, x);
      var j :| 0 <= j < i && cs[j] == c;
      SiblingSubtreesApart(f, root, d, cs[j], cs[i], x);
    }
  }

  /** A node contributes to its parent the sum over its whole subtree. */
  lemma {:induction false} SubtreeSum<Id(!new)>(
      f: Forest<Id>, root: Id, self: map<Id, SelfMetadata>, n: Id, h: nat)
    requires Rooted(f, root) && Measured(f, root, self) && n in f
    requires forall x :: x in f ==> f[x].depth <= h
    ensures Contribution(f[n]) == SumSet(Owns(f, self), Below(f, root, n))
    decreases h - f[n].depth, |f[n].children| + 1
  {
    BelowUnfolds(f, root, n);
    var cs := f[n].children;
    assert cs[..|cs|] == cs;
    SubtreeSumPrefix(f, root, self, n, |cs|, h);
    assert Below(f, root, n) - {n} == BelowAny(f, root, cs);
    SumSetTake(Owns(f, self), Below(f, root, n), n);
    assert f[n].isDir ==> Balanced(f, root, self, n);
    LeafHasNoChildren(f, root, n);
    OwnPlusChildren(f, self, n);
  }

  lemma LeafHasNoChildren<Id(!new)>(f: Forest<Id>, root: Id, n: Id)
    requires Rooted(f, root) && n in f
    ensures f[n].isDir || f[n].children == []
  {
    if f[n].children != [] {
      ChildDepth(f, root, n, f[n].children[0]);
    }
  }

  lemma OwnPlusChildren<Id(!new)>(f: Forest<Id>, self: map<Id, SelfMetadata>, n: Id)
    requires n in f
    requires forall c :: c in f[n].children ==> c in f
    requires f[n].isDir ==> f[n].totals == SelfOf(self, n).Plus(SumOf(f, f[n].children))
    requires !f[n].isDir ==> f[n].children == []
    ensures Contribution(f[n]) == SumOf(f, f[n].children).Plus(Own(f, self, n))
  {
  }

  lemma {:induction false} SubtreeSumPrefix<Id(!new)>(
      f: Forest<Id>, root: Id, self: map<Id, SelfMetadata>, n: Id, i: nat, h: nat)
    requires Rooted(f, root) && Measured(f, root, self) && n in f && i <= |f[n].children|
    requires forall x :: x in f ==> f[x].depth <= h
    requires forall c :: c in f[n].children ==> c in f
    ensures SumOf(f, f[n].children[..i]) == SumSet(Owns(f, self), BelowAny(f, root, f[n].children[..i]))
    decreases h - f[n].depth, i
  {
    var cs := f[n].children;
    if i == 0 {
      assert BelowAny(f, root, cs[..0]) == {};
    } else {
      assert cs[..i][..i - 1] == cs[..i - 1];
      ChildDepth(f, root, n, cs[i - 1]);
      SubtreeSumPrefix(f, root, self, n, i - 1, h);
      SubtreeSum(f, root, self, cs[i - 1], h);
      BelowAnyAppend(f, root, n, i - 1);
      SumSetUnion(Owns(f, self), BelowAny(f, root, cs[..i - 1]), Below(f, root, cs[i - 1]));
    }
  }

  /** The aggregate invariant counts each measured descendant exactly once, at every directory. */
  lemma TotalsCountDescendants<Id(!new)>(f: Forest<Id>, root: Id, self: map<Id, SelfMetadata>, d: Id)
    requires Rooted(f, root) && Measured(f, root, self) && d in f && f[d].isDir
    ensures f[d].totals.(dirs := f[d].totals.dirs + 1) == SumSet(Owns(f, self), Below(f, root, d))
  {
    var h := DepthBound(f);
    SubtreeSum(f, root, self, d, h);
  }

  /** The root's totals count every node of the tree. */
  lemma RootCountsAll<Id(!new)>(f: Forest<Id>, root: Id, self: map<Id, SelfMetadata>)
    requires Rooted(f, root) && Measured(f, root, self) && root in f && f[root].isDir
    ensures f[root].totals.(dirs := f[root].totals.dirs + 1) == SumSet(Owns(f, self), f.Keys)
  {
    TotalsCountDescendants(f, root, self, root);
    forall x | x in f
      ensures x in Below(f, root, root)
    {
      AboveRoot(f, root, x);
    }
    assert Below(f, root, root) == f.Keys;
  }
}
