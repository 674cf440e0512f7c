/** Which rows make a tree, and what a snapshot that is accepted says about it. */
module SnapshotLayout {
  import opened PathOrder
  import opened Ordering
  import opened Forest
  import opened Snapshot

  /** Row i names an earlier directory as its parent, one level up. */
  predicate Linked(rows: seq<Row>, i: nat)
    requires i < |rows|
  {
    && 0 <= rows[i].parent < i && rows[rows[i].parent].isDir
    && rows[i].depth == rows[rows[i].parent].depth + 1 && IsName(rows[i].name)
  }

  /** The rows describe one tree. */
  ghost predicate AllLinked(rows: seq<Row>) {
    && |rows| > 0 && rows[0].parent == -1 && rows[0].depth == 0
    && forall i :: 0 < i < |rows| ==> Linked(rows, i)
  }

  lemma {:induction false} DepthsKnown(rows: seq<Row>, i: nat)
    requires AllLinked(rows) && i < |rows|
    ensures rows[i].depth >= 0
  {
    if i > 0 {
      assert Linked(rows, i);
      DepthsKnown(rows, rows[i].parent);
    }
  }

  /** Parent indexes that point backwards are acyclic and reach the root. */
  lemma BuiltRooted(rows: seq<Row>)
    requires AllLinked(rows)
    ensures Rooted(Built(rows), 0)
  {
    var g := Built(rows);
    forall n | n in g && n != 0
      ensures HasParent(g, n)
    {
      assert Linked(rows, n);
      DepthsKnown(rows, n);
      DepthsKnown(rows, rows[n].parent);
      WhereIn(Parents(rows), rows[n].parent);
    }
    forall n, c | n in g && c in g[n].children
      ensures IsChild(g, n, c)
    {
      WhereIn(Parents(rows), n);
    }
    forall n | n in g
      ensures Distinct(g[n].children)
    {
      WhereIn(Parents(rows), n);
    }
  }

  ghost predicate ParentsSorted(rows: seq<Row>) {
    forall i, j :: 0 <= i <= j < |rows| ==> rows[i].parent <= rows[j].parent
  }

  /** Rows that a flattening produced name their parents in order. */
  lemma FlattenedSorted<Id(!new)>(f: Forest<Id>, root: Id, order: seq<Id>, rows: seq<Row>)
    requires Flattens(f, root, order, rows)
    ensures ParentsSorted(rows)
  {
    hide Kids, Owners, BreadthFirst;
    FlatKnown(f, root, order, rows);
    KidsOwners(f, order);
    ParentsFrom(Owners(f, order), rows);
  }

  lemma FlatKnown<Id(!new)>(f: Forest<Id>, root: Id, order: seq<Id>, rows: seq<Row>)
    requires Flattens(f, root, order, rows)
    ensures forall x :: x in order ==> x in f
    ensures |rows| == |Owners(f, order)| + 1
    ensures forall i :: 0 <= i < |rows| ==> rows[i].parent == ([-1] + Owners(f, order))[i]
  {
    hide Kids, Owners;
  }

  lemma ParentsFrom(owners: seq<int>, rows: seq<Row>)
    requires |rows| == |owners| + 1 && forall i :: 0 <= i < |rows| ==> rows[i].parent == ([-1] + owners)[i]
    requires forall m :: 0 <= m < |owners| ==> owners[m] >= 0
    requires forall m, n :: 0 <= m <= n < |owners| ==> owners[m] <= owners[n]
    ensures ParentsSorted(rows)
  {
  }

  /** Rows of which each names some row of l as its parent. */
  ghost predicate KidRows(rows: seq<Row>, l: seq<nat>, kids: seq<nat>) {
    forall c :: c in kids ==> 0 < c < |rows| && rows[c].parent in l
  }

  /** With sorted parent indexes, the children of increasing rows are increasing rows. */
  lemma {:induction false} KidsIncreasing(rows: seq<Row>, l: seq<nat>)
    requires AllLinked(rows) && ParentsSorted(rows) && Increasing(l) && forall x :: x in l ==> x in Built(rows)
    ensures Increasing([0] + Kids(Built(rows), l)) && KidRows(rows, l, Kids(Built(rows), l))
  {
    hide AllLinked, ParentsSorted, Where, Built, Kids, Parents;
    KidsUnfold(Built(rows), l);
    if l != [] {
      var init, last := l[..|l| - 1], l[|l| - 1];
      assert l == init + [last] && last in l;
      KidsIncreasing(rows, init);
      var before, block := Kids(Built(rows), init), Where(Parents(rows), last);
      BlockRows(rows, l, block);
      BuiltChildren(rows, last);
      LaterBlock(rows, init, last, before, block);
      IncreasingJoin([0] + before, block);
      assert [0] + Kids(Built(rows), l) == [0] + before + block;
    }
  }

  lemma KidsUnfold<Id(!new)>(f: Forest<Id>, l: seq<Id>)
    requires forall x :: x in l ==> x in f
    ensures l == [] ==> Kids(f, l) == []
    ensures l != [] ==> l[|l| - 1] in l && Kids(f, l) == Kids(f, l[..|l| - 1]) + f[l[|l| - 1]].children
  {
    assert l != [] ==> l[|l| - 1] in l;
  }

  lemma BuiltChildren(rows: seq<Row>, i: nat)
    requires i in Built(rows)
    ensures i < |rows| && Built(rows)[i].children == Where(Parents(rows), i)
  {
  }

  lemma BlockRows(rows: seq<Row>, l: seq<nat>, block: seq<nat>)
    requires AllLinked(rows) && l != [] && block == Where(Parents(rows), l[|l| - 1])
    ensures Increasing(block) && forall c :: c in block ==> 0 < c < |rows| && rows[c].parent == l[|l| - 1]
  {
    WhereIn(Parents(rows), l[|l| - 1]);
  }

  lemma LaterBlock(rows: seq<Row>, init: seq<nat>, last: nat, before: seq<nat>, block: seq<nat>)
    requires ParentsSorted(rows) && Increasing(init + [last]) && KidRows(rows, init, before)
    requires forall c :: c in block ==> 0 < c < |rows| && rows[c].parent == last
    ensures forall c, d :: c in [0] + before && d in block ==> c < d
  {
    forall c, d | c in before && d in block
      ensures c < d
    {
      var i :| 0 <= i < |init| && init[i] == rows[c].parent;
      assert (init + [last])[i] < (init + [last])[|init|];
    }
  }

  lemma IncreasingJoin(a: seq<nat>, b: seq<nat>)
    requires Increasing(a) && Increasing(b) && forall x, y :: x in a && y in b ==> x < y
    ensures Increasing(a + b)
  {
    forall i, j | 0 <= i < j < |a + b|
      ensures (a + b)[i] < (a + b)[j]
    {
      if i < |a| <= j {
        assert (a + b)[i] in a && (a + b)[j] in b;
      }
    }
  }

  lemma {:induction false} OrderIncreasing(rows: seq<Row>, order: seq<nat>, k: nat)
    requires AllLinked(rows) && ParentsSorted(rows) && BreadthFirst(Built(rows), 0, order) && k <= |order|
    ensures Increasing(order[..k])
  {
    hide AllLinked, ParentsSorted, Built, Kids, Owners;
    if k > 0 {
      OrderIncreasing(rows, order, k - 1);
      KidsIncreasing(rows, order[..k - 1]);
      KidsOfPrefix(Built(rows), order, k - 1);
      var seen := [0] + Kids(Built(rows), order[..k - 1]);
      assert order[..k] == seen[..k];
    }
  }

  /** An increasing list of all numbers below n counts them. */
  lemma {:induction false} CountsUp(l: seq<nat>, n: nat, k: nat)
    requires Increasing(l) && (forall x: nat :: x in l <==> x < n) && k <= |l|
    ensures forall i :: 0 <= i < k ==> l[i] == i
    ensures k <= n
  {
    if k > 0 {
      CountsUp(l, n, k - 1);
      assert l[k - 1] in l;
      assert k > 1 ==> l[k - 2] < l[k - 1];
      assert k - 1 <= l[k - 1] < n;
      assert k - 1 in l;
      var i :| 0 <= i < |l| && l[i] == k - 1;
    }
  }

  /** Rebuilding and flattening again restores the rows exactly if their parent indexes never decrease:
      the form that FromTree writes. */
  lemma FlattenRebuilt(rows: seq<Row>, order: seq<nat>, again: seq<Row>)
    requires AllLinked(rows) && Flattens(Built(rows), 0, order, again)
    ensures again == rows <==> ParentsSorted(rows)
  {
    hide Rooted, Kids, Owners, Where;
    FlattenedSorted(Built(rows), 0, order, again);
    if ParentsSorted(rows) {
      var g := Built(rows);
      BuiltRooted(rows);
      OrderComplete(g, 0, order);
      OrderIncreasing(rows, order, |order|);
      assert order[..|order|] == order;
      forall x: nat
        ensures x in order <==> x < |rows|
      {
        assert x in order <==> x in Elements(order);
        assert x in Elements(order) <==> x in g;
      }
      CountsUp(order, |rows|, |order|);
      AllOfThem(order, |rows|);
      FlattenParts(g, 0, order, again);
      forall i | 0 <= i < |rows|
        ensures again[i] == rows[i]
      {
        RowParent(g, 0, order, i);
        DepthsKnown(rows, i);
      }
    }
  }

  lemma AllOfThem(l: seq<nat>, n: nat)
    requires (forall i :: 0 <= i < |l| ==> l[i] == i) && forall x: nat :: x in l <==> x < n
    ensures |l| == n
  {
    if n > 0 {
      assert n - 1 in l;
    }
    if |l| > 0 {
      assert l[|l| - 1] in l;
    }
  }
}
