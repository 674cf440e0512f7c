/** The flattened form of a measured tree: breadth-first rows that name their parents by index. */
module Snapshot {
  import opened Options
  import opened Ordering
  import opened Forest

  /** FlatNode. */
  datatype Row = Row(
    name: string, isDir: bool, depth: int, totals: Totals, hardlink: bool, failed: bool, parent: int)

  /** The children of a list of nodes, one after the other. */
  ghost function Kids<Id(!new)>(f: Forest<Id>, l: seq<Id>): seq<Id>
    requires forall x :: x in l ==> x in f
  {
    if l == [] then []
    else
      assert l[|l| - 1] in l;
      Kids(f, l[..|l| - 1]) + f[l[|l| - 1]].children
  }

  /** For each of these children the position of its parent in the list. */
  ghost function Owners<Id(!new)>(f: Forest<Id>, l: seq<Id>): seq<int>
    requires forall x :: x in l ==> x in f
  {
    if l == [] then []
    else
      assert l[|l| - 1] in l;
      Owners(f, l[..|l| - 1]) + Copies(|l| - 1, |f[l[|l| - 1]].children|)
  }

  function Copies(v: int, n: nat): (s: seq<int>)
    ensures |s| == n && forall i :: 0 <= i < n ==> s[i] == v
  {
    seq(n, _ => v)
  }

  /** order visits the root first and every other node as a child of a node visited before. */
  ghost predicate BreadthFirst<Id(!new)>(f: Forest<Id>, root: Id, order: seq<Id>) {
    && (forall x :: x in order ==> x in f)
    && order == [root] + Kids(f, order)
    && forall k :: 0 <= k < |order| ==> k <= |Kids(f, order[..k])|
  }

  function RowOf<Id>(v: Node<Id>, parent: int): Row {
    Row(v.name, v.isDir, v.depth, v.totals, v.hardlink, v.failed, parent)
  }

  /** rows are the breadth-first rows of f, and order says which node each row describes. */
  ghost predicate Flattens<Id(!new)>(f: Forest<Id>, root: Id, order: seq<Id>, rows: seq<Row>) {
    && BreadthFirst(f, root, order) && |rows| == |order| && |Owners(f, order)| == |order| - 1
    && forall i :: 0 <= i < |rows| ==> rows[i] == RowOf(f[order[i]], ([-1] + Owners(f, order))[i])
  }

  lemma {:induction false} KidsOwners<Id(!new)>(f: Forest<Id>, l: seq<Id>)
    requires forall x :: x in l ==> x in f
    ensures |Owners(f, l)| == |Kids(f, l)|
    ensures forall m :: 0 <= m < |Owners(f, l)| ==>
      0 <= Owners(f, l)[m] < |l| && Kids(f, l)[m] in f[l[Owners(f, l)[m]]].children
    ensures forall m, n :: 0 <= m <= n < |Owners(f, l)| ==> Owners(f, l)[m] <= Owners(f, l)[n]
  {
    if l != [] {
      assert l[|l| - 1] in l;
      KidsOwners(f, l[..|l| - 1]);
    }
  }

  lemma {:induction false} KidsOfPrefix<Id(!new)>(f: Forest<Id>, l: seq<Id>, k: nat)
    requires (forall x :: x in l ==> x in f) && k <= |l|
    ensures Kids(f, l[..k]) <= Kids(f, l) && Owners(f, l[..k]) <= Owners(f, l)
  {
    if k < |l| {
      KidsOfPrefix(f, l[..|l| - 1], k);
      assert l[..|l| - 1][..k] == l[..k];
    } else {
      assert l[..k] == l;
    }
  }

  lemma {:induction false} KidIn<Id(!new)>(f: Forest<Id>, l: seq<Id>, x: Id, c: Id)
    requires (forall y :: y in l ==> y in f) && x in l && c in f[x].children
    ensures c in Kids(f, l)
  {
    var init, last := l[..|l| - 1], l[|l| - 1];
    assert l == init + [last];
    if x in init {
      KidIn(f, init, x, c);
    }
  }

  lemma {:induction false} KidHasParent<Id(!new)>(f: Forest<Id>, root: Id, l: seq<Id>, c: Id)
    requires Rooted(f, root) && (forall y :: y in l ==> y in f) && c in Kids(f, l)
    ensures c in f && c != root && f[c].parent.Some? && f[c].parent.value in l
  {
    var init, last := l[..|l| - 1], l[|l| - 1];
    assert l == init + [last];
    if c in Kids(f, init) {
      KidHasParent(f, root, init, c);
    } else {
      ChildDepth(f, root, last, c);
    }
  }

  lemma Concatenated<T(!new)>(a: seq<T>, b: seq<T>)
    requires Distinct(a) && Distinct(b) && forall x :: x in a ==> x !in b
    ensures Distinct(a + b)
  {
    forall i, j | 0 <= i < j < |a + b|
      ensures (a + b)[i] != (a + b)[j]
    {
      if i < |a| <= j {
        assert (a + b)[i] in a && (a + b)[j] == b[j - |a|];
      }
    }
  }

  /** Nobody is visited twice. */
  lemma {:induction false} KidsDistinct<Id(!new)>(f: Forest<Id>, root: Id, l: seq<Id>)
    requires Rooted(f, root) && Distinct(l) && forall x :: x in l ==> x in f
    ensures Distinct([root] + Kids(f, l)) && forall x :: x in Kids(f, l) ==> x in f
  {
    forall c | c in Kids(f, l)
      ensures c in f && c != root
    {
      KidHasParent(f, root, l, c);
    }
    if l != [] {
      var init, last := l[..|l| - 1], l[|l| - 1];
      assert l == init + [last];
      KidsDistinct(f, root, init);
      ChildrenKnown(f, root, last);
      assert last !in init;
      forall c | c in Kids(f, init)
        ensures c !in f[last].children
      {
        KidHasParent(f, root, init, c);
        assert c in f[last].children ==> IsChild(f, last, c);
      }
      Concatenated([root] + Kids(f, init), f[last].children);
      assert [root] + Kids(f, l) == [root] + Kids(f, init) + f[last].children;
    }
  }

  /** A breadth-first order reaches every node, each once. */
  lemma OrderComplete<Id(!new)>(f: Forest<Id>, root: Id, order: seq<Id>)
    requires Rooted(f, root) && BreadthFirst(f, root, order)
    ensures Elements(order) == f.Keys && Distinct(order)
  {
    OrderDistinct(f, root, order, |order|);
    assert order[..|order|] == order;
    forall x | x in f
      ensures x in order
    {
      Reached(f, root, order, x);
    }
  }

  lemma {:induction false} OrderDistinct<Id(!new)>(f: Forest<Id>, root: Id, order: seq<Id>, k: nat)
    requires Rooted(f, root) && BreadthFirst(f, root, order) && k <= |order|
    ensures Distinct(order[..k])
  {
    if k > 0 {
      OrderDistinct(f, root, order, k - 1);
      KidsDistinct(f, root, order[..k - 1]);
      KidsOfPrefix(f, order, k - 1);
      var seen := [root] + Kids(f, order[..k - 1]);
      assert order[..k] == seen[..k];
    }
  }

  lemma {:induction false} Reached<Id(!new)>(f: Forest<Id>, root: Id, order: seq<Id>, x: Id)
    requires Rooted(f, root) && BreadthFirst(f, root, order) && x in f
    ensures x in order
    decreases f[x].depth
  {
    assert order[0] == root;
    if x != root {
      RootedParent(f, root, x);
      Reached(f, root, order, f[x].parent.value);
      KidIn(f, order, f[x].parent.value, x);
      var m :| 0 <= m < |Kids(f, order)| && Kids(f, order)[m] == x;
      assert order[m + 1] == x;
    }
  }

  /** FromTree: a queue of nodes with the row index of their parents. */
  method FromTree<Id(!new,==)>(f: Forest<Id>, root: Id) returns (rows: seq<Row>)
    requires Rooted(f, root)
    ensures exists order :: Flattens(f, root, order, rows)
  {
    hide Rooted, Owners, Kids, QueueIs, Distinct;
    RootIsThere(f, root);
    rows := [];
    ghost var order: seq<Id> := [];
    var queue: seq<(Id, int)> := [(root, -1)];
    while |queue| > 0
      invariant (forall x :: x in order ==> x in f) && Distinct(order)
      invariant QueueIs(f, root, order, queue) && EarlyEnough(f, order)
      invariant RowsOf(f, order, rows)
      decreases |f| - |order|
    {
      ghost var before, visited := queue, order;
      Dequeue(f, root, visited, before);
      var it := queue[0];
      queue := queue[1..];
      var idx := |rows|;
      rows := rows + [RowOf(f[it.0], it.1)];
      order := order + [it.0];
      var cs := f[it.0].children;
      ghost var rest := queue;
      for i := 0 to |cs|
        invariant queue == rest + Items(cs[..i], idx)
      {
        assert Items(cs[..i + 1], idx) == Items(cs[..i], idx) + [(cs[i], idx)];
        queue := queue + [(cs[i], idx)];
      }
      assert cs[..|cs|] == cs;
      Enqueued(f, root, visited, before, queue);
      RowAdded(f, root, visited, before, rows[..idx], rows);
    }
    Drained(f, root, order, queue, rows);
  }

  ghost predicate EarlyEnough<Id(!new)>(f: Forest<Id>, order: seq<Id>)
    requires forall x :: x in order ==> x in f
  {
    forall k :: 0 <= k < |order| ==> k <= |Kids(f, order[..k])|
  }

  ghost predicate RowsOf<Id(!new)>(f: Forest<Id>, order: seq<Id>, rows: seq<Row>)
    requires forall x :: x in order ==> x in f
  {
    && |rows| == |order| && |order| <= |Owners(f, order)| + 1
    && forall i :: 0 <= i < |rows| ==> rows[i] == RowOf(f[order[i]], ([-1] + Owners(f, order))[i])
  }

  ghost function Items<Id>(cs: seq<Id>, parent: int): (q: seq<(Id, int)>)
    ensures |q| == |cs| && forall i :: 0 <= i < |q| ==> q[i] == (cs[i], parent)
  {
    seq(|cs|, i requires 0 <= i < |cs| => (cs[i], parent))
  }

  /** What was visited and what waits are together the root and the children of the visited. */
  ghost predicate QueueIs<Id(!new)>(f: Forest<Id>, root: Id, order: seq<Id>, queue: seq<(Id, int)>)
    requires forall x :: x in order ==> x in f
  {
    var all, parents := [root] + Kids(f, order), [-1] + Owners(f, order);
    && |all| == |order| + |queue| && |parents| == |all|
    && (forall i :: 0 <= i < |order| ==> order[i] == all[i])
    && (forall i :: 0 <= i < |queue| ==> queue[i] == (all[|order| + i], parents[|order| + i]))
  }

  lemma RootIsThere<Id(!new)>(f: Forest<Id>, root: Id)
    requires Rooted(f, root)
    ensures root in f && QueueIs(f, root, [], [(root, -1)]) && Distinct<Id>([])
    ensures RowsOf(f, [], [])
  {
  }

  lemma OneMore<Id(!new)>(f: Forest<Id>, order: seq<Id>, x: Id)
    requires x in f && forall y :: y in order ==> y in f
    ensures Kids(f, order + [x]) == Kids(f, order) + f[x].children
    ensures Owners(f, order + [x]) == Owners(f, order) + Copies(|order|, |f[x].children|)
  {
    assert (order + [x])[..|order|] == order;
  }

  /** The node at the head of the queue is new. */
  lemma Dequeue<Id(!new)>(f: Forest<Id>, root: Id, order: seq<Id>, queue: seq<(Id, int)>)
    requires Rooted(f, root) && Distinct(order) && (forall x :: x in order ==> x in f)
    requires QueueIs(f, root, order, queue) && |queue| > 0
    ensures queue[0].0 in f && queue[0].0 !in order && Distinct(order + [queue[0].0]) && |order| < |f|
  {
    var x := queue[0].0;
    KidsDistinct(f, root, order);
    var all := [root] + Kids(f, order);
    assert x == all[|order|];
    assert x in f;
    forall i | 0 <= i < |order|
      ensures order[i] != x
    {
    }
    ElementsCount(order + [x]);
    SubsetSize(Elements(order + [x]), f.Keys);
  }

  lemma Enqueued<Id(!new)>(
      f: Forest<Id>, root: Id, order: seq<Id>, queue: seq<(Id, int)>, queue2: seq<(Id, int)>)
    requires (forall x :: x in order ==> x in f) && EarlyEnough(f, order)
    requires QueueIs(f, root, order, queue) && |queue| > 0 && queue[0].0 in f
    requires queue2 == queue[1..] + Items(f[queue[0].0].children, |order|)
    ensures QueueIs(f, root, order + [queue[0].0], queue2) && EarlyEnough(f, order + [queue[0].0])
  {
    hide EarlyEnough, Kids, Owners;
    OneMore(f, order, queue[0].0);
    StillEarly(f, order, queue[0].0);
  }

  lemma StillEarly<Id(!new)>(f: Forest<Id>, order: seq<Id>, x: Id)
    requires x in f && (forall y :: y in order ==> y in f) && EarlyEnough(f, order) && |order| <= |Kids(f, order)|
    ensures EarlyEnough(f, order + [x])
  {
    hide Kids;
    var grown := order + [x];
    forall k | 0 <= k < |grown|
      ensures k <= |Kids(f, grown[..k])|
    {
      assert grown[..k] == order[..k];
      assert order[..|order|] == order;
    }
  }

  lemma RowAdded<Id(!new)>(
      f: Forest<Id>, root: Id, order: seq<Id>, queue: seq<(Id, int)>, rows: seq<Row>, rows2: seq<Row>)
    requires (forall x :: x in order ==> x in f) && RowsOf(f, order, rows)
    requires QueueIs(f, root, order, queue) && |queue| > 0 && queue[0].0 in f
    requires rows2 == rows + [RowOf(f[queue[0].0], queue[0].1)]
    ensures RowsOf(f, order + [queue[0].0], rows2)
  {
    OneMore(f, order, queue[0].0);
  }

  lemma Drained<Id(!new)>(f: Forest<Id>, root: Id, order: seq<Id>, queue: seq<(Id, int)>, rows: seq<Row>)
    requires (forall x :: x in order ==> x in f) && EarlyEnough(f, order) && RowsOf(f, order, rows)
    requires QueueIs(f, root, order, queue) && queue == []
    ensures Flattens(f, root, order, rows)
  {
    KidsOwners(f, order);
    assert order == [root] + Kids(f, order);
  }

  // Rebuilding.

  /** The positions at which p holds i, in order. */
  function Where(p: seq<int>, i: int): seq<nat> {
    if p == [] then []
    else Where(p[..|p| - 1], i) + (if p[|p| - 1] == i then [|p| - 1] else [])
  }

  function Parents(rows: seq<Row>): (p: seq<int>)
    ensures |p| == |rows| && forall i :: 0 <= i < |p| ==> p[i] == rows[i].parent
  {
    seq(|rows|, i requires 0 <= i < |rows| => rows[i].parent)
  }

  /** The node that row i describes, linked to the rows that name it as their parent. */
  function NodeAt(rows: seq<Row>, i: nat): Node<nat>
    requires i < |rows|
  {
    var r := rows[i];
    Node(r.name, r.isDir, if r.depth < 0 then 0 else r.depth, r.totals, r.hardlink, r.failed,
         if r.parent < 0 then None else Some(r.parent), Where(Parents(rows), i))
  }

  ghost function Built(rows: seq<Row>): Forest<nat> {
    map i: nat | i < |rows| :: NodeAt(rows, i)
  }

  /** g is f with order[i] called i. */
  ghost predicate Renumbered<Id(!new)>(f: Forest<Id>, order: seq<Id>, g: Forest<nat>) {
    && Elements(order) == f.Keys && Distinct(order) && (forall i: nat :: i in g <==> i < |order|)
    && forall i {:trigger g[i]} :: 0 <= i < |order| ==> SameNode(f, order, g, i)
  }

  ghost predicate SameNode<Id(!new)>(f: Forest<Id>, order: seq<Id>, g: Forest<nat>, i: nat)
    requires i < |order| && i in g
  {
    && order[i] in f
    && var v, w := f[order[i]], g[i];
    && w.name == v.name && w.isDir == v.isDir && w.depth == v.depth && w.totals == v.totals
    && w.hardlink == v.hardlink && w.failed == v.failed
    && (if w.parent.Some? then w.parent.value < |order| && v.parent == Some(order[w.parent.value]) else v.parent == None)
    && |w.children| == |v.children|
    && forall k :: 0 <= k < |w.children| ==> w.children[k] < |order| && order[w.children[k]] == v.children[k]
  }

  lemma {:induction false} WhereIn(p: seq<int>, i: int)
    ensures forall j: nat :: j in Where(p, i) <==> j < |p| && p[j] == i
    ensures Increasing(Where(p, i))
  {
    if p != [] {
      var init := p[..|p| - 1];
      WhereIn(init, i);
      forall a | 0 <= a < |Where(init, i)|
        ensures Where(init, i)[a] < |init|
      {
        assert Where(init, i)[a] in Where(init, i);
      }
    }
  }

  ghost predicate Increasing(w: seq<nat>) {
    forall a, b :: 0 <= a < b < |w| ==> w[a] < w[b]
  }

  function Run(from: nat, n: nat): (s: seq<nat>)
    ensures |s| == n && forall i :: 0 <= i < n ==> s[i] == from + i
  {
    seq(n, i requires 0 <= i < n => from + i)
  }

  lemma {:induction false} WhereOfCopies(p: seq<int>, v: int, n: nat, i: int)
    ensures Where(p + Copies(v, n), i) == Where(p, i) + (if v == i then Run(|p|, n) else [])
  {
    hide Where, Copies, Run;
    if n == 0 {
      assert p + Copies(v, 0) == p;
    } else {
      WhereOfCopies(p, v, n - 1, i);
      CopiesMore(p, v, n);
      WhereOneMore(p + Copies(v, n - 1), v, i);
      RunMore(|p|, n);
    }
  }

  lemma CopiesMore(p: seq<int>, v: int, n: nat)
    requires n > 0
    ensures p + Copies(v, n) == (p + Copies(v, n - 1)) + [v]
  {
  }

  lemma RunMore(from: nat, n: nat)
    requires n > 0
    ensures Run(from, n) == Run(from, n - 1) + [from + n - 1]
  {
  }

  lemma WhereOneMore(p: seq<int>, v: int, i: int)
    ensures Where(p + [v], i) == Where(p, i) + (if v == i then [|p|] else [])
  {
    assert (p + [v])[..|p|] == p;
  }

  ghost predicate InBounds<T(!new)>(all: seq<T>, w: seq<nat>) {
    forall i :: 0 <= i < |w| ==> w[i] < |all|
  }

  /** The elements at the given positions. */
  ghost function Select<T(!new)>(all: seq<T>, w: seq<nat>): (s: seq<T>)
    requires InBounds(all, w)
    ensures |s| == |w| && forall i :: 0 <= i < |w| ==> s[i] == all[w[i]]
  {
    seq(|w|, i requires 0 <= i < |w| => all[w[i]])
  }

  lemma SelectMore<T(!new)>(all: seq<T>, block: seq<T>, w: seq<nat>, run: seq<nat>)
    requires InBounds(all, w) && (run == Run(|all|, |block|) || run == [])
    ensures InBounds(all + block, w + run)
    ensures Select(all + block, w + run) == Select(all, w) + (if run == [] then [] else block)
  {
    var s, t := Select(all + block, w + run), Select(all, w) + (if run == [] then [] else block);
    assert |s| == |t|;
    forall i | 0 <= i < |s|
      ensures s[i] == t[i]
    {
      assert (w + run)[i] == if i < |w| then w[i] else |all| + (i - |w|);
    }
  }

  /** The children of the i-th visited node are exactly the rows that name i as their parent. */
  lemma {:induction false} WhereAreKids<Id(!new)>(f: Forest<Id>, root: Id, l: seq<Id>, i: nat)
    requires (forall x :: x in l ==> x in f) && |Owners(f, l)| == |Kids(f, l)|
    ensures InBounds([root] + Kids(f, l), Where([-1] + Owners(f, l), i))
    ensures Select([root] + Kids(f, l), Where([-1] + Owners(f, l), i)) == if i < |l| then f[l[i]].children else []
  {
    hide Where, Select, Run;
    if l == [] {
      WhereNone(root, i);
      assert [root] + Kids(f, l) == [root] && [-1] + Owners(f, l) == [-1];
    } else {
      var init, last := l[..|l| - 1], |l| - 1;
      assert l[last] in l;
      KidsOwners(f, init);
      WhereAreKids(f, root, init, i);
      var p, all, block := [-1] + Owners(f, init), [root] + Kids(f, init), f[l[last]].children;
      assert [-1] + Owners(f, l) == p + Copies(last, |block|);
      assert [root] + Kids(f, l) == all + block;
      WhereOfCopies(p, last, |block|, i);
      SelectMore(all, block, Where(p, i), if last == i then Run(|p|, |block|) else []);
      assert i < last ==> init[i] == l[i];
    }
  }

  lemma WhereNone<Id(!new)>(root: Id, i: nat)
    ensures Where([-1], i) == [] && InBounds([root], Where([-1], i)) && Select([root], Where([-1], i)) == []
  {
  }

  /** Flattening and rebuilding is the identity, up to the renaming of nodes: names, kinds, depths,
      totals, flags, parents and the order of children are all as they were. */
  lemma RebuildFlattened<Id(!new)>(f: Forest<Id>, root: Id, order: seq<Id>, rows: seq<Row>)
    requires Rooted(f, root) && Flattens(f, root, order, rows)
    ensures Renumbered(f, order, Built(rows))
  {
    hide Rooted, Where, Select, Kids, Owners, BreadthFirst, Distinct;
    OrderComplete(f, root, order);
    FlattenParts(f, root, order, rows);
    forall i | 0 <= i < |order|
      ensures SameNode(f, order, Built(rows), i)
    {
      RebuildRow(f, root, order, rows, i);
    }
  }

  lemma FlattenParts<Id(!new)>(f: Forest<Id>, root: Id, order: seq<Id>, rows: seq<Row>)
    requires Flattens(f, root, order, rows)
    ensures |Owners(f, order)| == |Kids(f, order)| && order == [root] + Kids(f, order)
    ensures Parents(rows) == [-1] + Owners(f, order)
  {
    KidsOwners(f, order);
  }

  lemma RebuildRow<Id(!new)>(f: Forest<Id>, root: Id, order: seq<Id>, rows: seq<Row>, i: nat)
    requires Rooted(f, root) && Flattens(f, root, order, rows) && i < |order|
    ensures SameNode(f, order, Built(rows), i)
  {
    hide Rooted, Where, Select, Kids, Owners;
    FlattenParts(f, root, order, rows);
    WhereAreKids(f, root, order, i);
    RowParent(f, root, order, i);
    var w, v := Built(rows)[i], f[order[i]];
    assert w.children == Where([-1] + Owners(f, order), i);
    forall k | 0 <= k < |w.children|
      ensures w.children[k] < |order| && order[w.children[k]] == v.children[k]
    {
      assert w.children[k] in w.children;
    }
  }

  lemma RowParent<Id(!new)>(f: Forest<Id>, root: Id, order: seq<Id>, i: nat)
    requires Rooted(f, root) && BreadthFirst(f, root, order) && i < |order| && |Owners(f, order)| == |Kids(f, order)|
    ensures order[i] in f && ([-1] + Owners(f, order))[i] < |order|
    ensures ([-1] + Owners(f, order))[i] < 0 <==> i == 0
    ensures i == 0 ==> f[order[i]].parent == None
    ensures i > 0 ==> f[order[i]].parent == Some(order[([-1] + Owners(f, order))[i]])
  {
    assert order[i] in order;
    KidsOwners(f, order);
    if i > 0 {
      assert order[i] == Kids(f, order)[i - 1];
      ChildDepth(f, root, order[Owners(f, order)[i - 1]], order[i]);
    }
  }
}
