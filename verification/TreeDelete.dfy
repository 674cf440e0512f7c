/** Taking one deleted path out of a measured tree without scanning again. */
module TreeDelete {
  import opened Options
  import opened Forest
  import opened TotalsMeaning
  import opened Relocation
  import opened Recompute
  import opened ByteTransfer
  import opened SnapshotCheck
  import opened SnapshotLaws

  function SubtractFloor(value: int, amount: int): int {
    if amount >= value then 0 else value - amount
  }

  /** The tree without x and what is below it. */
  ghost function Cut<Id(!new)>(f: Forest<Id>, root: Id, x: Id): Forest<Id>
    requires Rooted(f, root) && x in f && f[x].parent.Some?
  {
    map y | y in f && y !in Below(f, root, x) ::
      if y == f[x].parent.value then f[y].(children := Without(f[y].children, x)) else f[y]
  }

  /** The totals of the nodes of s rewritten by h. */
  ghost function MapTo<Id(!new)>(f: Forest<Id>, s: set<Id>, h: Totals -> Totals): Forest<Id> {
    map y | y in f :: if y in s then f[y].(totals := h(f[y].totals)) else f[y]
  }

  /** What the first ancestor loop does to one ancestor; 0 is the zero time. */
  function Lowered(t: Totals, gone: Totals, finished: nat): Totals {
    Totals(SubtractFloor(t.apparent, gone.apparent), SubtractFloor(t.alloc, gone.alloc),
           SubtractFloor(t.files, gone.files), SubtractFloor(t.dirs, gone.dirs),
           if finished > t.mtime then finished else t.mtime)
  }

  /** What the second ancestor loop does to one ancestor. */
  function Shifted(t: Totals, delta: int): Totals {
    t.(alloc := if delta < 0 then SubtractFloor(t.alloc, -delta) else t.alloc + delta)
  }

  /** What the last ancestor loop does to one ancestor. */
  function NotBefore(t: Totals, newest: nat): Totals {
    t.(mtime := if newest > t.mtime then newest else t.mtime)
  }

  ghost function Lowering(gone: Totals, finished: nat): Totals -> Totals {
    (t: Totals) => Lowered(t, gone, finished)
  }

  ghost function Shifting(delta: int): Totals -> Totals {
    (t: Totals) => Shifted(t, delta)
  }

  ghost function Aging(newest: nat): Totals -> Totals {
    (t: Totals) => NotBefore(t, newest)
  }

  /** The latest of a time and the times of some nodes. */
  function Newest<Id(!new)>(f: Forest<Id>, cs: seq<Id>, from: nat): nat
    requires forall c :: c in cs ==> c in f
  {
    if cs == [] then from
    else
      assert cs[|cs| - 1] in cs;
      var before := Newest(f, cs[..|cs| - 1], from);
      var last := f[cs[|cs| - 1]].totals.mtime;
      if last > before then last else before
  }

  /** directorySelfAllocation: what the children leave of a directory's allocation. */
  function LeftOver<Id(!new)>(f: Forest<Id>, cs: seq<Id>, alloc: int): int
    requires forall c :: c in cs ==> c in f
  {
    if cs == [] then alloc
    else
      assert cs[|cs| - 1] in cs;
      SubtractFloor(LeftOver(f, cs[..|cs| - 1], alloc), f[cs[|cs| - 1]].totals.alloc)
  }

  /** The first part of the patch: x is cut off and its ancestors give up what it held. */
  ghost function Subtracted<Id(!new)>(f: Forest<Id>, root: Id, x: Id, finished: nat): Forest<Id>
    requires Rooted(f, root) && x in f && f[x].parent.Some? && f[x].parent.value in f
  {
    MapTo(Cut(f, root, x), Ancestors(f, root, f[x].parent.value), Lowering(Contribution(f[x]), finished))
  }

  /** The second part: the directory that held x is inspected again. */
  ghost function Refreshed<Id(!new)>(g: Forest<Id>, p: Id, above: set<Id>, delta: int, mtime: nat): Forest<Id>
    requires p in g && forall c :: c in g[p].children ==> c in g
  {
    var shifted := MapTo(g, above, Shifting(delta));
    var newest := Newest(shifted, g[p].children, mtime);
    MapTo(shifted[p := shifted[p].(totals := shifted[p].totals.(mtime := newest))], above - {p}, Aging(newest))
  }

  // Cutting keeps the tree a tree.

  lemma CutKeys<Id(!new)>(f: Forest<Id>, root: Id, x: Id)
    requires Rooted(f, root) && x in f && x != root
    ensures HasParent(f, x)
    ensures var p := f[x].parent.value;
      p in Cut(f, root, x) && root in Cut(f, root, x) && f[p].isDir && x in f[p].children && x !in Cut(f, root, x)
    ensures forall y :: y in Ancestors(f, root, f[x].parent.value) ==> y in Cut(f, root, x)
  {
    RootedParent(f, root, x);
    var p := f[x].parent.value;
    AboveRoot(f, root, p);
    forall y | y in Ancestors(f, root, p)
      ensures y !in Below(f, root, x)
    {
      assert f[y].depth <= f[p].depth < f[x].depth;
    }
    assert Above(f, root, x, x) && Above(f, root, p, p);
    assert p in Ancestors(f, root, p) && root in Ancestors(f, root, p);
  }

  /** Away from x's subtree every parent stays. */
  lemma ParentStays<Id(!new)>(f: Forest<Id>, root: Id, x: Id, y: Id)
    requires Rooted(f, root) && x in f && x != root && y in f && y !in Below(f, root, x) && y != root
    ensures HasParent(f, y) && f[y].parent.value !in Below(f, root, x)
  {
    RootedParent(f, root, y);
    var q := f[y].parent.value;
    if q in Below(f, root, x) {
      ChildDepth(f, root, q, y);
      AboveTransitive(f, root, x, q, y);
    }
  }

  lemma CutRooted<Id(!new)>(f: Forest<Id>, root: Id, x: Id)
    requires Rooted(f, root) && x in f && x != root
    ensures f[x].parent.Some? && Rooted(Cut(f, root, x), root)
  {
    CutKeys(f, root, x);
    var g, p := Cut(f, root, x), f[x].parent.value;
    WithoutMembers(f[p].children, x);
    hide Below, Ancestors;
    forall y | y in g && y != root
      ensures HasParent(g, y)
    {
      ParentStays(f, root, x, y);
    }
    forall n, c | n in g && c in g[n].children
      ensures IsChild(g, n, c)
    {
      ChildStays(f, root, x, n, c);
    }
  }

  lemma ChildStays<Id(!new)>(f: Forest<Id>, root: Id, x: Id, n: Id, c: Id)
    requires Rooted(f, root) && x in f && x != root && n in f && n !in Below(f, root, x)
    requires c in f[n].children && c != x
    ensures c in f && f[c].parent == Some(n) && c !in Below(f, root, x)
  {
    ChildDepth(f, root, n, c);
    if c in Below(f, root, x) {
      BelowParent(f, root, x, c);
    }
  }

  lemma BelowParent<Id(!new)>(f: Forest<Id>, root: Id, x: Id, y: Id)
    requires Rooted(f, root) && x in f && x != root && y in Below(f, root, x) && y != x
    ensures y != root && HasParent(f, y) && f[y].parent.value in Below(f, root, x)
  {
    assert y != root;
    RootedParent(f, root, y);
  }

  lemma {:induction false} CutUp<Id(!new)>(f: Forest<Id>, root: Id, x: Id, y: Id, k: nat)
    requires Rooted(f, root) && x in f && x != root && f[x].parent.Some? && Rooted(Cut(f, root, x), root)
    requires y in Cut(f, root, x) && k <= f[y].depth
    ensures Up(Cut(f, root, x), root, y, k) == Up(f, root, y, k)
    decreases f[y].depth
  {
    hide Below;
    if f[y].depth != k {
      ParentStays(f, root, x, y);
      RootedParent(f, root, x);
      CutUp(f, root, x, f[y].parent.value, k);
    }
  }

  lemma CutAncestors<Id(!new)>(f: Forest<Id>, root: Id, x: Id)
    requires Rooted(f, root) && x in f && x != root
    ensures f[x].parent.Some? && f[x].parent.value in f && Rooted(Cut(f, root, x), root)
    ensures f[x].parent.value in Cut(f, root, x)
    ensures Ancestors(Cut(f, root, x), root, f[x].parent.value) == Ancestors(f, root, f[x].parent.value)
  {
    CutKeys(f, root, x);
    CutRooted(f, root, x);
    var g, p := Cut(f, root, x), f[x].parent.value;
    forall y | y in g
      ensures Above(g, root, y, p) <==> Above(f, root, y, p)
    {
      if f[y].depth <= f[p].depth {
        CutUp(f, root, x, p, f[y].depth);
      }
    }
    forall y | y in Ancestors(f, root, p)
      ensures y in g
    {
    }
  }

  // Sums without the cut child.

  /** Own metadata of the tree before the deletion, with the ancestors' times raised to what they show. */
  ghost function Raised<Id(!new)>(
      f: Forest<Id>, self: map<Id, SelfMetadata>, above: set<Id>, p: Id, alloc: int): map<Id, SelfMetadata>
  {
    map y | y in self.Keys + above * f.Keys ::
      if y in above && y in f then SelfMetadata(if y == p then alloc else SelfOf(self, y).alloc, f[y].totals.mtime) else self[y]
  }

  ghost function SizesGone(gone: Totals, shift: int): Totals {
    Totals(-gone.apparent, shift - gone.alloc, -gone.files, -gone.dirs, 0)
  }

  lemma CutElsewhere<Id(!new)>(
      f: Forest<Id>, root: Id, self: map<Id, SelfMetadata>, x: Id, alloc: int, d: Id)
    requires Rooted(f, root) && Measured(f, root, self) && x in f && x != root
    requires f[x].parent.Some? && f[x].parent.value in f && Rooted(Cut(f, root, x), root)
    requires d in Cut(f, root, x) && f[d].isDir && d != f[x].parent.value
    ensures Balanced(Cut(f, root, x), root,
      Raised(f, self, Ancestors(f, root, f[x].parent.value), f[x].parent.value, alloc), d)
  {
    var g, p := Cut(f, root, x), f[x].parent.value;
    BalancedParts(f, root, self, d);
    var cs := f[d].children;
    forall c | c in cs
      ensures c in g && Contribution(f[c]) == Contribution(g[c])
    {
      assert IsChild(f, d, c);
      ChildStays(f, root, x, d, c);
    }
    hide Rooted, Measured;
    SumAgrees(f, g, cs);
  }

  lemma CutSum<Id(!new)>(f: Forest<Id>, root: Id, x: Id)
    requires Rooted(f, root) && x in f && x != root
    requires f[x].parent.Some? && f[x].parent.value in f && f[x].parent.value in Cut(f, root, x)
    ensures var g, p := Cut(f, root, x), f[x].parent.value;
      && (forall c :: c in f[p].children ==> c in f) && (forall c :: c in g[p].children ==> c in g)
      && SumOf(f, f[p].children) == SumOf(g, g[p].children).Plus(Contribution(f[x]))
  {
    var g, p := Cut(f, root, x), f[x].parent.value;
    RootedParent(f, root, x);
    ChildrenKnown(f, root, p);
    var cs := f[p].children;
    var rest := Without(cs, x);
    WithoutMembers(cs, x);
    forall c | c in rest
      ensures c in g && Contribution(f[c]) == Contribution(g[c])
    {
      ChildStays(f, root, x, p, c);
      ChildDepth(f, root, p, c);
    }
    hide Rooted, Below;
    SumWithout(f, cs, x);
    SumAgrees(f, g, rest);
  }

  lemma CutHere<Id(!new)>(f: Forest<Id>, root: Id, self: map<Id, SelfMetadata>, x: Id, alloc: int)
    requires Rooted(f, root) && Measured(f, root, self) && x in f && x != root
    requires f[x].parent.Some? && f[x].parent.value in f && Rooted(Cut(f, root, x), root)
    requires f[x].parent.value in Cut(f, root, x)
    ensures var p := f[x].parent.value;
      LacksDelta(Cut(f, root, x), Raised(f, self, Ancestors(f, root, p), p, alloc), p,
                 SizesGone(Contribution(f[x]), alloc - SelfOf(self, p).alloc))
  {
    hide Rooted, Measured, Below, Cut, SumOf, Contribution;
    var g, p := Cut(f, root, x), f[x].parent.value;
    CutKinds(f, root, x);
    CutKeys(f, root, x);
    BalancedParts(f, root, self, p);
    CutSum(f, root, x);
    AncestorsHave(f, root, p);
    RaisedAt(f, self, Ancestors(f, root, p), p, alloc);
    SumsGone(f[p].totals, SelfOf(self, p), SumOf(g, g[p].children), Contribution(f[x]), alloc);
  }

  lemma RaisedAt<Id(!new)>(f: Forest<Id>, self: map<Id, SelfMetadata>, above: set<Id>, p: Id, alloc: int)
    requires p in above && p in f
    ensures SelfOf(Raised(f, self, above, p, alloc), p) == Totals(0, alloc, 0, 0, f[p].totals.mtime)
  {
  }

  lemma SumsGone(t: Totals, own: Totals, rest: Totals, gone: Totals, alloc: int)
    requires t == own.Plus(rest.Plus(gone)) && own.apparent == own.files == own.dirs == 0
    ensures t.Plus(SizesGone(gone, alloc - own.alloc)) == Totals(0, alloc, 0, 0, t.mtime).Plus(rest)
  {
  }

  lemma AncestorsHave<Id(!new)>(f: Forest<Id>, root: Id, p: Id)
    requires Rooted(f, root) && p in f
    ensures p in Ancestors(f, root, p) && root in Ancestors(f, root, p) && Ancestors(f, root, p) <= f.Keys
  {
    AboveRoot(f, root, p);
  }

  lemma CutOffBy<Id(!new)>(f: Forest<Id>, root: Id, self: map<Id, SelfMetadata>, x: Id, alloc: int)
    requires Rooted(f, root) && Measured(f, root, self) && x in f && x != root
    requires f[x].parent.Some? && f[x].parent.value in f && Rooted(Cut(f, root, x), root)
    ensures var p := f[x].parent.value;
      OffBy(Cut(f, root, x), root, Raised(f, self, Ancestors(f, root, p), p, alloc), p,
            SizesGone(Contribution(f[x]), alloc - SelfOf(self, p).alloc))
  {
    CutKeys(f, root, x);
    hide Below, Raised, SizesGone, Contribution, Balanced, Ancestors, Rooted, LacksDelta;
    var g, p := Cut(f, root, x), f[x].parent.value;
    CutKinds(f, root, x);
    forall d | d in g && g[d].isDir && d != p
      ensures Balanced(g, root, Raised(f, self, Ancestors(f, root, p), p, alloc), d)
    {
      CutElsewhere(f, root, self, x, alloc, d);
    }
    CutHere(f, root, self, x, alloc);
  }

  lemma CutKinds<Id(!new)>(f: Forest<Id>, root: Id, x: Id)
    requires Rooted(f, root) && x in f && f[x].parent.Some?
    ensures forall d :: d in Cut(f, root, x) ==> d in f && d !in Below(f, root, x)
    ensures forall d :: d in Cut(f, root, x) ==> Cut(f, root, x)[d] == f[d].(children := Cut(f, root, x)[d].children)
    ensures forall d :: d in Cut(f, root, x) && d != f[x].parent.value ==> Cut(f, root, x)[d] == f[d]
  {
  }

  ghost function SizesTaken<Id(!new)>(
      f: Forest<Id>, root: Id, self: map<Id, SelfMetadata>, x: Id, alloc: int): Forest<Id>
    requires Rooted(f, root) && x in f && f[x].parent.Some? && f[x].parent.value in f
  {
    var p := f[x].parent.value;
    AddTo(Cut(f, root, x), Ancestors(f, root, p), SizesGone(Contribution(f[x]), alloc - SelfOf(self, p).alloc))
  }

  ghost function OwnRaised<Id(!new)>(
      f: Forest<Id>, root: Id, self: map<Id, SelfMetadata>, x: Id, alloc: int): map<Id, SelfMetadata>
    requires Rooted(f, root) && x in f && f[x].parent.Some? && f[x].parent.value in f
  {
    Raised(f, self, Ancestors(f, root, f[x].parent.value), f[x].parent.value, alloc)
  }

  /** Cut off x, and take what it held from its ancestors: the rest is measured. */
  lemma SizesBalance<Id(!new)>(f: Forest<Id>, root: Id, self: map<Id, SelfMetadata>, x: Id, alloc: int)
    requires Rooted(f, root) && Measured(f, root, self) && x in f && x != root
    requires f[x].parent.Some? && f[x].parent.value in f && Rooted(Cut(f, root, x), root)
    requires f[x].parent.value in Cut(f, root, x)
    requires Ancestors(Cut(f, root, x), root, f[x].parent.value) == Ancestors(f, root, f[x].parent.value)
    ensures var g := SizesTaken(f, root, self, x, alloc);
      SameShape(Cut(f, root, x), g) && Rooted(g, root) && Measured(g, root, OwnRaised(f, root, self, x, alloc))
  {
    hide Cut, Raised, SizesGone, Contribution, Rooted, Measured, OffBy, Ancestors, AddTo, SameShape, SelfOf;
    CutOffBy(f, root, self, x, alloc);
    var p := f[x].parent.value;
    AddToBalances(Cut(f, root, x), root, Raised(f, self, Ancestors(f, root, p), p, alloc), p,
                  SizesGone(Contribution(f[x]), alloc - SelfOf(self, p).alloc), Ancestors(f, root, p));
  }

  lemma AddToBalances<Id(!new)>(
      g: Forest<Id>, root: Id, self: map<Id, SelfMetadata>, p: Id, delta: Totals, above: set<Id>)
    requires Rooted(g, root) && p in g && OffBy(g, root, self, p, delta) && above == Ancestors(g, root, p)
    ensures SameShape(g, AddTo(g, above, delta)) && Rooted(AddTo(g, above, delta), root)
    ensures Measured(AddTo(g, above, delta), root, self)
  {
    hide Rooted, Measured, OffBy, Ancestors, AddTo, SameShape;
    AddUpBalances(g, root, self, p, delta);
  }

  // Times.

  lemma {:induction false} SumTimes<Id(!new)>(f: Forest<Id>, g: Forest<Id>, cs: seq<Id>)
    requires forall c :: c in cs ==> c in f && c in g
    requires forall c :: c in cs ==> g[c] == f[c].(totals := f[c].totals.(mtime := g[c].totals.mtime))
    ensures SumOf(g, cs) == SumOf(f, cs).(mtime := SumOf(g, cs).mtime)
  {
    if cs != [] {
      assert cs[|cs| - 1] in cs;
      SumTimes(f, g, cs[..|cs| - 1]);
    }
  }

  lemma {:induction false} SumTimeBound<Id(!new)>(g: Forest<Id>, cs: seq<Id>, t: nat)
    requires forall c :: c in cs ==> c in g && g[c].totals.mtime <= t
    ensures SumOf(g, cs).mtime <= t
  {
    if cs != [] {
      assert cs[|cs| - 1] in cs;
      SumTimeBound(g, cs[..|cs| - 1], t);
    }
  }

  lemma {:induction false} SumTimeCovers<Id(!new)>(g: Forest<Id>, cs: seq<Id>, c: Id)
    requires c in cs && forall c :: c in cs ==> c in g
    ensures SumOf(g, cs).mtime >= g[c].totals.mtime
  {
    assert cs[|cs| - 1] in cs;
    if c != cs[|cs| - 1] {
      assert cs == cs[..|cs| - 1] + [cs[|cs| - 1]];
      SumTimeCovers(g, cs[..|cs| - 1], c);
    }
  }

  /** The loop over the children finds the later of a time and the latest child. */
  lemma {:induction false} NewestIsSum<Id(!new)>(g: Forest<Id>, cs: seq<Id>, from: nat)
    requires forall c :: c in cs ==> c in g
    ensures Newest(g, cs, from) == if SumOf(g, cs).mtime > from then SumOf(g, cs).mtime else from
  {
    if cs != [] {
      assert cs[|cs| - 1] in cs;
      NewestIsSum(g, cs[..|cs| - 1], from);
    }
  }

  lemma {:induction false} NewestAgrees<Id(!new)>(f: Forest<Id>, g: Forest<Id>, cs: seq<Id>, from: nat)
    requires forall c :: c in cs ==> c in f && c in g && f[c].totals.mtime == g[c].totals.mtime
    ensures Newest(f, cs, from) == Newest(g, cs, from)
  {
    if cs != [] {
      assert cs[|cs| - 1] in cs;
      NewestAgrees(f, g, cs[..|cs| - 1], from);
    }
  }

  /** f and g differ in times only. */
  ghost predicate SameButTimes<Id(!new)>(f: Forest<Id>, g: Forest<Id>) {
    f.Keys == g.Keys && forall y {:trigger g[y]} :: y in f ==> g[y] == f[y].(totals := f[y].totals.(mtime := g[y].totals.mtime))
  }

  predicate TimesFit(t: nat, own: nat, sum: nat) {
    t == if own < sum then sum else own
  }

  ghost predicate TimeBalanced<Id(!new)>(g: Forest<Id>, self: map<Id, SelfMetadata>, d: Id) {
    && d in g && (forall c :: c in g[d].children ==> c in g)
    && TimesFit(g[d].totals.mtime, SelfOf(self, d).mtime, SumOf(g, g[d].children).mtime)
  }

  /** New times balance if each directory's is the latest of its own and its children's. */
  lemma Retimed<Id(!new)>(
      f: Forest<Id>, g: Forest<Id>, root: Id, self: map<Id, SelfMetadata>, self2: map<Id, SelfMetadata>)
    requires Rooted(f, root) && Measured(f, root, self) && SameButTimes(f, g)
    requires forall d :: d in g && g[d].isDir ==> SelfOf(self2, d) == SelfOf(self, d).(mtime := SelfOf(self2, d).mtime)
    requires forall d {:trigger TimeBalanced(g, self2, d)} :: d in g && g[d].isDir ==> TimeBalanced(g, self2, d)
    ensures Rooted(g, root) && Measured(g, root, self2)
  {
    SameShapeRooted(f, g, root);
    forall d | d in g && g[d].isDir
      ensures Balanced(g, root, self2, d)
    {
      assert TimeBalanced(g, self2, d);
      RetimedAt(f, g, root, self, self2, d);
    }
  }

  lemma RetimedAt<Id(!new)>(
      f: Forest<Id>, g: Forest<Id>, root: Id, self: map<Id, SelfMetadata>, self2: map<Id, SelfMetadata>, d: Id)
    requires Rooted(f, root) && Measured(f, root, self) && SameButTimes(f, g) && Rooted(g, root)
    requires d in g && g[d].isDir && TimeBalanced(g, self2, d)
    requires SelfOf(self2, d) == SelfOf(self, d).(mtime := SelfOf(self2, d).mtime)
    ensures Balanced(g, root, self2, d)
  {
    BalancedParts(f, root, self, d);
    hide Rooted, Measured, SelfOf;
    SumTimes(f, g, f[d].children);
  }

  // No floor is ever reached.

  /** t holds at least what u holds. */
  predicate AtLeast(t: Totals, u: Totals) {
    t.apparent >= u.apparent && t.alloc >= u.alloc && t.files >= u.files && t.dirs >= u.dirs
  }

  lemma {:induction false} SumHolds<Id(!new)>(f: Forest<Id>, cs: seq<Id>, c: Id)
    requires c in cs && forall c :: c in cs ==> c in f && Natural(Contribution(f[c]))
    ensures Natural(SumOf(f, cs)) && AtLeast(SumOf(f, cs), Contribution(f[c]))
  {
    var init, last := cs[..|cs| - 1], cs[|cs| - 1];
    assert cs == init + [last] && last in cs;
    SumNatural(f, cs);
    SumNatural(f, init);
    if c != last {
      SumHolds(f, init, c);
    }
  }

  lemma NaturalTree<Id(!new)>(f: Forest<Id>, root: Id, self: map<Id, SelfMetadata>)
    requires ScannerTree(f, root, self)
    ensures forall y :: y in f ==> Natural(f[y].totals) && Natural(Contribution(f[y]))
  {
    var h := DepthBound(f);
    forall y | y in f
      ensures Natural(f[y].totals)
    {
      TotalsNatural(f, root, self, y, h);
    }
  }

  lemma ParentHoldsChild<Id(!new)>(f: Forest<Id>, root: Id, self: map<Id, SelfMetadata>, y: Id)
    requires ScannerTree(f, root, self) && y in f && y != root
    ensures HasParent(f, y)
    ensures var q := f[y].parent.value;
      AtLeast(f[q].totals, Contribution(f[y]).(alloc := Contribution(f[y]).alloc + SelfOf(self, q).alloc))
  {
    RootedParent(f, root, y);
    NaturalTree(f, root, self);
    MeasuredHere(f, root, self, f[y].parent.value);
    SumHolds(f, f[f[y].parent.value].children, y);
    OwnNatural(self, f[y].parent.value);
  }

  /** Every ancestor holds what the directory below it holds. */
  lemma {:induction false} AncestorHolds<Id(!new)>(f: Forest<Id>, root: Id, self: map<Id, SelfMetadata>, a: Id, n: Id)
    requires ScannerTree(f, root, self) && n in f && f[n].isDir && a in Ancestors(f, root, n)
    ensures AtLeast(f[a].totals, f[n].totals)
    decreases f[n].depth
  {
    if a != n {
      AncestorsUnfold(f, root, n);
      assert n != root;
      ParentHoldsChild(f, root, self, n);
      OwnNatural(self, f[n].parent.value);
      AncestorHolds(f, root, self, a, f[n].parent.value);
    }
  }

  // The patch as a whole.

  ghost predicate Deletable<Id(!new)>(f: Forest<Id>, root: Id, x: Id) {
    && Rooted(f, root) && x in f && x != root && f[x].parent.Some? && f[x].parent.value in f
    && f[x].parent.value in Cut(f, root, x)
    && (forall c :: c in f[f[x].parent.value].children ==> c in f)
    && (forall c :: c in Without(f[f[x].parent.value].children, x) ==> c in Cut(f, root, x))
  }

  lemma AnyDeletable<Id(!new)>(f: Forest<Id>, root: Id, x: Id)
    requires Rooted(f, root) && x in f && x != root
    ensures Deletable(f, root, x)
  {
    CutKeys(f, root, x);
    var p := f[x].parent.value;
    ChildrenKnown(f, root, p);
    WithoutMembers(f[p].children, x);
    forall c | c in Without(f[p].children, x)
      ensures c in Cut(f, root, x)
    {
      ChildStays(f, root, x, p, c);
    }
  }

  ghost function DirsAbove<Id(!new)>(f: Forest<Id>, root: Id, x: Id): set<Id>
    requires Rooted(f, root) && x in f && f[x].parent.Some? && f[x].parent.value in f
  {
    Ancestors(f, root, f[x].parent.value)
  }

  /** The change of the directory's own allocation, as the code computes it. */
  ghost function Shift<Id(!new)>(f: Forest<Id>, root: Id, x: Id, m: SelfMetadata): int
    requires Deletable(f, root, x)
  {
    m.alloc - LeftOver(f, f[f[x].parent.value].children, f[f[x].parent.value].totals.alloc)
  }

  /** removeDeletedNode on the tree: x is gone and its directory is m now. */
  ghost function Patched<Id(!new)>(f: Forest<Id>, root: Id, x: Id, finished: nat, m: SelfMetadata): Forest<Id>
    requires Deletable(f, root, x)
  {
    Refreshed(Subtracted(f, root, x, finished), f[x].parent.value, DirsAbove(f, root, x), Shift(f, root, x, m), m.mtime)
  }

  /** The directory's new time. */
  ghost function NewTime<Id(!new)>(f: Forest<Id>, root: Id, x: Id, m: SelfMetadata): nat
    requires Deletable(f, root, x)
  {
    Newest(Cut(f, root, x), Without(f[f[x].parent.value].children, x), m.mtime)
  }

  function PatchedTotals(t: Totals, gone: Totals, shift: int, time: nat): Totals {
    Shifted(Lowered(t, gone, 0), shift).(mtime := time)
  }

  function Later(a: nat, b: nat): nat {
    if a > b then a else b
  }

  /** Ancestors change as the three loops say, and nothing else does. */
  lemma PatchedNode<Id(!new)>(f: Forest<Id>, root: Id, x: Id, finished: nat, m: SelfMetadata, y: Id)
    requires Deletable(f, root, x) && y in Cut(f, root, x)
    ensures Patched(f, root, x, finished, m).Keys == Cut(f, root, x).Keys
    ensures var g, c, p := Patched(f, root, x, finished, m), Cut(f, root, x), f[x].parent.value;
      var time := NewTime(f, root, x, m);
      g[y] == if y !in DirsAbove(f, root, x) then c[y]
        else c[y].(totals := PatchedTotals(c[y].totals, Contribution(f[x]), Shift(f, root, x, m),
          if y == p then time else Later(Later(c[y].totals.mtime, finished), time)))
  {
    hide Refreshed, Below, Rooted;
    var c, p, above := Cut(f, root, x), f[x].parent.value, DirsAbove(f, root, x);
    var sub := Subtracted(f, root, x, finished);
    KidsUntouched(f, root, x);
    AncestorsHave(f, root, p);
    RefreshedNode(sub, p, above, Shift(f, root, x, m), m.mtime, y);
    NewestAgrees(c, sub, Without(f[p].children, x), m.mtime);
  }

  lemma RefreshedNode<Id(!new)>(g: Forest<Id>, p: Id, above: set<Id>, delta: int, mtime: nat, y: Id)
    requires p in g && p in above && y in g && forall c :: c in g[p].children ==> c in g && c !in above
    ensures Refreshed(g, p, above, delta, mtime).Keys == g.Keys
    ensures var newest := Newest(g, g[p].children, mtime);
      Refreshed(g, p, above, delta, mtime)[y] == if y !in above then g[y]
        else g[y].(totals := Shifted(g[y].totals, delta).(mtime := if y == p then newest else Later(g[y].totals.mtime, newest)))
  {
    var shifted := MapTo(g, above, Shifting(delta));
    NewestAgrees(g, shifted, g[p].children, mtime);
  }

  lemma KidsUntouched<Id(!new)>(f: Forest<Id>, root: Id, x: Id)
    requires Deletable(f, root, x)
    ensures forall c :: c in Without(f[f[x].parent.value].children, x) ==> c in Cut(f, root, x) && c !in DirsAbove(f, root, x)
  {
    var p := f[x].parent.value;
    WithoutMembers(f[p].children, x);
    forall c | c in Without(f[p].children, x)
      ensures c !in DirsAbove(f, root, x)
    {
      ChildDepth(f, root, p, c);
    }
  }

  lemma {:induction false} LeftOverIsRest<Id(!new)>(f: Forest<Id>, cs: seq<Id>, alloc: int)
    requires forall c :: c in cs ==> c in f && Natural(Contribution(f[c]))
    requires alloc >= SumOf(f, cs).alloc
    ensures LeftOver(f, cs, alloc) == alloc - SumOf(f, cs).alloc
  {
    if cs != [] {
      assert cs[|cs| - 1] in cs;
      LeftOverIsRest(f, cs[..|cs| - 1], alloc);
    }
  }

  /** directorySelfAllocation finds the directory's own allocation. */
  lemma ShiftIsGrowth<Id(!new)>(f: Forest<Id>, root: Id, self: map<Id, SelfMetadata>, x: Id, m: SelfMetadata)
    requires Deletable(f, root, x) && ScannerTree(f, root, self)
    ensures Shift(f, root, x, m) == m.alloc - SelfOf(self, f[x].parent.value).alloc
    ensures f[f[x].parent.value].isDir
  {
    var p := f[x].parent.value;
    RootedParent(f, root, x);
    NaturalTree(f, root, self);
    MeasuredHere(f, root, self, p);
    OwnNatural(self, p);
    hide Rooted, Measured;
    LeftOverIsRest(f, f[p].children, f[p].totals.alloc);
  }

  /** No subtraction stops at zero: every ancestor held what is taken from it. */
  lemma NoFloor<Id(!new)>(
      f: Forest<Id>, root: Id, self: map<Id, SelfMetadata>, x: Id, m: SelfMetadata, y: Id, time: nat)
    requires Deletable(f, root, x) && ScannerTree(f, root, self) && m.alloc >= 0 && y in DirsAbove(f, root, x)
    ensures AtLeast(f[y].totals, Contribution(f[x]))
    ensures f[y].totals.alloc - Contribution(f[x]).alloc + Shift(f, root, x, m) >= 0
    ensures PatchedTotals(f[y].totals, Contribution(f[x]), Shift(f, root, x, m), time)
      == f[y].totals.Plus(SizesGone(Contribution(f[x]), Shift(f, root, x, m))).(mtime := time)
  {
    var p := f[x].parent.value;
    ShiftIsGrowth(f, root, self, x, m);
    AncestorHolds(f, root, self, y, p);
    ParentHoldsChild(f, root, self, x);
    OwnNatural(self, p);
    NaturalTree(f, root, self);
    hide Rooted, ScannerTree, Deletable, Shift;
    FloorFree(f[y].totals, f[p].totals, Contribution(f[x]), SelfOf(self, p).alloc, m.alloc, time);
  }

  lemma FloorFree(t: Totals, held: Totals, gone: Totals, own: int, alloc: int, time: nat)
    requires AtLeast(t, held) && AtLeast(held, gone.(alloc := gone.alloc + own)) && Natural(gone) && own >= 0 && alloc >= 0
    ensures AtLeast(t, gone) && t.alloc - gone.alloc + (alloc - own) >= 0
    ensures PatchedTotals(t, gone, alloc - own, time) == t.Plus(SizesGone(gone, alloc - own)).(mtime := time)
  {
  }

  /** Own metadata after the patch: of the directory as inspected, of the others as before, but at least as late
      as they are shown. */
  ghost function OwnAfter<Id(!new)>(
      f: Forest<Id>, root: Id, self: map<Id, SelfMetadata>, x: Id, finished: nat, m: SelfMetadata): map<Id, SelfMetadata>
    requires Deletable(f, root, x)
  {
    var g, above := Patched(f, root, x, finished, m), DirsAbove(f, root, x);
    map y | y in self.Keys + above * g.Keys ::
      if y == f[x].parent.value then m
      else if y in above && y in g then SelfMetadata(SelfOf(self, y).alloc, g[y].totals.mtime)
      else self[y]
  }

  lemma PatchedSizes<Id(!new)>(
      f: Forest<Id>, root: Id, self: map<Id, SelfMetadata>, x: Id, finished: nat, m: SelfMetadata)
    requires Deletable(f, root, x) && ScannerTree(f, root, self) && m.alloc >= 0
    ensures SameButTimes(SizesTaken(f, root, self, x, m.alloc), Patched(f, root, x, finished, m))
  {
    hide ScannerTree, Patched, PatchedTotals, SizesGone, Cut, Contribution, Shift;
    var taken, g, c := SizesTaken(f, root, self, x, m.alloc), Patched(f, root, x, finished, m), Cut(f, root, x);
    CutKinds(f, root, x);
    PatchedNode(f, root, x, finished, m, f[x].parent.value);
    assert taken.Keys == c.Keys;
    forall y | y in taken
      ensures y in g && g[y] == taken[y].(totals := taken[y].totals.(mtime := g[y].totals.mtime))
    {
      PatchedNode(f, root, x, finished, m, y);
      ShiftIsGrowth(f, root, self, x, m);
      if y in DirsAbove(f, root, x) {
        var time := g[y].totals.mtime;
        PatchedTime(c[y].totals, Contribution(f[x]), Shift(f, root, x, m),
          if y == f[x].parent.value then NewTime(f, root, x, m)
          else Later(Later(c[y].totals.mtime, finished), NewTime(f, root, x, m)));
        NoFloor(f, root, self, x, m, y, time);
        assert g[y].totals == f[y].totals.Plus(SizesGone(Contribution(f[x]), Shift(f, root, x, m))).(mtime := time);
      }
    }
  }

  lemma PatchedTime(t: Totals, gone: Totals, shift: int, time: nat)
    ensures PatchedTotals(t, gone, shift, time).mtime == time
  {
  }

  lemma KidsElsewhere<Id(!new)>(f: Forest<Id>, root: Id, x: Id, d: Id)
    requires Deletable(f, root, x) && d in Cut(f, root, x) && d != f[x].parent.value
    ensures forall c :: c in f[d].children ==> c in f && c in Cut(f, root, x) && (c in DirsAbove(f, root, x) ==> d in DirsAbove(f, root, x))
  {
    forall c | c in f[d].children
      ensures c in f && c in Cut(f, root, x) && (c in DirsAbove(f, root, x) ==> d in DirsAbove(f, root, x))
    {
      ChildDepth(f, root, d, c);
      ChildStays(f, root, x, d, c);
      if c in DirsAbove(f, root, x) {
        AboveTransitive(f, root, d, c, f[x].parent.value);
      }
    }
  }

  /** Away from the way to x nothing changes. */
  lemma TimeElsewhere<Id(!new)>(
      f: Forest<Id>, root: Id, self: map<Id, SelfMetadata>, x: Id, finished: nat, m: SelfMetadata, d: Id)
    requires Deletable(f, root, x) && Measured(f, root, self) && d in Cut(f, root, x) && f[d].isDir && d !in DirsAbove(f, root, x)
    requires d != f[x].parent.value
    ensures TimeBalanced(Patched(f, root, x, finished, m), OwnAfter(f, root, self, x, finished, m), d)
  {
    var g := Patched(f, root, x, finished, m);
    PatchedNode(f, root, x, finished, m, d);
    KidsElsewhere(f, root, x, d);
    forall c | c in f[d].children
      ensures c in g && g[c] == f[c]
    {
      PatchedNode(f, root, x, finished, m, c);
      CutKinds(f, root, x);
      NotItsParent(f, root, x, c);
    }
    BalancedParts(f, root, self, d);
    hide Rooted, Deletable, Measured, Patched, Below;
    SumAgrees(f, g, f[d].children);
  }

  lemma NotItsParent<Id(!new)>(f: Forest<Id>, root: Id, x: Id, c: Id)
    requires Deletable(f, root, x)
    ensures f[x].parent.value in DirsAbove(f, root, x)
  {
    AncestorsHave(f, root, f[x].parent.value);
  }

  lemma TimeHere<Id(!new)>(
      f: Forest<Id>, root: Id, self: map<Id, SelfMetadata>, x: Id, finished: nat, m: SelfMetadata)
    requires Deletable(f, root, x)
    ensures TimeBalanced(Patched(f, root, x, finished, m), OwnAfter(f, root, self, x, finished, m), f[x].parent.value)
  {
    hide Patched, Below;
    var g, p := Patched(f, root, x, finished, m), f[x].parent.value;
    var rest := Without(f[p].children, x);
    NotItsParent(f, root, x, p);
    PatchedNode(f, root, x, finished, m, p);
    PatchedTime(Cut(f, root, x)[p].totals, Contribution(f[x]), Shift(f, root, x, m), NewTime(f, root, x, m));
    KidsUntouched(f, root, x);
    forall c | c in rest
      ensures c in g && g[c] == Cut(f, root, x)[c]
    {
      PatchedNode(f, root, x, finished, m, c);
    }
    hide Deletable, PatchedTotals;
    NewestAgrees(Cut(f, root, x), g, rest, m.mtime);
    NewestIsSum(g, rest, m.mtime);
  }

  /** An ancestor shows a time that is at least as late as any of its children's. */
  lemma TimeAbove<Id(!new)>(
      f: Forest<Id>, root: Id, self: map<Id, SelfMetadata>, x: Id, finished: nat, m: SelfMetadata, d: Id)
    requires Deletable(f, root, x) && Measured(f, root, self) && d in DirsAbove(f, root, x) && f[d].isDir
    requires d in Cut(f, root, x) && d != f[x].parent.value
    ensures TimeBalanced(Patched(f, root, x, finished, m), OwnAfter(f, root, self, x, finished, m), d)
  {
    hide Patched, Below;
    var g := Patched(f, root, x, finished, m);
    PatchedNode(f, root, x, finished, m, d);
    CutKinds(f, root, x);
    KidsElsewhere(f, root, x, d);
    BalancedParts(f, root, self, d);
    forall c | c in f[d].children
      ensures c in g && g[c].totals.mtime <= g[d].totals.mtime
    {
      PatchedNode(f, root, x, finished, m, c);
      SumTimeCovers(f, f[d].children, c);
      TimesPassUp(f, root, x, finished, m, c, d);
    }
    hide Rooted, Deletable, Measured, PatchedTotals;
    SumTimeBound(g, f[d].children, g[d].totals.mtime);
  }

  lemma TimesPassUp<Id(!new)>(f: Forest<Id>, root: Id, x: Id, finished: nat, m: SelfMetadata, c: Id, d: Id)
    requires Deletable(f, root, x) && c in Cut(f, root, x) && d in Cut(f, root, x)
    requires d in DirsAbove(f, root, x) && d != f[x].parent.value && f[c].totals.mtime <= f[d].totals.mtime
    ensures c in Patched(f, root, x, finished, m) && d in Patched(f, root, x, finished, m)
    ensures Patched(f, root, x, finished, m)[c].totals.mtime <= Patched(f, root, x, finished, m)[d].totals.mtime
  {
    hide Patched, Below, Deletable;
    DeletableIsCut(f, root, x);
    PatchedNode(f, root, x, finished, m, c);
    PatchedNode(f, root, x, finished, m, d);
    CutKinds(f, root, x);
  }

  lemma PatchedMeasured<Id(!new)>(
      f: Forest<Id>, root: Id, self: map<Id, SelfMetadata>, x: Id, finished: nat, m: SelfMetadata)
    requires Deletable(f, root, x) && ScannerTree(f, root, self) && m.alloc >= 0
    ensures Rooted(Patched(f, root, x, finished, m), root)
    ensures Measured(Patched(f, root, x, finished, m), root, OwnAfter(f, root, self, x, finished, m))
  {
    hide Patched, Below, ScannerTree, SizesTaken, OwnRaised, OwnAfter, Deletable, TimeBalanced, Cut;
    var g, self2 := Patched(f, root, x, finished, m), OwnAfter(f, root, self, x, finished, m);
    ScannerIsMeasured(f, root, self);
    DeletableIsCut(f, root, x);
    CutAncestors(f, root, x);
    SizesBalance(f, root, self, x, m.alloc);
    PatchedSizes(f, root, self, x, finished, m);
    forall d | d in g && g[d].isDir
      ensures TimeBalanced(g, self2, d) && SelfOf(self2, d) == SelfOf(OwnRaised(f, root, self, x, m.alloc), d).(mtime := SelfOf(self2, d).mtime)
    {
      TimeEverywhere(f, root, self, x, finished, m, d);
      OwnBoth(f, root, self, x, finished, m, d);
    }
    Retimed(SizesTaken(f, root, self, x, m.alloc), g, root, OwnRaised(f, root, self, x, m.alloc), self2);
  }

  lemma ScannerIsMeasured<Id(!new)>(f: Forest<Id>, root: Id, self: map<Id, SelfMetadata>)
    requires ScannerTree(f, root, self)
    ensures Rooted(f, root) && Measured(f, root, self)
  {
  }

  lemma DeletableIsCut<Id(!new)>(f: Forest<Id>, root: Id, x: Id)
    requires Deletable(f, root, x)
    ensures Rooted(f, root) && x in f && x != root && f[x].parent.Some? && f[x].parent.value in f
    ensures f[x].parent.value in Cut(f, root, x)
  {
  }

  lemma OwnBoth<Id(!new)>(
      f: Forest<Id>, root: Id, self: map<Id, SelfMetadata>, x: Id, finished: nat, m: SelfMetadata, d: Id)
    requires Deletable(f, root, x) && d in Patched(f, root, x, finished, m)
    ensures var self2 := OwnAfter(f, root, self, x, finished, m);
      SelfOf(self2, d) == SelfOf(OwnRaised(f, root, self, x, m.alloc), d).(mtime := SelfOf(self2, d).mtime)
  {
    hide Patched, Below;
    NotItsParent(f, root, x, d);
    PatchedNode(f, root, x, finished, m, f[x].parent.value);
    CutKinds(f, root, x);
  }

  lemma TimeEverywhere<Id(!new)>(
      f: Forest<Id>, root: Id, self: map<Id, SelfMetadata>, x: Id, finished: nat, m: SelfMetadata, d: Id)
    requires Deletable(f, root, x) && Measured(f, root, self)
    requires d in Patched(f, root, x, finished, m) && Patched(f, root, x, finished, m)[d].isDir
    ensures TimeBalanced(Patched(f, root, x, finished, m), OwnAfter(f, root, self, x, finished, m), d)
  {
    hide Patched, Below, Deletable, TimeBalanced, OwnAfter, Measured, Rooted;
    DeletableIsCut(f, root, x);
    PatchedNode(f, root, x, finished, m, f[x].parent.value);
    PatchedNode(f, root, x, finished, m, d);
    CutKinds(f, root, x);
    NotItsParent(f, root, x, d);
    if d == f[x].parent.value {
      TimeHere(f, root, self, x, finished, m);
    } else if d in DirsAbove(f, root, x) {
      TimeAbove(f, root, self, x, finished, m, d);
    } else {
      TimeElsewhere(f, root, self, x, finished, m, d);
    }
  }

  /** The patched tree is again one that a scan could have left: sizes, counts and times all agree. */
  lemma DeleteKeepsScannerTree<Id(!new)>(
      f: Forest<Id>, root: Id, self: map<Id, SelfMetadata>, x: Id, finished: nat, m: SelfMetadata)
    requires Deletable(f, root, x) && ScannerTree(f, root, self) && m.alloc >= 0
    ensures ScannerTree(Patched(f, root, x, finished, m), root, OwnAfter(f, root, self, x, finished, m))
  {
    hide Patched, Below, Deletable, Measured, Rooted, OwnAfter, LegalName;
    PatchedMeasured(f, root, self, x, finished, m);
    DeletableIsCut(f, root, x);
    var g, c := Patched(f, root, x, finished, m), Cut(f, root, x);
    PatchedNode(f, root, x, finished, m, f[x].parent.value);
    CutKinds(f, root, x);
    CutKeys(f, root, x);
    OwnsNatural(f, root, self, x, finished, m);
    forall y | y in g
      ensures NodeSane(g[y]) && (y != root ==> LegalName(g[y].name)) && g[y].name == f[y].name && g[y].isDir == f[y].isDir
      ensures forall z :: z in g[y].children ==> z in f[y].children
    {
      PatchedNode(f, root, x, finished, m, y);
      OnlyDirsAbove(f, root, x);
      FewerChildren(f, root, x, y);
    }
    forall d, y, z | d in g && y in g[d].children && z in g[d].children && SameName(g, y, z)
      ensures y == z
    {
      assert SameName(f, y, z);
    }
  }

  lemma OnlyDirsAbove<Id(!new)>(f: Forest<Id>, root: Id, x: Id)
    requires Rooted(f, root) && x in f && x != root && f[x].parent.Some? && f[x].parent.value in f
    ensures forall y :: y in DirsAbove(f, root, x) ==> y in f && f[y].isDir
  {
    RootedParent(f, root, x);
    AncestorsAreDirs(f, root, f[x].parent.value);
  }

  lemma FewerChildren<Id(!new)>(f: Forest<Id>, root: Id, x: Id, y: Id)
    requires Rooted(f, root) && x in f && f[x].parent.Some? && y in Cut(f, root, x)
    ensures forall z :: z in Cut(f, root, x)[y].children ==> z in f[y].children
  {
    WithoutMembers(f[y].children, x);
  }

  lemma OwnsNatural<Id(!new)>(
      f: Forest<Id>, root: Id, self: map<Id, SelfMetadata>, x: Id, finished: nat, m: SelfMetadata)
    requires Deletable(f, root, x) && (forall y :: y in self ==> self[y].alloc >= 0) && m.alloc >= 0
    ensures var own := OwnAfter(f, root, self, x, finished, m); forall y :: y in own ==> own[y].alloc >= 0
  {
  }
}
