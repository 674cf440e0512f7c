/** The times of a tree rebuilt from its directories' own times, and two measurements of one tree compared. */
module Retiming {
  import opened Ordering
  import opened Forest
  import opened Relocation
  import opened Recompute
  import opened TreeDelete

  ghost predicate Bounded<Id(!new)>(g: Forest<Id>, h: nat) {
    forall y :: y in g ==> g[y].depth <= h
  }

  /** The time of a leaf, or the latest of a directory's own time and the times inside it. */
  ghost function TimeOf<Id(!new)>(g: Forest<Id>, root: Id, self: map<Id, SelfMetadata>, x: Id, h: nat): nat
    requires Rooted(g, root) && Bounded(g, h) && x in g
    decreases h + 1 - g[x].depth, 0
  {
    if !g[x].isDir then g[x].totals.mtime
    else
      ChildrenDeeper(g, root, x);
      LatestOf(g, root, self, g[x].children, g[x].depth + 1, SelfOf(self, x).mtime, h)
  }

  ghost function LatestOf<Id(!new)>(
    g: Forest<Id>, root: Id, self: map<Id, SelfMetadata>, cs: seq<Id>, depth: nat, from: nat, h: nat): nat
    requires Rooted(g, root) && Bounded(g, h) && depth <= h + 1 && forall c :: c in cs ==> c in g && g[c].depth == depth
    decreases h + 1 - depth, |cs|
  {
    if cs == [] then from
    else
      assert cs[|cs| - 1] in cs;
      Later(TimeOf(g, root, self, cs[|cs| - 1], h), LatestOf(g, root, self, cs[..|cs| - 1], depth, from, h))
  }

  lemma ChildrenDeeper<Id(!new)>(g: Forest<Id>, root: Id, x: Id)
    requires Rooted(g, root) && x in g
    ensures forall c :: c in g[x].children ==> c in g && g[c].depth == g[x].depth + 1
  {
    forall c | c in g[x].children
      ensures c in g && g[c].depth == g[x].depth + 1
    {
      ChildDepth(g, root, x, c);
    }
  }

  ghost function Retime<Id(!new)>(g: Forest<Id>, root: Id, self: map<Id, SelfMetadata>, h: nat): Forest<Id>
    requires Rooted(g, root) && Bounded(g, h)
  {
    map y | y in g :: g[y].(totals := g[y].totals.(mtime := TimeOf(g, root, self, y, h)))
  }

  lemma {:induction false} LatestIsNewest<Id(!new)>(
      g: Forest<Id>, root: Id, self: map<Id, SelfMetadata>, cs: seq<Id>, depth: nat, from: nat, h: nat)
    requires Rooted(g, root) && Bounded(g, h) && depth <= h + 1 && forall c :: c in cs ==> c in g && g[c].depth == depth
    ensures LatestOf(g, root, self, cs, depth, from, h) == Newest(Retime(g, root, self, h), cs, from)
  {
    hide Rooted, TimeOf;
    if cs != [] {
      assert cs[|cs| - 1] in cs;
      LatestIsNewest(g, root, self, cs[..|cs| - 1], depth, from, h);
    }
  }

  /** The rebuilt times balance against other own times. */
  lemma RetimeMeasured<Id(!new)>(
      g: Forest<Id>, root: Id, self: map<Id, SelfMetadata>, self2: map<Id, SelfMetadata>, h: nat)
    requires Rooted(g, root) && Bounded(g, h) && Measured(g, root, self)
    requires forall d :: d in g && g[d].isDir ==> SelfOf(self2, d) == SelfOf(self, d).(mtime := SelfOf(self2, d).mtime)
    ensures SameButTimes(g, Retime(g, root, self2, h)) && Rooted(Retime(g, root, self2, h), root)
    ensures Measured(Retime(g, root, self2, h), root, self2)
    ensures forall y :: y in g && !g[y].isDir ==> Retime(g, root, self2, h)[y] == g[y]
  {
    hide Rooted, Measured, SelfOf;
    var r := Retime(g, root, self2, h);
    forall d | d in r && r[d].isDir
      ensures TimeBalanced(r, self2, d)
    {
      ChildrenDeeper(g, root, d);
      LatestIsNewest(g, root, self2, g[d].children, g[d].depth + 1, SelfOf(self2, d).mtime, h);
      NewestIsSum(r, g[d].children, SelfOf(self2, d).mtime);
    }
    Retimed(g, r, root, self, self2);
  }

  lemma TimeAt<Id(!new)>(f: Forest<Id>, root: Id, self: map<Id, SelfMetadata>, d: Id)
    requires Rooted(f, root) && Measured(f, root, self) && d in f && f[d].isDir
    ensures forall c :: c in f[d].children ==> c in f && c != d && f[c].depth == f[d].depth + 1
    ensures f[d].totals.mtime == Later(SelfOf(self, d).mtime, SumOf(f, f[d].children).mtime)
  {
    assert Balanced(f, root, self, d);
    ChildrenDeeper(f, root, d);
  }

  lemma {:induction false} NewestWithout<Id(!new)>(f: Forest<Id>, cs: seq<Id>, c: Id, from: nat)
    requires c in cs && Distinct(cs) && forall d :: d in cs ==> d in f
    ensures forall d :: d in Without(cs, c) ==> d in f
    ensures Newest(f, cs, from) == Later(f[c].totals.mtime, Newest(f, Without(cs, c), from))
  {
    var init, last := cs[..|cs| - 1], cs[|cs| - 1];
    assert cs == init + [last];
    WithoutMembers(cs, c);
    if last == c {
      WithoutAbsent(init, c);
    } else {
      WithoutMembers(init, c);
      NewestWithout(f, init, c, from);
    }
  }

  /** A directory shows the later of one entry and of everything else in it. */
  lemma LatestHere<Id(!new)>(f: Forest<Id>, root: Id, self: map<Id, SelfMetadata>, d: Id, b: Id)
    requires Rooted(f, root) && Measured(f, root, self) && d in f && f[d].isDir && b in f[d].children
    ensures b in f && forall c :: c in Without(f[d].children, b) ==> c in f
    ensures f[d].totals.mtime == Later(f[b].totals.mtime, Newest(f, Without(f[d].children, b), SelfOf(self, d).mtime))
  {
    ChildrenKnown(f, root, d);
    TimeAt(f, root, self, d);
    hide Rooted, Measured, SelfOf;
    NewestIsSum(f, f[d].children, SelfOf(self, d).mtime);
    NewestWithout(f, f[d].children, b, SelfOf(self, d).mtime);
  }

  /** g and s measure one tree, with other own times: leaves are the same. */
  ghost predicate TwoMeasures<Id(!new)>(
    g: Forest<Id>, s: Forest<Id>, root: Id, self: map<Id, SelfMetadata>, self2: map<Id, SelfMetadata>)
  {
    && Rooted(g, root) && Rooted(s, root) && Measured(g, root, self) && Measured(s, root, self2) && SameButTimes(g, s)
    && forall y :: y in g && !g[y].isDir ==> s[y] == g[y]
  }

  /** Where own times are no later, no shown time is. */
  lemma {:induction false} TimesNoLater<Id(!new)>(
      g: Forest<Id>, s: Forest<Id>, root: Id, self: map<Id, SelfMetadata>, self2: map<Id, SelfMetadata>, x: Id, h: nat)
    requires TwoMeasures(g, s, root, self, self2) && Bounded(g, h) && x in g
    requires forall d :: d in g && g[d].isDir ==> SelfOf(self2, d).mtime <= SelfOf(self, d).mtime
    ensures x in s && s[x].totals.mtime <= g[x].totals.mtime
    decreases h - g[x].depth
  {
    hide Rooted, Measured, SelfOf;
    if g[x].isDir {
      TimeAt(g, root, self, x);
      TimeAt(s, root, self2, x);
      forall c | c in g[x].children
        ensures c in s && s[c].totals.mtime <= SumOf(g, g[x].children).mtime
      {
        TimesNoLater(g, s, root, self, self2, c, h);
        SumTimeCovers(g, g[x].children, c);
      }
      SumTimeBound(s, g[x].children, SumOf(g, g[x].children).mtime);
    }
  }

  /** Where own times are the same in everything below, the shown times are. */
  lemma {:induction false} TimesSame<Id(!new)>(
      g: Forest<Id>, s: Forest<Id>, root: Id, self: map<Id, SelfMetadata>, self2: map<Id, SelfMetadata>, u: set<Id>,
      x: Id, h: nat)
    requires TwoMeasures(g, s, root, self, self2) && Bounded(g, h) && Closed(g, u) && x in u && x in g
    requires forall d :: d in u && d in g && g[d].isDir ==> SelfOf(self2, d).mtime == SelfOf(self, d).mtime
    ensures x in s && s[x] == g[x]
    decreases h - g[x].depth
  {
    hide Rooted, Measured, SelfOf;
    if g[x].isDir {
      TimeAt(g, root, self, x);
      TimeAt(s, root, self2, x);
      forall c | c in g[x].children
        ensures c in s && s[c] == g[c]
      {
        TimesSame(g, s, root, self, self2, u, c, h);
      }
      SumAgrees(g, s, g[x].children);
    }
  }
}
