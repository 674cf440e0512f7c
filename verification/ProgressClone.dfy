/** The bounded copies of the live tree that progress reports show (tree.Node.ShallowClone). */
module ProgressClone {
  import opened Options
  import opened Forest
  import opened TotalsMeaning

  datatype Frame<Id> = Frame(src: Id, depth: int)

  /** How far y lies below n. */
  function Level<Id(!new)>(f: Forest<Id>, n: Id, y: Id): int
    requires n in f && y in f
  {
    f[y].depth - f[n].depth
  }

  /** Everything below n down to maxDepth levels. */
  ghost function Within<Id(!new)>(f: Forest<Id>, root: Id, n: Id, maxDepth: int): set<Id>
    requires Rooted(f, root) && n in f
  {
    set y | y in Below(f, root, n) && (y == n || Level(f, n, y) <= maxDepth)
  }

  /** The copy of y, which shows y's totals as they are. */
  ghost predicate Copied<Id(!new)>(f: Forest<Id>, n: Id, c: Forest<Id>, y: Id) {
    && y in c && y in f
    && c[y] == f[y].(parent := if y == n then None else f[y].parent, children := c[y].children)
    && c[y].children <= f[y].children
    && (forall z :: z in c[y].children ==> z in c)
    && (y != n ==> f[y].parent.Some? && f[y].parent.value in c && y in c[f[y].parent.value].children)
  }

  /** c is a part of the tree below n, down to maxDepth levels, that contains n and with every node its parent. */
  ghost predicate CloneOf<Id(!new)>(f: Forest<Id>, root: Id, n: Id, maxDepth: int, c: Forest<Id>)
    requires Rooted(f, root) && n in f
  {
    && n in c && c.Keys <= Within(f, root, n, maxDepth)
    && forall y {:trigger Copied(f, n, c, y)} :: y in c ==> Copied(f, n, c, y)
  }

  ghost predicate Expanded<Id(!new)>(f: Forest<Id>, n: Id, maxDepth: int, c: Forest<Id>, y: Id)
    requires n in f
  {
    y in f && y in c && c[y].children == if Level(f, n, y) < maxDepth then f[y].children else []
  }

  /** The nodes whose children are still to be copied have none yet; all others are done. */
  ghost predicate Pending<Id(!new)>(f: Forest<Id>, n: Id, maxDepth: int, c: Forest<Id>, open: seq<Frame<Id>>)
    requires n in f
  {
    && (forall i :: 0 <= i < |open| ==> OpenFrame(f, n, c, open[i]))
    && (forall i, j :: 0 <= i < j < |open| ==> open[i].src != open[j].src)
    && forall y {:trigger Expanded(f, n, maxDepth, c, y)} :: y in c && !IsOpen(open, y) ==> Expanded(f, n, maxDepth, c, y)
  }

  ghost predicate OpenFrame<Id(!new)>(f: Forest<Id>, n: Id, c: Forest<Id>, frame: Frame<Id>)
    requires n in f
  {
    frame.src in c && frame.src in f && c[frame.src].children == [] && frame.depth == Level(f, n, frame.src)
  }

  ghost predicate IsOpen<Id(!new)>(open: seq<Frame<Id>>, y: Id) {
    exists i :: 0 <= i < |open| && open[i].src == y
  }

  method ShallowClone<Id(!new,==)>(f: Forest<Id>, root: Id, n: Id, maxDepth: int, cap: int) returns (r: Option<Forest<Id>>)
    requires Rooted(f, root) && n in f
    ensures r.None? <==> cap <= 0
    ensures r.Some? ==> CloneOf(f, root, n, maxDepth, r.value) && |r.value| <= cap
    ensures r.Some? && |r.value| < cap ==> r.value.Keys == Within(f, root, n, maxDepth)
    ensures r.Some? && |r.value| < cap ==> forall y :: y in r.value ==> Expanded(f, n, maxDepth, r.value, y)
  {
    hide Rooted, CloneOf, Pending, Within, Expanded;
    if cap <= 0 { return None; }
    var c := map[n := f[n].(parent := None, children := [])];
    var stack := [Frame(n, 0)];
    CloneStarts(f, root, n, maxDepth, c, stack);
    while |stack| > 0
      invariant CloneOf(f, root, n, maxDepth, c) && |c| <= cap && Pending(f, n, maxDepth, c, stack)
      decreases cap - |c|, |stack|
    {
      ghost var before := stack;
      var frame := stack[|stack| - 1];
      stack := stack[..|stack| - 1];
      FrameKnown(f, root, n, maxDepth, c, before);
      if frame.depth >= maxDepth {
        NothingToCopy(f, n, maxDepth, c, before);
        continue;
      }
      var cs := f[frame.src].children;
      ChildrenKnown(f, root, frame.src);
      ghost var rest, size := stack, |c|;
      Opened(f, n, maxDepth, c, before);
      for i := 0 to |cs|
        invariant CloneOf(f, root, n, maxDepth, c) && size <= |c| <= cap && (i > 0 ==> size < |c|)
        invariant frame.src in c && c[frame.src].children == cs[..i]
        invariant i == 0 ==> |stack| < |before|
        invariant Half(f, n, maxDepth, c, stack, frame.src)
      {
        if |c| >= cap { return Some(c); }
        var ch := cs[i];
        CopyChild(f, root, n, maxDepth, c, stack, frame, i);
        c := c[frame.src := c[frame.src].(children := c[frame.src].children + [ch])]
          [ch := f[ch].(parent := Some(frame.src), children := [])];
        stack := stack + [Frame(ch, frame.depth + 1)];
      }
      assert cs[..|cs|] == cs;
      AllCopied(f, n, maxDepth, c, stack, frame);
    }
    NothingPending(f, root, n, maxDepth, c);
    return Some(c);
  }

  /** Like Pending, while the children of src are being copied. */
  ghost predicate Half<Id(!new)>(
    f: Forest<Id>, n: Id, maxDepth: int, c: Forest<Id>, open: seq<Frame<Id>>, src: Id)
    requires n in f
  {
    && (forall i :: 0 <= i < |open| ==> OpenFrame(f, n, c, open[i]) && open[i].src != src)
    && (forall i, j :: 0 <= i < j < |open| ==> open[i].src != open[j].src)
    && forall y {:trigger Expanded(f, n, maxDepth, c, y)} ::
      y in c && y != src && !IsOpen(open, y) ==> Expanded(f, n, maxDepth, c, y)
  }

  lemma CloneStarts<Id(!new)>(f: Forest<Id>, root: Id, n: Id, maxDepth: int, c: Forest<Id>, stack: seq<Frame<Id>>)
    requires Rooted(f, root) && n in f && c == map[n := f[n].(parent := None, children := [])] && stack == [Frame(n, 0)]
    ensures CloneOf(f, root, n, maxDepth, c) && Pending(f, n, maxDepth, c, stack) && |c| == 1
  {
    assert Above(f, root, n, n);
    assert stack[0].src == n;
    assert c.Keys == {n};
  }

  lemma FrameKnown<Id(!new)>(f: Forest<Id>, root: Id, n: Id, maxDepth: int, c: Forest<Id>, stack: seq<Frame<Id>>)
    requires Rooted(f, root) && n in f && CloneOf(f, root, n, maxDepth, c) && Pending(f, n, maxDepth, c, stack)
    requires |stack| > 0
    ensures var frame := stack[|stack| - 1];
      frame.src in c && frame.src in f && c[frame.src].children == [] && frame.depth == Level(f, n, frame.src)
  {
    assert OpenFrame(f, n, c, stack[|stack| - 1]);
  }

  lemma NothingToCopy<Id(!new)>(f: Forest<Id>, n: Id, maxDepth: int, c: Forest<Id>, stack: seq<Frame<Id>>)
    requires n in f && Pending(f, n, maxDepth, c, stack) && |stack| > 0 && stack[|stack| - 1].depth >= maxDepth
    ensures Pending(f, n, maxDepth, c, stack[..|stack| - 1])
  {
    var frame, rest := stack[|stack| - 1], stack[..|stack| - 1];
    assert stack == rest + [frame];
    assert OpenFrame(f, n, c, frame);
    forall y | y in c && !IsOpen(rest, y)
      ensures Expanded(f, n, maxDepth, c, y)
    {
      StaysOpen(rest, frame, y);
    }
  }

  lemma Opened<Id(!new)>(f: Forest<Id>, n: Id, maxDepth: int, c: Forest<Id>, stack: seq<Frame<Id>>)
    requires n in f && Pending(f, n, maxDepth, c, stack) && |stack| > 0
    ensures Half(f, n, maxDepth, c, stack[..|stack| - 1], stack[|stack| - 1].src)
  {
    var frame, rest := stack[|stack| - 1], stack[..|stack| - 1];
    assert stack == rest + [frame];
    forall y | y in c && y != frame.src && !IsOpen(rest, y)
      ensures Expanded(f, n, maxDepth, c, y)
    {
      StaysOpen(rest, frame, y);
    }
  }

  lemma AllCopied<Id(!new)>(
      f: Forest<Id>, n: Id, maxDepth: int, c: Forest<Id>, stack: seq<Frame<Id>>, frame: Frame<Id>)
    requires n in f && Half(f, n, maxDepth, c, stack, frame.src) && frame.src in f && frame.src in c
    requires frame.depth == Level(f, n, frame.src) < maxDepth && c[frame.src].children == f[frame.src].children
    ensures Pending(f, n, maxDepth, c, stack)
  {
    assert Expanded(f, n, maxDepth, c, frame.src);
  }

  /** One child is copied: it was not there yet, it hangs below its parent, and it is open. */
  lemma CopyChild<Id(!new)>(
      f: Forest<Id>, root: Id, n: Id, maxDepth: int, c: Forest<Id>, stack: seq<Frame<Id>>, frame: Frame<Id>, i: nat)
    requires Rooted(f, root) && n in f && CloneOf(f, root, n, maxDepth, c) && frame.src in c && frame.src in f
    requires i < |f[frame.src].children| && c[frame.src].children == f[frame.src].children[..i]
    requires frame.depth == Level(f, n, frame.src) < maxDepth && Half(f, n, maxDepth, c, stack, frame.src)
    ensures f[frame.src].children[i] in f && f[frame.src].children[i] !in c
    ensures var ch := f[frame.src].children[i];
      var c2 := c[frame.src := c[frame.src].(children := c[frame.src].children + [ch])]
        [ch := f[ch].(parent := Some(frame.src), children := [])];
      && CloneOf(f, root, n, maxDepth, c2) && |c2| == |c| + 1
      && c2[frame.src].children == f[frame.src].children[..i + 1]
      && Half(f, n, maxDepth, c2, stack + [Frame(ch, frame.depth + 1)], frame.src)
  {
    var p, ch := frame.src, f[frame.src].children[i];
    ChildIsNew(f, root, n, maxDepth, c, p, i);
    hide CloneOf, Half, Rooted;
    var c2 := c[p := c[p].(children := c[p].children + [ch])][ch := f[ch].(parent := Some(p), children := [])];
    assert c2.Keys == c.Keys + {ch};
    assert f[p].children[..i + 1] == f[p].children[..i] + [ch];
    ChildJoins(f, root, n, maxDepth, c, p, i, c2);
    ChildOpens(f, n, maxDepth, c, stack, frame, ch, c2);
  }

  lemma ChildIsNew<Id(!new)>(f: Forest<Id>, root: Id, n: Id, maxDepth: int, c: Forest<Id>, p: Id, i: nat)
    requires Rooted(f, root) && n in f && CloneOf(f, root, n, maxDepth, c) && p in c && p in f
    requires i < |f[p].children| && c[p].children == f[p].children[..i]
    ensures var ch := f[p].children[i];
      && ch in f && ch !in c && ch != n && ch != p && f[ch].parent == Some(p)
      && Level(f, n, ch) == Level(f, n, p) + 1 && ch in Below(f, root, n)
  {
    var ch := f[p].children[i];
    ChildDepth(f, root, p, ch);
    AboveTransitive(f, root, n, p, ch);
    ChildrenKnown(f, root, p);
    assert ch !in f[p].children[..i];
    assert ch in c ==> Copied(f, n, c, ch);
  }

  lemma ChildJoins<Id(!new)>(
      f: Forest<Id>, root: Id, n: Id, maxDepth: int, c: Forest<Id>, p: Id, i: nat, c2: Forest<Id>)
    requires Rooted(f, root) && n in f && CloneOf(f, root, n, maxDepth, c) && p in c && p in f
    requires i < |f[p].children| && c[p].children == f[p].children[..i] && Level(f, n, p) < maxDepth
    requires f[p].children[i] in f && f[p].children[i] !in c
    requires c2 == c[p := c[p].(children := c[p].children + [f[p].children[i]])]
      [f[p].children[i] := f[f[p].children[i]].(parent := Some(p), children := [])]
    ensures CloneOf(f, root, n, maxDepth, c2)
  {
    var ch := f[p].children[i];
    ChildIsNew(f, root, n, maxDepth, c, p, i);
    hide Rooted, Below;
    assert f[p].children[..i + 1] == f[p].children[..i] + [ch];
    forall y | y in c2
      ensures Copied(f, n, c2, y)
    {
      assert y != ch ==> Copied(f, n, c, y);
      assert Copied(f, n, c, p);
    }
  }

  lemma StaysOpen<Id(!new)>(open: seq<Frame<Id>>, frame: Frame<Id>, y: Id)
    ensures IsOpen(open + [frame], y) <==> IsOpen(open, y) || y == frame.src
  {
    assert (open + [frame])[|open|] == frame;
    if IsOpen(open, y) {
      var i :| 0 <= i < |open| && open[i].src == y;
      assert (open + [frame])[i].src == y;
    }
  }

  lemma ChildOpens<Id(!new)>(
      f: Forest<Id>, n: Id, maxDepth: int, c: Forest<Id>, stack: seq<Frame<Id>>, frame: Frame<Id>, ch: Id,
      c2: Forest<Id>)
    requires n in f && frame.src in c && frame.src in f && Half(f, n, maxDepth, c, stack, frame.src)
    requires ch in f && ch !in c && ch != frame.src && Level(f, n, ch) == frame.depth + 1
    requires c2 == c[frame.src := c[frame.src].(children := c[frame.src].children + [ch])]
      [ch := f[ch].(parent := Some(frame.src), children := [])]
    ensures Half(f, n, maxDepth, c2, stack + [Frame(ch, frame.depth + 1)], frame.src)
  {
    var open := stack + [Frame(ch, frame.depth + 1)];
    forall i | 0 <= i < |open|
      ensures OpenFrame(f, n, c2, open[i]) && open[i].src != frame.src && (i < |stack| ==> open[i].src != ch)
    {
      assert i < |stack| ==> OpenFrame(f, n, c, stack[i]);
    }
    assert open[|stack|].src == ch;
    forall y | y in c2 && y != frame.src && !IsOpen(open, y)
      ensures Expanded(f, n, maxDepth, c2, y)
    {
      StaysOpen(stack, open[|stack|], y);
      assert Expanded(f, n, maxDepth, c, y);
    }
  }

  /** When nothing is pending, everything within reach was copied. */
  lemma NothingPending<Id(!new)>(f: Forest<Id>, root: Id, n: Id, maxDepth: int, c: Forest<Id>)
    requires Rooted(f, root) && n in f && CloneOf(f, root, n, maxDepth, c) && Pending(f, n, maxDepth, c, [])
    ensures c.Keys == Within(f, root, n, maxDepth) && forall y :: y in c ==> Expanded(f, n, maxDepth, c, y)
  {
    forall y | y in c
      ensures Expanded(f, n, maxDepth, c, y)
    {
      assert !IsOpen([], y);
    }
    forall y | y in Within(f, root, n, maxDepth)
      ensures y in c
    {
      ReachedByClone(f, root, n, maxDepth, c, y);
    }
  }

  lemma {:induction false} ReachedByClone<Id(!new)>(f: Forest<Id>, root: Id, n: Id, maxDepth: int, c: Forest<Id>, y: Id)
    requires Rooted(f, root) && n in f && CloneOf(f, root, n, maxDepth, c) && y in Within(f, root, n, maxDepth)
    requires forall y :: y in c ==> Expanded(f, n, maxDepth, c, y)
    ensures y in c
    decreases f[y].depth
  {
    if y != n {
      StrictlyBelow(f, root, n, y);
      var p := f[y].parent.value;
      ReachedByClone(f, root, n, maxDepth, c, p);
      assert Expanded(f, n, maxDepth, c, p) && Copied(f, n, c, p);
    }
  }

  lemma StrictlyBelow<Id(!new)>(f: Forest<Id>, root: Id, n: Id, y: Id)
    requires Rooted(f, root) && n in f && y in Below(f, root, n) && y != n
    ensures y != root && HasParent(f, y)
    ensures f[y].parent.value in Below(f, root, n) && f[f[y].parent.value].depth < f[y].depth
  {
    assert y != root;
    RootedParent(f, root, y);
  }

  /** However small the copy, each copied directory shows the sum over everything that the live tree holds below it. */
  lemma CloneIsExact<Id(!new)>(
      f: Forest<Id>, root: Id, self: map<Id, SelfMetadata>, n: Id, maxDepth: int, c: Forest<Id>, d: Id)
    requires Rooted(f, root) && Measured(f, root, self) && n in f && CloneOf(f, root, n, maxDepth, c)
    requires d in c && c[d].isDir
    ensures d in f && c[d].totals.(dirs := c[d].totals.dirs + 1) == SumSet(Owns(f, self), Below(f, root, d))
  {
    hide Rooted, Measured, Below;
    assert Copied(f, n, c, d);
    TotalsCountDescendants(f, root, self, d);
  }
}
