/** Whole scans: every schedule keeps the tree exact, ends, and ends with the same tree. */
module Runs {
  import opened Ordering
  import opened Forest
  import opened TotalsMeaning
  import opened LiveTree
  import opened AliasGraph
  import opened FileSystem
  import opened Confluence
  import opened Discovery
  import opened DiscoverySteps
  import opened ProgressClone
  import opened Settlement

  /** One schedule: the actions as the goroutines happened to perform them, and the states between. */
  ghost predicate IsRun(fs: FileSystem, root: DirKey, name: string, ss: seq<State>, acts: seq<Action>) {
    && |ss| == |acts| + 1
    && ss[0] == Initial(root, name)
    && forall i :: 0 <= i < |acts| ==> Step(fs, root, ss[i], acts[i], ss[i + 1])
  }

  lemma {:induction false} RunSound(
      fs: FileSystem, root: DirKey, name: string, ss: seq<State>, acts: seq<Action>, i: nat)
    requires WellFormed(fs) && root in fs && IsRun(fs, root, name, ss, acts) && i < |ss|
    ensures Inv(fs, root, name, ss[i])
  {
    hide Inv, Step, WellFormed;
    if i == 0 {
      InitialSound(fs, root, name);
    } else {
      RunSound(fs, root, name, ss, acts, i - 1);
      StepKeeps(fs, root, name, ss[i - 1], acts[i - 1], ss[i]);
    }
  }

  /** In every state of every schedule each directory's totals are exact: they sum its own metadata and
      what was measured so far beneath it, each node once. */
  lemma EveryStateExact(
      fs: FileSystem, root: DirKey, name: string, ss: seq<State>, acts: seq<Action>, i: nat, k: DirKey)
    requires WellFormed(fs) && root in fs && IsRun(fs, root, name, ss, acts) && i < |ss| && DirRef(k) in ss[i].tree
    ensures var s := ss[i];
      && Rooted(s.tree, DirRef(root))
      && s.tree[DirRef(k)].totals.(dirs := s.tree[DirRef(k)].totals.dirs + 1)
         == SumSet(Owns(s.tree, s.self), Below(s.tree, DirRef(root), DirRef(k)))
  {
    RunSound(fs, root, name, ss, acts, i);
    TreeParts(root, ss[i]);
    TotalsCountDescendants(ss[i].tree, DirRef(root), ss[i].self, DirRef(k));
  }

  /** So every progress report, a bounded copy of such a state, shows exact partial totals. */
  lemma EveryReportExact(
      fs: FileSystem, root: DirKey, name: string, ss: seq<State>, acts: seq<Action>, i: nat, maxDepth: int, c: Tree, d: Ref)
    requires WellFormed(fs) && root in fs && IsRun(fs, root, name, ss, acts) && i < |ss|
    requires Rooted(ss[i].tree, DirRef(root)) && CloneOf(ss[i].tree, DirRef(root), DirRef(root), maxDepth, c)
    requires d in c && c[d].isDir
    ensures d in ss[i].tree
    ensures c[d].totals.(dirs := c[d].totals.dirs + 1)
      == SumSet(Owns(ss[i].tree, ss[i].self), Below(ss[i].tree, DirRef(root), d))
  {
    hide CloneOf, IsRun, Below, Rooted, Measured;
    RunSound(fs, root, name, ss, acts, i);
    TreeParts(root, ss[i]);
    CloneIsExact(ss[i].tree, DirRef(root), ss[i].self, DirRef(root), maxDepth, c, d);
  }

  /** All that a scan of fs can ever have to do. */
  ghost function Work(fs: FileSystem): set<Action> {
    (set k | k in fs :: Begin(k)) + (set k, n | k in fs && n in fs[k].entries :: Classify(k, n))
    + (set k, n | k in fs && n in fs[k].entries :: Publish(k, n)) + (set k | k in fs :: Finish(k))
  }

  ghost predicate IsDone(fs: FileSystem, s: State, a: Action) {
    match a
    case Begin(k) => k in s.unread
    case Classify(k, n) => WasRead(fs, s, k, n)
    case Publish(k, n) => IsShown(fs, s, k, n)
    case Finish(k) => k in s.finished
  }

  ghost function Remaining(fs: FileSystem, s: State): set<Action> {
    set a | a in Work(fs) && !IsDone(fs, s, a)
  }

  /** Each step does one piece of work that nobody did before, and undoes none. */
  lemma StepShrinks(fs: FileSystem, root: DirKey, name: string, s: State, a: Action, t: State)
    requires Inv(fs, root, name, s) && Step(fs, root, s, a, t)
    ensures a in Remaining(fs, s) && Remaining(fs, t) == Remaining(fs, s) - {a}
  {
    hide TreeSound, DirsSound, LeavesSound, ClaimsSound, GroupsSound, FinishedSound, StartedUp, Published, ChildrenSorted;
    PlansWereRead(fs, root, s);
    if a.Publish? {
      assert WasRead(fs, s, a.dir, a.name) by { assert EntryId(a.dir, a.name) in s.plans; }
    }
    assert a in Work(fs);
    StepDoes(fs, root, s, a, t);
    hide Work, Step;
    forall b | b in Work(fs)
      ensures IsDone(fs, t, b) <==> IsDone(fs, s, b) || b == a
    {
      StepDoesOne(fs, root, s, a, t, b);
    }
  }

  lemma StepDoes(fs: FileSystem, root: DirKey, s: State, a: Action, t: State)
    requires Step(fs, root, s, a, t)
    ensures !IsDone(fs, s, a)
  {
  }

  /** What a step does to the work still to be done. */
  lemma StepWork(fs: FileSystem, root: DirKey, s: State, a: Action, t: State)
    requires Step(fs, root, s, a, t)
    ensures Enabled(fs, s, a)
    ensures t.unread == (match a
                         case Begin(k) => s.unread[k := fs[k].entries.Keys]
                         case Classify(k, n) => s.unread[k := s.unread[k] - {n}]
                         case _ => s.unread)
    ensures a.Publish? ==> t.plans == s.plans - {EntryId(a.dir, a.name)}
    ensures a.Classify? ==> t.plans.Keys == s.plans.Keys + {EntryId(a.dir, a.name)}
    ensures a.Begin? || a.Finish? ==> t.plans == s.plans
    ensures t.finished == if a.Finish? then s.finished + {a.dir} else s.finished
  {
    hide StartedUp, Published, ChildrenSorted, PlanFor, GroupsAfter, ClaimsAfter, Rooted, Adoptable, Unstarted, EdgesOf;
  }

  lemma StepDoesOne(fs: FileSystem, root: DirKey, s: State, a: Action, t: State, b: Action)
    requires Step(fs, root, s, a, t) && b in Work(fs)
    requires forall id :: id in s.plans ==> WasRead(fs, s, id.dir, id.name)
    ensures IsDone(fs, t, b) <==> IsDone(fs, s, b) || b == a
  {
    hide Step;
    StepWork(fs, root, s, a, t);
  }

  /** No schedule goes on forever. */
  lemma {:induction false} RunsEnd(
      fs: FileSystem, root: DirKey, name: string, ss: seq<State>, acts: seq<Action>, i: nat)
    requires WellFormed(fs) && root in fs && IsRun(fs, root, name, ss, acts) && i < |ss|
    ensures i + |Remaining(fs, ss[i])| <= |Work(fs)|
  {
    hide Inv, Step, WellFormed, Work;
    if i == 0 {
      SubsetSize(Remaining(fs, ss[0]), Work(fs));
    } else {
      RunsEnd(fs, root, name, ss, acts, i - 1);
      RunSound(fs, root, name, ss, acts, i - 1);
      StepShrinks(fs, root, name, ss[i - 1], acts[i - 1], ss[i]);
    }
  }

  /** However two scans of one file system were scheduled, they end with the same tree. */
  lemma ScheduleIndependent(
      fs: FileSystem, root: DirKey, name: string,
      ss: seq<State>, acts: seq<Action>, moved: Tree, owned: Tree, f: Tree,
      ss': seq<State>, acts': seq<Action>, moved': Tree, owned': Tree, f': Tree)
    requires WellFormed(fs) && root in fs
    requires IsRun(fs, root, name, ss, acts) && Terminal(fs, ss[|acts|])
    requires IsRun(fs, root, name, ss', acts') && Terminal(fs, ss'[|acts'|])
    requires SettledBy(root, ss[|acts|], moved, owned, f)
    requires SettledBy(root, ss'[|acts'|], moved', owned', f')
    ensures f == f'
  {
    hide Inv, Step, WellFormed, Terminal, SettledBy, Authoritative;
    RunSound(fs, root, name, ss, acts, |acts|);
    RunSound(fs, root, name, ss', acts', |acts'|);
    SettledAuthoritative(fs, root, name, ss[|acts|], moved, owned, f);
    SettledAuthoritative(fs, root, name, ss'[|acts'|], moved', owned', f');
    AuthoritativeUnique(fs, root, name, f, f');
  }
}
