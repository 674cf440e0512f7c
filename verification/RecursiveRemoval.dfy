/** Recursive removal: a captured walk, undone from its end while every object is still the captured one. */
module RecursiveRemoval {
  import opened PathOrder
  import opened PlanEffects

  /** What clean-up compares. times stands for size, times and link target; a directory's own times
      change as its entries go, so they are not compared. */
  datatype Entry = Entry(kind: Kind, identity: nat, times: nat)

  predicate SameCleanupObject(expected: Entry, actual: Entry) {
    && expected.identity == actual.identity && expected.kind == actual.kind
    && (expected.kind != Directory ==> expected.times == actual.times)
  }

  /** One captured object; its path is relative to the source, [] is the source itself. */
  datatype Captured = Captured(relative: Path, entry: Entry)

  type World = map<Path, Entry>

  /** Every object lies in a directory. */
  ghost predicate Nested(w: World) {
    IsNested(w)
  }

  predicate IsNested(w: World) {
    forall p | p in w :: p != [] ==> Dir(p) in w && w[Dir(p)].kind == Directory
  }

  /** The walk visits the source first and every object after the directory that holds it, once. */
  ghost predicate IsWalk(snapshot: seq<Captured>) {
    && |snapshot| > 0 && snapshot[0].relative == []
    && (forall i, j :: 0 <= i < j < |snapshot| ==> snapshot[i].relative != snapshot[j].relative)
    && (forall j :: 0 < j < |snapshot| ==> snapshot[j].relative != [] && HeldEarlier(snapshot, j))
  }

  ghost predicate HeldEarlier(snapshot: seq<Captured>, j: nat)
    requires j < |snapshot|
  {
    exists i :: 0 <= i < j && snapshot[i].relative == Dir(snapshot[j].relative) && snapshot[i].entry.kind == Directory
  }

  function ByRelative(snapshot: seq<Captured>): map<Path, Entry> {
    if snapshot == [] then map[]
    else ByRelative(snapshot[..|snapshot| - 1])[snapshot[|snapshot| - 1].relative := snapshot[|snapshot| - 1].entry]
  }

  lemma {:induction false} ByRelativeFinds(snapshot: seq<Captured>, p: Path)
    ensures p in ByRelative(snapshot) <==> exists i :: 0 <= i < |snapshot| && snapshot[i].relative == p
    ensures p in ByRelative(snapshot) ==>
      exists i :: 0 <= i < |snapshot| && snapshot[i].relative == p && snapshot[i].entry == ByRelative(snapshot)[p]
  {
    if snapshot != [] {
      var init, last := snapshot[..|snapshot| - 1], |snapshot| - 1;
      ByRelativeFinds(init, p);
      if snapshot[last].relative != p && p in ByRelative(init) {
        var i :| 0 <= i < |init| && init[i].relative == p && init[i].entry == ByRelative(init)[p];
        assert snapshot[i] == init[i];
      }
      if i :| 0 <= i < |snapshot| && snapshot[i].relative == p && snapshot[last].relative != p {
        assert init[i] == snapshot[i];
      }
    }
  }

  /** The captured object of every directory from the source down to p's own is still the one there. */
  ghost predicate AncestorsMatch(w: World, source: Path, expected: map<Path, Entry>, p: Path) {
    forall a: Path :: a <= p ==> StillCaptured(w, source, expected, a)
  }

  predicate StillCaptured(w: World, source: Path, expected: map<Path, Entry>, a: Path) {
    a in expected && source + a in w && SameCleanupObject(expected[a], w[source + a])
  }

  ghost predicate IsLeaf(w: World, p: Path) {
    forall q :: q in w ==> !(p < q)
  }

  /** What was looked at before one object was removed: each directory above it in turn, from its own up to the source,
      then the object; and the world in which it was removed. Others may act between any two of these moments. */
  datatype Event = Event(path: Path, climbed: seq<World>, seen: World, at: World)

  /** Every directory from top up to the source was still the captured one when it was looked at. */
  ghost predicate Climbed(climbed: seq<World>, source: Path, expected: map<Path, Entry>, top: Path) {
    |climbed| == |top| + 1 && ClimbedSoFar(climbed, source, expected, top)
  }

  ghost predicate ClimbedSoFar(climbed: seq<World>, source: Path, expected: map<Path, Entry>, top: Path) {
    |climbed| <= |top| + 1
    && forall i :: 0 <= i < |climbed| ==> StillCaptured(climbed[i], source, expected, top[..|top| - i])
  }

  lemma OneMoreClimbed(climbed: seq<World>, source: Path, expected: map<Path, Entry>, top: Path, w: World)
    requires ClimbedSoFar(climbed, source, expected, top) && |climbed| <= |top|
    requires StillCaptured(w, source, expected, top[..|top| - |climbed|])
    ensures ClimbedSoFar(climbed + [w], source, expected, top)
  {
    hide StillCaptured;
  }

  /** A turn of other processes: what they found and what they left. */
  datatype Turn = Turn(found: World, left: World)

  class Filesystem {
    var world: World
    /** Every removal this process made. */
    ghost var log: seq<Event>
    /** Every turn of other processes. */
    ghost var turns: seq<Turn>
    /** Whether a primitive failed or the run was cancelled. */
    ghost var faults: bool

    constructor (world: World)
      requires Nested(world)
      ensures this.world == world && log == [] && turns == [] && !faults
    {
      this.world, log, turns, faults := world, [], [], false;
    }

    /** Other processes may change anything, or keep still. */
    method Disturb()
      requires Nested(world)
      modifies this`world, this`turns
      ensures Nested(world) && turns == old(turns) + [Turn(old(world), world)]
    {
      var next: World := *;
      ghost var found := world;
      if IsNested(next) {
        world := next;
      }
      turns := turns + [Turn(found, world)];
    }

    /** Whether a primitive works this time. */
    method Works() returns (ok: bool)
      modifies this`faults
      ensures faults == (old(faults) || !ok)
    {
      ok := *;
      faults := faults || !ok;
    }

    /** remove: one object, and never a directory that is not empty. */
    method Remove(p: Path, ghost climbed: seq<World>, ghost seen: World) returns (ok: bool)
      requires Nested(world)
      modifies this`world, this`log, this`faults
      ensures Nested(world) && (old(faults) ==> faults)
      ensures !ok && !faults ==> p !in world || !IsLeaf(world, p)
      ensures ok ==> p in old(world) && IsLeaf(old(world), p) && world == old(world) - {p}
      ensures ok ==> log == old(log) + [Event(p, climbed, seen, old(world))]
      ensures !ok ==> world == old(world) && log == old(log)
    {
      ok := Works();
      ok := ok && p in world && forall q | q in world :: !(p < q);
      if ok {
        ghost var before := world;
        log := log + [Event(p, climbed, seen, world)];
        world := world - {p};
        StillNested(before, p);
      }
    }

    /** A rename that takes p and everything inside it to another place. */
    method TakeAway(p: Path)
      requires Nested(world)
      modifies this`world
      ensures Nested(world) && world == Outside(old(world), p)
    {
      ghost var before := world;
      world := Outside(world, p);
      OutsideNested(before, p);
    }

    /** cleanupSourceSnapshot. */
    method CleanupSourceSnapshot(source: Path, snapshot: seq<Captured>) returns (removed: nat, ok: bool)
      requires Nested(world)
      modifies this
      ensures Nested(world) && removed <= |snapshot| && (ok <==> removed == |snapshot|)
      ensures |log| == |old(log)| + removed && old(log) <= log && old(turns) <= turns
      ensures forall j :: 0 <= j < removed ==> JthRemoved(log[|old(log)|..], source, snapshot, j)
      ensures Kept(old(world), world, source, snapshot, removed, turns[|old(turns)|..])
      ensures Still(turns[|old(turns)|..]) ==>
        world == old(world) - Tail(source, snapshot, |snapshot| - removed) && AllSteady(log[|old(log)|..])
      ensures old(faults) ==> faults
      ensures !faults && Still(turns[|old(turns)|..]) && IsWalk(snapshot) && CapturesAll(old(world), source, snapshot) ==> ok
    {
      hide Undone, CapturesAll, Nested, ByRelative, MayRemove, IsWalk, Kept, Tail, Still, AllSteady, Steady, Chain, Latest, MayGo;
      removed := 0;
      var expected := ByRelative(snapshot);
      ghost var start, first, w0 := |turns|, |log|, world;
      NothingUndone(w0, source, snapshot);
      assert turns[start..] == [] && log[first..] == [];
      var i := |snapshot| - 1;
      while i >= 0
        invariant -1 <= i < |snapshot| && removed == |snapshot| - 1 - i
        invariant Nested(world) && old(turns) <= turns && old(log) <= log && (old(faults) ==> faults)
        invariant Undone(w0, world, source, snapshot, removed, log[first..], turns[start..])
      {
        ghost var found, earlier, removals := world, turns[start..], log[first..];
        Disturb();
        assert turns[start..] == earlier + [Turn(found, world)];
        OthersActed(w0, found, source, snapshot, removed, removals, earlier, [Turn(found, world)]);
        var running := Works();
        if !running {
          UndoneSays(w0, world, source, snapshot, removed, removals, turns[start..]);
          return removed, false;
        }
        ghost var before, past, mark := world, turns[start..], |turns|;
        var gone := RemoveCaptured(source, snapshot[i], expected);
        ghost var now := turns[mark..];
        assert turns[start..] == past + now;
        OthersActed(w0, before, source, snapshot, removed, removals, past, now);
        if !gone {
          WouldHaveGone(w0, before, source, snapshot, removed, removals, past, now);
          UndoneSays(w0, world, source, snapshot, removed, removals, turns[start..]);
          return removed, false;
        }
        assert log[first..] == removals + [log[|log| - 1]];
        OneUndone(w0, source, snapshot, removed, removals, past, now, log[|log| - 1]);
        removed := removed + 1;
        i := i - 1;
      }
      UndoneSays(w0, world, source, snapshot, removed, log[first..], turns[start..]);
      return removed, true;
    }

    /** The checks and the removal of one captured object. */
    method RemoveCaptured(source: Path, item: Captured, expected: map<Path, Entry>) returns (ok: bool)
      requires Nested(world)
      modifies this
      ensures Nested(world) && old(turns) <= turns && Chain(old(world), turns[|old(turns)|..]) && (old(faults) ==> faults)
      ensures !ok && !faults && Still(turns[|old(turns)|..]) ==> !MayGo(old(world), source, item, expected)
      ensures !ok ==> world == Latest(old(world), turns[|old(turns)|..]) && log == old(log)
      ensures ok ==> |log| == |old(log)| + 1 && old(log) <= log
      ensures ok ==> var e := log[|old(log)|];
        && MayRemove(e, source, item, expected) && e.path == source + item.relative && e.at == Latest(old(world), turns[|old(turns)|..])
        && world == e.at - {e.path} && (Still(turns[|old(turns)|..]) ==> Steady(e))
    {
      hide Nested, MayGo, MayRemove, StillCaptured, AncestorsMatch, IsLeaf, Still, Steady, Chain, Latest, Climbed, SameCleanupObject;
      ghost var start, w0 := |turns|, world;
      ghost var climbed: seq<World>;
      var safe: bool;
      safe, climbed := ValidateSourceAncestors(source, item.relative, expected);
      if !safe {
        StillSame(w0, turns[start..]);
        if Still(turns[start..]) {
          NotClimbed(w0, turns[start..], climbed, source, item.relative, expected);
          MayNotGo(w0, source, item, expected);
        }
        return false;
      }
      ghost var past, first := turns[start..], Turn(world, world);
      Disturb();
      first := first.(left := world);
      assert turns[start..] == past + [first];
      OneMoreTurn(w0, past, first);
      var path := source + item.relative;
      if path !in world || !SameCleanupObject(item.entry, world[path]) {
        StillSame(w0, turns[start..]);
        MayNotGo(first.left, source, item, expected);
        return false;
      }
      Disturb();
      ghost var second, seen := Turn(first.left, world), first.left;
      assert turns[start..] == past + [first] + [second];
      ghost var event := Event(path, climbed, seen, world);
      StillIsSteady(w0, past, first, second, event);
      ok := Remove(path, climbed, seen);
      if ok {
        EventSays(event, source, item, expected);
      } else if path !in world || !IsLeaf(world, path) {
        MayNotGo(world, source, item, expected);
      }
    }

    /** removeTreeCancellable, after the walk has captured the set to delete. */
    method RemoveTree(source: Path, snapshot: seq<Captured>) returns (r: Removal)
      requires Nested(world) && |snapshot| > 0
      modifies this
      ensures Nested(world) && |old(log)| <= |log| <= |old(log)| + |snapshot| && old(log) <= log && old(turns) <= turns
      ensures var removed := |log| - |old(log)|;
        && (forall j :: 0 <= j < removed ==> JthRemoved(log[|old(log)|..], source, snapshot, j))
        && (r == Complete <==> removed == |snapshot|)
        && (r == Stopped(true) <==> 0 < removed < |snapshot|)
        && Kept(old(world), world, source, snapshot, removed, turns[|old(turns)|..])
        && (!faults && Still(turns[|old(turns)|..]) && IsWalk(snapshot) && CapturesAll(old(world), source, snapshot) ==>
              r == Complete)
        && (Still(turns[|old(turns)|..]) ==>
              world == old(world) - Tail(source, snapshot, |snapshot| - removed) && AllSteady(log[|old(log)|..]))
    {
      hide Kept, Still, Steady, Tail;
      var removed, ok := CleanupSourceSnapshot(source, snapshot);
      if ok {
        return Complete;
      }
      return Stopped(removed > 0);
    }

    /** validateSourceAncestors: each directory is looked at in its turn. */
    method ValidateSourceAncestors(source: Path, relative: Path, expected: map<Path, Entry>)
      returns (ok: bool, ghost climbed: seq<World>)
      requires Nested(world)
      modifies this`world, this`turns
      ensures Nested(world) && old(turns) <= turns && Chain(old(world), turns[|old(turns)|..])
      ensures world == Latest(old(world), turns[|old(turns)|..])
      ensures Saw(climbed, turns[|old(turns)|..])
      ensures ok ==> Climbed(climbed, source, expected, Dir(relative))
      ensures ok || 0 < |climbed| <= |Dir(relative)| + 1
      ensures ok || !StillCaptured(climbed[|climbed| - 1], source, expected, Dir(relative)[..|Dir(relative)| + 1 - |climbed|])
    {
      hide Nested, StillCaptured, Chain, Latest, ClimbedSoFar;
      ghost var start, w0, top := |turns|, world, Dir(relative);
      var ancestor := Dir(relative);
      climbed := [];
      assert turns[start..] == [];
      NothingClimbed(w0, source, expected, top);
      while true
        invariant Nested(world) && old(turns) <= turns
        invariant Saw(climbed, turns[start..]) && |climbed| <= |top| && ancestor == top[..|top| - |climbed|]
        invariant Chain(w0, turns[start..]) && world == Latest(w0, turns[start..])
        invariant ClimbedSoFar(climbed, source, expected, top)
        decreases |ancestor|
      {
        ghost var past, found := turns[start..], world;
        Disturb();
        OneMoreTurn(w0, past, Turn(found, world));
        assert turns[start..] == past + [Turn(found, world)];
        ghost var so := climbed;
        climbed := climbed + [world];
        if !StillCaptured(world, source, expected, ancestor) { return false, climbed; }
        OneMoreClimbed(so, source, expected, top, world);
        if ancestor == [] { return true, climbed; }
        ancestor := Dir(ancestor);
      }
    }
  }

  /** What has been removed so far, from the end of the walk, and what that has left. */
  ghost predicate Undone(
    w0: World, w: World, source: Path, snapshot: seq<Captured>, removed: nat, removals: seq<Event>, turns: seq<Turn>)
  {
    && |removals| == removed <= |snapshot| && (forall j :: 0 <= j < removed ==> JthRemoved(removals, source, snapshot, j))
    && Kept(w0, w, source, snapshot, removed, turns)
    && (Still(turns) ==> w == w0 - Tail(source, snapshot, |snapshot| - removed) && AllSteady(removals))
  }

  lemma UndoneSays(
      w0: World, w: World, source: Path, snapshot: seq<Captured>, removed: nat, removals: seq<Event>, turns: seq<Turn>)
    requires Undone(w0, w, source, snapshot, removed, removals, turns)
    ensures |removals| == removed <= |snapshot| && forall j :: 0 <= j < removed ==> JthRemoved(removals, source, snapshot, j)
    ensures Kept(w0, w, source, snapshot, removed, turns)
    ensures Still(turns) ==> w == w0 - Tail(source, snapshot, |snapshot| - removed) && AllSteady(removals)
  {
    hide JthRemoved, Kept, Still, Tail, AllSteady;
  }

  lemma NothingUndone(w: World, source: Path, snapshot: seq<Captured>)
    ensures Undone(w, w, source, snapshot, 0, [], [])
  {
    hide Kept;
    NothingGoneYet(w, source, snapshot);
    TailEmpty(source, snapshot);
  }

  /** Other processes acted. */
  lemma OthersActed(
      w0: World, w: World, source: Path, snapshot: seq<Captured>, removed: nat, removals: seq<Event>, past: seq<Turn>,
      now: seq<Turn>)
    requires Undone(w0, w, source, snapshot, removed, removals, past)
    requires Chain(w, now) || (|now| == 1 && now[0].found == w)
    ensures Undone(w0, Latest(w, now), source, snapshot, removed, removals, past + now)
    ensures |now| == 1 ==> Latest(w, now) == now[0].left
  {
    hide JthRemoved, Kept, Still, Tail, AllSteady;
    if |now| == 1 && now[0].found == w {
      assert now[..0] == [];
    }
    TurnsTaken(w0, w, source, snapshot, removed, past, now);
    StillParts(past, now);
    StillSame(w, now);
  }

  /** One more object is gone. */
  lemma OneUndone(
      w0: World, source: Path, snapshot: seq<Captured>, removed: nat, removals: seq<Event>, past: seq<Turn>,
      now: seq<Turn>, event: Event)
    requires removed < |snapshot| && Undone(w0, event.at, source, snapshot, removed, removals, past + now)
    requires MayRemove(event, source, snapshot[|snapshot| - 1 - removed], ByRelative(snapshot)) && (Still(now) ==> Steady(event))
    ensures Undone(w0, event.at - {event.path}, source, snapshot, removed + 1, removals + [event], past + now)
  {
    hide Kept, Still, Tail, AllSteady, Steady, Climbed, ByRelative, SameCleanupObject, IsLeaf;
    StillParts(past, now);
    OneMoreRemoved(removals, source, snapshot, removed, event);
    TailGrows(source, snapshot, |snapshot| - 1 - removed);
    OurTurn(w0, event.at, source, snapshot, removed, past + now);
  }

  /** If nobody acts, the next object of a complete walk may go. */
  lemma WouldHaveGone(
      w0: World, w: World, source: Path, snapshot: seq<Captured>, removed: nat, removals: seq<Event>, past: seq<Turn>,
      now: seq<Turn>)
    requires removed < |snapshot| && Undone(w0, w, source, snapshot, removed, removals, past)
    ensures Still(past + now) ==> Still(now)
    ensures Still(past + now) && IsWalk(snapshot) && CapturesAll(w0, source, snapshot) ==>
      MayGo(w, source, snapshot[|snapshot| - 1 - removed], ByRelative(snapshot))
  {
    hide Kept, Still, Tail, AllSteady, IsWalk, CapturesAll, MayGo, ByRelative, JthRemoved;
    StillParts(past, now);
    if Still(past + now) && IsWalk(snapshot) && CapturesAll(w0, source, snapshot) {
      NextMayGo(w0, w, source, snapshot, |snapshot| - 1 - removed);
    }
  }

  lemma NothingClimbed(w: World, source: Path, expected: map<Path, Entry>, top: Path)
    ensures ClimbedSoFar([], source, expected, top) && Chain(w, []) && Latest(w, []) == w
  {
  }

  /** A prefix is the whole path or a prefix of the path above it. */
  lemma PrefixOf(p: Path, a: Path)
    requires a <= p
    ensures a == p || (p != [] && a <= Dir(p))
  {
    if |a| == |p| {
      assert a == p[..|a|] == p;
    }
  }

  /** Of two prefixes of one path the shorter is a prefix of the longer. */
  lemma PrefixesNest(p: Path, a: Path, b: Path)
    requires a <= p && b <= p && |a| <= |b|
    ensures a <= b
  {
    assert b[..|a|] == p[..|a|];
  }

  lemma StillNested(w: World, p: Path)
    requires Nested(w) && IsLeaf(w, p)
    ensures Nested(w - {p})
  {
    forall q | q in w - {p} && q != []
      ensures Dir(q) != p
    {
      assert Dir(q) < q;
    }
  }

  /** What is not at p or inside it. */
  function Outside(w: World, p: Path): World {
    map q | q in w && !(p <= q) :: w[q]
  }

  lemma OutsideNested(w: World, p: Path)
    requires Nested(w)
    ensures Nested(Outside(w, p))
  {
    forall q | q in Outside(w, p) && q != []
      ensures Dir(q) in Outside(w, p)
    {
      assert Dir(q) <= q;
    }
  }

  /** Stopped(true) is the partial error. */
  datatype Removal = Complete | Stopped(partial: bool)

  /** The j-th removal took what was at the place of the j-th captured object from the end. It was a leaf then; and
      shortly before, the object there and all directories above it had been the captured ones. */
  ghost predicate JthRemoved(removals: seq<Event>, source: Path, snapshot: seq<Captured>, j: nat) {
    && j < |removals| && j < |snapshot|
    && MayRemove(removals[j], source, snapshot[|snapshot| - 1 - j], ByRelative(snapshot))
  }

  ghost predicate MayRemove(e: Event, source: Path, item: Captured, expected: map<Path, Entry>) {
    && e.path == source + item.relative
    && e.path in e.at && IsLeaf(e.at, e.path)
    && e.path in e.seen && SameCleanupObject(item.entry, e.seen[e.path])
    && Climbed(e.climbed, source, expected, Dir(item.relative))
  }

  /** Everything that is looked at before a removal is as it should be, all at once. */
  ghost predicate MayGo(w: World, source: Path, item: Captured, expected: map<Path, Entry>) {
    var p := source + item.relative;
    && AncestorsMatch(w, source, expected, Dir(item.relative))
    && p in w && SameCleanupObject(item.entry, w[p]) && IsLeaf(w, p)
  }

  lemma EventSays(e: Event, source: Path, item: Captured, expected: map<Path, Entry>)
    requires e.path == source + item.relative && e.path in e.at && IsLeaf(e.at, e.path)
    requires e.path in e.seen && SameCleanupObject(item.entry, e.seen[e.path])
    requires Climbed(e.climbed, source, expected, Dir(item.relative))
    ensures MayRemove(e, source, item, expected)
  {
    hide IsLeaf, Climbed, SameCleanupObject;
  }

  lemma MayNotGo(w: World, source: Path, item: Captured, expected: map<Path, Entry>)
    requires var p := source + item.relative;
      !AncestorsMatch(w, source, expected, Dir(item.relative)) || p !in w || !SameCleanupObject(item.entry, w[p]) || !IsLeaf(w, p)
    ensures !MayGo(w, source, item, expected)
  {
    hide AncestorsMatch, IsLeaf, SameCleanupObject;
  }

  lemma NextMayGo(w0: World, w: World, source: Path, snapshot: seq<Captured>, i: nat)
    requires IsWalk(snapshot) && CapturesAll(w0, source, snapshot) && i < |snapshot|
    requires w == w0 - Tail(source, snapshot, i + 1)
    ensures MayGo(w, source, snapshot[i], ByRelative(snapshot))
  {
    hide IsWalk, CapturesAll, ByRelative, AncestorsMatch, IsLeaf, Tail;
    UndisturbedStep(w0, w, source, snapshot, i);
  }

  /** Nobody acted between the first look and the removal. */
  ghost predicate Steady(e: Event) {
    e.seen == e.at && forall i :: 0 <= i < |e.climbed| ==> e.climbed[i] == e.at
  }

  ghost predicate AllSteady(removals: seq<Event>) {
    forall j :: 0 <= j < |removals| ==> Steady(removals[j])
  }

  /** Then what is removed is the captured object, in directories that are all the captured ones. */
  lemma SteadyRemovesCaptured(removals: seq<Event>, source: Path, snapshot: seq<Captured>, j: nat)
    requires JthRemoved(removals, source, snapshot, j) && Steady(removals[j])
    ensures var e, item := removals[j], snapshot[|snapshot| - 1 - j];
      && e.path == source + item.relative && e.path in e.at
      && e.at[e.path].identity == item.entry.identity && e.at[e.path].kind == item.entry.kind
      && (item.entry.kind != Directory ==> e.at[e.path].times == item.entry.times)
      && AncestorsMatch(e.at, source, ByRelative(snapshot), Dir(item.relative))
  {
    hide ByRelative, StillCaptured;
    var e, top := removals[j], Dir(snapshot[|snapshot| - 1 - j].relative);
    forall a: Path | a <= top
      ensures StillCaptured(e.at, source, ByRelative(snapshot), a)
    {
      assert top[..|top| - (|top| - |a|)] == a;
      assert e.climbed[|top| - |a|] == e.at;
    }
  }

  lemma OneMoreRemoved(removals: seq<Event>, source: Path, snapshot: seq<Captured>, removed: nat, event: Event)
    requires |removals| == removed < |snapshot|
    requires forall j :: 0 <= j < removed ==> JthRemoved(removals, source, snapshot, j)
    requires MayRemove(event, source, snapshot[|snapshot| - 1 - removed], ByRelative(snapshot))
    ensures forall j :: 0 <= j <= removed ==> JthRemoved(removals + [event], source, snapshot, j)
    ensures AllSteady(removals) && Steady(event) ==> AllSteady(removals + [event])
  {
    hide ByRelative, MayRemove, Steady;
    forall j | 0 <= j < removed
      ensures JthRemoved(removals + [event], source, snapshot, j)
    {
      assert JthRemoved(removals, source, snapshot, j);
    }
  }

  // Turns of other processes.

  /** Each turn found what the one before left. */
  ghost predicate Chain(w0: World, turns: seq<Turn>) {
    turns == [] || (Chain(w0, turns[..|turns| - 1]) && turns[|turns| - 1].found == Latest(w0, turns[..|turns| - 1]))
  }

  /** Each of these worlds was what one turn left. */
  ghost predicate Saw(climbed: seq<World>, turns: seq<Turn>) {
    |climbed| == |turns| && forall i :: 0 <= i < |climbed| ==> climbed[i] == turns[i].left
  }

  /** What other processes left last. */
  function Latest(w0: World, turns: seq<Turn>): World {
    if turns == [] then w0 else turns[|turns| - 1].left
  }

  /** Nobody changed anything. */
  ghost predicate Still(turns: seq<Turn>) {
    forall t :: t in turns ==> t.left == t.found
  }

  lemma NoTurns()
    ensures Still([]) && AllSteady([])
  {
  }

  lemma OneMoreTurn(w0: World, turns: seq<Turn>, t: Turn)
    requires Chain(w0, turns) && t.found == Latest(w0, turns)
    ensures Chain(w0, turns + [t]) && Latest(w0, turns + [t]) == t.left
  {
    assert (turns + [t])[..|turns|] == turns;
  }

  lemma StillParts(past: seq<Turn>, now: seq<Turn>)
    ensures Still(past + now) <==> Still(past) && Still(now)
  {
  }

  lemma StillOne(t: Turn)
    ensures Still([t]) <==> t.left == t.found
  {
    assert t in [t];
  }

  lemma {:induction false} StillSame(w: World, now: seq<Turn>)
    requires Chain(w, now)
    ensures Still(now) ==> Latest(w, now) == w && forall t :: t in now ==> t.left == w
  {
    hide Still;
    if now != [] {
      var init, last := now[..|now| - 1], now[|now| - 1];
      assert now == init + [last];
      StillSame(w, init);
      StillParts(init, [last]);
      StillOne(last);
    }
  }

  /** If nobody changed anything, a failed look means that an ancestor is not the captured one. */
  lemma NotClimbed(
      w0: World, turns: seq<Turn>, climbed: seq<World>, source: Path, relative: Path, expected: map<Path, Entry>)
    requires Saw(climbed, turns) && 0 < |climbed| <= |Dir(relative)| + 1 && forall t :: t in turns ==> t.left == w0
    requires !StillCaptured(climbed[|climbed| - 1], source, expected, Dir(relative)[..|Dir(relative)| + 1 - |climbed|])
    ensures !AncestorsMatch(w0, source, expected, Dir(relative))
  {
    hide StillCaptured;
    assert turns[|climbed| - 1] in turns;
  }

  lemma StillIsSteady(w0: World, past: seq<Turn>, t1: Turn, t2: Turn, e: Event)
    requires Chain(w0, past) && t1.found == Latest(w0, past) && t2.found == t1.left
    requires e.seen == t1.left && e.at == t2.left && Saw(e.climbed, past)
    ensures var all := past + [t1] + [t2];
      Chain(w0, all) && Latest(w0, all) == t2.left && (Still(all) ==> Steady(e) && t2.left == w0)
  {
    hide Still, Chain, Latest;
    var all := past + [t1] + [t2];
    OneMoreTurn(w0, past, t1);
    OneMoreTurn(w0, past + [t1], t2);
    StillSame(w0, all);
    assert t1 in all && t2 in all && forall i :: 0 <= i < |past| ==> past[i] in all;
  }

  /** The paths of the captured objects from position i on. */
  ghost function Tail(source: Path, snapshot: seq<Captured>, i: int): set<Path> {
    set j | 0 <= j < |snapshot| && i <= j :: source + snapshot[j].relative
  }

  lemma TailEmpty(source: Path, snapshot: seq<Captured>)
    ensures Tail(source, snapshot, |snapshot|) == {}
  {
  }

  lemma TailGrows(source: Path, snapshot: seq<Captured>, i: nat)
    requires i < |snapshot|
    ensures Tail(source, snapshot, i) == Tail(source, snapshot, i + 1) + {source + snapshot[i].relative}
  {
    forall p | p in Tail(source, snapshot, i)
      ensures p in Tail(source, snapshot, i + 1) || p == source + snapshot[i].relative
    {
      var j :| 0 <= j < |snapshot| && i <= j && p == source + snapshot[j].relative;
    }
    assert source + snapshot[i].relative in Tail(source, snapshot, i);
  }

  function CapturedPath(source: Path, snapshot: seq<Captured>, j: nat): Path
    requires j < |snapshot|
  {
    source + snapshot[j].relative
  }

  /** Of the captured objects that were there exactly the first |snapshot| - removed are still there. */
  ghost predicate PrefixSurvives(w0: World, w: World, source: Path, snapshot: seq<Captured>, removed: nat) {
    forall j :: 0 <= j < |snapshot| ==>
      (CapturedPath(source, snapshot, j) in w <==> CapturedPath(source, snapshot, j) in w0 && j < |snapshot| - removed)
  }

  /** Other processes add what they like, and change what they like, but neither take nor bring back what was captured. */
  ghost predicate LeaveCaptured(source: Path, snapshot: seq<Captured>, turns: seq<Turn>) {
    forall t :: t in turns ==> LeavesCaptured(source, snapshot, t)
  }

  ghost predicate LeavesCaptured(source: Path, snapshot: seq<Captured>, t: Turn) {
    forall j :: 0 <= j < |snapshot| ==> (CapturedPath(source, snapshot, j) in t.left <==> CapturedPath(source, snapshot, j) in t.found)
  }

  /** What was not captured is there, or not, as other processes left it. */
  ghost predicate OnlyCapturedGo(left: World, w: World, source: Path, snapshot: seq<Captured>) {
    forall q :: q !in Tail(source, snapshot, 0) ==> SameAt(left, w, q)
  }

  predicate SameAt(left: World, w: World, q: Path) {
    (q in w <==> q in left) && (q in w ==> w[q] == left[q])
  }

  /** What a removal that was begun in w0 has left when it removed that many objects, while others had these turns. */
  ghost predicate Kept(w0: World, w: World, source: Path, snapshot: seq<Captured>, removed: nat, turns: seq<Turn>) {
    && (IsWalk(snapshot) && LeaveCaptured(source, snapshot, turns) ==> PrefixSurvives(w0, w, source, snapshot, removed))
    && OnlyCapturedGo(Latest(w0, turns), w, source, snapshot)
  }

  lemma NothingGoneYet(w: World, source: Path, snapshot: seq<Captured>)
    ensures Kept(w, w, source, snapshot, 0, [])
  {
  }

  lemma {:induction false} TurnsTaken(
      w0: World, before: World, source: Path, snapshot: seq<Captured>, removed: nat, past: seq<Turn>, now: seq<Turn>)
    requires Kept(w0, before, source, snapshot, removed, past) && Chain(before, now)
    ensures Kept(w0, Latest(before, now), source, snapshot, removed, past + now)
  {
    hide Tail, LeavesCaptured, IsWalk;
    if now == [] {
      assert past + now == past;
    } else {
      var init, last := now[..|now| - 1], now[|now| - 1];
      assert now == init + [last] && past + now == (past + init) + [last];
      TurnsTaken(w0, before, source, snapshot, removed, past, init);
      OthersTurn(w0, source, snapshot, removed, past + init, last);
    }
  }

  lemma OthersTurn(
      w0: World, source: Path, snapshot: seq<Captured>, removed: nat, past: seq<Turn>, t: Turn)
    requires Kept(w0, t.found, source, snapshot, removed, past)
    ensures Kept(w0, t.left, source, snapshot, removed, past + [t])
  {
    hide Tail, IsWalk;
    assert t in past + [t];
    assert forall u :: u in past ==> u in past + [t];
  }

  lemma OurTurn(w0: World, w: World, source: Path, snapshot: seq<Captured>, removed: nat, turns: seq<Turn>)
    requires removed < |snapshot| && Kept(w0, w, source, snapshot, removed, turns)
    ensures Kept(w0, w - {CapturedPath(source, snapshot, |snapshot| - 1 - removed)}, source, snapshot, removed + 1, turns)
  {
    hide LeaveCaptured;
    WithoutOne(w0, Latest(w0, turns), w, source, snapshot, removed);
  }

  lemma WithoutOne(w0: World, left: World, w: World, source: Path, snapshot: seq<Captured>, removed: nat)
    requires removed < |snapshot|
    ensures var p := CapturedPath(source, snapshot, |snapshot| - 1 - removed);
      && (IsWalk(snapshot) && PrefixSurvives(w0, w, source, snapshot, removed) ==>
            PrefixSurvives(w0, w - {p}, source, snapshot, removed + 1))
      && (OnlyCapturedGo(left, w, source, snapshot) ==> OnlyCapturedGo(left, w - {p}, source, snapshot))
  {
    var i := |snapshot| - 1 - removed;
    assert CapturedPath(source, snapshot, i) in Tail(source, snapshot, 0);
    if IsWalk(snapshot) && PrefixSurvives(w0, w, source, snapshot, removed) {
      forall j | 0 <= j < |snapshot| && j != i
        ensures CapturedPath(source, snapshot, j) != CapturedPath(source, snapshot, i)
      {
        PathsDiffer(source, snapshot, i, j);
      }
    }
  }

  lemma PathsDiffer(source: Path, snapshot: seq<Captured>, i: nat, j: nat)
    requires IsWalk(snapshot) && i < |snapshot| && j < |snapshot| && i != j
    ensures CapturedPath(source, snapshot, j) != CapturedPath(source, snapshot, i)
  {
    assert CapturedPath(source, snapshot, i)[|source|..] == snapshot[i].relative;
    assert CapturedPath(source, snapshot, j)[|source|..] == snapshot[j].relative;
  }

  /** Everything inside the source was captured. */
  ghost predicate CapturesAll(w: World, source: Path, snapshot: seq<Captured>) {
    && (forall i :: 0 <= i < |snapshot| ==>
        source + snapshot[i].relative in w && w[source + snapshot[i].relative] == snapshot[i].entry)
    && (forall q :: q in w && source <= q ==> exists i :: 0 <= i < |snapshot| && q == source + snapshot[i].relative)
  }

  /** In a walk everything inside a directory comes after it. */
  lemma {:induction false} InsideComesLater(snapshot: seq<Captured>, i: nat, j: nat)
    requires IsWalk(snapshot) && i < |snapshot| && j < |snapshot|
    requires snapshot[i].relative < snapshot[j].relative
    ensures i < j
    decreases j
  {
    assert j > 0;
    assert HeldEarlier(snapshot, j);
    var k :| 0 <= k < j && snapshot[k].relative == Dir(snapshot[j].relative);
    if k != i {
      PrefixOf(snapshot[j].relative, snapshot[i].relative);
      assert snapshot[i].relative <= snapshot[k].relative;
      assert snapshot[i].relative != snapshot[k].relative;
      InsideComesLater(snapshot, i, k);
    }
  }

  /** While nobody else acts, each captured object is a leaf when its turn comes, its ancestors are all
      still there, and it is the captured one: only a failing primitive or a cancellation can stop the
      removal, and then the captured objects that survive are the beginning of the walk. */
  lemma UndisturbedStep(w0: World, w: World, source: Path, snapshot: seq<Captured>, i: nat)
    requires IsWalk(snapshot) && CapturesAll(w0, source, snapshot) && i < |snapshot|
    requires w == w0 - Tail(source, snapshot, i + 1)
    ensures forall j :: 0 <= j <= i ==>
      source + snapshot[j].relative in w && w[source + snapshot[j].relative] == snapshot[j].entry
    ensures IsLeaf(w, source + snapshot[i].relative)
    ensures AncestorsMatch(w, source, ByRelative(snapshot), Dir(snapshot[i].relative))
  {
    hide IsWalk, ByRelative;
    forall j | 0 <= j <= i
      ensures source + snapshot[j].relative in w && w[source + snapshot[j].relative] == snapshot[j].entry
    {
      NotInTail(source, snapshot, j, i + 1);
    }
    forall q | q in w
      ensures !(source + snapshot[i].relative < q)
    {
      UndisturbedLeaf(w0, w, source, snapshot, i, q);
    }
    forall a: Path | a <= Dir(snapshot[i].relative)
      ensures StillCaptured(w, source, ByRelative(snapshot), a)
    {
      AncestorCaptured(w, source, snapshot, i, a);
    }
  }

  lemma UndisturbedLeaf(w0: World, w: World, source: Path, snapshot: seq<Captured>, i: nat, q: Path)
    requires IsWalk(snapshot) && CapturesAll(w0, source, snapshot) && i < |snapshot|
    requires w == w0 - Tail(source, snapshot, i + 1) && q in w
    ensures !(source + snapshot[i].relative < q)
  {
    hide IsWalk;
    if source + snapshot[i].relative < q {
      PrefixesNest(q, source, source + snapshot[i].relative);
      var j :| 0 <= j < |snapshot| && q == source + snapshot[j].relative;
      SamePrefix(source, snapshot[i].relative, snapshot[j].relative);
      InsideComesLater(snapshot, i, j);
    }
  }

  lemma SamePrefix(source: Path, p: Path, q: Path)
    requires source + p < source + q
    ensures p < q
  {
    assert (source + p)[|source|..] == p && (source + q)[|source|..] == q;
    assert (source + q)[..|source + p|] == source + p;
    assert q[..|p|] == (source + q)[..|source + p|][|source|..];
  }

  lemma NotInTail(source: Path, snapshot: seq<Captured>, j: nat, i: nat)
    requires IsWalk(snapshot) && j < i <= |snapshot|
    ensures source + snapshot[j].relative !in Tail(source, snapshot, i)
  {
    forall k | i <= k < |snapshot|
      ensures source + snapshot[k].relative != source + snapshot[j].relative
    {
      assert (source + snapshot[k].relative)[|source|..] == snapshot[k].relative;
      assert (source + snapshot[j].relative)[|source|..] == snapshot[j].relative;
    }
  }

  /** Every ancestor of a captured object was captured, earlier in the walk. */
  lemma {:induction false} AncestorAt(snapshot: seq<Captured>, i: nat, a: Path) returns (k: nat)
    requires IsWalk(snapshot) && i < |snapshot| && a <= snapshot[i].relative
    ensures k <= i && snapshot[k].relative == a
    decreases i
  {
    if snapshot[i].relative == a {
      k := i;
    } else {
      assert i > 0;
      assert HeldEarlier(snapshot, i);
      var j :| 0 <= j < i && snapshot[j].relative == Dir(snapshot[i].relative);
      PrefixOf(snapshot[i].relative, a);
      k := AncestorAt(snapshot, j, a);
    }
  }

  lemma AncestorCaptured(w: World, source: Path, snapshot: seq<Captured>, i: nat, a: Path)
    requires IsWalk(snapshot) && i < |snapshot| && a <= Dir(snapshot[i].relative)
    requires forall j :: 0 <= j <= i ==>
      source + snapshot[j].relative in w && w[source + snapshot[j].relative] == snapshot[j].entry
    ensures StillCaptured(w, source, ByRelative(snapshot), a)
  {
    var k := AncestorAt(snapshot, i, a);
    ByRelativeFinds(snapshot, a);
    var m :| 0 <= m < |snapshot| && snapshot[m].relative == a && snapshot[m].entry == ByRelative(snapshot)[a];
    assert m == k;
  }

  /** Everything above an object is there. */
  lemma {:induction false} NestedAbove(w: World, p: Path, q: Path)
    requires Nested(w) && q in w && p <= q
    ensures p in w && (p != q ==> w[p].kind == Directory)
    decreases |q|
  {
    if p != q {
      PrefixOf(q, p);
      NestedAbove(w, p, Dir(q));
    }
  }

  /** An object that is there when the removal ends, captured or added by others in the meantime, has kept all captured
      directories above it: it stopped the removal before any of them. */
  lemma SurvivorsKeepAncestors(
      w0: World, w: World, source: Path, snapshot: seq<Captured>, removed: nat, q: Path, j: nat)
    requires Nested(w) && PrefixSurvives(w0, w, source, snapshot, removed)
    requires q in w && j < |snapshot| && CapturedPath(source, snapshot, j) <= q
    ensures CapturedPath(source, snapshot, j) in w && removed < |snapshot| - j
  {
    NestedAbove(w, CapturedPath(source, snapshot, j), q);
  }

  /** What was added and not captured is never taken. */
  lemma AddedNeverRemoved(removals: seq<Event>, source: Path, snapshot: seq<Captured>, q: Path, j: nat)
    requires JthRemoved(removals, source, snapshot, j) && q !in Tail(source, snapshot, 0)
    ensures removals[j].path != q
  {
    assert CapturedPath(source, snapshot, |snapshot| - 1 - j) in Tail(source, snapshot, 0);
  }
}
