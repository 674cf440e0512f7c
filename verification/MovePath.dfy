/** Moving a path to a free destination (movePathNew): in one step, or by a staged copy and the removal of the source. */
module MovePath {
  import opened Options
  import opened PlanEffects
  import opened RecursiveRemoval
  import Overwrite

  /** Objects by their path relative to the root of what was copied or moved. */
  type Contents = map<Path, Entry>

  /** What w holds at p and inside it. */
  ghost function Subtree(w: World, p: Path): Contents {
    map r | r in (set q | q in w && p <= q :: q[|p|..]) && p + r in w :: w[p + r]
  }

  /** Each object was in the source when it was copied. */
  ghost predicate CopiedFrom(copy: Contents, src: Path, turns: seq<Turn>) {
    forall r :: r in copy ==> SeenAt(copy, src, turns, r)
  }

  ghost predicate SeenAt(copy: Contents, src: Path, turns: seq<Turn>, r: Path)
    requires r in copy
  {
    exists t :: t in turns && src + r in t.left && t.left[src + r] == copy[r]
  }

  class Mover {
    /** The file system of the source, and the place the source is to go to. */
    const source: Filesystem
    const src: Path
    const target: Overwrite.Destination
    /** What is at the staging path beside the destination, if anything. */
    ghost var staged: Option<Contents>
    /** What was published at the destination, if anything, and what had been removed and had happened by publication. */
    ghost var published: Option<Contents>
    ghost var renamed: bool
    ghost var publication: Moment
    /** Whether a primitive failed or the run was cancelled. */
    ghost var faults: bool

    constructor (source: Filesystem, src: Path, target: Overwrite.Destination)
      ensures this.source == source && this.src == src && this.target == target && staged == None && published == None
    {
      this.source, this.src, this.target := source, src, target;
      staged, published, renamed, publication, faults := None, None, false, Moment(map[], 0, 0), false;
    }

    /** Nothing was staged or published, and nothing of ours is at the destination. */
    ghost predicate Ready()
      reads this, source, target
    {
      Nested(source.world) && staged == None && published == None && target.IsForeign(target.dst)
    }

    /** Whether a primitive works this time. */
    method Works() returns (ok: bool)
      modifies this`faults
      ensures faults == (old(faults) || !ok)
    {
      ok := *;
      faults := faults || !ok;
    }

    /** publish(src, dst), which never replaces anything and cannot cross devices. */
    method Rename() returns (ok: bool, crossDevice: bool)
      requires Ready()
      modifies this`published, this`renamed, this`publication, this`faults, source`world, target`dst
      ensures Nested(source.world) && (old(faults) ==> faults)
      ensures !ok && !faults ==> crossDevice || target.dst.Some?
      ensures ok ==> target.dst == Some(target.replacement) && source.world == Outside(old(source.world), src)
      ensures ok ==> renamed && published == Some(Subtree(old(source.world), src)) && publication == Now(old(source.world))
      ensures !ok ==> target.dst == old(target.dst) && source.world == old(source.world) && published == None
    {
      ok := Works();
      crossDevice := *;
      ok := ok && !crossDevice && target.dst.None?;
      if ok {
        published, renamed, publication := Some(Subtree(source.world, src)), true, Now(source.world);
        source.TakeAway(src);
        target.dst := Some(target.replacement);
      }
    }

    ghost function Now(w: World): Moment
      reads source
    {
      Moment(w, |source.log|, |source.turns|)
    }

    /** copyPathNew into the staging path. It may stop anywhere, and others may change the source meanwhile. */
    method StageCopy() returns (ok: bool)
      requires Nested(source.world)
      modifies this`staged, this`faults, source`world, source`turns
      ensures faults == (old(faults) || !ok)
      ensures Nested(source.world) && old(source.turns) <= source.turns && staged.Some?
      ensures Chain(old(source.world), source.turns[|old(source.turns)|..])
      ensures source.world == Latest(old(source.world), source.turns[|old(source.turns)|..])
      ensures ok ==> CopiedFrom(staged.value, src, source.turns[|old(source.turns)|..])
      ensures ok && Still(source.turns[|old(source.turns)|..]) ==> staged.value == Subtree(old(source.world), src)
    {
      ghost var start, found := |source.turns|, source.world;
      source.Disturb();
      ghost var t := Turn(found, source.world);
      assert source.turns[start..] == [t];
      OneMoreTurn(found, [], t);
      assert [] + [t] == [t];
      StillOne(t);
      ok := Works();
      staged := Some(if ok then Subtree(source.world, src) else map[]);
      CopiedAtOnce(source.world, src, t);
    }

    /** publish(tmp, dst). */
    method PublishStaged() returns (ok: bool)
      requires staged.Some?
      modifies this`staged, this`published, this`renamed, this`publication, this`faults, target`dst
      ensures (old(faults) ==> faults) && (!ok ==> faults || target.dst.Some?)
      ensures ok ==> old(target.dst) == None && target.dst == Some(target.replacement) && staged == None
      ensures ok ==> published == old(staged) && !renamed && publication == Now(source.world)
      ensures !ok ==> target.dst == old(target.dst) && staged == old(staged) && published == old(published)
    {
      ok := Works();
      ok := ok && target.dst.None?;
      if ok {
        target.dst := Some(target.replacement);
        published, staged, renamed, publication := staged, None, false, Now(source.world);
      }
    }

    /** The deferred removeAll(tmp), whose failure is ignored. */
    method DropStaged()
      modifies this`staged
    {
      var removed: bool := *;
      if removed {
        staged := None;
      }
    }

    /** The replacement came by one rename, and the source lost what the destination got. */
    ghost predicate Renamed()
      reads this, source
    {
      && published == Some(Subtree(publication.world, src)) && source.world == Outside(publication.world, src)
      && |source.log| == publication.removed
    }

    /** The replacement was copied object by object, between two equal walks over the source, before any removal; then the
        captured objects were removed as far as all was well. */
    ghost predicate CopiedThenRemoved(
      first: Option<seq<Captured>>, second: Option<seq<Captured>>, all: bool, start: nat)
      reads this, source
    {
      && first.Some? && first == second && published.Some?
      && start <= publication.turns <= |source.turns| && publication.removed <= |source.log|
      && CopiedFrom(published.value, src, source.turns[start..publication.turns])
      && var removed := |source.log| - publication.removed;
      && removed <= |first.value| && (all <==> removed == |first.value|)
      && (forall j :: 0 <= j < removed ==> JthRemoved(source.log[publication.removed..], src, first.value, j))
      && Kept(publication.world, source.world, src, first.value, removed, source.turns[publication.turns..])
    }

    /** Nothing failed, nobody acted, the destination was free, and both walks were true of the source. */
    ghost predicate Smooth(
      first: Option<seq<Captured>>, second: Option<seq<Captured>>, before: World, free: Option<Overwrite.Object>, start: nat)
      reads this, source, target
    {
      && !faults && !source.faults && !target.appeared && start <= |source.turns| && Still(source.turns[start..])
      && free == None && first.Some? && first == second && IsWalk(first.value) && CapturesAll(before, src, first.value)
    }

    /** movePathNew; first and second are what the walks over the source returned, before and after it was copied. It
        keeps the promise of a build callback. The source loses nothing before the whole of it is at the destination. */
    method MovePathNew(first: Option<seq<Captured>>, second: Option<seq<Captured>>) returns (r: Overwrite.BuildResult)
      requires Ready()
      modifies this, source, target`dst, target`appeared
      ensures target.Delivered(r, old(target.dst)) && !r.BuildOwned?
      ensures old(source.log) <= source.log && old(source.turns) <= source.turns && Nested(source.world)
      ensures published.Some? <==> r.Built? || r.BuildPublished?
      ensures published.Some? ==> staged == None && publication.removed == |old(source.log)|
      ensures published.Some? ==>
        if renamed then r.Built? && Renamed() else CopiedThenRemoved(first, second, r.Built?, |old(source.turns)|)
      ensures published.Some? && Still(source.turns[|old(source.turns)|..]) ==>
        published.value == Subtree(old(source.world), src)
      ensures published.None? ==>
        source.log == old(source.log) && source.world == Latest(old(source.world), source.turns[|old(source.turns)|..])
      ensures (old(faults) ==> faults) && (old(target.appeared) ==> target.appeared) && (old(source.faults) ==> source.faults)
      ensures Smooth(first, second, old(source.world), old(target.dst), |old(source.turns)|) ==> r.Built?
    {
      hide Nested, Subtree, CopiedFrom, Still, Latest, Outside, CopiedThenRemoved, IsWalk, CapturesAll;
      target.Appear();
      var ok, crossDevice := Rename();
      assert source.turns[|old(source.turns)|..] == [];
      NothingClimbed(old(source.world), src, map[], []);
      if ok { return Overwrite.Built; }
      if !crossDevice { return Overwrite.BuildFailed(false); }
      var made := Works();
      if first.None? || !made { return Overwrite.BuildFailed(false); }
      r := CopyAndRemove(first, second);
    }

    /** The rest of movePathNew, across devices. */
    method CopyAndRemove(first: Option<seq<Captured>>, second: Option<seq<Captured>>) returns (r: Overwrite.BuildResult)
      requires Ready() && first.Some?
      modifies this, source, target`dst, target`appeared
      ensures target.Delivered(r, old(target.dst)) && !r.BuildOwned?
      ensures old(source.log) <= source.log && old(source.turns) <= source.turns && Nested(source.world)
      ensures published.Some? <==> r.Built? || r.BuildPublished?
      ensures published.Some? ==> staged == None && publication.removed == |old(source.log)| && !renamed
      ensures published.Some? ==> CopiedThenRemoved(first, second, r.Built?, |old(source.turns)|)
      ensures published.Some? && Still(source.turns[|old(source.turns)|..]) ==>
        published.value == Subtree(old(source.world), src)
      ensures published.None? ==>
        source.log == old(source.log) && source.world == Latest(old(source.world), source.turns[|old(source.turns)|..])
      ensures (old(faults) ==> faults) && (old(target.appeared) ==> target.appeared) && (old(source.faults) ==> source.faults)
      ensures Smooth(first, second, old(source.world), old(target.dst), |old(source.turns)|) ==> r.Built?
    {
      hide Nested, Subtree, CopiedFrom, Still, Kept, Chain, Latest, JthRemoved, LeaveCaptured, Steady, Tail, IsWalk,
        CapturesAll;
      ghost var start, w0 := |source.turns|, source.world;
      var ok := StageCopy();
      var running := Works();
      if !ok || !running || second != first {
        DropStaged();
        return Overwrite.BuildFailed(false);
      }
      target.Appear();
      ok := PublishStaged();
      if !ok {
        DropStaged();
        return Overwrite.BuildFailed(false);
      }
      ghost var mark := |source.turns|;
      ghost var before := source.turns[start..];
      StillSame(w0, before);
      var removed;
      removed, ok := source.CleanupSourceSnapshot(src, first.value);
      assert source.turns[start..mark] == before;
      assert source.turns[start..] == before + source.turns[mark..];
      StillParts(before, source.turns[mark..]);
      return if ok then Overwrite.Built else Overwrite.BuildPublished;
    }
  }

  /** The source and how much had been removed and had happened at some moment. */
  datatype Moment = Moment(world: World, removed: nat, turns: nat)

  lemma CopiedAtOnce(w: World, src: Path, t: Turn)
    requires w == t.left
    ensures CopiedFrom(Subtree(w, src), src, [t])
  {
    forall r | r in Subtree(w, src)
      ensures SeenAt(Subtree(w, src), src, [t], r)
    {
      assert t in [t];
    }
  }
}
