/** Replacing a reviewed destination: it is set aside, rebuilt, and discarded only once the replacement
    is in place. Every primitive may fail, and other processes may act between any two of them. */
module Overwrite {
  import opened Options

  /** One file system object, by identity. */
  datatype Object = Object(id: nat)

  /** What the build callback reports. BuildFailed leaves nothing of ours at the destination, BuildOwned
      leaves our incomplete replacement there, and after BuildPublished the replacement is complete but
      clean-up elsewhere was not. */
  datatype BuildResult = Built | BuildFailed(partial: bool) | BuildOwned | BuildPublished

  datatype Outcome = Done | Failed(partial: bool)

  /** The error that a build result is passed on as. */
  function Passed(r: BuildResult): Outcome {
    match r
    case Built => Done
    case BuildFailed(partial) => Failed(partial)
    case BuildOwned | BuildPublished => Failed(true)
  }

  /** No guard, or the destination as it was reviewed: absent or a certain object. */
  type Guard = Option<Option<Object>>

  class Destination {
    /** What the destination path holds. */
    var dst: Option<Object>
    /** What the backup path holds. */
    var backup: Option<Object>
    /** The object that was set aside, if any. */
    ghost var taken: Option<Object>
    /** Objects that lost contents because of us. */
    ghost var discarded: set<Object>
    /** What was at the destination each time it was looked at before anything was set aside. */
    ghost var sightings: seq<Option<Object>>
    /** Whether a primitive failed or could not look; whether others changed the destination before anything was set
        aside, or put something there afterwards; and what the build callback reported. */
    ghost var faults: bool
    ghost var disturbed: bool
    ghost var appeared: bool
    ghost var built: Option<BuildResult>
    const replacement: Object
    const incomplete: Object
    const placeholder: Object

    predicate IsForeign(o: Option<Object>) {
      o.Some? ==> o.value !in {replacement, incomplete, placeholder}
    }

    /** Nothing has been set aside yet. */
    ghost predicate Untouched()
      reads this
    {
      taken == None && discarded == {} && IsForeign(dst) && replacement != incomplete
    }

    /** The object that was at the destination is at the backup path. */
    ghost predicate SetAside()
      reads this
    {
      taken.Some? && backup == taken && discarded == {} && IsForeign(taken) && replacement != incomplete
    }

    constructor (dst: Option<Object>, replacement: Object, incomplete: Object, placeholder: Object)
      requires replacement != incomplete
      requires dst.Some? ==> dst.value !in {replacement, incomplete, placeholder}
      ensures Untouched() && this.dst == dst && backup == None
      ensures this.replacement == replacement && this.incomplete == incomplete && this.placeholder == placeholder
    {
      this.dst, backup := dst, None;
      this.replacement, this.incomplete, this.placeholder := replacement, incomplete, placeholder;
      taken, discarded, sightings := None, {}, [];
      faults, disturbed, appeared, built := false, false, false, None;
    }

    /** Before anything is set aside, other processes may do anything to the destination. */
    method Disturb()
      modifies this`dst, this`disturbed
      ensures IsForeign(old(dst)) ==> IsForeign(dst)
      ensures disturbed == (old(disturbed) || dst != old(dst))
    {
      var next: Option<Object> := *;
      if IsForeign(next) {
        disturbed := disturbed || dst != next;
        dst := next;
      }
    }

    /** Afterwards they may put something of their own where nothing is. */
    method Appear()
      modifies this`dst, this`appeared
      ensures old(dst).Some? ==> dst == old(dst)
      ensures old(dst).None? && dst.Some? ==> IsForeign(dst) && dst != backup
      ensures appeared == (old(appeared) || dst != old(dst))
    {
      var next: Option<Object> := *;
      if dst.None? && IsForeign(next) && next != backup {
        appeared := appeared || dst != next;
        dst := next;
      }
    }

    /** Whether a primitive works this time. */
    method Works() returns (ok: bool)
      modifies this`faults
      ensures faults == (old(faults) || !ok)
    {
      ok := *;
      faults := faults || !ok;
    }

    /** checkDestinationExpectation, which may also fail to look. */
    method Check(expected: Option<Object>) returns (ok: bool)
      modifies this`faults
      ensures ok ==> dst == expected
      ensures (old(faults) ==> faults) && (!ok ==> faults || dst != expected)
    {
      ok := Works();
      ok := ok && dst == expected;
    }

    /** rename(dst, backup). */
    method SetDestinationAside() returns (ok: bool)
      requires Untouched()
      modifies this`dst, this`backup, this`taken, this`faults
      ensures ok ==> old(dst).Some? && taken == old(dst) && dst == None && SetAside()
      ensures !ok ==> dst == old(dst) && backup == old(backup) && Untouched()
      ensures (old(faults) ==> faults) && (!ok ==> faults || dst.None?)
    {
      ok := Works();
      ok := ok && dst.Some?;
      if ok {
        dst, backup, taken := None, dst, dst;
      }
    }

    /** publish(backup, dst): never replaces anything. */
    method RestoreBackup() returns (ok: bool)
      requires SetAside()
      modifies this`dst, this`backup, this`faults
      ensures ok ==> old(dst).None? && dst == taken && backup == None
      ensures !ok ==> dst == old(dst) && backup == old(backup)
      ensures (old(faults) ==> faults) && (!ok ==> faults || dst.Some?)
    {
      ok := Works();
      ok := ok && dst.None?;
      if ok {
        dst, backup := backup, None;
      }
    }

    /** removeAll(backup): a failure may come after contents are lost. */
    method DiscardBackup() returns (ok: bool)
      requires SetAside() && dst == Some(replacement)
      modifies this`backup, this`discarded, this`faults
      ensures ok ==> backup == None
      ensures !ok ==> backup == old(backup)
      ensures discarded <= {taken.value} && faults == (old(faults) || !ok)
    {
      ok := Works();
      discarded := {taken.value};
      if ok {
        backup := None;
      }
    }

    /** removeAll(dst) of our own incomplete replacement. */
    method DiscardIncomplete() returns (ok: bool)
      requires dst == Some(incomplete)
      modifies this`dst, this`faults
      ensures dst == (if ok then None else old(dst)) && faults == (old(faults) || !ok)
    {
      ok := Works();
      if ok {
        dst := None;
      }
    }

    /** What a build callback promises: it publishes without replacing, and if it fails others at most put something of
        their own where nothing was. */
    ghost predicate Delivered(r: BuildResult, before: Option<Object>)
      reads this
    {
      && (r.Built? || r.BuildPublished? ==> dst == Some(replacement))
      && (r.BuildOwned? ==> dst == Some(incomplete))
      && (r.BuildFailed? ==> if before.Some? then dst == before else IsForeign(dst) && (dst != before ==> dst != backup))
    }

    /** Any build callback that keeps this promise. */
    method Build() returns (r: BuildResult)
      modifies this`dst, this`appeared, this`built
      ensures Delivered(r, old(dst)) && built == Some(r)
      ensures (old(appeared) ==> appeared) && (r.BuildFailed? && dst != old(dst) ==> appeared)
    {
      Appear();
      r := *;
      if dst.Some? && !r.BuildFailed? {
        r := BuildFailed(false);
      }
      if r.Built? || r.BuildPublished? {
        dst := Some(replacement);
      } else if r.BuildOwned? {
        dst := Some(incomplete);
      }
      built := Some(r);
    }

    /** How a run may leave the object that was set aside: back in place; kept as a backup, with a partial
        result that says so; or discarded, after the replacement was published. */
    ghost predicate Settled(o: Outcome)
      reads this
    {
      || (dst == taken && backup == None && discarded == {})
      || (backup == taken && discarded == {} && o == Failed(true))
      || (dst == Some(replacement) && (backup == None || o == Failed(true)))
    }

    /** How a run ends that nothing disturbed: complete and without a backup; or, if the build published nothing, with the
        object back in place and the build's own report. */
    ghost predicate AsBuilt(o: Outcome)
      reads this
    {
      && built.Some? && backup == None
      && (built.value.Built? ==> o == Done && dst == Some(replacement))
      && (built.value.BuildPublished? ==> o == Failed(true) && dst == Some(replacement))
      && (built.value.BuildOwned? ==> o == Failed(true) && dst == taken && discarded == {})
      && (built.value.BuildFailed? ==> o == Failed(built.value.partial) && dst == taken && discarded == {})
    }

    /** The destination was absent, then there, then absent again, and an object was set aside all the same. */
    ghost predicate CameTwice()
      reads this
    {
      |sightings| == 3 && sightings[0] == None && sightings[1].Some? && sightings[2] == None && taken.Some?
    }

    /** What a run does that meets no fault and nobody else: it refuses what was not reviewed or may not be overwritten,
        and otherwise ends as the build ends. */
    ghost predicate Plain(overwrite: bool, expected: Guard, before: Option<Object>, o: Outcome)
      reads this
    {
      if expected.Some? && before != expected.value then o == Failed(false) && dst == before && backup == None && built == None
      else if before.None? then
        && built.Some? && Delivered(built.value, before) && backup == None && (o == Done <==> built.value.Built?)
        && (built.value.BuildFailed? ==> o == Failed(built.value.partial))
        && (built.value.BuildOwned? || built.value.BuildPublished? ==> o == Failed(true))
      else if !overwrite then o == Failed(false) && dst == before && backup == None && built == None
      else taken == before && AsBuilt(o)
    }

    /** withDestinationGuarded. With a guard that names an object nothing else is ever discarded; with a guard that
        expects nothing, an object is set aside only if one came, went, and came again between the checks. */
    method Replace(overwrite: bool, expected: Guard) returns (o: Outcome)
      requires Untouched() && backup == None
      modifies this
      ensures o == Done ==> dst == Some(replacement) && backup == None
      ensures taken.Some? ==> overwrite && Settled(o)
      ensures taken.None? ==> discarded == {} && backup in {None, Some(placeholder)}
      ensures o == Failed(false) && taken.Some? ==> dst == taken && backup == None
      ensures discarded <= (if taken.Some? then {taken.value} else {})
      ensures discarded != {} ==> dst == Some(replacement)
      ensures expected.Some? && expected.value.Some? && discarded != {} ==> taken == expected.value
      ensures expected == Some(None) && taken.Some? ==> CameTwice()
      ensures !faults && !appeared && taken.Some? ==> if WasStale(expected) then PutBack(o) else AsBuilt(o)
      ensures !faults && !appeared && !disturbed ==> Plain(overwrite, expected, old(dst), o)
    {
      var ok: bool;
      sightings := [];
      faults, disturbed, appeared, built := false, false, false, None;
      if expected.Some? {
        ok := Check(expected.value);
        if !ok { return Failed(false); }
        sightings := sightings + [dst];
      }
      Disturb();
      sightings := sightings + [dst];
      var seen := Works();
      if !seen { return Failed(false); }
      if dst.None? {
        var result := Build();
        return Passed(result);
      }
      if !overwrite { return Failed(false); }
      ok := TakeReviewed(expected);
      if !ok { return Failed(false); }
      o := ReplaceTaken(expected);
    }

    /** The part of withDestinationGuarded before the rename and the rename: a name for the backup, a second check. */
    method TakeReviewed(expected: Guard) returns (ok: bool)
      requires Untouched() && backup == None
      modifies this`dst, this`backup, this`taken, this`faults, this`disturbed, this`sightings
      ensures ok ==> SetAside() && dst == None && taken.Some? && (!disturbed ==> taken == old(dst))
      ensures ok && expected.Some? ==> sightings == old(sightings) + [expected.value]
      ensures !ok ==> taken == None && discarded == {} && backup in {None, Some(placeholder)}
      ensures !ok && !disturbed ==> dst == old(dst)
      ensures !ok && !faults && !disturbed ==> backup == None && (dst == None || (expected.Some? && dst != expected.value))
      ensures (old(faults) ==> faults) && (old(disturbed) ==> disturbed)
    {
      ok := MakeBackupName();
      if !ok { return; }
      Disturb();
      if expected.Some? {
        ok := Check(expected.value);
        if !ok { return; }
        sightings := sightings + [dst];
      }
      Disturb();
      ok := SetDestinationAside();
    }

    /** Whether the object that was set aside is not the one that was reviewed. */
    ghost predicate WasStale(expected: Guard)
      reads this
    {
      expected.Some? && expected.value.Some? && taken != expected.value
    }

    /** The object is back where it was, nothing was built, and the run failed without a trace. */
    ghost predicate PutBack(o: Outcome)
      reads this
    {
      o == Failed(false) && dst == taken && backup == None && discarded == {} && built == None
    }

    /** The part of withDestinationGuarded after the rename: a guard that names an object is checked once more. */
    method ReplaceTaken(expected: Guard) returns (o: Outcome)
      requires SetAside() && dst == None && !appeared && built == None
      modifies this`dst, this`backup, this`discarded, this`faults, this`appeared, this`built
      ensures taken == old(taken) && Settled(o)
      ensures o == Done ==> dst == Some(replacement) && backup == None
      ensures o == Failed(false) ==> dst == taken && backup == None
      ensures discarded <= {taken.value} && (discarded != {} ==> dst == Some(replacement) && !WasStale(expected))
      ensures old(faults) ==> faults
      ensures !faults && !appeared ==> if WasStale(expected) then PutBack(o) else AsBuilt(o)
    {
      Appear();
      if expected.Some? && expected.value.Some? {
        var inspected := Works();
        if !inspected || backup != expected.value {
          var ok := RestoreBackup();
          return Failed(!ok);
        }
      }
      o := Rebuild();
    }

    /** The temporary file that reserves a backup name, made and removed again. */
    method MakeBackupName() returns (ok: bool)
      requires backup == None
      modifies this`backup, this`faults
      ensures ok ==> backup == None
      ensures backup in {None, Some(placeholder)}
      ensures (old(faults) ==> faults) && (!ok ==> faults)
    {
      var created := Works();
      if !created { return false; }
      backup := Some(placeholder);
      var removed := Works();
      var closed := Works();
      if removed {
        backup := None;
      }
      return closed && removed;
    }

    /** The rest of withDestinationGuarded, once the reviewed destination is set aside. */
    method Rebuild() returns (o: Outcome)
      requires SetAside() && (dst.Some? ==> IsForeign(dst) && dst != backup && appeared)
      modifies this`dst, this`backup, this`discarded, this`faults, this`appeared, this`built
      ensures taken == old(taken) && Settled(o)
      ensures o == Done ==> dst == Some(replacement) && backup == None
      ensures o == Failed(false) ==> dst == taken && backup == None
      ensures discarded <= {taken.value} && (discarded != {} ==> dst == Some(replacement))
      ensures (old(faults) ==> faults) && (old(appeared) ==> appeared)
      ensures !faults && !appeared ==> AsBuilt(o)
    {
      var ok: bool;
      var r := Build();
      match r {
        case Built =>
          ok := DiscardBackup();
          return if ok then Done else Failed(true);
        case BuildPublished =>
          ok := DiscardBackup();
          return Failed(true);
        case BuildOwned =>
          ok := DiscardIncomplete();
          if !ok { return Failed(true); }
          Appear();
          ok := RestoreBackup();
          return Failed(true);
        case BuildFailed(partial) =>
          Appear();
          if dst.Some? { return Failed(true); }
          var inspected := Works();
          if !inspected { return Failed(true); }
          Appear();
          ok := RestoreBackup();
          return Failed(if ok then partial else true);
      }
    }
  }
}
