/** One migration, entry by entry, and what holds wherever it stops. */
module MigrationRun {
  import opened PathOrder
  import opened Ordering
  import opened Retention
  import opened RetentionLaws
  import opened SnapshotStore
  import opened Migration
  import opened MigrationPreflight

  /** Valid records of one key are named by their times: ids and times agree in order. */
  ghost predicate TimestampNames(s: set<Entry>) {
    forall a, b :: a in s && b in s && a.valid && b.valid && a.group == b.group && Less(a.id, b.id) ==>
      a.scanned < b.scanned
  }

  predicate ById(a: Entry, b: Entry) {
    Less(a.id, b.id)
  }

  ghost predicate Listed(l: seq<Entry>) {
    DistinctIDs(l) && Ordered(l, ById)
  }

  /** sort.Slice by id. */
  method SortById(l: seq<Entry>) returns (r: seq<Entry>)
    requires DistinctIDs(l)
    ensures Listed(r) && Elements(r) == Elements(l)
  {
    DistinctUnique(l);
    ByIdDecides(Elements(l));
    SortIsInOrder(l, ById);
    r := Sort(l, ById);
    SortElements(l, ById);
    assert Elements(r) == Elements(l);
    forall i, j | 0 <= i < j < |r|
      ensures r[i].id != r[j].id
    {
      assert ById(r[i], r[j]);
      LessIrreflexive(r[i].id);
    }
  }

  lemma ByIdDecides(s: set<Entry>)
    requires UniqueIDs(s)
    ensures Asymmetric(ById) && Transitive(ById) && Decides(s, ById)
  {
    forall x, y | ById(x, y)
      ensures !ById(y, x)
    {
      LessAsymmetric(x.id, y.id);
    }
    forall x, y, z | ById(x, y) && ById(y, z)
      ensures ById(x, z)
    {
      LessTransitive(x.id, y.id, z.id);
    }
    forall x, y | x in s && y in s && x != y
      ensures ById(x, y) || ById(y, x)
    {
      LessTotal(x.id, y.id);
    }
  }

  /** What a recording has done at least so far, wherever it stopped. */
  ghost predicate Touched(p: Policy, files: map<string, Entry>, incoming: Entry, files2: map<string, Entry>) {
    && (forall id :: id in files ==> files[id].id == id) && (forall id :: id in files2 ==> files2[id].id == id)
    && UniqueIDs(Contents(files))
    && (forall id :: id in files2 && id in files ==> files2[id] == files[id])
    && (forall id :: id in files2 && id !in files ==> id == incoming.id && Publishes(files2[id], incoming))
    && forall id :: id in files && id !in files2 ==>
         var plan := RecordPlan(p, Contents(files), incoming, incoming.id in files); plan.Ok? && id in plan.value
  }

  /** The records still to be moved. */
  ghost function Pending(entries: seq<Entry>, i: nat): set<Entry>
    requires i <= |entries|
  {
    ValidOf(Elements(entries[i..]))
  }

  /** A live record of the destination is put at risk only where its key was over the record limit from
      the start and the migration brings a record of that key. */
  ghost predicate Overfull(p: Policy, live0: set<Entry>, entries: seq<Entry>, e: Entry) {
    |OfGroup(live0, e.group)| > p.maxRecords && exists j :: 0 <= j < |entries| && entries[j].valid && entries[j].group == e.group
  }

  ghost predicate DestinationKept(
    p: Policy, live0: set<Entry>, entries: seq<Entry>, dst: map<string, Entry>)
  {
    forall e :: e in live0 ==> (e.id in dst && dst[e.id] == e) || Overfull(p, live0, entries, e)
  }

  /** entry was moved: the destination keeps it for good. */
  ghost predicate Moved(p: Policy, entries: seq<Entry>, i: nat, dst: map<string, Entry>, e: Entry)
    requires i <= |entries|
  {
    && e.id in dst && dst[e.id] in LiveIn(p, dst) && SameBytes(dst[e.id], e)
    && Bounded(p, LiveIn(p, dst), Pending(entries, i), e.group)
  }

  ghost predicate SourceAt(start: map<string, Entry>, entries: seq<Entry>, i: nat, src: map<string, Entry>)
    requires i <= |entries|
  {
    && (forall id :: id in src ==> id in start && src[id] == start[id])
    && (forall j :: i <= j < |entries| ==> entries[j].id in src)
    && (forall j :: 0 <= j < i && !entries[j].safe ==> entries[j].id in src)
    && (forall j :: 0 <= j < i && entries[j].safe ==> entries[j].id !in src)
  }

  /** The state between two entries of the migration. */
  ghost predicate Between(
    p: Policy, start: map<string, Entry>, live0: set<Entry>, entries: seq<Entry>, i: nat,
    src: map<string, Entry>, dst: map<string, Entry>)
    requires i <= |entries|
  {
    && SourceAt(start, entries, i, src)
    && (forall id :: id in dst ==> dst[id].id == id) && Sane(Contents(dst))
    && Room(p, LiveIn(p, dst), Pending(entries, i))
    && (forall x :: x in Pending(entries, i) ==> SameIfThere(LiveIn(p, dst), x))
    && (forall j {:trigger Moved(p, entries, i, dst, entries[j])} ::
        0 <= j < i && entries[j].valid ==> Moved(p, entries, i, dst, entries[j]))
    && DestinationKept(p, live0, entries, dst)
    && (forall e :: e in LiveIn(p, dst) ==> e in live0 || GroupMoved(entries, i, e.group))
  }

  ghost predicate GroupMoved(entries: seq<Entry>, i: nat, group: string)
    requires i <= |entries|
  {
    exists j :: 0 <= j < i && entries[j].valid && entries[j].group == group
  }

  /** Nothing is lost: every valid record of the source is still there or lives at the destination. */
  ghost predicate NothingLost(start: map<string, Entry>, src: map<string, Entry>, dst: map<string, Entry>) {
    forall id :: id in start && start[id].valid ==>
      (id in src && src[id] == start[id])
      || (id in dst && dst[id].valid && dst[id].payload == start[id].payload && dst[id].size == start[id].size)
  }

  ghost predicate Context(p: Policy, start: map<string, Entry>, live0: set<Entry>, entries: seq<Entry>) {
    && (forall e :: e in live0 ==> e.safe && Current(p, e))
    && Listed(entries) && Elements(entries) == Contents(start) && Sane(Elements(entries))
    && TimestampNames(Elements(entries)) && (forall id :: id in start ==> start[id].id == id)
    && (forall e :: e in ValidOf(Elements(entries)) ==> Current(p, e))
  }

  lemma PendingStep(p: Policy, start: map<string, Entry>, live0: set<Entry>, entries: seq<Entry>, i: nat)
    requires Context(p, start, live0, entries) && i < |entries|
    ensures Pending(entries, i) == Pending(entries, i + 1) + (if entries[i].valid then {entries[i]} else {})
    ensures entries[i] !in Pending(entries, i + 1)
    ensures entries[i].valid ==>
      entries[i] in Pending(entries, i) && LaterOnly(Pending(entries, i), entries[i]) && Current(p, entries[i])
    ensures entries[i].valid ==> entries[i].safe && entries[i].scanned > 0
  {
    var e := entries[i];
    assert entries[i..] == [e] + entries[i + 1..];
    assert e in Elements(entries);
    forall x | x in Elements(entries[i + 1..])
      ensures x in Elements(entries) && ById(e, x) && x.id != e.id
    {
      var j :| i < j < |entries| && entries[j] == x;
    }
    DistinctUnique(entries);
    forall x | x in Pending(entries, i)
      ensures x in Elements(entries)
    {
    }
  }

  /** However far a recording came, a live record is only gone if its key was over its limit. */
  lemma EvictedOnly(
      p: Policy, dst: map<string, Entry>, pending: set<Entry>, incoming: Entry, dst2: map<string, Entry>, e: Entry)
    requires Touched(p, dst, incoming, dst2) && Room(p, LiveIn(p, dst), pending) && incoming in pending
    requires SameIfThere(LiveIn(p, dst), incoming) && e in LiveIn(p, dst)
    ensures (e.id in dst2 && dst2[e.id] == e) || OlderOfFullKey(p, LiveIn(p, dst), pending, incoming, e)
  {
    hide RecordPlan, Room, Bounded;
    LiveIs(p, dst, e);
    if e.id !in dst2 {
      EvictedIsOlder(p, Contents(dst), pending, incoming, incoming.id in dst, e);
      ReservationLaws(p, Contents(dst), incoming, incoming.id in dst);
    }
  }

  /** An evicted record belongs to a key that was overfull before the migration began. */
  lemma EvictedWasOverfull(
      p: Policy, start: map<string, Entry>, live0: set<Entry>, entries: seq<Entry>, i: nat,
      src: map<string, Entry>, dst: map<string, Entry>, e: Entry)
    requires Context(p, start, live0, entries) && i < |entries| && entries[i].valid
    requires Between(p, start, live0, entries, i, src, dst)
    requires OlderOfFullKey(p, LiveIn(p, dst), Pending(entries, i), entries[i], e)
    ensures Overfull(p, live0, entries, e) && !GroupMoved(entries, i, e.group)
  {
    hide Context, Room;
    var live, g := LiveIn(p, dst), entries[i].group;
    DuplicateBounded(p, live, Pending(entries, i), entries[i]);
    GroupMovedBounded(p, start, live0, entries, i, src, dst, g);
    assert OfGroup(live, g) <= OfGroup(live0, g);
    SubsetSize(OfGroup(live, g), OfGroup(live0, g));
  }

  lemma GroupMovedBounded(
      p: Policy, start: map<string, Entry>, live0: set<Entry>, entries: seq<Entry>, i: nat,
      src: map<string, Entry>, dst: map<string, Entry>, g: string)
    requires i <= |entries| && Between(p, start, live0, entries, i, src, dst)
    ensures GroupMoved(entries, i, g) ==> Bounded(p, LiveIn(p, dst), Pending(entries, i), g)
  {
    hide Room, Bounded, Overfull;
    if GroupMoved(entries, i, g) {
      var j :| 0 <= j < i && entries[j].valid && entries[j].group == g;
      assert Moved(p, entries, i, dst, entries[j]);
    }
  }

  /** One live record across a recording that may have stopped anywhere. */
  lemma LiveKept(
      p: Policy, start: map<string, Entry>, live0: set<Entry>, entries: seq<Entry>, i: nat,
      src: map<string, Entry>, dst: map<string, Entry>, dst2: map<string, Entry>, e: Entry)
    requires Context(p, start, live0, entries) && i < |entries| && entries[i].valid && e in LiveIn(p, dst)
    requires Between(p, start, live0, entries, i, src, dst) && Touched(p, dst, entries[i], dst2)
    ensures (e.id in dst2 && dst2[e.id] == e) || (Overfull(p, live0, entries, e) && !GroupMoved(entries, i, e.group))
  {
    PendingStep(p, start, live0, entries, i);
    EvictedOnly(p, dst, Pending(entries, i), entries[i], dst2, e);
    if !(e.id in dst2 && dst2[e.id] == e) {
      EvictedWasOverfull(p, start, live0, entries, i, src, dst, e);
    }
  }

  /** Whatever a recording did to the destination, what was moved stays and only overfull keys shrink. */
  lemma TouchedKeeps(
      p: Policy, start: map<string, Entry>, live0: set<Entry>, entries: seq<Entry>, i: nat,
      src: map<string, Entry>, dst: map<string, Entry>, dst2: map<string, Entry>)
    requires Context(p, start, live0, entries) && i < |entries| && entries[i].valid
    requires Between(p, start, live0, entries, i, src, dst) && Touched(p, dst, entries[i], dst2)
    ensures DestinationKept(p, live0, entries, dst2)
    ensures forall j :: 0 <= j < i && entries[j].valid ==> MovedStays(entries[j], dst, dst2)
  {
    hide Touched, Room, Bounded, GroupMoved, Overfull, SourceAt, Listed;
    forall e | e in live0
      ensures (e.id in dst2 && dst2[e.id] == e) || Overfull(p, live0, entries, e)
    {
      if e.id in dst && dst[e.id] == e {
        LiveIs(p, dst, e);
        LiveKept(p, start, live0, entries, i, src, dst, dst2, e);
      }
    }
    forall j | 0 <= j < i && entries[j].valid
      ensures MovedStays(entries[j], dst, dst2)
    {
      assert Moved(p, entries, i, dst, entries[j]);
      LiveKept(p, start, live0, entries, i, src, dst, dst2, dst[entries[j].id]);
      GroupMovedBy(entries, i, j);
    }
  }

  lemma GroupMovedBy(entries: seq<Entry>, i: nat, j: nat)
    requires j < i <= |entries| && entries[j].valid
    ensures GroupMoved(entries, i, entries[j].group)
  {
  }

  ghost predicate MovedStays(e: Entry, dst: map<string, Entry>, dst2: map<string, Entry>) {
    e.id in dst && e.id in dst2 && dst2[e.id] == dst[e.id] && dst[e.id].valid && SameBytes(dst[e.id], e)
  }

  /** Every valid record of the source that was moved is at the destination, and the others are where
      they were. */
  lemma NothingLostYet(
      p: Policy, start: map<string, Entry>, live0: set<Entry>, entries: seq<Entry>, i: nat,
      src: map<string, Entry>, dst: map<string, Entry>, dst2: map<string, Entry>)
    requires Context(p, start, live0, entries) && i <= |entries| && SourceAt(start, entries, i, src)
    requires forall j :: 0 <= j < i && entries[j].valid ==> MovedStays(entries[j], dst, dst2)
    ensures NothingLost(start, src, dst2)
  {
    forall id | id in start && start[id].valid
      ensures (id in src && src[id] == start[id]) || (id in dst2 && dst2[id].valid && SameBytes(dst2[id], start[id]))
    {
      assert start[id] in Contents(start);
      assert start[id] in Elements(entries);
      var j :| 0 <= j < |entries| && entries[j] == start[id];
      if j < i {
        assert MovedStays(entries[j], dst, dst2);
      }
    }
  }

  /** Between two entries nothing is lost. */
  lemma BetweenKeeps(
      p: Policy, start: map<string, Entry>, live0: set<Entry>, entries: seq<Entry>, i: nat,
      src: map<string, Entry>, dst: map<string, Entry>)
    requires Context(p, start, live0, entries) && i <= |entries| && Between(p, start, live0, entries, i, src, dst)
    ensures DestinationKept(p, live0, entries, dst) && NothingLost(start, src, dst)
  {
    hide Room, Bounded, GroupMoved, Overfull, Listed;
    forall j | 0 <= j < i && entries[j].valid
      ensures MovedStays(entries[j], dst, dst)
    {
      assert Moved(p, entries, i, dst, entries[j]);
    }
    NothingLostYet(p, start, live0, entries, i, src, dst, dst);
  }

  /** An entry that is no record: an unsafe file stays, a broken one is removed. */
  lemma SkipEntry(
      p: Policy, start: map<string, Entry>, live0: set<Entry>, entries: seq<Entry>, i: nat,
      src: map<string, Entry>, dst: map<string, Entry>, src2: map<string, Entry>)
    requires Context(p, start, live0, entries) && i < |entries| && !entries[i].valid
    requires Between(p, start, live0, entries, i, src, dst)
    requires src2 == if entries[i].safe then src - {entries[i].id} else src
    ensures Between(p, start, live0, entries, i + 1, src2, dst)
  {
    hide Room, Bounded, Overfull, Missing;
    PendingStep(p, start, live0, entries, i);
    assert Pending(entries, i) == Pending(entries, i + 1);
    forall j | 0 <= j < i + 1 && entries[j].valid
      ensures Moved(p, entries, i + 1, dst, entries[j])
    {
      assert Moved(p, entries, i, dst, entries[j]);
    }
    forall e | e in LiveIn(p, dst)
      ensures e in live0 || GroupMoved(entries, i + 1, e.group)
    {
      assert e in live0 || GroupMoved(entries, i, e.group);
    }
  }

  /** After a complete recording the record's key is within its limit. */
  lemma KeyWithinLimit(p: Policy, dst: map<string, Entry>, incoming: Entry, dst2: map<string, Entry>)
    requires WasRecorded(p, dst, incoming, dst2)
    ensures |OfGroup(LiveIn(p, dst2), incoming.group)| <= p.maxRecords
  {
    hide RecordPlan, Retained, Overflow, InOrder, Newer, SizeOf, Stale;
    var s, stored := Contents(dst), dst2[incoming.id];
    var r := RecordPlan(p, s, incoming, incoming.id in dst).value;
    ReservationLaws(p, s, incoming, incoming.id in dst);
    var left := OfGroup(Left(s, incoming, r), incoming.group);
    var live2 := OfGroup(LiveIn(p, dst2), incoming.group);
    forall x | x in live2 - {stored}
      ensures x in left - {incoming}
    {
      KeyMember(p, dst, incoming, dst2, x);
    }
    SubsetSize(live2 - {stored}, left - {incoming});
    CountWithout(live2, stored);
    assert incoming in left;
  }

  lemma CountWithout(s: set<Entry>, x: Entry)
    ensures |s| <= |s - {x}| + 1
  {
    if x in s {
      assert s == s - {x} + {x};
    } else {
      assert s == s - {x};
    }
  }

  lemma KeyMember(p: Policy, dst: map<string, Entry>, incoming: Entry, dst2: map<string, Entry>, x: Entry)
    requires WasRecorded(p, dst, incoming, dst2) && x in LiveIn(p, dst2) && x != dst2[incoming.id]
    ensures x != incoming && x in Left(Contents(dst), incoming, RecordPlan(p, Contents(dst), incoming, incoming.id in dst).value)
  {
    hide RecordPlan;
    LiveIs(p, dst2, x);
    assert x.id in dst;
    assert dst[x.id] in Contents(dst);
  }

  /** The whole step for one record: recorded, loaded and removed from the source. */
  lemma MoveEntry(
      p: Policy, start: map<string, Entry>, live0: set<Entry>, entries: seq<Entry>, i: nat,
      src: map<string, Entry>, dst: map<string, Entry>, dst2: map<string, Entry>)
    requires Context(p, start, live0, entries) && i < |entries| && entries[i].valid
    requires Between(p, start, live0, entries, i, src, dst)
    requires Touched(p, dst, entries[i], dst2) && WasRecorded(p, dst, entries[i], dst2)
    requires entries[i].id in dst2 && dst2[entries[i].id].valid
    ensures Between(p, start, live0, entries, i + 1, src - {entries[i].id}, dst2)
  {
    hide Room, Bounded, Overfull, Missing, WasRecorded, Touched;
    var e, live, live2 := entries[i], LiveIn(p, dst), LiveIn(p, dst2);
    var pending, pending2 := Pending(entries, i), Pending(entries, i + 1);
    PendingStep(p, start, live0, entries, i);
    assert pending2 == pending - {e};
    SaneStill(p, dst, e, dst2);
    var stored := dst2[e.id];
    MoveFacts(p, start, live0, entries, i, src, dst, dst2);
    RoomAfter(p, live, pending, e, live2, stored);
    MissingAfter(p, live, pending, e, live2, stored);
    TouchedKeeps(p, start, live0, entries, i, src, dst, dst2);
    forall j | 0 <= j < i + 1 && entries[j].valid
      ensures Moved(p, entries, i + 1, dst2, entries[j])
    {
      MovedAfter(p, start, live0, entries, i, src, dst, dst2, j);
    }
    LiveGroups(p, start, live0, entries, i, src, dst, dst2);
    SourceStep(start, entries, i, src);
  }

  lemma SourceStep(start: map<string, Entry>, entries: seq<Entry>, i: nat, src: map<string, Entry>)
    requires i < |entries| && SourceAt(start, entries, i, src) && entries[i].safe && DistinctIDs(entries)
    ensures SourceAt(start, entries, i + 1, src - {entries[i].id})
  {
  }

  lemma SaneStill(p: Policy, dst: map<string, Entry>, e: Entry, dst2: map<string, Entry>)
    requires Touched(p, dst, e, dst2) && Sane(Contents(dst)) && e.safe && e.scanned > 0
    ensures Sane(Contents(dst2)) && forall id :: id in dst2 ==> dst2[id].id == id
    ensures e.id in dst2 && dst2[e.id].valid ==> dst2[e.id].safe
  {
    forall x | x in Contents(dst2) && x.valid
      ensures x.safe && x.scanned > 0
    {
      if x.id in dst {
        assert dst[x.id] in Contents(dst);
      }
    }
    if e.id in dst2 {
      assert dst2[e.id] in Contents(dst2);
    }
  }

  lemma MoveFacts(
      p: Policy, start: map<string, Entry>, live0: set<Entry>, entries: seq<Entry>, i: nat,
      src: map<string, Entry>, dst: map<string, Entry>, dst2: map<string, Entry>)
    requires Context(p, start, live0, entries) && i < |entries| && entries[i].valid
    requires Between(p, start, live0, entries, i, src, dst)
    requires Touched(p, dst, entries[i], dst2) && WasRecorded(p, dst, entries[i], dst2)
    requires dst2[entries[i].id].valid
    ensures Facts(p, LiveIn(p, dst), Pending(entries, i), entries[i], LiveIn(p, dst2), dst2[entries[i].id])
  {
    hide Room, Bounded, Overfull, Missing;
    PendingStep(p, start, live0, entries, i);
    SaneStill(p, dst, entries[i], dst2);
    LiveAfter(p, dst, Pending(entries, i), entries[i], dst2);
    LiveIs(p, dst, entries[i]);
    LiveIs(p, dst2, entries[i]);
  }

  lemma MovedAfter(
      p: Policy, start: map<string, Entry>, live0: set<Entry>, entries: seq<Entry>, i: nat,
      src: map<string, Entry>, dst: map<string, Entry>, dst2: map<string, Entry>, j: nat)
    requires Context(p, start, live0, entries) && i < |entries| && entries[i].valid
    requires Between(p, start, live0, entries, i, src, dst) && j <= i && entries[j].valid
    requires WasRecorded(p, dst, entries[i], dst2) && j < i ==> MovedStays(entries[j], dst, dst2)
    requires WasRecorded(p, dst, entries[i], dst2)
    requires Pending(entries, i + 1) == Pending(entries, i) - {entries[i]}
    requires Facts(p, LiveIn(p, dst), Pending(entries, i), entries[i], LiveIn(p, dst2), dst2[entries[i].id])
    ensures Moved(p, entries, i + 1, dst2, entries[j])
  {
    hide Room, Bounded, Overfull, Missing, Context, SourceAt, RecordPlan, Facts, DestinationKept, LiveIn, Pending, Contents, UniqueIDs;
    var e, live, live2 := entries[i], LiveIn(p, dst), LiveIn(p, dst2);
    var pending, stored := Pending(entries, i), dst2[e.id];
    if j < i {
      assert Moved(p, entries, i, dst, entries[j]);
      LiveIs(p, dst, dst[entries[j].id]);
      LiveIs(p, dst2, dst[entries[j].id]);
      BoundedAfter(p, live, pending, e, live2, stored, entries[j].group);
    } else {
      RecordedLives(p, live, pending, e, live2, dst, dst2);
      KeyBoundedNow(p, live, pending, e, live2, stored, dst, dst2);
    }
  }

  lemma RecordedLives(
      p: Policy, live: set<Entry>, pending: set<Entry>, e: Entry, live2: set<Entry>, dst: map<string, Entry>,
      dst2: map<string, Entry>)
    requires WasRecorded(p, dst, e, dst2) && Facts(p, live, pending, e, live2, dst2[e.id])
    ensures dst2[e.id] in live2 && SameBytes(dst2[e.id], e)
  {
  }

  lemma NoneMissing(p: Policy, live: set<Entry>, pending: set<Entry>, g: string)
    requires Room(p, live, pending)
    ensures Bounded(p, live, pending, g) || OfGroup(Missing(live, pending), g) == {}
  {
    if OfGroup(Missing(live, pending), g) != {} {
      var m :| m in OfGroup(Missing(live, pending), g);
      assert Bounded(p, live, pending, m.group);
    }
  }

  lemma KeyBoundedNow(
      p: Policy, live: set<Entry>, pending: set<Entry>, e: Entry, live2: set<Entry>, stored: Entry,
      dst: map<string, Entry>, dst2: map<string, Entry>)
    requires Facts(p, live, pending, e, live2, stored) && Room(p, live, pending)
    requires WasRecorded(p, dst, e, dst2) && live2 == LiveIn(p, dst2)
    ensures Bounded(p, live2, pending - {e}, e.group)
  {
    hide Facts, WasRecorded;
    if Bounded(p, live, pending, e.group) {
      BoundedAfter(p, live, pending, e, live2, stored, e.group);
    } else {
      MissingAfter(p, live, pending, e, live2, stored);
      KeyWithinLimit(p, dst, e, dst2);
      NoneMissing(p, live, pending, e.group);
      assert OfGroup(Missing(live2, pending - {e}), e.group) == {};
    }
  }

  lemma LiveGroups(
      p: Policy, start: map<string, Entry>, live0: set<Entry>, entries: seq<Entry>, i: nat,
      src: map<string, Entry>, dst: map<string, Entry>, dst2: map<string, Entry>)
    requires i < |entries| && entries[i].valid && Between(p, start, live0, entries, i, src, dst)
    requires entries[i].id in dst2
    requires Facts(p, LiveIn(p, dst), Pending(entries, i), entries[i], LiveIn(p, dst2), dst2[entries[i].id])
    ensures forall e :: e in LiveIn(p, dst2) ==> e in live0 || GroupMoved(entries, i + 1, e.group)
  {
    hide Room, Bounded, Overfull, Missing, SourceAt;
    forall e | e in LiveIn(p, dst2)
      ensures e in live0 || GroupMoved(entries, i + 1, e.group)
    {
      if e in LiveIn(p, dst) {
        assert e in live0 || GroupMoved(entries, i, e.group);
      } else {
        GroupMovedBy(entries, i + 1, i);
      }
    }
  }

  /** The destination lost no live record, except of a key that was over its record limit from the start
      and that the source has a record of. */
  ghost predicate LiveKeptOrOverfull(p: Policy, start: map<string, Entry>, dst0: map<string, Entry>, dst: map<string, Entry>) {
    forall e :: e in LiveIn(p, dst0) ==>
      (e.id in dst && dst[e.id] == e) || OverfullKey(p, start, LiveIn(p, dst0), e.group)
  }

  ghost predicate OverfullKey(p: Policy, start: map<string, Entry>, live0: set<Entry>, group: string) {
    |OfGroup(live0, group)| > p.maxRecords && exists id :: id in start && start[id].valid && start[id].group == group
  }

  lemma KeptAsStated(
      p: Policy, start: map<string, Entry>, dst0: map<string, Entry>, entries: seq<Entry>, dst: map<string, Entry>)
    requires Elements(entries) == Contents(start) && DestinationKept(p, LiveIn(p, dst0), entries, dst)
    ensures LiveKeptOrOverfull(p, start, dst0, dst)
  {
    forall e | e in LiveIn(p, dst0)
      ensures (e.id in dst && dst[e.id] == e) || OverfullKey(p, start, LiveIn(p, dst0), e.group)
    {
      if Overfull(p, LiveIn(p, dst0), entries, e) {
        var j :| 0 <= j < |entries| && entries[j].valid && entries[j].group == e.group;
        assert entries[j] in Elements(entries);
        var id :| id in start && start[id] == entries[j];
      }
    }
  }

  ghost predicate UnsafeStay(start: map<string, Entry>, src: map<string, Entry>) {
    forall id :: id in start && !start[id].safe ==> id in src
  }

  lemma SourceParts(start: map<string, Entry>, entries: seq<Entry>, i: nat, src: map<string, Entry>)
    requires i <= |entries| && SourceAt(start, entries, i, src) && Elements(entries) == Contents(start)
    requires forall id :: id in start ==> start[id].id == id
    ensures i < |entries| ==> entries[i].id in src
    ensures UnsafeStay(start, src)
    ensures i == |entries| ==> forall id :: id in start && start[id].safe ==> id !in src
  {
    forall id | id in start
      ensures exists j :: 0 <= j < |entries| && entries[j] == start[id]
    {
      assert start[id] in Contents(start);
      assert start[id] in Elements(entries);
    }
  }

  lemma MigrationBegins(p: Policy, start: map<string, Entry>, entries: seq<Entry>, dst: map<string, Entry>)
    requires Context(p, start, LiveIn(p, dst), entries) && (forall id :: id in dst ==> dst[id].id == id)
    requires Sane(Contents(dst)) && Room(p, LiveIn(p, dst), ValidOf(Elements(entries)))
    requires forall x :: x in ValidOf(Elements(entries)) ==> SameIfThere(LiveIn(p, dst), x)
    ensures Between(p, start, LiveIn(p, dst), entries, 0, start, dst)
  {
    hide Room, Overfull, SameIfThere;
    assert entries[0..] == entries;
    forall j | 0 <= j < |entries|
      ensures entries[j].id in start
    {
      assert entries[j] in Elements(entries);
    }
    forall e | e in LiveIn(p, dst)
      ensures e.id in dst && dst[e.id] == e
    {
      LiveIs(p, dst, e);
    }
  }

  /** Ids start with the key's name. */
  ghost predicate IdsNameKeys(a: map<string, Entry>, b: map<string, Entry>) {
    forall id :: id in a && id in b && a[id].valid && b[id].valid ==> a[id].group == b[id].group
  }

  /** What a migration guarantees wherever it stops. */
  ghost predicate Safe(
    p: Policy, start: map<string, Entry>, dst0: map<string, Entry>, src: map<string, Entry>, dst: map<string, Entry>)
  {
    NothingLost(start, src, dst) && LiveKeptOrOverfull(p, start, dst0, dst) && UnsafeStay(start, src)
  }

  lemma UntouchedIsSafe(p: Policy, start: map<string, Entry>, dst0: map<string, Entry>)
    requires forall id :: id in dst0 ==> dst0[id].id == id
    ensures Safe(p, start, dst0, start, dst0)
  {
    forall e | e in LiveIn(p, dst0)
      ensures e.id in dst0 && dst0[e.id] == e
    {
      LiveIs(p, dst0, e);
    }
  }

  lemma BetweenIsSafe(
      p: Policy, start: map<string, Entry>, dst0: map<string, Entry>, entries: seq<Entry>, i: nat,
      src: map<string, Entry>, dst: map<string, Entry>)
    requires Context(p, start, LiveIn(p, dst0), entries) && i <= |entries|
    requires Between(p, start, LiveIn(p, dst0), entries, i, src, dst)
    ensures Safe(p, start, dst0, src, dst)
    ensures i < |entries| ==> entries[i].id in src
    ensures i == |entries| ==> forall id :: id in start && start[id].safe ==> id !in src
  {
    hide Room, Bounded, Overfull, Missing, LiveIn;
    BetweenKeeps(p, start, LiveIn(p, dst0), entries, i, src, dst);
    KeptAsStated(p, start, dst0, entries, dst);
    SourceParts(start, entries, i, src);
  }

  lemma TouchedIsSafe(
      p: Policy, start: map<string, Entry>, dst0: map<string, Entry>, entries: seq<Entry>, i: nat,
      src: map<string, Entry>, dst: map<string, Entry>, dst2: map<string, Entry>)
    requires Context(p, start, LiveIn(p, dst0), entries) && i < |entries| && entries[i].valid
    requires Between(p, start, LiveIn(p, dst0), entries, i, src, dst) && Touched(p, dst, entries[i], dst2)
    ensures Safe(p, start, dst0, src, dst2)
  {
    hide Room, Bounded, Overfull, Missing, LiveIn, Touched, GroupMoved;
    TouchedKeeps(p, start, LiveIn(p, dst0), entries, i, src, dst, dst2);
    NothingLostYet(p, start, LiveIn(p, dst0), entries, i, src, dst, dst2);
    KeptAsStated(p, start, dst0, entries, dst2);
    SourceParts(start, entries, i, src);
  }

  lemma EntryFacts(
      p: Policy, start: map<string, Entry>, dst0: map<string, Entry>, entries: seq<Entry>, i: nat)
    requires Context(p, start, LiveIn(p, dst0), entries) && i < |entries|
    ensures entries[i].valid ==> entries[i].safe && entries[i].scanned > 0
  {
    PendingStep(p, start, LiveIn(p, dst0), entries, i);
  }

  /** The listing and both preflights of migrateUnlocked; nothing is changed yet. */
  method PreflightAll(source: SnapshotStore, destination: SnapshotStore)
    returns (entries: seq<Entry>, ready: bool, ghost calm: bool)
    requires source.Valid() && destination.Valid()
    requires destination.policy.maxBytes >= 0 && destination.policy.maxRecords > 0
    requires Sane(Contents(source.files)) && Sane(Contents(destination.files)) && TimestampNames(Contents(source.files))
    requires IdsNameKeys(source.files, destination.files)
    ensures ready ==> Context(destination.policy, source.files, LiveIn(destination.policy, destination.files), entries)
    ensures ready ==> Between(destination.policy, source.files, LiveIn(destination.policy, destination.files), entries, 0,
                              source.files, destination.files)
    ensures calm ==> (ready <==> MayMigrate(destination.policy, source.files, destination.files))
  {
    hide Room, TimestampNames, Sane, Between, Listed, PassesAlone;
    calm := true;
    ghost var p, start, dst := destination.policy, source.files, destination.files;
    var listed := source.ListEntries();
    entries := SortById(listed);
    IsListed(entries);
    var there := destination.ListEntries();
    ready := PreflightMigrationBatch(destination.policy, there, entries);
    if !ready { return; }
    ListedAll(start, entries);
    for i := 0 to |entries|
      invariant forall j :: 0 <= j < i && entries[j].valid ==> SameIfThere(LiveIn(p, dst), entries[j])
      invariant calm ==> forall j :: 0 <= j < i && entries[j].valid ==> PassesAlone(p, dst, entries[j])
    {
      if !entries[i].valid { continue; }
      ListedIn(start, entries, i);
      var loaded, quiet := source.Load(entries[i].id);
      calm := calm && quiet;
      var fits: bool := false;
      if loaded {
        var read: bool;
        fits, read, quiet := destination.PreflightMigration(entries[i]);
        calm := calm && quiet;
      }
      if !fits {
        ready := false;
        return;
      }
      SameThere(p, start, dst, entries[i]);
    }
    LiveMembers(p, dst);
    PendingSame(p, dst, entries);
    assert Listed(entries);
    MigrationBegins(p, start, entries, dst);
  }

  /** With every primitive working, the preflights pass: no record to come has expired, all have room, and each passes on
      its own. */
  ghost predicate MayMigrate(p: Policy, src: map<string, Entry>, dst: map<string, Entry>) {
    && (forall e :: e in ValidOf(Contents(src)) ==> Current(p, e))
    && Room(p, Live(p, Contents(dst)), ValidOf(Contents(src)))
    && forall id :: id in src && src[id].valid ==> PassesAlone(p, dst, src[id])
  }

  /** The destination itself refuses some record that is still to be moved. */
  ghost predicate Refused(p: Policy, src: map<string, Entry>, dst: map<string, Entry>) {
    exists id :: id in src && src[id].valid && src[id].safe && !CanMove(p, dst, src[id])
  }

  ghost predicate CanMove(p: Policy, dst: map<string, Entry>, e: Entry) {
    CanRecord(p, dst, e) && (e.id in dst ==> dst[e.id].valid)
  }

  lemma ListedAll(start: map<string, Entry>, entries: seq<Entry>)
    requires Elements(entries) == Contents(start)
    ensures forall id :: id in start ==> start[id] in entries
  {
    forall id | id in start
      ensures start[id] in entries
    {
      assert start[id] in Contents(start);
      assert start[id] in Elements(entries);
    }
  }

  lemma IsListed(entries: seq<Entry>)
    requires Listed(entries)
    ensures DistinctIDs(entries)
  {
  }

  lemma ListedIn(start: map<string, Entry>, entries: seq<Entry>, i: nat)
    requires Elements(entries) == Contents(start) && i < |entries| && forall id :: id in start ==> start[id].id == id
    ensures entries[i].id in start && start[entries[i].id] == entries[i]
  {
    assert entries[i] in Elements(entries);
  }

  lemma SameThere(p: Policy, start: map<string, Entry>, dst: map<string, Entry>, e: Entry)
    requires e.id in start && start[e.id] == e && e.valid && IdsNameKeys(start, dst)
    requires forall id :: id in dst ==> dst[id].id == id
    requires e.id in dst && dst[e.id].valid && dst[e.id].group == e.group ==> SameBytes(dst[e.id], e)
    ensures SameIfThere(LiveIn(p, dst), e)
  {
    forall x | x in LiveIn(p, dst) && x.id == e.id
      ensures SameBytes(x, e)
    {
      LiveIs(p, dst, x);
    }
  }

  lemma LiveMembers(p: Policy, dst: map<string, Entry>)
    ensures forall e :: e in LiveIn(p, dst) ==> e.safe && Current(p, e)
  {
  }

  lemma PendingSame(p: Policy, dst: map<string, Entry>, entries: seq<Entry>)
    requires forall j :: 0 <= j < |entries| && entries[j].valid ==> SameIfThere(LiveIn(p, dst), entries[j])
    ensures forall x :: x in ValidOf(Elements(entries)) ==> SameIfThere(LiveIn(p, dst), x)
  {
    hide SameIfThere, LiveIn;
    forall x | x in ValidOf(Elements(entries))
      ensures SameIfThere(LiveIn(p, dst), x)
    {
      var j :| 0 <= j < |entries| && entries[j] == x;
    }
  }

  /** One valid record: recorded at the destination, loaded from there, then removed from the source. */
  method MoveOne(
      source: SnapshotStore, destination: SnapshotStore, entries: seq<Entry>, i: nat,
      ghost start: map<string, Entry>, ghost dst0: map<string, Entry>)
    returns (ok: bool, ghost calm: bool)
    requires source != destination && source.Valid() && destination.Valid()
    requires i < |entries| && entries[i].valid && Context(destination.policy, start, LiveIn(destination.policy, dst0), entries)
    requires Between(destination.policy, start, LiveIn(destination.policy, dst0), entries, i, source.files, destination.files)
    modifies source`files, destination`files
    ensures source.Valid() && destination.Valid()
    ensures ok ==>
      Between(destination.policy, start, LiveIn(destination.policy, dst0), entries, i + 1, source.files, destination.files)
    ensures Safe(destination.policy, start, dst0, source.files, destination.files)
    ensures calm ==> (ok <==> CanMove(destination.policy, old(destination.files), entries[i]))
    ensures calm && !ok ==>
      source.files == old(source.files) && !CanMove(destination.policy, destination.files, entries[i])
  {
    hide Context, Between, Room, LiveIn, RecordPlan, Safe, Touched, WasRecorded, CanRecord;
    ghost var p, live0 := destination.policy, LiveIn(destination.policy, dst0);
    ghost var src, dst := source.files, destination.files;
    var entry := entries[i];
    EntryFacts(p, start, dst0, entries, i);
    BetweenIsSafe(p, start, dst0, entries, i, src, dst);
    var recorded;
    recorded, calm := destination.Record(entry);
    ghost var dst2 := destination.files;
    RecordTouches(p, dst, entry, dst2, recorded);
    TouchedIsSafe(p, start, dst0, entries, i, src, dst, dst2);
    if !recorded { return false, calm; }
    ghost var quiet: bool;
    var loaded;
    loaded, quiet := destination.Load(entry.id);
    calm := calm && quiet;
    if !loaded { return false, calm; }
    MoveEntry(p, start, live0, entries, i, src, dst, dst2);
    BetweenIsSafe(p, start, dst0, entries, i + 1, src - {entry.id}, dst2);
    ok, quiet := source.RemoveEntry(entry.id);
    calm := calm && quiet;
  }

  /** The next entry is still in the source. */
  lemma StillThere(
      p: Policy, start: map<string, Entry>, live0: set<Entry>, entries: seq<Entry>, i: nat,
      src: map<string, Entry>, dst: map<string, Entry>)
    requires Context(p, start, live0, entries) && i < |entries| && Between(p, start, live0, entries, i, src, dst)
    ensures entries[i].id in src && src[entries[i].id] == entries[i]
  {
    hide Room, Overfull;
    assert entries[i] in Elements(entries);
  }

  /** The contract of Record in the words of this module. */
  lemma RecordTouches(p: Policy, dst: map<string, Entry>, e: Entry, dst2: map<string, Entry>, ok: bool)
    requires (forall id :: id in dst ==> dst[id].id == id) && (forall id :: id in dst2 ==> dst2[id].id == id)
    requires ok ==> e.id in dst2 && SameBytes(dst2[e.id], e)
    requires forall id :: id in dst2 && id in dst ==> dst2[id] == dst[id]
    requires forall id :: id in dst2 && id !in dst ==> id == e.id && Publishes(dst2[id], e)
    requires forall id :: id in dst && id !in dst2 ==>
      && UniqueIDs(Contents(dst)) && var plan := RecordPlan(p, Contents(dst), e, e.id in dst); plan.Ok? && id in plan.value
    requires ok ==>
      && UniqueIDs(Contents(dst)) && var plan := RecordPlan(p, Contents(dst), e, e.id in dst);
         plan.Ok? && forall id :: id in dst2 ==> id !in plan.value
    ensures Touched(p, dst, e, dst2) && (ok ==> WasRecorded(p, dst, e, dst2))
  {
    hide RecordPlan;
    ContentsUnique(dst);
  }

  /** migrateUnlocked: wherever it stops, nothing is lost, unsafe files stay, and no live record of the
      destination is evicted unless its key was over the record limit before. */
  method Migrate(source: SnapshotStore, destination: SnapshotStore) returns (ok: bool, ghost calm: bool)
    requires source != destination && source.Valid() && destination.Valid()
    requires destination.policy.maxBytes >= 0 && destination.policy.maxRecords > 0
    requires Sane(Contents(source.files)) && Sane(Contents(destination.files)) && TimestampNames(Contents(source.files))
    requires IdsNameKeys(source.files, destination.files)
    modifies source`files, destination`files
    ensures source.Valid() && destination.Valid()
    ensures Safe(destination.policy, old(source.files), old(destination.files), source.files, destination.files)
    ensures ok ==> forall id :: id in old(source.files) && old(source.files)[id].safe ==> id !in source.files
    ensures calm && ok ==> MayMigrate(destination.policy, old(source.files), old(destination.files))
    ensures calm && !ok ==>
      if MayMigrate(destination.policy, old(source.files), old(destination.files))
      then Refused(destination.policy, source.files, destination.files)
      else source.files == old(source.files) && destination.files == old(destination.files)
  {
    hide Context, Between, Safe, Room, LiveIn, TimestampNames, Sane, SameIfThere, MayMigrate, CanMove;
    ghost var p, start, dst0 := destination.policy, source.files, destination.files;
    ghost var live0 := LiveIn(p, dst0);
    UntouchedIsSafe(p, start, dst0);
    var entries, ready;
    entries, ready, calm := PreflightAll(source, destination);
    if !ready {
      return false, calm;
    }
    for i := 0 to |entries|
      invariant source.Valid() && destination.Valid()
      invariant Context(p, start, live0, entries) && Between(p, start, live0, entries, i, source.files, destination.files)
      invariant calm ==> MayMigrate(p, start, dst0)
    {
      ghost var src, dst := source.files, destination.files;
      BetweenIsSafe(p, start, dst0, entries, i, src, dst);
      EntryFacts(p, start, dst0, entries, i);
      var cancelled: bool := *;
      if cancelled { return false, false; }
      var entry := entries[i];
      if !entry.safe {
        SkipEntry(p, start, live0, entries, i, src, dst, src);
        continue;
      }
      if !entry.valid {
        SkipEntry(p, start, live0, entries, i, src, dst, src - {entry.id});
        BetweenIsSafe(p, start, dst0, entries, i + 1, src - {entry.id}, dst);
        var gone;
        ghost var quiet: bool;
        gone, quiet := source.RemoveEntry(entry.id);
        calm := calm && quiet;
        if !gone { return false, calm; }
        continue;
      }
      StillThere(p, start, live0, entries, i, src, dst);
      var moved;
      ghost var quiet: bool;
      moved, quiet := MoveOne(source, destination, entries, i, start, dst0);
      calm := calm && quiet;
      if !moved { return false, calm; }
    }
    BetweenIsSafe(p, start, dst0, entries, |entries|, source.files, destination.files);
    ok := true;
  }
}
