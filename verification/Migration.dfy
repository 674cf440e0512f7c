/** Moving history records to another store: nothing is lost wherever the move stops. */
module Migration {
  import opened Options
  import opened Ordering
  import opened Retention
  import opened RetentionLaws
  import opened SnapshotStore

  /** What a listing guarantees about entries it calls valid. */
  ghost predicate Sane(s: set<Entry>) {
    forall e :: e in s && e.valid ==> e.safe && e.scanned > 0
  }

  /** The records of a store that its policy would load and keep for their age. */
  ghost function Live(p: Policy, s: set<Entry>): set<Entry> {
    set e | e in s && e.safe && Current(p, e)
  }

  ghost function ValidOf(s: set<Entry>): set<Entry> {
    set e | e in s && e.valid
  }

  /** The pending records that the destination does not have yet. */
  ghost function Missing(live: set<Entry>, pending: set<Entry>): set<Entry> {
    set e | e in pending && !HasID(live, e.id)
  }

  /** The records of one key, those at the destination and those to come, are within the record limit. */
  ghost predicate Bounded(p: Policy, live: set<Entry>, pending: set<Entry>, group: string) {
    |OfGroup(live, group)| + |OfGroup(Missing(live, pending), group)| <= p.maxRecords
  }

  /** All live and all missing records together fit the byte quota, and the missing ones the record limit. */
  ghost predicate Room(p: Policy, live: set<Entry>, pending: set<Entry>) {
    && (forall e :: e in live || e in Missing(live, pending) ==> e.size >= 0)
    && SizeOf(live) + SizeOf(Missing(live, pending)) <= p.maxBytes
    && forall e :: e in Missing(live, pending) ==> Bounded(p, live, pending, e.group)
  }

  /** The live record of the same id, if any, is the incoming one as it was stored before. */
  ghost predicate SameIfThere(live: set<Entry>, incoming: Entry) {
    forall x :: x in live && x.id == incoming.id ==> SameBytes(x, incoming)
  }

  /** Retention for a pending record retains every live record of another id. */
  lemma RetainedIs(p: Policy, s: set<Entry>, incoming: Entry)
    requires UniqueIDs(s)
    ensures var live, retained := Live(p, s), Retained(p, s, Some(incoming));
      && UniqueIDs(live)
      && (!HasID(live, incoming.id) ==> retained == live + {incoming} && incoming !in live)
      && (forall x :: x in live && x.id == incoming.id ==> retained == live - {x} + {incoming})
  {
  }

  lemma RetainedFits(p: Policy, s: set<Entry>, pending: set<Entry>, incoming: Entry)
    requires UniqueIDs(s) && Room(p, Live(p, s), pending) && incoming in pending && incoming.size >= 0
    requires SameIfThere(Live(p, s), incoming)
    ensures var retained := Retained(p, s, Some(incoming));
      && (forall e :: e in retained ==> e.size >= 0) && SizeOf(retained) <= p.maxBytes
  {
    var live, retained := Live(p, s), Retained(p, s, Some(incoming));
    var missing := Missing(live, pending);
    RetainedIs(p, s, incoming);
    SizeTake(retained, incoming);
    SizeGrows({}, missing);
    if HasID(live, incoming.id) {
      var x :| x in live && x.id == incoming.id;
      SizeTake(live, x);
      assert retained - {incoming} == live - {x};
    } else {
      assert retained - {incoming} == live;
      SizeTake(missing, incoming);
      SizeGrows({}, missing - {incoming});
    }
  }

  lemma RetainedCount(p: Policy, s: set<Entry>, pending: set<Entry>, incoming: Entry)
    requires UniqueIDs(s) && incoming in pending && SameIfThere(Live(p, s), incoming)
    ensures var live := Live(p, s); var count := |OfGroup(Retained(p, s, Some(incoming)), incoming.group)|;
      && (HasID(live, incoming.id) ==> count == |OfGroup(live, incoming.group)|)
      && (!HasID(live, incoming.id) ==> count == |OfGroup(live, incoming.group)| + 1)
      && (!HasID(live, incoming.id) ==> incoming in OfGroup(Missing(live, pending), incoming.group))
  {
    hide Live, Retained, UniqueIDs;
    var live, retained := Live(p, s), Retained(p, s, Some(incoming));
    RetainedIs(p, s, incoming);
    if HasID(live, incoming.id) {
      var x :| x in live && x.id == incoming.id;
      GroupSwapped(live, x, incoming);
    } else {
      GroupGrown(live, incoming);
    }
  }

  lemma GroupSwapped(s: set<Entry>, x: Entry, y: Entry)
    requires x in s && x.group == y.group && (y in s ==> y == x)
    ensures |OfGroup(s - {x} + {y}, y.group)| == |OfGroup(s, y.group)|
  {
    assert OfGroup(s - {x} + {y}, y.group) == OfGroup(s, y.group) - {x} + {y};
  }

  lemma GroupGrown(s: set<Entry>, y: Entry)
    requires y !in s
    ensures |OfGroup(s + {y}, y.group)| == |OfGroup(s, y.group)| + 1
  {
    assert OfGroup(s + {y}, y.group) == OfGroup(s, y.group) + {y};
  }

  /** With room for what is pending, recording a pending record never evicts a live record for the
      quota, and for the record limit only of its own key, and only if that key was over its limit. */
  lemma RecordEvicts(p: Policy, s: set<Entry>, pending: set<Entry>, incoming: Entry, present: bool, e: Entry)
    requires UniqueIDs(s) && RecordPlan(p, s, incoming, present).Ok?
    requires Room(p, Live(p, s), pending) && incoming in pending && SameIfThere(Live(p, s), incoming) && e in Live(p, s)
    ensures e.id in RecordPlan(p, s, incoming, present).value ==>
      e.group == incoming.group && !Bounded(p, Live(p, s), pending, e.group)
  {
    hide RecordPlan, InOrder, Spent, Queue, Room, Live, Overflow, Missing;
    var retained, active := Retained(p, s, Some(incoming)), ActiveFor(p, s, incoming);
    RecordPlanParts(p, s, incoming, present);
    RetainedUnique(p, s, incoming);
    RetainedFits(p, s, pending, incoming);
    SizeGrows(active, retained);
    AllKept(p, active, Some(incoming));
    OverflowWithin(p, retained, incoming.group);
    RetainedCount(p, s, pending, incoming);
    LiveAt(p, s, incoming, e);
    if Bounded(p, Live(p, s), pending, incoming.group) {
      BoundedMeansNoOverflow(p, s, pending, incoming);
    }
  }

  lemma BoundedMeansNoOverflow(p: Policy, s: set<Entry>, pending: set<Entry>, incoming: Entry)
    requires UniqueIDs(s) && incoming in pending && SameIfThere(Live(p, s), incoming)
    requires Bounded(p, Live(p, s), pending, incoming.group)
    ensures Overflow(p, Retained(p, s, Some(incoming)), incoming.group) == {}
  {
    hide Overflow;
    var live, missing := Live(p, s), Missing(Live(p, s), pending);
    RetainedUnique(p, s, incoming);
    RetainedCount(p, s, pending, incoming);
    if !HasID(live, incoming.id) {
      SubsetSize({incoming}, OfGroup(missing, incoming.group));
    }
    SmallHasNoOverflow(p, Retained(p, s, Some(incoming)), incoming.group);
  }

  /** The plan for one live entry, when the quota rejects nothing. */
  lemma LiveAt(p: Policy, s: set<Entry>, incoming: Entry, e: Entry)
    requires UniqueIDs(s) && e in Live(p, s)
    requires UniqueIDs(Overflow(p, Retained(p, s, Some(incoming)), incoming.group))
    requires Overflow(p, Retained(p, s, Some(incoming)), incoming.group) <= Retained(p, s, Some(incoming))
    requires incoming in ActiveFor(p, s, incoming)
    ensures e.id !in Stale(p, s, Some(incoming))
    ensures e.id in Tagged(Overflow(p, Retained(p, s, Some(incoming)), incoming.group), PerKey) ==>
      e in Overflow(p, Retained(p, s, Some(incoming)), incoming.group)
    ensures e.id !in Tagged({}, Quota)
  {
    hide Overflow, Current;
  }

  /** A record that the destination has already: recording it again evicts a live record exactly if its
      key was over the record limit. The batch preflight does not look at that. */
  lemma DuplicateEvicts(p: Policy, s: set<Entry>, pending: set<Entry>, incoming: Entry)
    requires UniqueIDs(s) && RecordPlan(p, s, incoming, true).Ok?
    requires Room(p, Live(p, s), pending) && incoming in pending && SameIfThere(Live(p, s), incoming)
    requires HasID(Live(p, s), incoming.id)
    ensures (exists e :: e in Live(p, s) && e.id in RecordPlan(p, s, incoming, true).value)
      <==> |OfGroup(Live(p, s), incoming.group)| > p.maxRecords
  {
    hide RecordPlan, InOrder, Spent, Queue, Room, Overflow;
    var r := RecordPlan(p, s, incoming, true).value;
    var live := Live(p, s);
    if e :| e in live && e.id in r {
      RecordEvicts(p, s, pending, incoming, true, e);
      DuplicateBounded(p, live, pending, incoming);
    }
    if forall e :: e in live ==> e.id !in r {
      ReservationLaws(p, s, incoming, true);
      RetainedCount(p, s, pending, incoming);
      RetainedIs(p, s, incoming);
      assert OfGroup(Retained(p, s, Some(incoming)), incoming.group) <= OfGroup(Left(s, incoming, r), incoming.group);
      SubsetSize(OfGroup(Retained(p, s, Some(incoming)), incoming.group), OfGroup(Left(s, incoming, r), incoming.group));
    }
  }

  lemma DuplicateBounded(p: Policy, live: set<Entry>, pending: set<Entry>, incoming: Entry)
    requires Room(p, live, pending)
    ensures |OfGroup(live, incoming.group)| <= p.maxRecords ==> Bounded(p, live, pending, incoming.group)
  {
    if OfGroup(Missing(live, pending), incoming.group) != {} {
      var m :| m in OfGroup(Missing(live, pending), incoming.group);
      assert Bounded(p, live, pending, m.group);
    }
  }

  /** A store's files before and after a record was published and the policy enforced in full. */
  ghost predicate WasRecorded(p: Policy, files: map<string, Entry>, incoming: Entry, files2: map<string, Entry>) {
    && (forall id :: id in files ==> files[id].id == id) && (forall id :: id in files2 ==> files2[id].id == id)
    && UniqueIDs(Contents(files))
    && incoming.id in files2 && SameBytes(files2[incoming.id], incoming)
    && (forall id :: id in files2 && id in files ==> files2[id] == files[id])
    && (forall id :: id in files2 && id !in files ==> id == incoming.id && Publishes(files2[id], incoming))
    && var plan := RecordPlan(p, Contents(files), incoming, incoming.id in files);
    && plan.Ok? && forall id :: id in files ==> (id in files2 <==> id !in plan.value)
  }

  ghost function LiveIn(p: Policy, files: map<string, Entry>): set<Entry> {
    Live(p, Contents(files))
  }

  lemma LiveIs(p: Policy, files: map<string, Entry>, e: Entry)
    requires forall id :: id in files ==> files[id].id == id
    ensures e in LiveIn(p, files) <==> e.id in files && files[e.id] == e && e.safe && Current(p, e)
    ensures UniqueIDs(LiveIn(p, files))
  {
    if e.id in files {
      assert files[e.id] in Contents(files);
    }
  }

  /** The only kind of live record that recording the incoming one may evict. */
  ghost predicate OlderOfFullKey(p: Policy, live: set<Entry>, pending: set<Entry>, incoming: Entry, e: Entry) {
    && e.id != incoming.id && e.group == incoming.group && e.scanned <= incoming.scanned
    && !Bounded(p, live, pending, incoming.group)
  }

  /** What recording one pending record does to the live records. */
  lemma LiveAfter(p: Policy, files: map<string, Entry>, pending: set<Entry>, incoming: Entry, files2: map<string, Entry>)
    requires WasRecorded(p, files, incoming, files2) && Room(p, LiveIn(p, files), pending) && incoming in pending
    requires SameIfThere(LiveIn(p, files), incoming) && incoming.valid && Current(p, incoming)
    requires files2[incoming.id].valid && files2[incoming.id].safe && incoming.scanned > 0
    ensures var live, live2, stored := LiveIn(p, files), LiveIn(p, files2), files2[incoming.id];
      && stored in live2 && live2 <= live + {stored} && (HasID(live, incoming.id) <==> stored in live)
      && (forall e :: e in live - live2 ==> OlderOfFullKey(p, live, pending, incoming, e))
  {
    hide RecordPlan, Room, Bounded;
    var live, live2, stored := LiveIn(p, files), LiveIn(p, files2), files2[incoming.id];
    LiveIs(p, files2, stored);
    forall e
      ensures e in live <==> e.id in files && files[e.id] == e && e.safe && Current(p, e)
      ensures e in live2 <==> e.id in files2 && files2[e.id] == e && e.safe && Current(p, e)
    {
      LiveIs(p, files, e);
      LiveIs(p, files2, e);
    }
    forall e | e in live - live2
      ensures OlderOfFullKey(p, live, pending, incoming, e)
    {
      EvictedIsOlder(p, Contents(files), pending, incoming, incoming.id in files, e);
    }
  }

  lemma EvictedIsOlder(p: Policy, s: set<Entry>, pending: set<Entry>, incoming: Entry, present: bool, e: Entry)
    requires UniqueIDs(s) && RecordPlan(p, s, incoming, present).Ok?
    requires Room(p, Live(p, s), pending) && incoming in pending && SameIfThere(Live(p, s), incoming) && e in Live(p, s)
    requires e.id in RecordPlan(p, s, incoming, present).value
    ensures e.group == incoming.group && !Bounded(p, Live(p, s), pending, e.group) && e.scanned <= incoming.scanned
  {
    hide RecordPlan, InOrder, Spent, Queue, Room, Bounded, Overflow;
    RecordEvicts(p, s, pending, incoming, present, e);
    var retained, active := Retained(p, s, Some(incoming)), ActiveFor(p, s, incoming);
    RecordPlanParts(p, s, incoming, present);
    RetainedUnique(p, s, incoming);
    RetainedFits(p, s, pending, incoming);
    SizeGrows(active, retained);
    AllKept(p, active, Some(incoming));
    LiveAt(p, s, incoming, e);
    OverflowIsOlder(p, retained, incoming, e);
  }

  lemma OverflowIsOlder(p: Policy, retained: set<Entry>, incoming: Entry, e: Entry)
    requires UniqueIDs(retained) && incoming in retained
    requires e in Overflow(p, retained, incoming.group) && incoming !in Overflow(p, retained, incoming.group)
    ensures e.scanned <= incoming.scanned
  {
    hide InOrder, Newer;
    NewestOfGroup(retained, incoming.group);
    var newest := InOrder(OfGroup(retained, incoming.group), Newer);
    assert incoming in Elements(newest);
    BeforeTheCut(newest, p.maxRecords, incoming, e);
    NewerIsLater(incoming, e);
  }

  lemma BeforeTheCut(newest: seq<Entry>, n: nat, x: Entry, e: Entry)
    requires Ordered(newest, Newer) && n <= |newest| && x in newest && x !in newest[n..] && e in newest[n..]
    ensures Newer(x, e)
  {
    hide Newer;
    assert newest == newest[..n] + newest[n..];
    var i :| 0 <= i < n && newest[i] == x;
    var j :| n <= j < |newest| && newest[j] == e;
    assert Newer(newest[i], newest[j]);
  }

  lemma NewerIsLater(x: Entry, e: Entry)
    requires Newer(x, e)
    ensures e.scanned <= x.scanned
  {
  }

  /** The pending records of the incoming record's key are later ones. */
  ghost predicate LaterOnly(pending: set<Entry>, incoming: Entry) {
    && UniqueIDs(pending)
    && forall x :: x in pending && x != incoming && x.group == incoming.group ==> x.scanned > incoming.scanned
  }

  ghost predicate Facts(p: Policy, live: set<Entry>, pending: set<Entry>, incoming: Entry, live2: set<Entry>, stored: Entry) {
    && incoming in pending && LaterOnly(pending, incoming) && UniqueIDs(live) && UniqueIDs(live2)
    && (forall x :: x in pending ==> SameIfThere(live, x))
    && stored.id == incoming.id && SameBytes(stored, incoming)
    && stored in live2 && live2 <= live + {stored} && (HasID(live, incoming.id) <==> stored in live)
    && (forall e :: e in live - live2 ==> OlderOfFullKey(p, live, pending, incoming, e))
  }

  lemma MissingAfter(p: Policy, live: set<Entry>, pending: set<Entry>, incoming: Entry, live2: set<Entry>, stored: Entry)
    requires Facts(p, live, pending, incoming, live2, stored)
    ensures Missing(live2, pending - {incoming}) == Missing(live, pending) - {incoming}
    ensures incoming in Missing(live, pending) <==> stored !in live
    ensures forall x :: x in pending - {incoming} ==> SameIfThere(live2, x)
  {
    hide Bounded;
    forall x | x in pending - {incoming}
      ensures HasID(live2, x.id) <==> HasID(live, x.id)
      ensures SameIfThere(live2, x)
    {
      assert SameIfThere(live, x);
      if y :| y in live && y.id == x.id {
        assert SameBytes(y, x);
        assert y !in live2 ==> OlderOfFullKey(p, live, pending, incoming, y);
        assert y in live2;
      }
    }
  }

  lemma BoundedAfter(
      p: Policy, live: set<Entry>, pending: set<Entry>, incoming: Entry, live2: set<Entry>, stored: Entry, h: string)
    requires Facts(p, live, pending, incoming, live2, stored) && Bounded(p, live, pending, h)
    ensures Bounded(p, live2, pending - {incoming}, h)
  {
    MissingAfter(p, live, pending, incoming, live2, stored);
    var missing, missing2 := Missing(live, pending), Missing(live2, pending - {incoming});
    hide Facts;
    FactsKeep(p, live, pending, incoming, live2, stored);
    if stored in live || h != incoming.group {
      assert OfGroup(live2, h) <= OfGroup(live, h);
      SubsetSize(OfGroup(live2, h), OfGroup(live, h));
      SubsetSize(OfGroup(missing2, h), OfGroup(missing, h));
    } else {
      assert OfGroup(live2, h) <= OfGroup(live, h) + {stored};
      SubsetSize(OfGroup(live2, h), OfGroup(live, h) + {stored});
      assert OfGroup(missing, h) == OfGroup(missing2, h) + {incoming};
    }
  }

  lemma FactsKeep(p: Policy, live: set<Entry>, pending: set<Entry>, incoming: Entry, live2: set<Entry>, stored: Entry)
    requires Facts(p, live, pending, incoming, live2, stored)
    ensures live2 <= live + {stored} && stored.group == incoming.group && stored.size == incoming.size
    ensures stored in live2
    ensures stored !in live && Room(p, live, pending) ==> live2 == live + {stored}
  {
    if stored !in live && Room(p, live, pending) {
      assert incoming in Missing(live, pending);
      assert Bounded(p, live, pending, incoming.group);
      forall e | e in live
        ensures e in live2
      {
        assert e !in live2 ==> OlderOfFullKey(p, live, pending, incoming, e);
      }
    }
  }

  /** Recording a pending record leaves room for the rest. */
  lemma RoomAfter(p: Policy, live: set<Entry>, pending: set<Entry>, incoming: Entry, live2: set<Entry>, stored: Entry)
    requires Facts(p, live, pending, incoming, live2, stored) && Room(p, live, pending)
    ensures Room(p, live2, pending - {incoming})
  {
    hide Bounded, Missing, Facts;
    MissingAfter(p, live, pending, incoming, live2, stored);
    FactsKeep(p, live, pending, incoming, live2, stored);
    var missing, missing2 := Missing(live, pending), Missing(live2, pending - {incoming});
    forall e | e in missing2
      ensures Bounded(p, live2, pending - {incoming}, e.group)
    {
      BoundedAfter(p, live, pending, incoming, live2, stored, e.group);
    }
    SizesAfter(live, missing, live2, missing2, incoming, stored);
  }

  /** Recording moves bytes from the pending records to the live ones, and may free some. */
  lemma SizesAfter(
      live: set<Entry>, missing: set<Entry>, live2: set<Entry>, missing2: set<Entry>, incoming: Entry, stored: Entry)
    requires (forall e :: e in live || e in missing ==> e.size >= 0) && stored.size == incoming.size
    requires missing2 == missing - {incoming} && (incoming in missing <==> stored !in live)
    requires live2 <= live + {stored} && (stored !in live ==> live2 == live + {stored})
    ensures SizeOf(live2) + SizeOf(missing2) <= SizeOf(live) + SizeOf(missing)
  {
    if stored in live {
      assert live2 <= live && missing2 == missing;
      SizeGrows(live2, live);
    } else {
      SizeTake(live2, stored);
      assert live2 - {stored} == live;
      SizeTake(missing, incoming);
    }
  }

  const OLDER := Entry("k/1", "k", 1, 1, 1, true, true, 1)

  const NEWER := Entry("k/2", "k", 2, 2, 1, true, true, 2)

  const ONE_PER_KEY := Policy(10, 1, 0)

  /** A destination with two records of one key under a limit of one, and a source that holds the newer
      of them: the batch preflight has no objection, and moving that record evicts the other one. */
  lemma EvictionExample()
    ensures Room(ONE_PER_KEY, Live(ONE_PER_KEY, {OLDER, NEWER}), {NEWER})
    ensures UniqueIDs({OLDER, NEWER}) && OLDER in Live(ONE_PER_KEY, {OLDER, NEWER})
    ensures RecordPlan(ONE_PER_KEY, {OLDER, NEWER}, NEWER, true).Ok?
    ensures OLDER.id in RecordPlan(ONE_PER_KEY, {OLDER, NEWER}, NEWER, true).value
  {
    hide RecordPlan, Room, Overflow;
    var s := {OLDER, NEWER};
    assert OLDER.id[2] != NEWER.id[2];
    assert Live(ONE_PER_KEY, s) == s;
    ExampleHasRoom(s);
    ExampleOverflow();
    assert Retained(ONE_PER_KEY, s, Some(NEWER)) == s;
    assert NEWER in s && HasID(s, NEWER.id);
    OverflowGoes(ONE_PER_KEY, s, NEWER, OLDER);
  }

  /** What is over the key's limit is planned for removal. */
  lemma OverflowGoes(p: Policy, s: set<Entry>, incoming: Entry, e: Entry)
    requires UniqueIDs(s) && (forall x :: x in s ==> x.safe) && HasID(s, incoming.id)
    requires 0 <= incoming.size <= p.maxBytes
    requires var over := Overflow(p, Retained(p, s, Some(incoming)), incoming.group); e in over && incoming !in over
    ensures RecordPlan(p, s, incoming, true).Ok? && e.id in RecordPlan(p, s, incoming, true).value
  {
    hide Overflow, Stale, Unkept, Retained, OfGroup;
    var over := Overflow(p, Retained(p, s, Some(incoming)), incoming.group);
    RetainedUnique(p, s, incoming);
    OverflowWithin(p, Retained(p, s, Some(incoming)), incoming.group);
    assert e.id in Tagged(over, PerKey);
  }

  lemma ExampleHasRoom(s: set<Entry>)
    requires s == {OLDER, NEWER}
    ensures Room(ONE_PER_KEY, s, {NEWER})
  {
    assert NEWER in s;
    assert Missing(s, {NEWER}) == {};
    SizeTake(s, OLDER);
    assert s - {OLDER} == {NEWER};
    SizeTake({NEWER}, NEWER);
    assert {NEWER} - {NEWER} == {};
  }

  lemma ExampleOverflow()
    ensures Overflow(ONE_PER_KEY, {OLDER, NEWER}, "k") == {OLDER}
  {
    var l := [NEWER, OLDER];
    NewerStrict();
    assert Newer(NEWER, OLDER);
    OrderedIsInOrder(l, Newer);
    assert Elements(l) == {OLDER, NEWER};
    assert OfGroup({OLDER, NEWER}, "k") == {OLDER, NEWER};
    assert l[1..] == [OLDER];
    assert Elements([OLDER]) == {OLDER};
  }
}
