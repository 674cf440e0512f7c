/** The snapshot stores at work: planners that loop over listings, and removals that may stop halfway. */
module SnapshotStore {
  import opened Options
  import opened PathOrder
  import opened Ordering
  import opened Retention
  import opened RetentionLaws

  ghost predicate DistinctIDs(l: seq<Entry>) {
    forall i, j :: 0 <= i < j < |l| ==> l[i].id != l[j].id
  }

  lemma DistinctUnique(l: seq<Entry>)
    requires DistinctIDs(l)
    ensures UniqueIDs(Elements(l)) && forall i, j :: 0 <= i < j < |l| ==> l[i] != l[j]
  {
  }

  /** sort.Slice, newest first: with distinct ids the comparison leaves one result. */
  method SortNewest(l: seq<Entry>) returns (r: seq<Entry>)
    requires UniqueIDs(Elements(l)) && forall i, j :: 0 <= i < j < |l| ==> l[i] != l[j]
    ensures r == InOrder(Elements(l), Newer) && Elements(r) == Elements(l) && Ordered(r, Newer)
  {
    NewerStrict();
    NewerTotal(Elements(l));
    SortIsInOrder(l, Newer);
    r := Sort(l, Newer);
    SortElements(l, Newer);
  }

  class SnapshotStore {
    const policy: Policy
    /** The store's files by id. */
    var files: map<string, Entry>

    ghost predicate Valid()
      reads this
    {
      forall id :: id in files ==> files[id].id == id
    }

    constructor (policy: Policy)
      ensures this.policy == policy && files == map[] && Valid()
    {
      this.policy, files := policy, map[];
    }

    /** The admission loops that every planner ends with: the newest entry of each group first, groups by
        name, then everything, newest first. What does not fit is removed for the quota. */
    method AdmitAll(active: seq<Entry>, incoming: Option<Entry>, planned: Removals) returns (remove: Removals)
      requires DistinctIDs(active) && active == InOrder(Elements(active), Newer)
      ensures UniqueIDs(Elements(active)) && UniqueIDs(Unkept(policy, Elements(active), incoming))
      ensures remove == planned + Tagged(Unkept(policy, Elements(active), incoming), Quota)
    {
      hide InOrder, Newer, Less, Fill;
      ghost var all := Elements(active);
      DistinctUnique(active);
      var b := if incoming.Some? then Budget(incoming.value.size, {incoming.value.id}) else Budget(0, {});
      var groups;
      b, groups := AdmitFirsts(active, b);
      QueueIs(all, active, groups);
      b, remove := AdmitRest(active, b, Opening(incoming), FirstOfEach(active, groups), planned);
      assert Rejected(active, b) == Unkept(policy, all, incoming);
    }

    /** The first admission loop. */
    method AdmitFirsts(active: seq<Entry>, from: Budget) returns (b: Budget, groups: seq<string>)
      ensures groups == InOrder(Groups(Elements(active)), Less)
      ensures b == Fill(policy.maxBytes, from, FirstOfEach(active, groups))
    {
      hide InOrder, Less, Fill, FirstOf, FirstOfEach, Groups;
      b := from;
      var firstByGroup := FirstByGroup(active);
      groups := SortedGroups(firstByGroup.Keys);
      FirstsOfAll(active, firstByGroup, groups);
      FillNone(policy.maxBytes, from, active, groups);
      for i := 0 to |groups|
        invariant b == Fill(policy.maxBytes, from, FirstOfEach(active, groups[..i]))
      {
        var entry := firstByGroup[groups[i]];
        FirstOfOneMore(active, groups, i);
        FillOneMore(policy.maxBytes, from, FirstOfEach(active, groups[..i]), entry);
        if entry.id !in b.kept && entry.size >= 0 && entry.size <= policy.maxBytes - b.used {
          b := Budget(b.used + entry.size, b.kept + {entry.id});
        }
      }
      assert groups[..|groups|] == groups;
    }

    /** The second admission loop. */
    method AdmitRest(active: seq<Entry>, start: Budget, ghost from: Budget, ghost firsts: seq<Entry>, planned: Removals)
      returns (b: Budget, remove: Removals)
      requires DistinctIDs(active) && start == Fill(policy.maxBytes, from, firsts)
      ensures b == Fill(policy.maxBytes, from, firsts + active)
      ensures UniqueIDs(Rejected(active, b)) && remove == planned + Tagged(Rejected(active, b), Quota)
    {
      hide Fill, Tagged;
      b, remove := start, planned;
      assert firsts + active[..0] == firsts;
      NoneRejected(active, b, planned);
      for i := 0 to |active|
        invariant b == Fill(policy.maxBytes, from, firsts + active[..i])
        invariant UniqueIDs(Rejected(active[..i], b)) && remove == planned + Tagged(Rejected(active[..i], b), Quota)
      {
        assert firsts + active[..i + 1] == firsts + active[..i] + [active[i]];
        FillOneMore(policy.maxBytes, from, firsts + active[..i], active[i]);
        var entry := active[i];
        ghost var before := b;
        if entry.id !in b.kept {
          if entry.size < 0 || entry.size > policy.maxBytes - b.used {
            remove := remove[entry.id := Quota];
          } else {
            b := Budget(b.used + entry.size, b.kept + {entry.id});
          }
        }
        RejectedOneMore(active, i, before, b, planned);
      }
      assert active[..|active|] == active;
    }

    /** The listing: every file, in some order. */
    method ListEntries() returns (entries: seq<Entry>)
      requires Valid()
      ensures DistinctIDs(entries) && Elements(entries) == Contents(files)
    {
      var rest := files.Keys;
      entries := [];
      while rest != {}
        invariant rest <= files.Keys && DistinctIDs(entries)
        invariant Elements(entries) == (set id | id in files && id !in rest :: files[id])
        decreases rest
      {
        var id :| id in rest;
        ListOneMore(files, entries, rest, id);
        entries := entries + [files[id]];
        rest := rest - {id};
      }
    }

    /** applyRemovals: one file after the other, until one cannot be removed. */
    method ApplyRemovals(entries: seq<Entry>, remove: Removals) returns (ok: bool, ghost calm: bool)
      requires Valid() && Elements(entries) == Contents(files)
      modifies this`files
      ensures Valid() && files.Keys <= old(files).Keys && (forall id :: id in files ==> files[id] == old(files)[id])
      ensures forall id :: id in old(files) && id !in files ==> id in remove
      ensures ok ==> forall id :: id in files ==> id !in remove
      ensures calm ==> ok
    {
      ghost var start := files;
      for i := 0 to |entries|
        invariant Valid() && files.Keys <= start.Keys && forall id :: id in files ==> files[id] == start[id]
        invariant forall id :: id in start && id !in files ==> id in remove
        invariant forall id :: id in files && id in remove ==> forall j :: 0 <= j < i ==> entries[j].id != id
      {
        var cancelled: bool := *;
        if cancelled { return false, false; }
        var entry := entries[i];
        if entry.id !in remove { continue; }
        var gone: bool := *;
        var failed: bool := *;
        if gone {
          files := files - {entry.id};
        }
        if failed || !gone { return false, false; }
      }
      forall id | id in files
        ensures id !in remove
      {
        assert files[id] in Contents(start);
        assert files[id] in Elements(entries);
        var j :| 0 <= j < |entries| && entries[j] == files[id];
      }
      return true, true;
    }

    /** RecordSnapshotContext: preflight, publish, enforce. Any step may fail; calm says that none did. */
    method Record(incoming: Entry) returns (ok: bool, ghost calm: bool)
      requires Valid() && incoming.safe && incoming.valid && incoming.scanned > 0
      modifies this`files
      ensures Valid()
      ensures ok ==> incoming.id in files && SameBytes(files[incoming.id], incoming)
      ensures ok ==> files[incoming.id].payload == incoming.payload && files[incoming.id].size == incoming.size
      ensures forall id :: id in files && id in old(files) ==> files[id] == old(files)[id]
      ensures forall id :: id in files && id !in old(files) ==> id == incoming.id && Publishes(files[id], incoming)
      ensures forall id :: id in old(files) && id !in files ==>
        && incoming.id in files && UniqueIDs(Contents(old(files))) && Current(policy, incoming)
        && var plan := RecordPlan(policy, Contents(old(files)), incoming, incoming.id in old(files));
           plan.Ok? && id in plan.value
      ensures ok ==>
        && UniqueIDs(Contents(old(files))) && Current(policy, incoming)
        && var plan := RecordPlan(policy, Contents(old(files)), incoming, incoming.id in old(files));
           plan.Ok? && forall id :: id in files ==> id !in plan.value
      ensures calm ==> (ok <==> CanRecord(policy, old(files), incoming)) && (ok || files == old(files))
    {
      hide RecordPlan;
      ghost var start := files;
      ContentsUnique(files);
      if Age(incoming) < policy.cutoff { return false, true; }
      var alreadyExists := incoming.id in files;
      if alreadyExists && !SameBytes(files[incoming.id], incoming) { return false, true; }
      var entries := ListEntries();
      HasIDIsKey(files, incoming.id);
      var plan := RecordReservationPlan(entries, incoming, alreadyExists);
      if plan.Err? { return false, true; }
      if !alreadyExists {
        var written: bool := *;
        if !written { return false, false; }
        var modified: nat := *;
        files := files[incoming.id := incoming.(modified := modified)];
        ContentsGrow(start, incoming.(modified := modified));
        PreflightPredicts(policy, Contents(start), incoming, incoming.(modified := modified));
      }
      entries := ListEntries();
      var remove := RecordReservationPlan(entries, incoming, true);
      if remove.Err? { return false, true; }
      IncomingStays(policy, Contents(files), incoming);
      ok, calm := ApplyRemovals(entries, remove.value);
    }

    /** LoadContext: the file is there and decodes as a valid record. */
    method Load(id: string) returns (ok: bool, ghost calm: bool)
      ensures ok ==> id in files && files[id].valid
      ensures calm ==> (ok <==> id in files && files[id].valid)
    {
      ok := *;
      calm := ok;
      ok := ok && id in files && files[id].valid;
    }

    /** removeHistoryEntry: an error does not say that the file is still there. */
    method RemoveEntry(id: string) returns (ok: bool, ghost calm: bool)
      requires id in files && Valid()
      modifies this`files
      ensures Valid() && (files == old(files) || files == old(files) - {id})
      ensures (ok ==> id !in files) && (calm ==> ok)
    {
      ok := *;
      calm := ok;
      var gone: bool := *;
      if ok || gone {
        files := files - {id};
      }
    }

    /** preflightMigration for one record: it has not expired, an existing record of its id is the same,
        and neither its key's limit nor the quota would reject it at once. read says whether an existing record of its
        id could be read back. */
    method PreflightMigration(e: Entry) returns (ok: bool, read: bool, ghost calm: bool)
      requires Valid() && policy.maxRecords > 0 && policy.maxBytes >= 0
      ensures HasRecord(Contents(files), e) ==> e.id in files
      ensures HasRecord(Contents(files), e) ==>
        (ok <==> e.scanned > 0 && e.scanned >= policy.cutoff && read && SameBytes(files[e.id], e))
      ensures !HasRecord(Contents(files), e) ==> (ok <==> Admissible(policy, Contents(files), e))
      ensures calm ==> (ok <==> PassesAlone(policy, files, e))
    {
      hide KeyRecords, Unexpired, HasRecord, QuotaKept, InOrder, Contents, UniqueIDs;
      ContentsUnique(files);
      RecordIsFile(files, e);
      if e.scanned == 0 || e.scanned < policy.cutoff { return false, false, true; }
      var entries := ListEntries();
      var records := RecordsOfKey(entries, e.group);
      var found, same, loaded, quiet := CompareExisting(records, e);
      if found { return same, loaded, quiet; }
      KeyOrdered(Contents(files), records, e.group);
      AsNew(KeyRecords(Contents(files), e.group), records, e, policy.maxRecords);
      if |records| >= policy.maxRecords && !(e.scanned > records[policy.maxRecords - 1].scanned) { return false, false, true; }
      var fits, used := QuotaUsed(entries);
      return fits && e.size <= policy.maxBytes - used, false, true;
    }

    /** The loop over the records of e's key, for one of e's id. */
    method CompareExisting(records: seq<Entry>, e: Entry)
      returns (found: bool, same: bool, loaded: bool, ghost calm: bool)
      requires Valid() && Elements(records) == KeyRecords(Contents(files), e.group)
      ensures found <==> HasRecord(Contents(files), e)
      ensures found ==> e.id in files && (same <==> loaded && SameBytes(files[e.id], e)) && (calm ==> loaded)
    {
      hide KeyRecords, HasRecord;
      for i := 0 to |records|
        invariant forall j :: 0 <= j < i ==> records[j].id != e.id
      {
        if records[i].id == e.id {
          loaded, calm := Load(e.id);
          ListedHere(files, records, i, e);
          ListedValid(files, records, i, e);
          return true, loaded && SameBytes(records[i], e), loaded, calm;
        }
      }
      NotListed(Contents(files), records, e);
      return false, false, false, true;
    }

    /** The records of one key, newest first. */
    method RecordsOfKey(entries: seq<Entry>, group: string) returns (records: seq<Entry>)
      requires DistinctIDs(entries)
      ensures records == InOrder(KeyRecords(Elements(entries), group), Newer)
      ensures Elements(records) == KeyRecords(Elements(entries), group)
    {
      records := [];
      for i := 0 to |entries|
        invariant DistinctIDs(records) && Elements(records) == KeyRecords(Elements(entries[..i]), group)
      {
        assert entries[..i + 1] == entries[..i] + [entries[i]];
        if entries[i].valid && entries[i].group == group {
          forall x | x in records
            ensures x.id != entries[i].id
          {
            assert x in Elements(records);
            var j :| 0 <= j < i && entries[j] == x;
          }
          assert Elements(records + [entries[i]]) == Elements(records) + {entries[i]};
          records := records + [entries[i]];
        }
        assert Elements(entries[..i + 1]) == Elements(entries[..i]) + {entries[i]};
      }
      assert entries[..|entries|] == entries;
      DistinctUnique(records);
      records := SortNewest(records);
    }

    /** The loop over the whole store: the bytes of what has not expired. */
    method QuotaUsed(entries: seq<Entry>) returns (fits: bool, used: int)
      requires DistinctIDs(entries) && policy.maxBytes >= 0
      ensures fits <==> QuotaKept(policy, Elements(entries))
      ensures fits ==> used == SizeOf(Unexpired(policy, Elements(entries)))
    {
      hide Unexpired;
      used := 0;
      NoneUnexpired(policy);
      for i := 0 to |entries|
        invariant QuotaKept(policy, Elements(entries[..i])) && used == SizeOf(Unexpired(policy, Elements(entries[..i])))
      {
        OneMoreUnexpired(policy, entries, i);
        if !entries[i].valid || entries[i].scanned < policy.cutoff { continue; }
        if entries[i].size < 0 || entries[i].size > policy.maxBytes - used { return false, used; }
        used := used + entries[i].size;
      }
      assert entries[..|entries|] == entries;
      return true, used;
    }

    /** recordReservationPlan. */
    method RecordReservationPlan(entries: seq<Entry>, incoming: Entry, alreadyExists: bool)
      returns (r: Result<Removals, PlanError>)
      requires DistinctIDs(entries)
      ensures UniqueIDs(Elements(entries)) && r == RecordPlan(policy, Elements(entries), incoming, alreadyExists)
    {
      hide InOrder, Newer, Unkept, Stale, Tagged, Overflow;
      DistinctUnique(entries);
      if incoming.size < 0 || incoming.size > policy.maxBytes {
        return Err(ExceedsQuota);
      }
      var remove, retained :- SiftRecord(entries, incoming, alreadyExists);
      DistinctUnique(retained);
      ghost var over := Overflow(policy, Elements(retained), incoming.group);
      OverflowWithin(policy, Elements(retained), incoming.group);
      var incomingRetained;
      incomingRetained, remove := TrimKey(retained, incoming, remove);
      if !incomingRetained {
        return Err(NotRetainable);
      }
      var active := Unremoved(retained, remove);
      ActiveIs(policy, Elements(entries), incoming, retained, active, remove);
      DistinctUnique(active);
      active := SortNewest(active);
      OrderedDistinct(active);
      remove := AdmitAll(active, Some(incoming), remove);
      return Ok(remove);
    }

    /** The first loop of recordReservationPlan, over the listing. */
    method SiftRecord(entries: seq<Entry>, incoming: Entry, alreadyExists: bool)
      returns (r: Result<Removals, PlanError>, retained: seq<Entry>)
      requires DistinctIDs(entries)
      ensures UniqueIDs(Elements(entries))
      ensures r.Err? <==> HasUnsafe(Elements(entries), incoming.id) || HasID(Elements(entries), incoming.id) != alreadyExists
      ensures r.Err? ==> r.error == if HasUnsafe(Elements(entries), incoming.id) then UnsafeDestination else Changed
      ensures r.Ok? ==> r.value == Stale(policy, Elements(entries), Some(incoming))
      ensures r.Ok? ==> DistinctIDs(retained) && Elements(retained) == Retained(policy, Elements(entries), Some(incoming))
    {
      hide Stale;
      DistinctUnique(entries);
      var remove: Removals := map[];
      retained := [];
      var foundExisting := false;
      NothingSifted(policy, entries, Some(incoming));
      for i := 0 to |entries|
        invariant UniqueIDs(Elements(entries[..i])) && remove == Stale(policy, Elements(entries[..i]), Some(incoming))
        invariant DistinctIDs(retained)
        invariant Elements(retained) == Sifted(policy, Elements(entries[..i]), Some(incoming), foundExisting)
        invariant foundExisting <==> HasID(Elements(entries[..i]), incoming.id)
        invariant foundExisting ==> alreadyExists
        invariant !HasUnsafe(Elements(entries[..i]), incoming.id)
      {
        var entry := entries[i];
        SiftOneMore(policy, entries, Some(incoming), foundExisting, i);
        if entry.id == incoming.id {
          InListing(entries, incoming.id, i);
          if !entry.safe {
            return Err(UnsafeDestination), [];
          }
          if alreadyExists {
            SiftAppend(retained, incoming);
            retained := retained + [incoming];
            foundExisting := true;
            continue;
          }
          return Err(Changed), [];
        }
        if !entry.safe {
          continue;
        }
        var ageTime := entry.scanned;
        if ageTime == 0 {
          ageTime := entry.modified;
        }
        if !entry.valid {
          remove := remove[entry.id := Invalid];
        } else if ageTime < policy.cutoff {
          remove := remove[entry.id := Ttl];
        } else {
          SiftAppend(retained, entry);
          retained := retained + [entry];
        }
      }
      assert entries[..|entries|] == entries;
      if alreadyExists && !foundExisting {
        return Err(Changed), [];
      }
      if !alreadyExists {
        SiftAppend(retained, incoming);
        retained := retained + [incoming];
      }
      return Ok(remove), retained;
    }

    /** The per-key limit: everything beyond the newest maxRecords of the incoming entry's key goes. */
    method TrimKey(retained: seq<Entry>, incoming: Entry, planned: Removals)
      returns (incomingRetained: bool, remove: Removals)
      requires DistinctIDs(retained) && incoming in retained
      ensures UniqueIDs(Elements(retained)) && UniqueIDs(Overflow(policy, Elements(retained), incoming.group))
      ensures incomingRetained <==> incoming !in Overflow(policy, Elements(retained), incoming.group)
      ensures incomingRetained ==>
        remove == planned + Tagged(Overflow(policy, Elements(retained), incoming.group), PerKey)

    {
      hide InOrder, Newer, Tagged;
      DistinctUnique(retained);
      var sameKey: seq<Entry> := [];
      for i := 0 to |retained|
        invariant DistinctIDs(sameKey) && Elements(sameKey) == OfGroup(Elements(retained[..i]), incoming.group)
      {
        assert retained[..i + 1] == retained[..i] + [retained[i]];
        assert Elements(retained[..i + 1]) == Elements(retained[..i]) + {retained[i]};
        if retained[i].group == incoming.group {
          KeyAppend(retained, i, sameKey);
          sameKey := sameKey + [retained[i]];
        }
      }
      assert retained[..|retained|] == retained;
      assert incoming in Elements(retained);
      assert incoming in Elements(sameKey);
      DistinctUnique(sameKey);
      sameKey := SortNewest(sameKey);
      assert incoming in Elements(sameKey);
      OrderedDistinct(sameKey);
      incomingRetained, remove := TrimSorted(sameKey, incoming, planned);
    }

    /** The loop over the sorted entries of the key. */
    method TrimSorted(sameKey: seq<Entry>, incoming: Entry, planned: Removals)
      returns (incomingRetained: bool, remove: Removals)
      requires DistinctIDs(sameKey) && incoming in sameKey
      ensures var over := if |sameKey| <= policy.maxRecords then {} else Elements(sameKey[policy.maxRecords..]);
        && UniqueIDs(over) && (incomingRetained <==> incoming !in over)
        && (incomingRetained ==> remove == planned + Tagged(over, PerKey))
    {
      hide Tagged;
      incomingRetained, remove := false, planned;
      NothingTagged(planned);
      assert BeyondLimit(policy, sameKey, 0) - {incoming} == {};
      for i := 0 to |sameKey|
        invariant incomingRetained <==> incoming in sameKey[..(if i < policy.maxRecords then i else policy.maxRecords)]
        invariant UniqueIDs(BeyondLimit(policy, sameKey, i) - {incoming})
        invariant remove == planned + Tagged(BeyondLimit(policy, sameKey, i) - {incoming}, PerKey)
      {
        var entry := sameKey[i];
        BeyondOneMore(policy, sameKey, i);
        if i < policy.maxRecords {
          if entry.id == incoming.id {
            incomingRetained := true;
          }
          continue;
        }
        BeyondTagged(policy, sameKey, i, incoming, planned);
        if entry.id != incoming.id {
          remove := remove[entry.id := PerKey];
        }
      }
      TrimDone(policy, sameKey, incoming, incomingRetained);
    }

    /** The entries that are not marked for removal yet. */
    method Unremoved(retained: seq<Entry>, remove: Removals) returns (active: seq<Entry>)
      requires DistinctIDs(retained)
      ensures DistinctIDs(active) && forall e :: e in active <==> e in retained && e.id !in remove
    {
      active := [];
      for i := 0 to |retained|
        invariant DistinctIDs(active) && forall e :: e in active <==> e in retained[..i] && e.id !in remove
      {
        assert retained[..i + 1] == retained[..i] + [retained[i]];
        if retained[i].id !in remove {
          active := active + [retained[i]];
        }
      }
      assert retained[..|retained|] == retained;
    }

    /** prunePlan of the cache; without an incoming entry, also the global prune of the history. */
    method PrunePlan(entries: seq<Entry>, incoming: Option<Entry>) returns (r: Result<Removals, PlanError>)
      requires DistinctIDs(entries)
      ensures UniqueIDs(Elements(entries)) && r == Retention.PrunePlan(policy, Elements(entries), incoming)
    {
      hide InOrder, Newer, Unkept, Stale, Tagged;
      DistinctUnique(entries);
      var remove, retained, foundIncoming :- SiftPrune(entries, incoming);
      if incoming.Some? {
        if incoming.value.size < 0 || incoming.value.size > policy.maxBytes {
          return Err(ExceedsQuota);
        }
        if !foundIncoming {
          return Err(Changed);
        }
      }
      DistinctUnique(retained);
      var active := SortNewest(retained);
      OrderedDistinct(active);
      remove := AdmitAll(active, incoming, remove);
      return Ok(remove);
    }

    /** The first loop of prunePlan, over the listing. */
    method SiftPrune(entries: seq<Entry>, incoming: Option<Entry>)
      returns (r: Result<Removals, PlanError>, retained: seq<Entry>, foundIncoming: bool)
      requires DistinctIDs(entries)
      ensures UniqueIDs(Elements(entries))
      ensures r.Err? <==> incoming.Some? && HasUnsafe(Elements(entries), incoming.value.id)
      ensures r.Err? ==> r.error == UnsafeDestination
      ensures r.Ok? ==> r.value == Stale(policy, Elements(entries), incoming) && DistinctIDs(retained)
      ensures r.Ok? && incoming.Some? ==> (foundIncoming <==> HasID(Elements(entries), incoming.value.id))
      ensures r.Ok? && (incoming.Some? ==> foundIncoming) ==> Elements(retained) == Retained(policy, Elements(entries), incoming)
    {
      hide Stale;
      DistinctUnique(entries);
      var remove: Removals := map[];
      retained, foundIncoming := [], false;
      NothingSifted(policy, entries, incoming);
      for i := 0 to |entries|
        invariant UniqueIDs(Elements(entries[..i])) && remove == Stale(policy, Elements(entries[..i]), incoming)
        invariant DistinctIDs(retained)
        invariant Elements(retained) == Sifted(policy, Elements(entries[..i]), incoming, foundIncoming)
        invariant foundIncoming ==> incoming.Some?
        invariant incoming.Some? ==> (foundIncoming <==> HasID(Elements(entries[..i]), incoming.value.id))
        invariant incoming.Some? ==> !HasUnsafe(Elements(entries[..i]), incoming.value.id)
      {
        var entry := entries[i];
        SiftOneMore(policy, entries, incoming, foundIncoming, i);
        if incoming.Some? && entry.id == incoming.value.id {
          InListing(entries, incoming.value.id, i);
        }
        if !entry.safe {
          if incoming.Some? && entry.id == incoming.value.id {
            return Err(UnsafeDestination), [], false;
          }
          continue;
        }
        if incoming.Some? && entry.id == incoming.value.id {
          SiftAppend(retained, incoming.value);
          retained := retained + [incoming.value];
          foundIncoming := true;
          continue;
        }
        var ageTime := entry.scanned;
        if ageTime == 0 {
          ageTime := entry.modified;
        }
        if !entry.valid {
          remove := remove[entry.id := Invalid];
        } else if ageTime < policy.cutoff {
          remove := remove[entry.id := Ttl];
        } else {
          SiftAppend(retained, entry);
          retained := retained + [entry];
        }
      }
      assert entries[..|entries|] == entries;
      return Ok(remove), retained, foundIncoming;
    }

    /** The first loop over the sorted entries. */
    method FirstByGroup(active: seq<Entry>) returns (first: map<string, Entry>)
      ensures first.Keys == Groups(Elements(active))
      ensures forall g :: g in first ==> FirstOf(active, g) == [first[g]]
    {
      first := map[];
      for i := 0 to |active|
        invariant first.Keys == Groups(Elements(active[..i]))
        invariant forall g :: g in first ==> FirstOf(active[..i], g) == [first[g]]
        invariant forall g :: g !in first ==> FirstOf(active[..i], g) == []
      {
        assert active[..i + 1] == active[..i] + [active[i]];
        FirstOneMore(active[..i], active[i]);
        if active[i].group !in first {
          first := first[active[i].group := active[i]];
        }
      }
      assert active[..|active|] == active;
    }

    /** The keys of the map, whatever order its iteration has, and sort.Strings. */
    method SortedGroups(keys: set<string>) returns (groups: seq<string>)
      ensures groups == InOrder(keys, Less)
      ensures forall g :: g in groups <==> g in keys
    {
      var rest := keys;
      var l: seq<string> := [];
      while rest != {}
        invariant rest <= keys && Elements(l) == keys - rest
        invariant forall i, j :: 0 <= i < j < |l| ==> l[i] != l[j]
        decreases rest
      {
        var g :| g in rest;
        assert g !in Elements(l);
        assert Elements(l + [g]) == Elements(l) + {g};
        l := l + [g];
        rest := rest - {g};
      }
      assert Elements(l) == keys;
      LessStrict(keys);
      SortIsInOrder(l, Less);
      SortElements(l, Less);
      groups := Sort(l, Less);
      assert forall g :: g in l <==> g in Elements(l);
    }
  }

  lemma FillNone(max: int, from: Budget, active: seq<Entry>, groups: seq<string>)
    ensures Fill(max, from, FirstOfEach(active, groups[..0])) == from
  {
  }

  lemma FirstOfOneMore(active: seq<Entry>, groups: seq<string>, i: nat)
    requires i < |groups|
    ensures FirstOfEach(active, groups[..i + 1]) == FirstOfEach(active, groups[..i]) + FirstOf(active, groups[i])
  {
    assert groups[..i + 1][..i] == groups[..i];
  }

  lemma FillOneMore(max: int, from: Budget, order: seq<Entry>, e: Entry)
    ensures Fill(max, from, order + [e]) == Admit(max, Fill(max, from, order), e)
  {
    assert (order + [e])[..|order|] == order;
  }

  lemma {:induction false} FirstOneMore(l: seq<Entry>, e: Entry)
    ensures forall g :: FirstOf(l + [e], g) == if FirstOf(l, g) != [] then FirstOf(l, g) else if e.group == g then [e] else []
    ensures Groups(Elements(l + [e])) == Groups(Elements(l)) + {e.group}
  {
    assert Elements(l + [e]) == Elements(l) + {e};
    assert e in Elements(l + [e]);
    if l == [] {
      assert l + [e] == [e];
    } else {
      FirstOneMore(l[1..], e);
      assert (l + [e])[1..] == l[1..] + [e];
    }
  }

  lemma FirstsOfAll(active: seq<Entry>, first: map<string, Entry>, groups: seq<string>)
    requires forall g :: g in first ==> FirstOf(active, g) == [first[g]]
    requires forall g :: g in groups ==> g in first
    ensures forall i :: 0 <= i < |groups| ==> groups[i] in first && FirstOf(active, groups[i]) == [first[groups[i]]]
  {
  }

  lemma QueueIs(all: set<Entry>, active: seq<Entry>, groups: seq<string>)
    requires active == InOrder(all, Newer) && groups == InOrder(Groups(all), Less)
    ensures Queue(all) == FirstOfEach(active, groups) + active
  {
  }

  /** The entries of a prefix that the budget did not take. */
  ghost function Rejected(l: seq<Entry>, b: Budget): set<Entry> {
    set e | e in l && e.id !in b.kept
  }

  lemma NoneRejected(active: seq<Entry>, b: Budget, planned: Removals)
    ensures Rejected(active[..0], b) == {} && planned + Tagged({}, Quota) == planned
  {
  }

  lemma RejectedOneMore(active: seq<Entry>, i: nat, before: Budget, b: Budget, planned: Removals)
    requires i < |active| && DistinctIDs(active) && UniqueIDs(Rejected(active[..i], before))
    requires b == before || b.kept == before.kept + {active[i].id}
    ensures UniqueIDs(Rejected(active[..i + 1], b))
    ensures planned + Tagged(Rejected(active[..i + 1], b), Quota)
      == if active[i].id in b.kept then planned + Tagged(Rejected(active[..i], before), Quota)
         else (planned + Tagged(Rejected(active[..i], before), Quota))[active[i].id := Quota]
  {
    hide Tagged;
    var e := active[i];
    assert active[..i + 1] == active[..i] + [e];
    if e.id in b.kept {
      assert Rejected(active[..i + 1], b) == Rejected(active[..i], before);
    } else {
      assert Rejected(active[..i + 1], b) == Rejected(active[..i], before) + {e};
      TaggedOneMore(Rejected(active[..i], before), e, Quota, planned);
    }
  }

  lemma TaggedOneMore(t: set<Entry>, e: Entry, r: Reason, planned: Removals)
    requires UniqueIDs(t + {e})
    ensures UniqueIDs(t) && planned + Tagged(t + {e}, r) == (planned + Tagged(t, r))[e.id := r]
  {
    TaggedInsert(t, e, r);
    PlusUpdate(planned, Tagged(t, r), e.id, r);
  }

  lemma TaggedInsert(t: set<Entry>, e: Entry, r: Reason)
    requires UniqueIDs(t + {e})
    ensures UniqueIDs(t) && Tagged(t + {e}, r) == Tagged(t, r)[e.id := r]
  {
    hide Tagged;
    assert forall x, y :: x in t && y in t && x.id == y.id ==> x in t + {e} && y in t + {e} && x == y;
    TaggedIDs(t + {e}, r);
    TaggedIDs(t, r);
    HasOneMore(t, e);
    var a, b := Tagged(t + {e}, r), Tagged(t, r)[e.id := r];
    assert a.Keys == b.Keys;
  }

  lemma TaggedIDs(s: set<Entry>, r: Reason)
    requires UniqueIDs(s)
    ensures forall id :: id in Tagged(s, r) <==> HasID(s, id)
    ensures forall id :: id in Tagged(s, r) ==> Tagged(s, r)[id] == r
  {
  }

  lemma HasOneMore(t: set<Entry>, e: Entry)
    ensures forall id :: HasID(t + {e}, id) <==> HasID(t, id) || id == e.id
  {
    assert e in t + {e};
    forall id | HasID(t, id)
      ensures HasID(t + {e}, id)
    {
      var x :| x in t && x.id == id;
      assert x in t + {e};
    }
  }

  lemma PlusUpdate(m: Removals, n: Removals, k: string, r: Reason)
    ensures m + n[k := r] == (m + n)[k := r]
  {
  }

  predicate IsIncoming(incoming: Option<Entry>, e: Entry) {
    incoming.Some? && e.id == incoming.value.id
  }

  /** What the listing loop has retained of a prefix. */
  ghost function Sifted(p: Policy, s: set<Entry>, incoming: Option<Entry>, found: bool): set<Entry> {
    (set e | e in Rivals(s, incoming) && Current(p, e)) + (if found && incoming.Some? then {incoming.value} else {})
  }

  lemma NothingSifted(p: Policy, entries: seq<Entry>, incoming: Option<Entry>)
    ensures UniqueIDs(Elements(entries[..0])) && Stale(p, Elements(entries[..0]), incoming) == map[]
    ensures Sifted(p, Elements(entries[..0]), incoming, false) == {} && Elements<Entry>([]) == {}
  {
    assert Rivals(Elements(entries[..0]), incoming) == {};
  }

  lemma SiftOneMore(p: Policy, entries: seq<Entry>, incoming: Option<Entry>, found: bool, i: nat)
    requires DistinctIDs(entries) && i < |entries| && UniqueIDs(Elements(entries[..i]))
    ensures var s, t, e := Elements(entries[..i]), Elements(entries[..i + 1]), entries[i];
      && UniqueIDs(t)
      && (incoming.Some? ==> (HasID(t, incoming.value.id) <==> HasID(s, incoming.value.id) || e.id == incoming.value.id))
      && (incoming.Some? ==> (HasUnsafe(t, incoming.value.id) <==>
            HasUnsafe(s, incoming.value.id) || (e.id == incoming.value.id && !e.safe)))
      && Stale(p, t, incoming)
         == (if e.safe && !IsIncoming(incoming, e) && !Current(p, e)
             then Stale(p, s, incoming)[e.id := if e.valid then Ttl else Invalid]
             else Stale(p, s, incoming))
      && Sifted(p, t, incoming, found)
         == Sifted(p, s, incoming, found) + (if e.safe && !IsIncoming(incoming, e) && Current(p, e) then {e} else {})
      && (incoming.Some? ==> Sifted(p, t, incoming, true) == Sifted(p, t, incoming, found) + {incoming.value})
  {
    var s, t, e := Elements(entries[..i]), Elements(entries[..i + 1]), entries[i];
    assert entries[..i + 1] == entries[..i] + [e];
    assert t == s + {e};
    assert e in t;
    DistinctUnique(entries);
    StaleOneMore(p, s, t, incoming, e);
  }

  lemma StaleOneMore(p: Policy, s: set<Entry>, t: set<Entry>, incoming: Option<Entry>, e: Entry)
    requires t == s + {e} && UniqueIDs(t)
    ensures Stale(p, t, incoming)
         == if e.safe && !IsIncoming(incoming, e) && !Current(p, e)
            then Stale(p, s, incoming)[e.id := if e.valid then Ttl else Invalid]
            else Stale(p, s, incoming)
  {
    var rs, rt := Rivals(s, incoming), Rivals(t, incoming);
    assert rt == rs + (if e.safe && !IsIncoming(incoming, e) then {e} else {});
  }

  lemma InListing(entries: seq<Entry>, id: string, i: nat)
    requires DistinctIDs(entries) && i < |entries| && entries[i].id == id
    ensures HasID(Elements(entries), id)
    ensures HasUnsafe(Elements(entries), id) <==> !entries[i].safe
  {
    assert entries[i] in Elements(entries);
  }

  lemma SiftAppend(retained: seq<Entry>, e: Entry)
    ensures Elements(retained + [e]) == Elements(retained) + {e}
    ensures DistinctIDs(retained) && (forall x :: x in Elements(retained) ==> x.id != e.id) ==> DistinctIDs(retained + [e])
  {
    assert forall x :: x in retained ==> x in Elements(retained);
  }

  lemma KeyAppend(retained: seq<Entry>, i: nat, sameKey: seq<Entry>)
    requires DistinctIDs(retained) && i < |retained| && DistinctIDs(sameKey)
    requires Elements(sameKey) <= Elements(retained[..i])
    ensures DistinctIDs(sameKey + [retained[i]])
    ensures Elements(sameKey + [retained[i]]) == Elements(sameKey) + {retained[i]}
  {
    forall x | x in sameKey
      ensures x.id != retained[i].id
    {
      assert x in Elements(sameKey);
      assert x in retained[..i];
    }
  }

  lemma OrderedDistinct(l: seq<Entry>)
    requires Ordered(l, Newer) && UniqueIDs(Elements(l))
    ensures DistinctIDs(l)
  {
    NewerStrict();
    hide Newer;
    forall i, j | 0 <= i < j < |l|
      ensures l[i].id != l[j].id
    {
      assert l[i] in Elements(l) && l[j] in Elements(l);
      assert Newer(l[i], l[j]);
      assert !Newer(l[j], l[i]);
    }
  }

  ghost function BeyondLimit(p: Policy, sameKey: seq<Entry>, i: nat): set<Entry>
    requires i <= |sameKey|
  {
    if i <= p.maxRecords then {} else Elements(sameKey[p.maxRecords..i])
  }

  lemma NothingTagged(planned: Removals)
    ensures planned + Tagged({}, PerKey) == planned
  {
  }

  lemma BeyondOneMore(p: Policy, sameKey: seq<Entry>, i: nat)
    requires i < |sameKey|
    ensures BeyondLimit(p, sameKey, i + 1)
      == BeyondLimit(p, sameKey, i) + (if i < p.maxRecords then {} else {sameKey[i]})
    ensures i < p.maxRecords ==> sameKey[..i + 1] == sameKey[..i] + [sameKey[i]]
  {
    if i >= p.maxRecords {
      assert sameKey[p.maxRecords..i + 1] == sameKey[p.maxRecords..i] + [sameKey[i]];
    }
  }

  lemma BeyondTagged(p: Policy, sameKey: seq<Entry>, i: nat, incoming: Entry, planned: Removals)
    requires DistinctIDs(sameKey) && p.maxRecords <= i < |sameKey| && incoming in sameKey
    ensures var before, after := BeyondLimit(p, sameKey, i) - {incoming}, BeyondLimit(p, sameKey, i + 1) - {incoming};
      && UniqueIDs(before) && UniqueIDs(after)
      && planned + Tagged(after, PerKey)
         == if sameKey[i].id == incoming.id then planned + Tagged(before, PerKey)
            else (planned + Tagged(before, PerKey))[sameKey[i].id := PerKey]
  {
    hide Tagged;
    BeyondOneMore(p, sameKey, i);
    DistinctUnique(sameKey);
    var before, after := BeyondLimit(p, sameKey, i) - {incoming}, BeyondLimit(p, sameKey, i + 1) - {incoming};
    assert incoming in Elements(sameKey) && sameKey[i] in Elements(sameKey);
    assert BeyondLimit(p, sameKey, i + 1) <= Elements(sameKey);
    if sameKey[i].id == incoming.id {
      assert before == after;
    } else {
      assert after == before + {sameKey[i]};
      TaggedOneMore(before, sameKey[i], PerKey, planned);
    }
  }

  lemma TrimDone(p: Policy, sameKey: seq<Entry>, incoming: Entry, incomingRetained: bool)
    requires DistinctIDs(sameKey) && incoming in sameKey
    requires incomingRetained <==>
      incoming in sameKey[..(if |sameKey| < p.maxRecords then |sameKey| else p.maxRecords)]
    ensures var over := if |sameKey| <= p.maxRecords then {} else Elements(sameKey[p.maxRecords..]);
      && UniqueIDs(over) && over == BeyondLimit(p, sameKey, |sameKey|) && (incomingRetained <==> incoming !in over)
      && (incomingRetained ==> over - {incoming} == over)
  {
    if |sameKey| > p.maxRecords {
      assert sameKey[p.maxRecords..] == sameKey[p.maxRecords..|sameKey|];
      assert sameKey == sameKey[..p.maxRecords] + sameKey[p.maxRecords..];
      forall x | x in sameKey[..p.maxRecords]
        ensures x !in sameKey[p.maxRecords..]
      {
      }
    } else {
      assert sameKey[..|sameKey|] == sameKey;
    }
  }

  lemma ActiveIs(
      p: Policy, s: set<Entry>, incoming: Entry, retained: seq<Entry>, active: seq<Entry>, remove: Removals)
    requires UniqueIDs(s) && UniqueIDs(Elements(retained)) && Elements(retained) == Retained(p, s, Some(incoming))
    requires UniqueIDs(Overflow(p, Elements(retained), incoming.group))
    requires Overflow(p, Elements(retained), incoming.group) <= Elements(retained)
    requires remove == Stale(p, s, Some(incoming)) + Tagged(Overflow(p, Elements(retained), incoming.group), PerKey)
    requires forall e :: e in active <==> e in retained && e.id !in remove
    ensures Elements(active) == Retained(p, s, Some(incoming)) - Overflow(p, Elements(retained), incoming.group)
  {
    hide Overflow;
    var over := Overflow(p, Elements(retained), incoming.group);
    forall e | e in Elements(retained)
      ensures e.id in remove <==> e in over
    {
    }
    assert forall e :: e in retained <==> e in Elements(retained);
  }

  ghost function Contents(files: map<string, Entry>): set<Entry> {
    set id | id in files :: files[id]
  }

  lemma ContentsUnique(files: map<string, Entry>)
    requires forall id :: id in files ==> files[id].id == id
    ensures UniqueIDs(Contents(files))
  {
  }

  lemma HasIDIsKey(files: map<string, Entry>, id: string)
    requires forall x :: x in files ==> files[x].id == x
    ensures HasID(Contents(files), id) <==> id in files
  {
    if id in files {
      assert files[id] in Contents(files);
    }
  }

  lemma ListOneMore(files: map<string, Entry>, entries: seq<Entry>, rest: set<string>, id: string)
    requires (forall x :: x in files ==> files[x].id == x) && id in rest && rest <= files.Keys && DistinctIDs(entries)
    requires Elements(entries) == (set x | x in files && x !in rest :: files[x])
    ensures DistinctIDs(entries + [files[id]])
    ensures Elements(entries + [files[id]]) == (set x | x in files && x !in rest - {id} :: files[x])
  {
    SiftAppend(entries, files[id]);
  }

  lemma ContentsGrow(files: map<string, Entry>, e: Entry)
    requires e.id !in files
    ensures Contents(files[e.id := e]) == Contents(files) + {e}
  {
    var grown := files[e.id := e];
    assert grown[e.id] in Contents(grown);
    forall x | x in Contents(files)
      ensures x in Contents(grown)
    {
      var id :| id in files && files[id] == x;
      assert grown[id] == x;
    }
  }

  /** Two files with the same bytes decode to the same record. */
  predicate SameBytes(a: Entry, b: Entry) {
    a.payload == b.payload && a.size == b.size && a.group == b.group && a.scanned == b.scanned
  }

  /** The published file lists as the incoming entry, apart from the time it was written. */
  predicate Publishes(stored: Entry, incoming: Entry) {
    stored == incoming.(modified := stored.modified)
  }

  lemma IncomingStays(p: Policy, s: set<Entry>, incoming: Entry)
    requires UniqueIDs(s) && RecordPlan(p, s, incoming, true).Ok?
    ensures incoming.id !in RecordPlan(p, s, incoming, true).value
  {
    ReservationLaws(p, s, incoming, true);
  }

  /** The valid records of one key. */
  ghost function KeyRecords(s: set<Entry>, group: string): set<Entry> {
    set x | x in s && x.valid && x.group == group
  }

  /** A record of e's id is there already. */
  ghost predicate HasRecord(s: set<Entry>, e: Entry) {
    HasID(KeyRecords(s, e.group), e.id)
  }

  ghost function Unexpired(p: Policy, s: set<Entry>): set<Entry> {
    set x | x in s && x.valid && x.scanned >= p.cutoff
  }

  /** What has not expired fits the quota. */
  ghost predicate QuotaKept(p: Policy, s: set<Entry>) {
    (forall x :: x in Unexpired(p, s) ==> x.size >= 0) && SizeOf(Unexpired(p, s)) <= p.maxBytes
  }

  /** e's records that are at least as new. */
  ghost function AsNewAs(s: set<Entry>, e: Entry): set<Entry> {
    set x | x in s && x.scanned >= e.scanned
  }

  /** Neither age nor the limit of its key nor the quota would evict e at once. */
  ghost predicate Admissible(p: Policy, s: set<Entry>, e: Entry) {
    && e.scanned > 0 && e.scanned >= p.cutoff
    && |AsNewAs(KeyRecords(s, e.group), e)| < p.maxRecords
    && QuotaKept(p, s) && SizeOf(Unexpired(p, s)) + e.size <= p.maxBytes
  }

  lemma NoneUnexpired(p: Policy)
    requires p.maxBytes >= 0
    ensures Unexpired(p, Elements([])) == {} && QuotaKept(p, Elements([]))
  {
  }

  lemma OneMoreUnexpired(p: Policy, entries: seq<Entry>, i: nat)
    requires DistinctIDs(entries) && i < |entries| && QuotaKept(p, Elements(entries[..i]))
    ensures var e, seen, all := entries[i], Unexpired(p, Elements(entries[..i])), Unexpired(p, Elements(entries));
      var next := Unexpired(p, Elements(entries[..i + 1]));
      && (!e.valid || e.scanned < p.cutoff ==> next == seen)
      && (e.valid && e.scanned >= p.cutoff ==>
            && SizeOf(next) == SizeOf(seen) + e.size
            && (0 <= e.size <= p.maxBytes - SizeOf(seen) ==> QuotaKept(p, Elements(entries[..i + 1])))
            && (!(0 <= e.size <= p.maxBytes - SizeOf(seen)) ==> !QuotaKept(p, Elements(entries))))
  {
    var e, seen, all := entries[i], Unexpired(p, Elements(entries[..i])), Unexpired(p, Elements(entries));
    var next := Unexpired(p, Elements(entries[..i + 1]));
    assert entries[..i + 1] == entries[..i] + [e];
    if e.valid && e.scanned >= p.cutoff {
      assert e !in seen && next == seen + {e} && next - {e} == seen;
      SizeTake(next, e);
      assert e in Elements(entries) && e in all && next <= all;
      if forall x :: x in all ==> x.size >= 0 {
        SizeGrows(next, all);
      }
    } else {
      assert next == seen;
    }
  }

  lemma ListedValid(files: map<string, Entry>, records: seq<Entry>, i: nat, e: Entry)
    requires Elements(records) == KeyRecords(Contents(files), e.group) && i < |records|
    ensures records[i].valid
  {
    assert records[i] in Elements(records);
  }

  /** With every read working, the preflight of one record passes. */
  ghost predicate PassesAlone(p: Policy, files: map<string, Entry>, e: Entry) {
    if HasRecord(Contents(files), e) then
      e.scanned > 0 && e.scanned >= p.cutoff && e.id in files && SameBytes(files[e.id], e)
    else Admissible(p, Contents(files), e)
  }

  /** With every primitive working, a record is stored: it has not expired, a file of its id is the same record, and the
      plan for it succeeds. */
  ghost predicate CanRecord(p: Policy, files: map<string, Entry>, e: Entry) {
    && e.valid && !(Age(e) < p.cutoff)
    && (e.id in files ==> SameBytes(files[e.id], e))
    && UniqueIDs(Contents(files)) && RecordPlan(p, Contents(files), e, e.id in files).Ok?
  }

  lemma RecordIsFile(files: map<string, Entry>, e: Entry)
    requires forall id :: id in files ==> files[id].id == id
    ensures HasRecord(Contents(files), e) ==> e.id in files
  {
  }

  lemma ListedHere(files: map<string, Entry>, records: seq<Entry>, i: nat, e: Entry)
    requires (forall id :: id in files ==> files[id].id == id) && Elements(records) == KeyRecords(Contents(files), e.group)
    requires i < |records| && records[i].id == e.id
    ensures HasRecord(Contents(files), e) && e.id in files && files[e.id] == records[i]
  {
    assert records[i] in Elements(records);
  }

  lemma NotListed(s: set<Entry>, records: seq<Entry>, e: Entry)
    requires Elements(records) == KeyRecords(s, e.group) && forall j :: 0 <= j < |records| ==> records[j].id != e.id
    ensures !HasRecord(s, e)
  {
    forall x | x in KeyRecords(s, e.group)
      ensures x.id != e.id
    {
      assert x in Elements(records);
    }
  }

  lemma KeyOrdered(s: set<Entry>, records: seq<Entry>, group: string)
    requires UniqueIDs(s) && records == InOrder(KeyRecords(s, group), Newer)
    ensures Ordered(records, Newer) && forall i, j :: 0 <= i < j < |records| ==> records[i] != records[j]
  {
    NewerStrict();
    NewerTotal(KeyRecords(s, group));
    InOrderElements(KeyRecords(s, group), Newer);
    forall i, j | 0 <= i < j < |records|
      ensures records[i] != records[j]
    {
      assert Newer(records[i], records[j]);
      LessIrreflexive(records[i].id);
    }
  }

  lemma InOrderOfAge(records: seq<Entry>, i: nat, j: nat)
    requires Ordered(records, Newer) && i < |records| && j < |records|
    ensures i <= j ==> records[i].scanned >= records[j].scanned
  {
    assert i < j ==> Newer(records[i], records[j]);
  }

  /** The n-th newest record is as new as e exactly if n records are. */
  lemma AsNew(s: set<Entry>, records: seq<Entry>, e: Entry, n: nat)
    requires n > 0 && Elements(records) == s && Ordered(records, Newer)
    requires forall i, j :: 0 <= i < j < |records| ==> records[i] != records[j]
    ensures |AsNewAs(s, e)| >= n <==> |records| >= n && !(e.scanned > records[n - 1].scanned)
  {
    ElementsCount(records);
    SubsetSize(AsNewAs(s, e), s);
    if |records| >= n {
      var first, before := Elements(records[..n]), Elements(records[..n - 1]);
      ElementsCount(records[..n]);
      ElementsCount(records[..n - 1]);
      if e.scanned > records[n - 1].scanned {
        forall x | x in AsNewAs(s, e)
          ensures x in before
        {
          var i :| 0 <= i < |records| && records[i] == x;
          InOrderOfAge(records, n - 1, i);
          assert records[..n - 1][i] == x;
        }
        SubsetSize(AsNewAs(s, e), before);
      } else {
        forall x | x in first
          ensures x in AsNewAs(s, e)
        {
          var i :| 0 <= i < n && records[i] == x;
          InOrderOfAge(records, i, n - 1);
          assert x in Elements(records);
        }
        SubsetSize(first, AsNewAs(s, e));
      }
    }
  }
}
