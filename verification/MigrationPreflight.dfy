/** The batch preflight of a migration decides whether everything will fit. */
module MigrationPreflight {
  import opened Ordering
  import opened Retention
  import opened RetentionLaws
  import opened SnapshotStore
  import opened Migration

  /** What the loops have added up: bytes, ids and records per key of live and of new entries. */
  ghost predicate Counted(
    p: Policy, live: set<Entry>, added: set<Entry>, used: int, identities: set<string>, perKey: map<string, nat>)
  {
    && used == SizeOf(live) + SizeOf(added) && 0 <= used <= p.maxBytes
    && (forall e :: e in live || e in added ==> e.size >= 0)
    && (forall id :: id in identities <==> HasID(live, id) || HasID(added, id))
    && (forall g :: KeyCount(perKey, g) == |OfGroup(live, g)| + |OfGroup(added, g)|)
  }

  function KeyCount(perKey: map<string, nat>, g: string): nat {
    if g in perKey then perKey[g] else 0
  }

  ghost predicate KeysFit(p: Policy, live: set<Entry>, added: set<Entry>) {
    forall e :: e in added ==> |OfGroup(live, e.group)| + |OfGroup(added, e.group)| <= p.maxRecords
  }

  lemma OfGroupInsert(s: set<Entry>, e: Entry, g: string)
    requires e !in s
    ensures |OfGroup(s + {e}, g)| == |OfGroup(s, g)| + if e.group == g then 1 else 0
  {
    if e.group == g {
      assert OfGroup(s + {e}, g) == OfGroup(s, g) + {e};
    } else {
      assert OfGroup(s + {e}, g) == OfGroup(s, g);
    }
  }

  lemma SizeInsert(s: set<Entry>, e: Entry)
    requires e !in s
    ensures SizeOf(s + {e}) == SizeOf(s) + e.size
  {
    SizeTake(s + {e}, e);
    assert s + {e} - {e} == s;
  }

  /** One more live entry. */
  lemma CountLive(
      p: Policy, live: set<Entry>, used: int, identities: set<string>, perKey: map<string, nat>, e: Entry)
    requires Counted(p, live, {}, used, identities, perKey) && e !in live && e.size >= 0 && e.size <= p.maxBytes - used
    ensures Counted(p, live + {e}, {}, used + e.size, identities + {e.id}, perKey[e.group := KeyCount(perKey, e.group) + 1])
  {
    SizeInsert(live, e);
    forall g
      ensures |OfGroup(live + {e}, g)| == |OfGroup(live, g)| + if e.group == g then 1 else 0
    {
      OfGroupInsert(live, e, g);
    }
    forall id
      ensures HasID(live + {e}, id) <==> HasID(live, id) || id == e.id
    {
      assert e in live + {e};
    }
  }

  /** One more new entry. */
  lemma CountNew(
      p: Policy, live: set<Entry>, added: set<Entry>, used: int, identities: set<string>, perKey: map<string, nat>, e: Entry)
    requires Counted(p, live, added, used, identities, perKey) && e !in added && e.size >= 0 && e.size <= p.maxBytes - used
    ensures Counted(p, live, added + {e}, used + e.size, identities + {e.id}, perKey[e.group := KeyCount(perKey, e.group) + 1])
  {
    SizeInsert(added, e);
    forall g
      ensures |OfGroup(added + {e}, g)| == |OfGroup(added, g)| + if e.group == g then 1 else 0
    {
      OfGroupInsert(added, e, g);
    }
    forall id
      ensures HasID(added + {e}, id) <==> HasID(added, id) || id == e.id
    {
      assert e in added + {e};
    }
  }

  lemma KeysFitMore(p: Policy, live: set<Entry>, added: set<Entry>, e: Entry)
    requires KeysFit(p, live, added) && e !in added
    requires |OfGroup(live, e.group)| + |OfGroup(added, e.group)| < p.maxRecords
    ensures KeysFit(p, live, added + {e})
  {
    forall x | x in added + {e}
      ensures |OfGroup(live, x.group)| + |OfGroup(added + {e}, x.group)| <= p.maxRecords
    {
      OfGroupInsert(added, e, x.group);
    }
  }

  /** The new entries of a prefix of the source listing. */
  ghost function NewOnes(live: set<Entry>, source: seq<Entry>, i: nat): set<Entry>
    requires i <= |source|
  {
    Missing(live, ValidOf(Elements(source[..i])))
  }

  lemma NewOneMore(live: set<Entry>, source: seq<Entry>, i: nat)
    requires DistinctIDs(source) && i < |source|
    ensures var e := source[i];
      && NewOnes(live, source, i + 1)
         == (if e.valid && !HasID(live, e.id) then NewOnes(live, source, i) + {e} else NewOnes(live, source, i))
      && e !in NewOnes(live, source, i) && !HasID(NewOnes(live, source, i), e.id)
      && NewOnes(live, source, i + 1) <= NewOnes(live, source, |source|)
      && ValidOf(Elements(source[..i + 1]))
         == (if e.valid then ValidOf(Elements(source[..i])) + {e} else ValidOf(Elements(source[..i])))
  {
    var e := source[i];
    assert source[..i + 1] == source[..i] + [e];
    assert Elements(source[..i + 1]) == Elements(source[..i]) + {e};
    assert source[..|source|] == source;
    forall x | x in Elements(source[..i + 1])
      ensures x in Elements(source)
    {
    }
    forall x | x in Elements(source[..i])
      ensures x.id != e.id
    {
    }
  }

  /** With an entry that breaks the limit of its key there is no room for the batch. */
  lemma NoRoomForKey(p: Policy, live: set<Entry>, pending: set<Entry>, added: set<Entry>, e: Entry)
    requires e in added && added <= Missing(live, pending)
    requires |OfGroup(live, e.group)| + |OfGroup(added, e.group)| > p.maxRecords
    ensures !Room(p, live, pending)
  {
    SubsetSize(OfGroup(added, e.group), OfGroup(Missing(live, pending), e.group));
    assert !Bounded(p, live, pending, e.group);
  }

  lemma NoRoomForBytes(p: Policy, live: set<Entry>, pending: set<Entry>, some: set<Entry>, added: set<Entry>, e: Entry)
    requires some <= live && added <= Missing(live, pending) && (e in some || e in added)
    requires e.size < 0 || SizeOf(some) + SizeOf(added) > p.maxBytes
    ensures !Room(p, live, pending)
  {
    if forall x :: x in live || x in Missing(live, pending) ==> x.size >= 0 {
      SizeGrows(some, live);
      SizeGrows(added, Missing(live, pending));
    }
  }

  lemma RoomComplete(
      p: Policy, live: set<Entry>, pending: set<Entry>, used: int, identities: set<string>, perKey: map<string, nat>)
    requires Counted(p, live, Missing(live, pending), used, identities, perKey) && KeysFit(p, live, Missing(live, pending))
    ensures Room(p, live, pending)
  {
    var missing := Missing(live, pending);
    forall e | e in missing
      ensures Bounded(p, live, pending, e.group)
    {
      assert |OfGroup(live, e.group)| + |OfGroup(missing, e.group)| <= p.maxRecords;
    }
  }

  lemma LiveOneMore(p: Policy, destination: seq<Entry>, i: nat)
    requires DistinctIDs(destination) && i < |destination| && Sane(Elements(destination))
    ensures var e, live := destination[i], Live(p, Elements(destination[..i]));
      && Live(p, Elements(destination[..i + 1])) == (if e.valid && e.scanned >= p.cutoff then live + {e} else live)
      && e !in live && Live(p, Elements(destination[..i + 1])) <= Live(p, Elements(destination))
  {
    var e := destination[i];
    assert destination[..i + 1] == destination[..i] + [e];
    assert Elements(destination[..i + 1]) == Elements(destination[..i]) + {e};
    assert e in Elements(destination);
    forall x | x in Elements(destination[..i + 1])
      ensures x in Elements(destination)
    {
    }
  }

  lemma NothingCounted(p: Policy, destination: seq<Entry>)
    requires p.maxBytes >= 0
    ensures Live(p, Elements(destination[..0])) == {}
    ensures Counted(p, {}, {}, 0, {}, map[])
  {
    assert forall g :: OfGroup({}, g) == {};
  }

  /** The first loop of preflightMigrationBatch. */
  method CountDestination(p: Policy, destination: seq<Entry>)
    returns (ok: bool, used: int, identities: set<string>, perKey: map<string, nat>)
    requires DistinctIDs(destination) && Sane(Elements(destination)) && p.maxBytes >= 0
    ensures ok ==> Counted(p, Live(p, Elements(destination)), {}, used, identities, perKey)
    ensures !ok ==> forall pending :: !Room(p, Live(p, Elements(destination)), pending)
  {
    hide Counted, Room, Live;
    used, identities, perKey := 0, {}, map[];
    NothingCounted(p, destination);
    for i := 0 to |destination|
      invariant Counted(p, Live(p, Elements(destination[..i])), {}, used, identities, perKey)
    {
      var entry := destination[i];
      ghost var live := Live(p, Elements(destination[..i]));
      LiveOneMore(p, destination, i);
      if !entry.valid || entry.scanned < p.cutoff {
        continue;
      }
      if entry.size < 0 || entry.size > p.maxBytes - used {
        LiveTooBig(p, destination, i, used, identities, perKey);
        return false, used, identities, perKey;
      }
      CountLive(p, live, used, identities, perKey, entry);
      used := used + entry.size;
      identities := identities + {entry.id};
      perKey := perKey[entry.group := (if entry.group in perKey then perKey[entry.group] else 0) + 1];
    }
    assert destination[..|destination|] == destination;
    ok := true;
  }

  lemma LiveTooBig(
      p: Policy, destination: seq<Entry>, i: nat, used: int, identities: set<string>, perKey: map<string, nat>)
    requires DistinctIDs(destination) && i < |destination| && Sane(Elements(destination))
    requires Counted(p, Live(p, Elements(destination[..i])), {}, used, identities, perKey)
    requires var e := destination[i];
      e.valid && e.scanned >= p.cutoff && (e.size < 0 || e.size > p.maxBytes - used)
    ensures forall pending :: !Room(p, Live(p, Elements(destination)), pending)
  {
    hide Room, Live;
    LiveOneMore(p, destination, i);
    var e, live := destination[i], Live(p, Elements(destination[..i]));
    SizeInsert(live, e);
    forall pending
      ensures !Room(p, Live(p, Elements(destination)), pending)
    {
      NoRoomForBytes(p, Live(p, Elements(destination)), pending, live + {e}, {}, e);
    }
  }

  /** preflightMigrationBatch: it passes exactly if no record to come has expired and all of them fit
      beside what the destination keeps, in bytes and per key. */
  method PreflightMigrationBatch(p: Policy, destination: seq<Entry>, source: seq<Entry>) returns (ok: bool)
    requires DistinctIDs(destination) && DistinctIDs(source) && p.maxBytes >= 0
    requires Sane(Elements(destination)) && Sane(Elements(source))
    ensures ok <==>
      AllCurrent(p, ValidOf(Elements(source))) && Room(p, Live(p, Elements(destination)), ValidOf(Elements(source)))
  {
    hide Room, Counted, Live, KeysFit, Missing, UpTo, AllCurrent, ValidOf;
    ghost var live := Live(p, Elements(destination));
    var counted: bool, used: int, identities: set<string>, perKey: map<string, nat> := CountDestination(p, destination);
    if !counted {
      return false;
    }
    NothingYet(p, live, source, used, identities, perKey);
    for i := 0 to |source|
      invariant UpTo(p, live, source, i, used, identities, perKey)
    {
      var entry := source[i];
      if !entry.valid {
        SkipOne(p, live, source, i, used, identities, perKey);
        continue;
      }
      if entry.scanned < p.cutoff {
        ExpiredOne(p, source, i);
        return false;
      }
      if entry.id in identities {
        SkipOne(p, live, source, i, used, identities, perKey);
        continue;
      }
      var count := if entry.group in perKey then perKey[entry.group] else 0;
      if count >= p.maxRecords || entry.size < 0 || entry.size > p.maxBytes - used {
        TooMuch(p, live, source, i, used, identities, perKey);
        return false;
      }
      CountOne(p, live, source, i, used, identities, perKey);
      used := used + entry.size;
      perKey := perKey[entry.group := count + 1];
      identities := identities + {entry.id};
    }
    AllCounted(p, live, source, used, identities, perKey);
    return true;
  }

  ghost predicate AllCurrent(p: Policy, s: set<Entry>) {
    forall e :: e in s ==> Current(p, e)
  }

  /** Everything up to i is counted, current, and within the limits. */
  ghost predicate UpTo(
    p: Policy, live: set<Entry>, source: seq<Entry>, i: nat, used: int, identities: set<string>, perKey: map<string, nat>)
    requires i <= |source|
  {
    && AllCurrent(p, ValidOf(Elements(source[..i])))
    && Counted(p, live, NewOnes(live, source, i), used, identities, perKey)
    && KeysFit(p, live, NewOnes(live, source, i))
  }

  lemma NothingYet(
      p: Policy, live: set<Entry>, source: seq<Entry>, used: int, identities: set<string>, perKey: map<string, nat>)
    requires Counted(p, live, {}, used, identities, perKey)
    ensures UpTo(p, live, source, 0, used, identities, perKey)
  {
    hide Counted, KeysFit;
    NothingNew(p, live, source);
  }

  /** An entry that is no valid record, or whose id is known, changes nothing. */
  lemma SkipOne(
      p: Policy, live: set<Entry>, source: seq<Entry>, i: nat, used: int, identities: set<string>, perKey: map<string, nat>)
    requires DistinctIDs(source) && Sane(Elements(source)) && i < |source|
    requires UpTo(p, live, source, i, used, identities, perKey)
    requires !source[i].valid || (source[i].scanned >= p.cutoff && source[i].id in identities)
    ensures UpTo(p, live, source, i + 1, used, identities, perKey)
  {
    hide Counted, KeysFit;
    NewOneMore(live, source, i);
    if source[i].valid {
      IsCurrent(p, source, i);
      Identified(p, live, NewOnes(live, source, i), used, identities, perKey, source[i]);
    }
  }

  lemma IsCurrent(p: Policy, source: seq<Entry>, i: nat)
    requires i < |source| && Sane(Elements(source)) && source[i].valid
    ensures Current(p, source[i]) <==> source[i].scanned >= p.cutoff
    ensures source[i] in ValidOf(Elements(source))
  {
    assert source[i] in Elements(source);
  }

  lemma ExpiredOne(p: Policy, source: seq<Entry>, i: nat)
    requires i < |source| && Sane(Elements(source)) && source[i].valid && source[i].scanned < p.cutoff
    ensures !AllCurrent(p, ValidOf(Elements(source)))
  {
    IsCurrent(p, source, i);
  }

  /** A new record that exceeds a limit leaves no room for the batch. */
  lemma TooMuch(
      p: Policy, live: set<Entry>, source: seq<Entry>, i: nat, used: int, identities: set<string>, perKey: map<string, nat>)
    requires DistinctIDs(source) && i < |source| && UpTo(p, live, source, i, used, identities, perKey)
    requires source[i].valid && source[i].id !in identities
    requires KeyCount(perKey, source[i].group) >= p.maxRecords || source[i].size < 0 || source[i].size > p.maxBytes - used
    ensures !Room(p, live, ValidOf(Elements(source)))
  {
    hide Counted, KeysFit, Room;
    var e, added, pending := source[i], NewOnes(live, source, i), ValidOf(Elements(source));
    NewOneMore(live, source, i);
    NothingNew(p, live, source);
    Identified(p, live, added, used, identities, perKey, e);
    hide Missing, ValidOf;
    if KeyCount(perKey, e.group) >= p.maxRecords {
      OfGroupInsert(added, e, e.group);
      NoRoomForKey(p, live, pending, added + {e}, e);
    } else {
      SizeInsert(added, e);
      NoRoomForBytes(p, live, pending, live, added + {e}, e);
    }
  }

  lemma CountOne(
      p: Policy, live: set<Entry>, source: seq<Entry>, i: nat, used: int, identities: set<string>, perKey: map<string, nat>)
    requires DistinctIDs(source) && Sane(Elements(source)) && i < |source|
    requires UpTo(p, live, source, i, used, identities, perKey)
    requires source[i].valid && source[i].scanned >= p.cutoff && source[i].id !in identities
    requires KeyCount(perKey, source[i].group) < p.maxRecords && 0 <= source[i].size <= p.maxBytes - used
    ensures var e := source[i];
      UpTo(p, live, source, i + 1, used + e.size, identities + {e.id}, perKey[e.group := KeyCount(perKey, e.group) + 1])
  {
    hide Counted, KeysFit, AllCurrent, NewOnes, ValidOf, KeyCount, DistinctIDs, Sane, OfGroup;
    CurrentMore(p, source, i);
    CountedMore(p, live, source, i, used, identities, perKey);
  }

  lemma CurrentMore(p: Policy, source: seq<Entry>, i: nat)
    requires DistinctIDs(source) && Sane(Elements(source)) && i < |source|
    requires AllCurrent(p, ValidOf(Elements(source[..i])))
    requires source[i].valid && source[i].scanned >= p.cutoff
    ensures AllCurrent(p, ValidOf(Elements(source[..i + 1])))
  {
    hide NewOnes, DistinctIDs, ValidOf;
    NewOneMore({}, source, i);
    IsCurrent(p, source, i);
  }

  lemma CountedMore(
      p: Policy, live: set<Entry>, source: seq<Entry>, i: nat, used: int, identities: set<string>, perKey: map<string, nat>)
    requires DistinctIDs(source) && i < |source|
    requires Counted(p, live, NewOnes(live, source, i), used, identities, perKey)
    requires KeysFit(p, live, NewOnes(live, source, i))
    requires source[i].valid && source[i].id !in identities
    requires KeyCount(perKey, source[i].group) < p.maxRecords && 0 <= source[i].size <= p.maxBytes - used
    ensures var e, added := source[i], NewOnes(live, source, i + 1);
      && Counted(p, live, added, used + e.size, identities + {e.id}, perKey[e.group := KeyCount(perKey, e.group) + 1])
      && KeysFit(p, live, added)
  {
    hide Counted, KeysFit, NewOnes, ValidOf, KeyCount, DistinctIDs, OfGroup, HasID;
    var e, added := source[i], NewOnes(live, source, i);
    NewOneMore(live, source, i);
    Identified(p, live, added, used, identities, perKey, e);
    CountNew(p, live, added, used, identities, perKey, e);
    KeysFitMore(p, live, added, e);
  }

  lemma AllCounted(
      p: Policy, live: set<Entry>, source: seq<Entry>, used: int, identities: set<string>, perKey: map<string, nat>)
    requires UpTo(p, live, source, |source|, used, identities, perKey)
    ensures AllCurrent(p, ValidOf(Elements(source))) && Room(p, live, ValidOf(Elements(source)))
  {
    hide Counted, KeysFit, Room;
    assert source[..|source|] == source;
    NothingNew(p, live, source);
    RoomComplete(p, live, ValidOf(Elements(source)), used, identities, perKey);
  }

  lemma NothingNew(p: Policy, live: set<Entry>, source: seq<Entry>)
    ensures NewOnes(live, source, 0) == {} && KeysFit(p, live, {})
    ensures NewOnes(live, source, |source|) == Missing(live, ValidOf(Elements(source)))
    ensures ValidOf(Elements(source[..0])) == {}
  {
    assert source[..|source|] == source;
  }

  lemma Identified(
      p: Policy, live: set<Entry>, added: set<Entry>, used: int, identities: set<string>, perKey: map<string, nat>, e: Entry)
    requires Counted(p, live, added, used, identities, perKey) && !HasID(added, e.id)
    ensures e.id in identities <==> HasID(live, e.id)
    ensures used == SizeOf(live) + SizeOf(added)
    ensures KeyCount(perKey, e.group) == |OfGroup(live, e.group)| + |OfGroup(added, e.group)|
  {
  }
}
