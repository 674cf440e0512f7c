/** What every retention plan guarantees. */
module RetentionLaws {
  import opened Options
  import opened PathOrder
  import opened Ordering
  import opened Retention

  ghost function SizeOf(s: set<Entry>): int {
    if s == {} then 0 else SizeOf(s - {Pick(s)}) + Pick(s).size
  }

  lemma {:induction false} SizeTake(s: set<Entry>, x: Entry)
    requires x in s
    ensures SizeOf(s) == SizeOf(s - {x}) + x.size
  {
    var y := Pick(s);
    if x != y {
      SizeTake(s - {y}, x);
      SizeTake(s - {x}, y);
      assert s - {y} - {x} == s - {x} - {y};
    }
  }

  lemma {:induction false} SizeGrows(s: set<Entry>, t: set<Entry>)
    requires s <= t && forall e :: e in t - s ==> e.size >= 0
    ensures SizeOf(s) <= SizeOf(t)
    decreases t - s
  {
    assert t == s + (t - s);
    if t - s != {} {
      var x :| x in t - s;
      SizeTake(t, x);
      assert t - {x} - s == t - s - {x};
      SizeGrows(s, t - {x});
    } else {
      assert s + (t - s) == s;
    }
  }

  /** The entries of u that a filling took. */
  ghost function Taken(u: set<Entry>, from: Budget, b: Budget): set<Entry> {
    set e | e in u && e.id in b.kept && e.id !in from.kept
  }

  /** A filling spends exactly what it keeps and never more than the budget. */
  lemma {:induction false} FillSpends(max: int, from: Budget, order: seq<Entry>, u: set<Entry>)
    requires UniqueIDs(u) && (forall e :: e in order ==> e in u) && from.used <= max
    ensures var b := Fill(max, from, order);
      && b.used == from.used + SizeOf(Taken(u, from, b)) && from.used <= b.used <= max
      && from.kept <= b.kept && (forall e :: e in Taken(u, from, b) ==> e.size >= 0 && e in order)
      && (forall id :: id in b.kept ==> id in from.kept || exists e :: e in order && e.id == id)
  {
    if order == [] {
      assert Taken(u, from, from) == {};
    } else {
      var init, e := order[..|order| - 1], order[|order| - 1];
      assert order == init + [e];
      FillSpends(max, from, init, u);
      var b := Fill(max, from, init);
      var c := Admit(max, b, e);
      if c != b {
        assert Taken(u, from, c) == Taken(u, from, b) + {e};
        assert Taken(u, from, c) - {e} == Taken(u, from, b);
        SizeTake(Taken(u, from, c), e);
      }
    }
  }

  /** What a filling leaves out would not fit back afterwards. */
  lemma {:induction false} FillRejects(max: int, from: Budget, order: seq<Entry>, e: Entry)
    requires e in order
    ensures var b := Fill(max, from, order); e.id in b.kept || e.size < 0 || e.size > max - b.used
  {
    var init, last := order[..|order| - 1], order[|order| - 1];
    assert order == init + [last];
    if e in init {
      FillRejects(max, from, init, e);
    }
  }

  /** If everything fits together, a filling takes everything. */
  lemma {:induction false} FillTakesAll(max: int, from: Budget, order: seq<Entry>, u: set<Entry>)
    requires UniqueIDs(u) && (forall e :: e in order ==> e in u)
    requires forall e :: e in u ==> e.size >= 0
    requires from.used + SizeOf(set e | e in u && e.id !in from.kept) <= max
    ensures forall e :: e in order ==> e.id in Fill(max, from, order).kept
  {
    if order != [] {
      var init, e := order[..|order| - 1], order[|order| - 1];
      assert order == init + [e];
      FillTakesAll(max, from, init, u);
      var b := Fill(max, from, init);
      var all := set x | x in u && x.id !in from.kept;
      SizeGrows({}, all);
      FillSpends(max, from, init, u);
      if e.id !in b.kept {
        var taken := Taken(u, from, b);
        SizeGrows(taken + {e}, all);
        SizeTake(taken + {e}, e);
        assert taken + {e} - {e} == taken;
      }
      assert forall x :: x in init ==> x.id in Admit(max, b, e).kept;
    }
  }

  lemma {:induction false} FirstOfWithin(order: seq<Entry>, group: string)
    ensures forall e :: e in FirstOf(order, group) ==> e in order
  {
    if order != [] && order[0].group != group {
      FirstOfWithin(order[1..], group);
    }
  }

  lemma {:induction false} FirstsWithin(order: seq<Entry>, groups: seq<string>)
    ensures forall e :: e in FirstOfEach(order, groups) ==> e in order
  {
    if groups != [] {
      FirstsWithin(order, groups[..|groups| - 1]);
      FirstOfWithin(order, groups[|groups| - 1]);
    }
  }

  /** The queue holds the active entries and nothing else. */
  lemma QueueHolds(active: set<Entry>)
    requires UniqueIDs(active)
    ensures forall e :: e in Queue(active) <==> e in active
  {
    var order := InOrder(active, Newer);
    NewerStrict();
    NewerTotal(active);
    InOrderElements(active, Newer);
    var firsts := FirstOfEach(order, InOrder(Groups(active), Less));
    FirstsWithin(order, InOrder(Groups(active), Less));
    assert forall e :: e in Queue(active) <==> e in firsts || e in order;
    assert forall e :: e in order <==> e in Elements(order);
  }

  /** The active entries that a plan keeps. */
  ghost function Kept(p: Policy, active: set<Entry>, incoming: Option<Entry>): set<Entry> {
    set e | e in active && e.id in Spent(p, active, incoming).kept
  }

  /** The kept entries fit the quota together, and none of the others would fit back. */
  lemma KeptFits(p: Policy, active: set<Entry>, incoming: Option<Entry>)
    requires UniqueIDs(active) && p.maxBytes >= 0
    requires incoming.Some? ==> incoming.value in active && 0 <= incoming.value.size <= p.maxBytes
    ensures var kept := Kept(p, active, incoming);
      && SizeOf(kept) == Spent(p, active, incoming).used <= p.maxBytes
      && (incoming.Some? ==> incoming.value in kept) && (forall e :: e in kept ==> e.size >= 0)
      && (forall e :: e in active - kept ==> e.size < 0 || SizeOf(kept) + e.size > p.maxBytes)
  {
    hide Queue, Fill, Spent, InOrder;
    var from, b := Opening(incoming), Spent(p, active, incoming);
    QueueHolds(active);
    SpentIsFill(p, active, incoming);
    FillSpends(p.maxBytes, from, Queue(active), active);
    KeptIsTaken(p, active, incoming);
    forall e | e in active - Kept(p, active, incoming)
      ensures e.size < 0 || e.size > p.maxBytes - b.used
    {
      FillRejects(p.maxBytes, from, Queue(active), e);
    }
  }

  lemma KeptIsTaken(p: Policy, active: set<Entry>, incoming: Option<Entry>)
    requires UniqueIDs(active)
    requires incoming.Some? ==> incoming.value in active && incoming.value.id in Spent(p, active, incoming).kept
    ensures var kept, taken := Kept(p, active, incoming), Taken(active, Opening(incoming), Spent(p, active, incoming));
      && SizeOf(kept) == Opening(incoming).used + SizeOf(taken)
      && kept == taken + (if incoming.Some? then {incoming.value} else {})
  {
    hide Queue, Fill, Spent, InOrder;
    var kept, taken := Kept(p, active, incoming), Taken(active, Opening(incoming), Spent(p, active, incoming));
    if incoming.Some? {
      assert kept == taken + {incoming.value};
      SizeTake(kept, incoming.value);
      assert kept - {incoming.value} == taken;
    } else {
      assert kept == taken;
    }
  }

  lemma SpentIsFill(p: Policy, active: set<Entry>, incoming: Option<Entry>)
    ensures Spent(p, active, incoming) == Fill(p.maxBytes, Opening(incoming), Queue(active))
  {
  }

  /** Entries that fit the quota together are all kept. */
  lemma AllKept(p: Policy, active: set<Entry>, incoming: Option<Entry>)
    requires UniqueIDs(active) && (forall e :: e in active ==> e.size >= 0) && SizeOf(active) <= p.maxBytes
    requires incoming.Some? ==> incoming.value in active
    ensures Unkept(p, active, incoming) == {}
  {
    hide Queue, Fill, InOrder, Spent;
    QueueHolds(active);
    SpentIsFill(p, active, incoming);
    var rest := set e | e in active && e.id !in Opening(incoming).kept;
    if incoming.Some? {
      SizeTake(active, incoming.value);
      assert rest == active - {incoming.value};
    } else {
      assert rest == active;
    }
    FillTakesAll(p.maxBytes, Opening(incoming), Queue(active), active);
  }

  /** What a plan leaves of the entries it could remove, together with the incoming entry. */
  ghost function Left(s: set<Entry>, incoming: Entry, removals: Removals): set<Entry> {
    (set e | e in Rivals(s, Some(incoming)) && e.id !in removals) + {incoming}
  }

  ghost function ActiveFor(p: Policy, s: set<Entry>, incoming: Entry): set<Entry> {
    Retained(p, s, Some(incoming)) - Overflow(p, Retained(p, s, Some(incoming)), incoming.group)
  }

  /** The declared plan, entry by entry. */
  lemma RecordPlanSays(p: Policy, s: set<Entry>, incoming: Entry, present: bool)
    requires UniqueIDs(s) && RecordPlan(p, s, incoming, present).Ok?
    ensures var r, active := RecordPlan(p, s, incoming, present).value, ActiveFor(p, s, incoming);
      && UniqueIDs(active) && incoming in active && 0 <= incoming.size <= p.maxBytes
      && incoming.id !in r
      && Left(s, incoming, r) == Kept(p, active, Some(incoming))
      && (forall e :: e in s && e.id in r ==> e in Rivals(s, Some(incoming)))
      && (forall e :: e in s && e.id in r && r[e.id] == Quota ==> e in active - Kept(p, active, Some(incoming)))
      && (forall e :: e in s && e.id in r && r[e.id] == PerKey ==>
          e in Overflow(p, Retained(p, s, Some(incoming)), incoming.group))
  {
    hide Queue, Fill, InOrder, Overflow, Spent, RecordPlan, Stale, Tagged;
    var active := ActiveFor(p, s, incoming);
    RecordPlanParts(p, s, incoming, present);
    KeptFits(p, active, Some(incoming));
    var r := RecordPlan(p, s, incoming, present).value;
    forall e | e in s || e == incoming
      ensures e in Rivals(s, Some(incoming)) ==> (e.id !in r <==> e in Kept(p, active, Some(incoming)))
      ensures e !in Rivals(s, Some(incoming)) ==> e.id !in r
      ensures e.id in r && r[e.id] == Quota ==> e in active - Kept(p, active, Some(incoming))
      ensures e.id in r && r[e.id] == PerKey ==> e in Overflow(p, Retained(p, s, Some(incoming)), incoming.group)
    {
      PlanAt(p, s, incoming, present, e);
    }
  }

  lemma RecordPlanParts(p: Policy, s: set<Entry>, incoming: Entry, present: bool)
    requires UniqueIDs(s) && RecordPlan(p, s, incoming, present).Ok?
    ensures var over, active := Overflow(p, Retained(p, s, Some(incoming)), incoming.group), ActiveFor(p, s, incoming);
      && UniqueIDs(active) && incoming in active && 0 <= incoming.size <= p.maxBytes && !HasUnsafe(s, incoming.id)
      && UniqueIDs(over) && UniqueIDs(Unkept(p, active, Some(incoming))) && over <= Retained(p, s, Some(incoming))
      && RecordPlan(p, s, incoming, present).value
         == Stale(p, s, Some(incoming)) + Tagged(over, PerKey) + Tagged(Unkept(p, active, Some(incoming)), Quota)
  {
    RetainedUnique(p, s, incoming);
    OverflowWithin(p, Retained(p, s, Some(incoming)), incoming.group);
  }

  lemma TaggedAt(t: set<Entry>, all: set<Entry>, r: Reason, e: Entry)
    requires UniqueIDs(all) && t <= all && e in all
    ensures UniqueIDs(t) && (e.id in Tagged(t, r) <==> e in t) && (e in t ==> Tagged(t, r)[e.id] == r)
  {
  }

  lemma StaleAt(p: Policy, s: set<Entry>, incoming: Option<Entry>, e: Entry)
    requires UniqueIDs(s) && (e in s || (incoming.Some? && e == incoming.value))
    ensures e.id in Stale(p, s, incoming) <==> e in Rivals(s, incoming) && !Current(p, e)
    ensures e.id in Stale(p, s, incoming) ==> Stale(p, s, incoming)[e.id] in {Invalid, Ttl}
  {
  }

  lemma PlanAt(p: Policy, s: set<Entry>, incoming: Entry, present: bool, e: Entry)
    requires UniqueIDs(s) && RecordPlan(p, s, incoming, present).Ok? && (e in s || e == incoming)
    ensures var r, active := RecordPlan(p, s, incoming, present).value, ActiveFor(p, s, incoming);
      && (e in Rivals(s, Some(incoming)) ==> (e.id !in r <==> e in Kept(p, active, Some(incoming))))
      && (e !in Rivals(s, Some(incoming)) ==> e.id !in r)
      && (e.id in r && r[e.id] == Quota ==> e in active - Kept(p, active, Some(incoming)))
      && (e.id in r && r[e.id] == PerKey ==> e in Overflow(p, Retained(p, s, Some(incoming)), incoming.group))
  {
    hide Queue, Fill, InOrder, Overflow, Spent, RecordPlan, Stale, Tagged, Current;
    RecordPlanParts(p, s, incoming, present);
    StaleAt(p, s, Some(incoming), e);
    var over, active := Overflow(p, Retained(p, s, Some(incoming)), incoming.group), ActiveFor(p, s, incoming);
    KeptFits(p, active, Some(incoming));
    if e in Rivals(s, Some(incoming)) {
      var all := Rivals(s, Some(incoming)) + {incoming};
      TaggedAt(over, all, PerKey, e);
      TaggedAt(Unkept(p, active, Some(incoming)), all, Quota, e);
    } else {
      OthersUntouched(p, s, incoming, e);
    }
  }

  /** Unsafe entries and whatever stands at the incoming entry's id are never selected. */
  lemma OthersUntouched(p: Policy, s: set<Entry>, incoming: Entry, e: Entry)
    requires UniqueIDs(s) && (e in s || e == incoming) && e !in Rivals(s, Some(incoming))
    requires UniqueIDs(Overflow(p, Retained(p, s, Some(incoming)), incoming.group))
    requires Overflow(p, Retained(p, s, Some(incoming)), incoming.group) <= Retained(p, s, Some(incoming))
    requires incoming in ActiveFor(p, s, incoming) && UniqueIDs(Unkept(p, ActiveFor(p, s, incoming), Some(incoming)))
    requires incoming.id in Spent(p, ActiveFor(p, s, incoming), Some(incoming)).kept
    ensures e.id !in Tagged(Overflow(p, Retained(p, s, Some(incoming)), incoming.group), PerKey)
    ensures e.id !in Tagged(Unkept(p, ActiveFor(p, s, incoming), Some(incoming)), Quota)
  {
    hide Queue, Fill, InOrder, Overflow, Spent;
  }

  // What callers rely on.

  ghost predicate AtMost(s: set<Entry>, n: nat) {
    |s| <= n
  }

  /** Beyond the overflow at most maxRecords entries of the key remain. */
  lemma OverflowBounds(p: Policy, retained: set<Entry>, group: string)
    requires UniqueIDs(retained)
    ensures |OfGroup(retained - Overflow(p, retained, group), group)| <= p.maxRecords
    ensures forall e :: e in Overflow(p, retained, group) ==>
      e.group == group && |set x | x in OfGroup(retained, group) && Newer(x, e)| >= p.maxRecords
  {
    NewestOfGroup(retained, group);
    var newest := InOrder(OfGroup(retained, group), Newer);
    hide InOrder, Newer;
    var rest := OfGroup(retained - Overflow(p, retained, group), group);
    if |newest| <= p.maxRecords {
      SubsetSize(rest, OfGroup(retained, group));
    } else {
      OverflowCut(p.maxRecords, newest, rest);
      forall e | e in Overflow(p, retained, group)
        ensures e.group == group && |set x | x in OfGroup(retained, group) && Newer(x, e)| >= p.maxRecords
      {
        assert e in newest[p.maxRecords..];
        var i :| p.maxRecords <= i < |newest| && newest[i] == e;
        assert e in Elements(newest);
        EarlierAreNewer(newest, i, p.maxRecords);
        SubsetSize(Elements(newest[..p.maxRecords]), set x | x in OfGroup(retained, group) && Newer(x, e));
      }
    }
  }

  lemma OverflowCut(n: nat, newest: seq<Entry>, rest: set<Entry>)
    requires n < |newest| && rest <= Elements(newest) && rest !! Elements(newest[n..])
    ensures |rest| <= n
  {
    assert newest == newest[..n] + newest[n..];
    assert forall x :: x in newest <==> x in newest[..n] || x in newest[n..];
    SubsetSize(rest, Elements(newest[..n]));
    ElementsCount(newest[..n]);
  }

  lemma EarlierAreNewer(newest: seq<Entry>, i: nat, n: nat)
    requires Ordered(newest, Newer) && n <= i < |newest|
    ensures |Elements(newest[..n])| == n
    ensures forall x :: x in Elements(newest[..n]) ==> x in Elements(newest) && Newer(x, newest[i])
  {
    NewerStrict();
    hide Newer;
    ElementsCount(newest[..n]);
    forall x | x in Elements(newest[..n])
      ensures x in Elements(newest) && Newer(x, newest[i])
    {
      var j :| 0 <= j < n && newest[j] == x;
    }
  }

  /** Whenever a reservation succeeds: the incoming entry and every unsafe entry stay; what is left fits
      the byte quota and, for the incoming entry's key, the record limit; nothing removed for the quota
      would fit back; and what the record limit removed has maxRecords newer entries of its key. */
  lemma ReservationLaws(p: Policy, s: set<Entry>, incoming: Entry, present: bool)
    requires UniqueIDs(s) && RecordPlan(p, s, incoming, present).Ok?
    ensures var r := RecordPlan(p, s, incoming, present).value; var left := Left(s, incoming, r);
      && incoming.id !in r && (forall e :: e in s && !e.safe ==> e.id !in r)
      && 0 <= SizeOf(left) <= p.maxBytes && (forall e :: e in left ==> e.size >= 0)
      && AtMost(OfGroup(left, incoming.group), p.maxRecords)
      && (forall e :: e in s && e.id in r && r[e.id] == Quota ==> e.size < 0 || SizeOf(left) + e.size > p.maxBytes)
      && (forall e :: e in s && e.id in r && r[e.id] == PerKey ==>
          e.group == incoming.group
          && |set x | x in OfGroup(Retained(p, s, Some(incoming)), e.group) && Newer(x, e)| >= p.maxRecords)
  {
    hide RecordPlan, Spent, Overflow, Newer, Kept;
    RecordPlanSays(p, s, incoming, present);
    var r, active := RecordPlan(p, s, incoming, present).value, ActiveFor(p, s, incoming);
    KeptFits(p, active, Some(incoming));
    KeptWithin(p, active, Some(incoming));
    RetainedUnique(p, s, incoming);
    OverflowBounds(p, Retained(p, s, Some(incoming)), incoming.group);
    SizeGrows({}, Left(s, incoming, r));
    SubsetSize(OfGroup(Left(s, incoming, r), incoming.group), OfGroup(active, incoming.group));
  }

  lemma KeptWithin(p: Policy, active: set<Entry>, incoming: Option<Entry>)
    ensures Kept(p, active, incoming) <= active
  {
  }

  /** The preflight predicts the enforcement: planning before publication and planning again with the
      published record in the listing come to the same result. */
  lemma PreflightPredicts(p: Policy, s: set<Entry>, incoming: Entry, stored: Entry)
    requires UniqueIDs(s) && !HasID(s, incoming.id) && stored.id == incoming.id && stored.safe
    ensures UniqueIDs(s + {stored})
    ensures RecordPlan(p, s + {stored}, incoming, true) == RecordPlan(p, s, incoming, false)
  {
    hide Queue, Fill, InOrder, Overflow, Spent;
    assert Rivals(s + {stored}, Some(incoming)) == Rivals(s, Some(incoming));
    assert stored in s + {stored};
    assert HasID(s + {stored}, incoming.id);
  }

  /** The store after a plan was carried out. */
  ghost function AfterRemovals(s: set<Entry>, r: Removals): set<Entry> {
    set e | e in s && e.id !in r
  }

  /** Planning again after the removals removes nothing. */
  lemma ReplanRemovesNothing(p: Policy, s: set<Entry>, incoming: Entry)
    requires UniqueIDs(s) && RecordPlan(p, s, incoming, true).Ok?
    ensures var after := AfterRemovals(s, RecordPlan(p, s, incoming, true).value);
      UniqueIDs(after) && RecordPlan(p, after, incoming, true) == Ok(map[])
  {
    hide Queue, Fill, InOrder, Overflow, Spent, Kept;
    var r := RecordPlan(p, s, incoming, true).value;
    var after := AfterRemovals(s, r);
    ReservationLaws(p, s, incoming, true);
    LeftAfter(p, s, incoming);
    var left := Left(s, incoming, r);
    SmallHasNoOverflow(p, left, incoming.group);
    assert left - {} == left;
    AllKept(p, left, Some(incoming));
    NothingStale(p, after, incoming);
    assert Tagged({}, PerKey) == map[] && Tagged({}, Quota) == map[];
  }

  lemma SmallHasNoOverflow(p: Policy, retained: set<Entry>, group: string)
    requires UniqueIDs(retained) && |OfGroup(retained, group)| <= p.maxRecords
    ensures Overflow(p, retained, group) == {}
  {
    NewestOfGroup(retained, group);
  }

  lemma NothingStale(p: Policy, after: set<Entry>, incoming: Entry)
    requires UniqueIDs(after) && forall e :: e in Rivals(after, Some(incoming)) ==> Current(p, e)
    ensures Stale(p, after, Some(incoming)) == map[]
  {
  }

  /** What is left of the rivals is current, and the listing still shows the incoming entry. */
  lemma LeftAfter(p: Policy, s: set<Entry>, incoming: Entry)
    requires UniqueIDs(s) && RecordPlan(p, s, incoming, true).Ok?
    ensures var r := RecordPlan(p, s, incoming, true).value; var after := AfterRemovals(s, r);
      && UniqueIDs(after) && HasID(after, incoming.id) && !HasUnsafe(after, incoming.id)
      && UniqueIDs(Left(s, incoming, r)) && 0 <= incoming.size <= p.maxBytes
      && (forall e :: e in Rivals(after, Some(incoming)) ==> Current(p, e))
      && Retained(p, after, Some(incoming)) == Left(s, incoming, r)
  {
    hide Queue, Fill, InOrder, Overflow, Spent;
    RecordPlanSays(p, s, incoming, true);
    RecordPlanParts(p, s, incoming, true);
    var r := RecordPlan(p, s, incoming, true).value;
    var after := AfterRemovals(s, r);
    var e :| e in s && e.id == incoming.id;
    assert e in after;
    forall x | x in Rivals(after, Some(incoming))
      ensures Current(p, x)
    {
      assert x in Left(s, incoming, r);
    }
  }

  /** After a record was published and the policy enforced, a global prune with the same clock selects
      nothing, exactly if the record itself is current: recording refuses expired snapshots first. */
  lemma PruneThenEmpty(p: Policy, s: set<Entry>, incoming: Entry, stored: Entry)
    requires UniqueIDs(s) && RecordPlan(p, s, incoming, true).Ok?
    requires stored in s && stored.id == incoming.id && stored.size == incoming.size
    ensures var after := AfterRemovals(s, RecordPlan(p, s, incoming, true).value);
      && UniqueIDs(after)
      && (PrunePlan(p, after, None) == Ok(map[]) <==> Current(p, stored))
  {
    hide Queue, Fill, InOrder, Overflow, Spent, Kept;
    var r := RecordPlan(p, s, incoming, true).value;
    var after := AfterRemovals(s, r);
    ReservationLaws(p, s, incoming, true);
    LeftAfter(p, s, incoming);
    var left := Left(s, incoming, r);
    assert stored in after && stored in Rivals(after, None);
    if Current(p, stored) {
      var all := Retained(p, after, None);
      assert all == left - {incoming} + {stored};
      SizeTake(left, incoming);
      SizeTake(all, stored);
      assert all - {stored} == left - {incoming};
      AllKept(p, all, None);
      assert Stale(p, after, None) == map[];
      assert Tagged({}, Quota) == map[];
    } else {
      assert stored.id in Stale(p, after, None);
    }
  }

  ghost function LeftByPrune(s: set<Entry>, incoming: Option<Entry>, removals: Removals): set<Entry> {
    (set e | e in Rivals(s, incoming) && e.id !in removals) + (if incoming.Some? then {incoming.value} else {})
  }

  /** The cache planner guarantees the same, apart from the per-key limit. */
  lemma PruneLaws(p: Policy, s: set<Entry>, incoming: Option<Entry>)
    requires UniqueIDs(s) && PrunePlan(p, s, incoming).Ok? && p.maxBytes >= 0
    ensures var r := PrunePlan(p, s, incoming).value; var left := LeftByPrune(s, incoming, r);
      && (incoming.Some? ==> incoming.value.id !in r) && (forall e :: e in s && !e.safe ==> e.id !in r)
      && SizeOf(left) <= p.maxBytes && (forall e :: e in left ==> e.size >= 0)
      && (forall e :: e in s && e.id in r && r[e.id] == Quota ==> e.size < 0 || SizeOf(left) + e.size > p.maxBytes)
  {
    hide Queue, Fill, InOrder, Spent;
    var active := Retained(p, s, incoming);
    KeptFits(p, active, incoming);
    var r := PrunePlan(p, s, incoming).value;
    forall e | e in s || (incoming.Some? && e == incoming.value)
      ensures e in Rivals(s, incoming) ==> (e.id !in r <==> e in Kept(p, active, incoming))
      ensures e !in Rivals(s, incoming) ==> e.id !in r
      ensures e.id in r && r[e.id] == Quota ==> e in active - Kept(p, active, incoming)
    {
      PruneAt(p, s, incoming, e);
    }
    assert LeftByPrune(s, incoming, r) == Kept(p, active, incoming);
  }

  lemma PruneAt(p: Policy, s: set<Entry>, incoming: Option<Entry>, e: Entry)
    requires UniqueIDs(s) && PrunePlan(p, s, incoming).Ok? && p.maxBytes >= 0
    requires e in s || (incoming.Some? && e == incoming.value)
    ensures var r, active := PrunePlan(p, s, incoming).value, Retained(p, s, incoming);
      && (e in Rivals(s, incoming) ==> (e.id !in r <==> e in Kept(p, active, incoming)))
      && (e !in Rivals(s, incoming) ==> e.id !in r)
      && (e.id in r && r[e.id] == Quota ==> e in active - Kept(p, active, incoming))
  {
    hide Queue, Fill, InOrder, Spent, Current, Stale, Tagged;
    var active := Retained(p, s, incoming);
    KeptFits(p, active, incoming);
    StaleAt(p, s, incoming, e);
    var all := Rivals(s, incoming) + (if incoming.Some? then {incoming.value} else {});
    if e in Rivals(s, incoming) {
      TaggedAt(Unkept(p, active, incoming), all, Quota, e);
    } else {
      UntouchedByPrune(p, s, incoming, e);
    }
  }

  lemma UntouchedByPrune(p: Policy, s: set<Entry>, incoming: Option<Entry>, e: Entry)
    requires UniqueIDs(s) && e !in Rivals(s, incoming) && (e in s || (incoming.Some? && e == incoming.value))
    requires UniqueIDs(Unkept(p, Retained(p, s, incoming), incoming))
    requires incoming.Some? ==> !HasUnsafe(s, incoming.value.id)
    requires incoming.Some? ==> incoming.value.id in Spent(p, Retained(p, s, incoming), incoming).kept
    ensures e.id !in Tagged(Unkept(p, Retained(p, s, incoming), incoming), Quota)
  {
    hide Queue, Fill, InOrder, Spent;
  }
}
