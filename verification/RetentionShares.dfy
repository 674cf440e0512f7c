/** Which entries a retention plan removes, and why, read off the entries' fields. */
module RetentionShares {
  import opened Options
  import opened PathOrder
  import opened Ordering
  import opened Retention
  import opened RetentionLaws

  /** f is the newer of the two. */
  predicate ComesBefore(f: Entry, e: Entry) {
    f.scanned > e.scanned || (f.scanned == e.scanned && Less(f.id, e.id))
  }

  /** e is the newest of its key. */
  ghost predicate IsNewest(all: set<Entry>, e: Entry) {
    e in all && forall x :: x in all && x.group == e.group && x != e ==> ComesBefore(e, x)
  }

  /** f is tried before e. An entry that is the newest of its key comes after the newest of the keys before its own,
      any other after the newest of all keys and whatever is newer. */
  ghost predicate TriedBefore(all: set<Entry>, f: Entry, e: Entry) {
    f != e && if IsNewest(all, e) then IsNewest(all, f) && Less(f.group, e.group) else IsNewest(all, f) || ComesBefore(f, e)
  }

  ghost function Ahead(all: set<Entry>, kept: set<Entry>, incoming: Option<Entry>, e: Entry): set<Entry> {
    set f | f in kept && f != e && (incoming == Some(f) || TriedBefore(all, f, e))
  }

  /** The quota takes exactly what does not fit beside the kept entries that were tried before it. */
  ghost predicate TakenInTurn(max: int, all: set<Entry>, kept: set<Entry>, incoming: Option<Entry>) {
    forall e :: e in all && incoming != Some(e) ==>
      (e !in kept <==> e.size < 0 || SizeOf(Ahead(all, kept, incoming, e)) + e.size > max)
  }

  // Places in the queue.

  /** The first of a key in a list from new to old is the newest of the key. */
  lemma {:induction false} FirstIsNewest(order: seq<Entry>, g: string)
    requires Ordered(order, Newer) && g in Groups(Elements(order))
    ensures |FirstOf(order, g)| == 1 && FirstOf(order, g)[0] in order && FirstOf(order, g)[0].group == g
    ensures IsNewest(Elements(order), FirstOf(order, g)[0])
  {
    assert order != [];
    assert order == [order[0]] + order[1..];
    if order[0].group == g {
      forall x | x in Elements(order) && x != order[0]
        ensures ComesBefore(order[0], x)
      {
        var i :| 0 <= i < |order| && order[i] == x;
        assert Newer(order[0], order[i]);
      }
    } else {
      var e :| e in Elements(order) && e.group == g;
      assert e in order[1..];
      FirstIsNewest(order[1..], g);
    }
  }

  lemma {:induction false} FirstsAre(order: seq<Entry>, groups: seq<string>)
    requires Ordered(order, Newer) && forall g :: g in groups ==> g in Groups(Elements(order))
    ensures |FirstOfEach(order, groups)| == |groups|
    ensures forall i :: 0 <= i < |groups| ==>
      FirstOfEach(order, groups)[i].group == groups[i] && IsNewest(Elements(order), FirstOfEach(order, groups)[i])
  {
    hide IsNewest, Groups, FirstOf, Newer;
    if groups != [] {
      var init, last := groups[..|groups| - 1], groups[|groups| - 1];
      FirstsAre(order, init);
      FirstIsNewest(order, last);
    }
  }

  lemma QueueParts(active: set<Entry>) returns (order: seq<Entry>, groups: seq<string>)
    requires UniqueIDs(active)
    ensures Elements(order) == active && Ordered(order, Newer)
    ensures Ordered(groups, Less) && Elements(groups) == Groups(active)
    ensures Queue(active) == FirstOfEach(order, groups) + order
  {
    hide InOrder, Newer, Less, FirstOfEach;
    order, groups := InOrder(active, Newer), InOrder(Groups(active), Less);
    NewerStrict();
    NewerTotal(active);
    InOrderElements(active, Newer);
    LessStrict(Groups(active));
    InOrderElements(Groups(active), Less);
  }

  lemma OneNewest(all: set<Entry>, x: Entry, y: Entry)
    requires IsNewest(all, x) && IsNewest(all, y) && x.group == y.group
    ensures x == y
  {
    if x != y && x.scanned == y.scanned {
      LessAsymmetric(x.id, y.id);
    }
  }

  /** e's first place in the queue; what comes before it there is tried before it. */
  lemma QueuePlace(active: set<Entry>, e: Entry) returns (i: nat)
    requires UniqueIDs(active) && e in active
    ensures i < |Queue(active)| && Queue(active)[i] == e
    ensures forall j :: 0 <= j < i ==> Queue(active)[j] in active && TriedBefore(active, Queue(active)[j], e)
  {
    hide Queue, IsNewest, FirstOfEach, Newer, Less, Ordered;
    var order, groups := QueueParts(active);
    FirstsAre(order, groups);
    if IsNewest(active, e) {
      i := AmongFirsts(active, order, groups, e);
    } else {
      i := AmongRest(active, order, groups, e);
    }
  }

  lemma AmongFirsts(active: set<Entry>, order: seq<Entry>, groups: seq<string>, e: Entry) returns (i: nat)
    requires IsNewest(active, e) && Ordered(groups, Less) && Elements(groups) == Groups(active)
    requires |FirstOfEach(order, groups)| == |groups|
    requires forall i :: 0 <= i < |groups| ==>
      FirstOfEach(order, groups)[i].group == groups[i] && IsNewest(active, FirstOfEach(order, groups)[i])
    ensures i < |groups| && FirstOfEach(order, groups)[i] == e
    ensures forall j :: 0 <= j < i ==>
      FirstOfEach(order, groups)[j] in active && TriedBefore(active, FirstOfEach(order, groups)[j], e)
  {
    hide FirstOfEach, Less, ComesBefore;
    assert e.group in Elements(groups);
    i :| 0 <= i < |groups| && groups[i] == e.group;
    var firsts := FirstOfEach(order, groups);
    OneNewest(active, firsts[i], e);
    forall j | 0 <= j < i
      ensures TriedBefore(active, firsts[j], e)
    {
      assert Less(groups[j], groups[i]);
      LessAsymmetric(groups[j], groups[i]);
    }
  }

  lemma AmongRest(active: set<Entry>, order: seq<Entry>, groups: seq<string>, e: Entry) returns (i: nat)
    requires e in active && !IsNewest(active, e) && Elements(order) == active && Ordered(order, Newer)
    requires forall x :: x in FirstOfEach(order, groups) ==> IsNewest(active, x)
    ensures var queue := FirstOfEach(order, groups) + order;
      && i < |queue| && queue[i] == e && forall j :: 0 <= j < i ==> queue[j] in active && TriedBefore(active, queue[j], e)
  {
    hide FirstOfEach, Less;
    var firsts := FirstOfEach(order, groups);
    assert e in Elements(order);
    var k :| 0 <= k < |order| && order[k] == e;
    i := |firsts| + k;
    forall j | 0 <= j < i
      ensures (firsts + order)[j] in active && TriedBefore(active, (firsts + order)[j], e)
    {
      if j < |firsts| {
        assert firsts[j] in firsts;
      } else {
        var x := order[j - |firsts|];
        assert Newer(x, order[k]);
        NewerStrict();
        assert x in Elements(order);
      }
    }
  }

  // The greedy admission.

  lemma {:induction false} FillGrows(max: int, from: Budget, order: seq<Entry>, i: nat)
    requires i <= |order|
    ensures from.kept <= Fill(max, from, order[..i]).kept <= Fill(max, from, order).kept
    decreases |order|
  {
    if i == |order| {
      assert order[..i] == order;
      if i > 0 {
        FillGrows(max, from, order[..i - 1], i - 1);
        assert order[..i - 1][..i - 1] == order[..i - 1];
      }
    } else {
      FillGrows(max, from, order[..|order| - 1], i);
      assert order[..|order| - 1][..i] == order[..i];
    }
  }

  /** What a filling leaves out did not fit beside what came before it. */
  lemma LeftOutInTurn(max: int, from: Budget, order: seq<Entry>, i: nat)
    requires i < |order| && order[i].id !in Fill(max, from, order).kept
    ensures var e := order[i]; e.size < 0 || e.size > max - Fill(max, from, order[..i]).used
  {
    FillGrows(max, from, order, i + 1);
    FillGrows(max, from, order, i);
    var next := order[..i + 1];
    assert next[..|next| - 1] == order[..i] && next[|next| - 1] == order[i];
  }

  /** What was taken before e's turn is ahead of it. */
  lemma TakenIsAhead(p: Policy, active: set<Entry>, incoming: Option<Entry>, e: Entry, i: nat)
    requires UniqueIDs(active) && (incoming.Some? ==> incoming.value in active) && e !in Kept(p, active, incoming)
    requires i <= |Queue(active)|
    requires forall j :: 0 <= j < i ==> Queue(active)[j] in active && TriedBefore(active, Queue(active)[j], e)
    requires incoming.Some? ==> incoming.value in Kept(p, active, incoming)
    ensures var from := Opening(incoming);
      var taken := Taken(active, from, Fill(p.maxBytes, from, Queue(active)[..i]));
      taken + (if incoming.Some? then {incoming.value} else {}) <= Ahead(active, Kept(p, active, incoming), incoming, e)
  {
    hide Queue, Fill, TriedBefore;
    var from, before := Opening(incoming), Queue(active)[..i];
    var b := Fill(p.maxBytes, from, before);
    FillGrows(p.maxBytes, from, Queue(active), i);
    FillTakesFrom(p.maxBytes, from, before);
    forall x | x in Taken(active, from, b)
      ensures x in Ahead(active, Kept(p, active, incoming), incoming, e)
    {
      var q :| q in before && q.id == x.id;
      assert x == q;
    }
  }

  lemma {:induction false} FillTakesFrom(max: int, from: Budget, order: seq<Entry>)
    ensures forall id :: id in Fill(max, from, order).kept ==> id in from.kept || exists e :: e in order && e.id == id
  {
    if order != [] {
      var init, last := order[..|order| - 1], order[|order| - 1];
      assert order == init + [last];
      FillTakesFrom(max, from, init);
    }
  }

  lemma InTurn(p: Policy, active: set<Entry>, incoming: Option<Entry>)
    requires UniqueIDs(active) && p.maxBytes >= 0
    requires incoming.Some? ==> incoming.value in active && 0 <= incoming.value.size <= p.maxBytes
    ensures TakenInTurn(p.maxBytes, active, Kept(p, active, incoming), incoming)
  {
    hide Queue, Fill, TriedBefore, Kept, Spent;
    KeptFits(p, active, incoming);
    forall e | e in active && incoming != Some(e)
      ensures e !in Kept(p, active, incoming) <==>
        e.size < 0 || SizeOf(Ahead(active, Kept(p, active, incoming), incoming, e)) + e.size > p.maxBytes
    {
      if e in Kept(p, active, incoming) {
        KeptInTurn(p.maxBytes, active, Kept(p, active, incoming), incoming, e);
      } else {
        RejectedInTurn(p, active, incoming, e);
      }
    }
  }

  lemma KeptInTurn(max: int, all: set<Entry>, kept: set<Entry>, incoming: Option<Entry>, e: Entry)
    requires e in kept && SizeOf(kept) <= max && forall x :: x in kept ==> x.size >= 0
    ensures SizeOf(Ahead(all, kept, incoming, e)) + e.size <= max
  {
    hide TriedBefore;
    var ahead := Ahead(all, kept, incoming, e);
    SizeTake(ahead + {e}, e);
    assert ahead + {e} - {e} == ahead;
    SizeGrows(ahead + {e}, kept);
  }

  lemma RejectedInTurn(p: Policy, active: set<Entry>, incoming: Option<Entry>, e: Entry)
    requires UniqueIDs(active) && p.maxBytes >= 0 && e in active && e !in Kept(p, active, incoming)
    requires incoming.Some? ==> incoming.value in active && 0 <= incoming.value.size <= p.maxBytes
    ensures e.size < 0 || SizeOf(Ahead(active, Kept(p, active, incoming), incoming, e)) + e.size > p.maxBytes
  {
    hide Queue, Fill, TriedBefore;
    var from, max := Opening(incoming), p.maxBytes;
    KeptFits(p, active, incoming);
    QueueHolds(active);
    var i := QueuePlace(active, e);
    var before := Queue(active)[..i];
    SpentIsFill(p, active, incoming);
    LeftOutInTurn(max, from, Queue(active), i);
    FillSpends(max, from, before, active);
    TakenIsAhead(p, active, incoming, e, i);
    hide Kept, Spent;
    var taken, ahead := Taken(active, from, Fill(max, from, before)), Ahead(active, Kept(p, active, incoming), incoming, e);
    if incoming.Some? {
      SizeTake(taken + {incoming.value}, incoming.value);
      assert taken + {incoming.value} - {incoming.value} == taken;
      SizeGrows(taken + {incoming.value}, ahead);
    } else {
      assert taken + {} == taken;
      SizeGrows(taken, ahead);
    }
  }

  // The plans, entry by entry.

  /** e may be removed: it is safe, and not the incoming record. */
  predicate Removable(incoming: Option<Entry>, e: Entry) {
    e.safe && (incoming.Some? ==> e.id != incoming.value.id)
  }

  /** e is valid, and its scan, or its file if it has no scan time, is not older than the policy allows. */
  predicate InTime(p: Policy, e: Entry) {
    e.valid && (if e.scanned == 0 then e.modified else e.scanned) >= p.cutoff
  }

  /** What competes for room. */
  ghost function Contenders(p: Policy, s: set<Entry>, incoming: Option<Entry>): set<Entry> {
    (set e | e in s && Removable(incoming, e) && InTime(p, e)) + (if incoming.Some? then {incoming.value} else {})
  }

  ghost function NewerOnes(all: set<Entry>, e: Entry): set<Entry> {
    set x | x in all && x.group == e.group && ComesBefore(x, e)
  }

  /** e is one of too many of the incoming record's key. */
  ghost predicate Surplus(p: Policy, all: set<Entry>, group: string, e: Entry) {
    e in all && e.group == group && |NewerOnes(all, e)| >= p.maxRecords
  }

  predicate RemovedFor(r: Removals, e: Entry, reason: Reason) {
    e.id in r && r[e.id] == reason
  }

  /** The reasons for removing entries of s: those in surplus leave before the quota is shared out among the others. */
  ghost predicate Reasoned(p: Policy, s: set<Entry>, incoming: Option<Entry>, r: Removals, surplus: set<Entry>) {
    var all := Contenders(p, s, incoming) - surplus;
    && (forall e :: e in s ==>
        && (RemovedFor(r, e, Invalid) <==> Removable(incoming, e) && !e.valid)
        && (RemovedFor(r, e, Ttl) <==> Removable(incoming, e) && e.valid && !InTime(p, e))
        && (RemovedFor(r, e, PerKey) <==> Removable(incoming, e) && e in surplus)
        && (RemovedFor(r, e, Quota) ==> e in all))
    && TakenInTurn(p.maxBytes, all, (set e | e in all && e.id !in r), incoming)
  }

  lemma SurplusIsOverflow(p: Policy, retained: set<Entry>, group: string)
    requires UniqueIDs(retained)
    ensures Overflow(p, retained, group) == set e | e in retained && Surplus(p, retained, group, e)
  {
    hide Surplus, Overflow;
    OverflowWithin(p, retained, group);
    forall e | e in retained
      ensures e in Overflow(p, retained, group) <==> Surplus(p, retained, group, e)
    {
      SurplusAt(p, retained, group, e);
    }
  }

  lemma SurplusAt(p: Policy, retained: set<Entry>, group: string, e: Entry)
    requires UniqueIDs(retained) && e in retained
    ensures e in Overflow(p, retained, group) <==> Surplus(p, retained, group, e)
  {
    hide Overflow, NewerOnes, Newer, InOrder, Ordered;
    OverflowBounds(p, retained, group);
    SameNewer(retained, e);
    NewestOfGroup(retained, group);
    if e.group == group && e !in Overflow(p, retained, group) {
      var newest := InOrder(OfGroup(retained, group), Newer);
      assert e in Elements(newest);
      var i :| 0 <= i < |newest| && newest[i] == e;
      FewNewer(retained, newest, i);
      if i >= p.maxRecords { BeyondIsOver(p, retained, group, i); }
    }
  }

  lemma BeyondIsOver(p: Policy, retained: set<Entry>, group: string, i: nat)
    requires p.maxRecords <= i < |InOrder(OfGroup(retained, group), Newer)|
    ensures InOrder(OfGroup(retained, group), Newer)[i] in Overflow(p, retained, group)
  {
    var newest := InOrder(OfGroup(retained, group), Newer);
    hide InOrder;
    assert newest[p.maxRecords..][i - p.maxRecords] == newest[i];
  }

  lemma SameNewer(retained: set<Entry>, e: Entry)
    ensures NewerOnes(retained, e) == set x | x in OfGroup(retained, e.group) && Newer(x, e)
  {
  }

  lemma FewNewer(retained: set<Entry>, newest: seq<Entry>, i: nat)
    requires i < |newest| && Elements(newest) == OfGroup(retained, newest[i].group) && Ordered(newest, Newer)
    ensures |NewerOnes(retained, newest[i])| <= i
  {
    var e := newest[i];
    SameNewer(retained, e);
    NewerStrict();
    hide Newer;
    forall x | x in NewerOnes(retained, e)
      ensures x in Elements(newest[..i])
    {
      assert x in Elements(newest);
      var j :| 0 <= j < |newest| && newest[j] == x;
      assert i < j ==> Newer(e, x);
      assert newest[..i][j] == x;
    }
    SubsetSize(NewerOnes(retained, e), Elements(newest[..i]));
    ElementsCount(newest[..i]);
  }

  lemma ContendersRetained(p: Policy, s: set<Entry>, incoming: Option<Entry>)
    ensures Contenders(p, s, incoming) == Retained(p, s, incoming)
    ensures forall e :: e in Rivals(s, incoming) <==> e in s && Removable(incoming, e)
    ensures forall e :: Current(p, e) <==> InTime(p, e)
  {
  }

  /** What stands in a plan at one entry. */
  lemma StaleReason(p: Policy, s: set<Entry>, incoming: Option<Entry>, e: Entry)
    requires UniqueIDs(s) && e in s
    ensures e.id in Stale(p, s, incoming) <==> Removable(incoming, e) && !InTime(p, e)
    ensures e.id in Stale(p, s, incoming) ==> Stale(p, s, incoming)[e.id] == if e.valid then Ttl else Invalid
  {
  }

  /** The three parts of a plan do not get in each other's way. */
  lemma PartsApart(
      p: Policy, s: set<Entry>, incoming: Option<Entry>, r: Removals, surplus: set<Entry>, unkept: set<Entry>, e: Entry)
    requires UniqueIDs(s) && surplus !! unkept && surplus + unkept <= Contenders(p, s, incoming)
    requires UniqueIDs(surplus) && UniqueIDs(unkept) && (incoming.Some? ==> incoming.value !in surplus + unkept)
    requires r == Stale(p, s, incoming) + Tagged(surplus, PerKey) + Tagged(unkept, Quota)
    requires e in s || incoming == Some(e)
    ensures e in unkept ==> RemovedFor(r, e, Quota)
    ensures e in s ==>
      && (RemovedFor(r, e, Invalid) <==> Removable(incoming, e) && !e.valid)
      && (RemovedFor(r, e, Ttl) <==> Removable(incoming, e) && e.valid && !InTime(p, e))
      && (RemovedFor(r, e, PerKey) <==> e in surplus)
      && (RemovedFor(r, e, Quota) <==> e in unkept)
    ensures incoming == Some(e) ==> e.id !in r
    ensures e in Contenders(p, s, incoming) - surplus ==> (e.id in r <==> e in unkept)
  {
    hide Stale, Tagged;
    var loose := set x | x in s && Removable(incoming, x);
    assert surplus + unkept <= loose;
    if e in loose {
      TaggedAt(surplus, loose, PerKey, e);
      TaggedAt(unkept, loose, Quota, e);
    } else {
      NotTagged(surplus, loose, incoming, PerKey, e);
      NotTagged(unkept, loose, incoming, Quota, e);
    }
    if e in s {
      StaleReason(p, s, incoming, e);
    } else {
      StaleAt(p, s, incoming, e);
    }
  }

  lemma NotTagged(t: set<Entry>, loose: set<Entry>, incoming: Option<Entry>, reason: Reason, e: Entry)
    requires UniqueIDs(t) && t <= loose && forall x :: x in loose ==> x.id != e.id
    ensures e.id !in Tagged(t, reason)
  {
  }

  lemma PlanReasons(p: Policy, s: set<Entry>, incoming: Option<Entry>, r: Removals, surplus: set<Entry>)
    requires UniqueIDs(s) && p.maxBytes >= 0 && UniqueIDs(Contenders(p, s, incoming))
    requires incoming.Some? ==> 0 <= incoming.value.size <= p.maxBytes && incoming.value !in surplus
    requires incoming.Some? ==> !HasUnsafe(s, incoming.value.id)
    requires surplus <= Contenders(p, s, incoming)
    requires var unkept := Unkept(p, Contenders(p, s, incoming) - surplus, incoming);
      UniqueIDs(surplus) && UniqueIDs(unkept) && r == Stale(p, s, incoming) + Tagged(surplus, PerKey) + Tagged(unkept, Quota)
    ensures Reasoned(p, s, incoming, r, surplus)
  {
    hide Stale, Tagged, TakenInTurn, InTime, Unkept, Kept, Contenders, RemovedFor, Removable, Spent;
    var all := Contenders(p, s, incoming) - surplus;
    IncomingContends(p, s, incoming);
    KeptFits(p, all, incoming);
    InTurn(p, all, incoming);
    KeptOrNot(p, all, incoming);
    var unkept := Unkept(p, all, incoming);
    forall e | e in s || incoming == Some(e)
      ensures e in all ==> (e.id in r <==> e in unkept)
      ensures e in s ==>
        && (RemovedFor(r, e, Invalid) <==> Removable(incoming, e) && !e.valid)
        && (RemovedFor(r, e, Ttl) <==> Removable(incoming, e) && e.valid && !InTime(p, e))
        && (RemovedFor(r, e, PerKey) <==> e in surplus)
        && (RemovedFor(r, e, Quota) <==> e in unkept)
    {
      PartsApart(p, s, incoming, r, surplus, unkept, e);
    }
    var kept := Kept(p, all, incoming);
    KeptWithin(p, all, incoming);
    forall e | e in all
      ensures e.id !in r <==> e in kept
    {
      assert e in Contenders(p, s, incoming);
    }
    assert (set e | e in all && e.id !in r) == kept;
  }

  lemma IncomingContends(p: Policy, s: set<Entry>, incoming: Option<Entry>)
    ensures incoming.Some? ==> incoming.value in Contenders(p, s, incoming)
    ensures forall e :: e in Contenders(p, s, incoming) ==> e in s || incoming == Some(e)
    ensures forall e :: e in Contenders(p, s, incoming) && incoming != Some(e) ==> Removable(incoming, e)
  {
  }

  lemma KeptOrNot(p: Policy, active: set<Entry>, incoming: Option<Entry>)
    ensures Unkept(p, active, incoming) == active - Kept(p, active, incoming)
  {
  }

  /** A successful reservation removes each entry for the reason that holds of it, and nothing else. */
  lemma ReservationReasons(p: Policy, s: set<Entry>, incoming: Entry, present: bool)
    requires UniqueIDs(s) && RecordPlan(p, s, incoming, present).Ok?
    ensures var all := Contenders(p, s, Some(incoming));
      Reasoned(p, s, Some(incoming), RecordPlan(p, s, incoming, present).value,
               set e | e in all && Surplus(p, all, incoming.group, e))
  {
    hide RecordPlan, Stale, Tagged, Unkept, Kept, Surplus, Reasoned, Overflow, Retained, Contenders, Spent;
    RecordPlanParts(p, s, incoming, present);
    ContendersRetained(p, s, Some(incoming));
    RetainedUnique(p, s, incoming);
    SurplusIsOverflow(p, Retained(p, s, Some(incoming)), incoming.group);
    PlanReasons(p, s, Some(incoming), RecordPlan(p, s, incoming, present).value,
                Overflow(p, Retained(p, s, Some(incoming)), incoming.group));
  }

  /** So does the cache planner, whose keys have no limit. */
  lemma PruneReasons(p: Policy, s: set<Entry>, incoming: Option<Entry>)
    requires UniqueIDs(s) && PrunePlan(p, s, incoming).Ok? && p.maxBytes >= 0
    ensures Reasoned(p, s, incoming, PrunePlan(p, s, incoming).value, {})
  {
    hide Stale, Unkept, Kept, Reasoned, Spent, Current, InTime;
    ContendersRetained(p, s, incoming);
    var all := Contenders(p, s, incoming);
    assert all - {} == all && UniqueIDs(all);
    assert Tagged({}, PerKey) == map[];
    KeptOrNot(p, all, incoming);
    PlanReasons(p, s, incoming, PrunePlan(p, s, incoming).value, {});
  }
}
