/** Retention policy as declared: which entries of a snapshot store a plan removes, and why. */
module Retention {
  import opened Options
  import opened PathOrder
  import opened Ordering

  /** One file of a store. group is what quota fairness and per-key limits go by: the root and fingerprint
      key of a history record, the root of a cache entry. Time 0 is the zero time, and payload is what the
      file holds. */
  datatype Entry = Entry(
    id: string, group: string, scanned: nat, modified: nat, size: int, safe: bool, valid: bool, payload: nat)

  datatype Policy = Policy(maxBytes: int, maxRecords: nat, cutoff: int)

  datatype Reason = Invalid | Ttl | PerKey | Quota

  datatype PlanError = ExceedsQuota | UnsafeDestination | Changed | NotRetainable

  type Removals = map<string, Reason>

  /** Newest first, then by id. */
  predicate Newer(a: Entry, b: Entry) {
    a.scanned > b.scanned || (a.scanned == b.scanned && Less(a.id, b.id))
  }

  function Age(e: Entry): nat {
    if e.scanned == 0 then e.modified else e.scanned
  }

  predicate Current(p: Policy, e: Entry) {
    e.valid && !(Age(e) < p.cutoff)
  }

  ghost predicate UniqueIDs(s: set<Entry>) {
    forall x, y :: x in s && y in s && x.id == y.id ==> x == y
  }

  /** The entries a plan may remove: safe ones other than the incoming entry. */
  ghost function Rivals(s: set<Entry>, incoming: Option<Entry>): set<Entry> {
    set e | e in s && e.safe && !(incoming.Some? && e.id == incoming.value.id)
  }

  ghost function Retained(p: Policy, s: set<Entry>, incoming: Option<Entry>): set<Entry> {
    (set e | e in Rivals(s, incoming) && Current(p, e)) + (if incoming.Some? then {incoming.value} else {})
  }

  /** Entries that have expired or cannot be read. */
  ghost function Stale(p: Policy, s: set<Entry>, incoming: Option<Entry>): Removals
    requires UniqueIDs(s)
  {
    map e | e in Rivals(s, incoming) && !Current(p, e) :: e.id := if e.valid then Ttl else Invalid
  }

  ghost function Tagged(s: set<Entry>, r: Reason): Removals
    requires UniqueIDs(s)
  {
    map e | e in s :: e.id := r
  }

  ghost function OfGroup(s: set<Entry>, group: string): set<Entry> {
    set e | e in s && e.group == group
  }

  /** The entries of the incoming entry's key beyond its newest maxRecords. */
  ghost function Overflow(p: Policy, retained: set<Entry>, group: string): set<Entry> {
    var newest := InOrder(OfGroup(retained, group), Newer);
    if |newest| <= p.maxRecords then {} else Elements(newest[p.maxRecords..])
  }

  /** Bytes taken so far and the entries that took them. */
  datatype Budget = Budget(used: int, kept: set<string>)

  function Admit(max: int, b: Budget, e: Entry): Budget {
    if e.id in b.kept || e.size < 0 || e.size > max - b.used then b
    else Budget(b.used + e.size, b.kept + {e.id})
  }

  /** Greedy admission, in order. */
  function Fill(max: int, b: Budget, order: seq<Entry>): Budget {
    if order == [] then b else Admit(max, Fill(max, b, order[..|order| - 1]), order[|order| - 1])
  }

  function FirstOf(order: seq<Entry>, group: string): seq<Entry> {
    if order == [] then []
    else if order[0].group == group then [order[0]]
    else FirstOf(order[1..], group)
  }

  /** The first entry of each group. */
  function FirstOfEach(order: seq<Entry>, groups: seq<string>): seq<Entry> {
    if groups == [] then []
    else FirstOfEach(order, groups[..|groups| - 1]) + FirstOf(order, groups[|groups| - 1])
  }

  ghost function Groups(s: set<Entry>): set<string> {
    set e | e in s :: e.group
  }

  function Opening(incoming: Option<Entry>): Budget {
    if incoming.Some? then Budget(incoming.value.size, {incoming.value.id}) else Budget(0, {})
  }

  /** First the newest entry of every group, groups by name; then all entries, newest first. */
  ghost function Queue(active: set<Entry>): seq<Entry> {
    var order := InOrder(active, Newer);
    FirstOfEach(order, InOrder(Groups(active), Less)) + order
  }

  ghost function Spent(p: Policy, active: set<Entry>, incoming: Option<Entry>): Budget {
    Fill(p.maxBytes, Opening(incoming), Queue(active))
  }

  ghost function Unkept(p: Policy, active: set<Entry>, incoming: Option<Entry>): set<Entry> {
    set e | e in active && e.id !in Spent(p, active, incoming).kept
  }

  ghost predicate HasID(s: set<Entry>, id: string) {
    exists e :: e in s && e.id == id
  }

  ghost predicate HasUnsafe(s: set<Entry>, id: string) {
    exists e :: e in s && e.id == id && !e.safe
  }

  /** recordReservationPlan: room for a history record among the entries s. */
  ghost function RecordPlan(p: Policy, s: set<Entry>, incoming: Entry, present: bool): Result<Removals, PlanError>
    requires UniqueIDs(s)
  {
    var retained := Retained(p, s, Some(incoming));
    var over := Overflow(p, retained, incoming.group);
    if incoming.size < 0 || incoming.size > p.maxBytes then Err(ExceedsQuota)
    else if HasUnsafe(s, incoming.id) then Err(UnsafeDestination)
    else if HasID(s, incoming.id) != present then Err(Changed)
    else if incoming in over then Err(NotRetainable)
    else
      RetainedUnique(p, s, incoming);
      OverflowWithin(p, retained, incoming.group);
      Ok(Stale(p, s, Some(incoming)) + Tagged(over, PerKey) + Tagged(Unkept(p, retained - over, Some(incoming)), Quota))
  }

  /** prunePlan of the cache and, without an incoming entry, the global prune of both stores. */
  ghost function PrunePlan(p: Policy, s: set<Entry>, incoming: Option<Entry>): Result<Removals, PlanError>
    requires UniqueIDs(s)
  {
    var retained := Retained(p, s, incoming);
    if incoming.Some? && HasUnsafe(s, incoming.value.id) then Err(UnsafeDestination)
    else if incoming.Some? && (incoming.value.size < 0 || incoming.value.size > p.maxBytes) then Err(ExceedsQuota)
    else if incoming.Some? && !HasID(s, incoming.value.id) then Err(Changed)
    else Ok(Stale(p, s, incoming) + Tagged(Unkept(p, retained, incoming), Quota))
  }

  lemma RetainedUnique(p: Policy, s: set<Entry>, incoming: Entry)
    requires UniqueIDs(s)
    ensures UniqueIDs(Retained(p, s, Some(incoming)))
  {
  }

  lemma NewerTotal(s: set<Entry>)
    requires UniqueIDs(s)
    ensures Decides(s, Newer)
  {
    forall x, y | x in s && y in s && x != y
      ensures Newer(x, y) || Newer(y, x)
    {
      LessTotal(x.id, y.id);
    }
  }

  lemma NewerStrict()
    ensures Asymmetric(Newer) && Transitive(Newer)
  {
    forall x, y | Newer(x, y)
      ensures !Newer(y, x)
    {
      if x.scanned == y.scanned { LessAsymmetric(x.id, y.id); }
    }
    forall x, y, z | Newer(x, y) && Newer(y, z)
      ensures Newer(x, z)
    {
      if x.scanned == y.scanned == z.scanned { LessTransitive(x.id, y.id, z.id); }
    }
  }

  lemma LessStrict(s: set<string>)
    ensures Asymmetric(Less) && Transitive(Less) && Decides(s, Less)
  {
    forall x, y | Less(x, y)
      ensures !Less(y, x)
    {
      LessAsymmetric(x, y);
    }
    forall x, y, z | Less(x, y) && Less(y, z)
      ensures Less(x, z)
    {
      LessTransitive(x, y, z);
    }
    forall x, y | x in s && y in s && x != y
      ensures Less(x, y) || Less(y, x)
    {
      LessTotal(x, y);
    }
  }

  lemma OverflowWithin(p: Policy, retained: set<Entry>, group: string)
    requires UniqueIDs(retained)
    ensures Overflow(p, retained, group) <= OfGroup(retained, group) <= retained
  {
    NewestOfGroup(retained, group);
  }

  lemma NewestOfGroup(retained: set<Entry>, group: string)
    requires UniqueIDs(retained)
    ensures var newest := InOrder(OfGroup(retained, group), Newer);
      Elements(newest) == OfGroup(retained, group) && |newest| == |OfGroup(retained, group)| && Ordered(newest, Newer)
  {
    NewerStrict();
    NewerTotal(OfGroup(retained, group));
    InOrderElements(OfGroup(retained, group), Newer);
  }
}
