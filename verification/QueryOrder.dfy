/** Ordering query records by sort keys, and what a stable sort by them is. */
module QueryOrder {
  import opened PathOrder
  import opened Ordering

  datatype Record = Record(
    relative: string, name: string, extension: string, kind: string, owner: string, group: string,
    apparent: int, alloc: int, files: int, dirs: int, modTime: nat)

  datatype Field = Path | Name | Apparent | Allocated | Files | Dirs | MTime | Owner | Group | Extension | Kind

  datatype SortKey = SortKey(field: Field, desc: bool)

  function CompareStrings(a: string, b: string): int {
    if a == b then 0 else if Less(a, b) then -1 else 1
  }

  function CompareInts(a: int, b: int): int {
    if a < b then -1 else if a > b then 1 else 0
  }

  function Compare(a: Record, b: Record, f: Field): int {
    match f
    case Path => CompareStrings(a.relative, b.relative)
    case Apparent => CompareInts(a.apparent, b.apparent)
    case Allocated => CompareInts(a.alloc, b.alloc)
    case Files => CompareInts(a.files, b.files)
    case Dirs => CompareInts(a.dirs, b.dirs)
    case MTime => CompareInts(a.modTime, b.modTime)
    case Name => CompareStrings(a.name, b.name)
    case Owner => CompareStrings(a.owner, b.owner)
    case Group => CompareStrings(a.group, b.group)
    case Extension => CompareStrings(a.extension, b.extension)
    case Kind => CompareStrings(a.kind, b.kind)
  }

  function Signed(a: Record, b: Record, k: SortKey): int {
    if k.desc then -Compare(a, b, k.field) else Compare(a, b, k.field)
  }

  /** The first key that tells two records apart decides. */
  function Lex(a: Record, b: Record, keys: seq<SortKey>): int {
    if keys == [] then 0
    else if Signed(a, b, keys[0]) != 0 then Signed(a, b, keys[0])
    else Lex(a, b, keys[1..])
  }

  // What the answers promise, read off the records' fields.

  /** n may stand before m in this direction. */
  predicate IntsFit(n: int, m: int, desc: bool) {
    if desc then n >= m else n <= m
  }

  /** So may s before t, compared bytewise. */
  predicate StringsFit(s: string, t: string, desc: bool) {
    s == t || (if desc then Less(t, s) else Less(s, t))
  }

  /** By this key alone, a may stand before b. */
  predicate MayPrecede(a: Record, b: Record, k: SortKey) {
    match k.field
    case Path => StringsFit(a.relative, b.relative, k.desc)
    case Name => StringsFit(a.name, b.name, k.desc)
    case Apparent => IntsFit(a.apparent, b.apparent, k.desc)
    case Allocated => IntsFit(a.alloc, b.alloc, k.desc)
    case Files => IntsFit(a.files, b.files, k.desc)
    case Dirs => IntsFit(a.dirs, b.dirs, k.desc)
    case MTime => IntsFit(a.modTime, b.modTime, k.desc)
    case Owner => StringsFit(a.owner, b.owner, k.desc)
    case Group => StringsFit(a.group, b.group, k.desc)
    case Extension => StringsFit(a.extension, b.extension, k.desc)
    case Kind => StringsFit(a.kind, b.kind, k.desc)
  }

  /** By these keys, the more significant first, a may stand before b. */
  predicate MayPrecedeByAll(a: Record, b: Record, keys: seq<SortKey>) {
    keys != [] ==> MayPrecede(a, b, keys[0]) && (MayPrecede(b, a, keys[0]) ==> MayPrecedeByAll(a, b, keys[1..]))
  }

  /** An answer holds as many of the records as the limit lets through, each where it may stand, and none that was left
      out would have had to stand before one of them. */
  ghost predicate Answers(records: seq<Record>, keys: seq<SortKey>, limit: nat, answer: seq<Record>) {
    && |answer| == (if limit == 0 || |records| <= limit then |records| else limit)
    && (forall i, j :: 0 <= i < j < |answer| ==> MayPrecedeByAll(answer[i], answer[j], keys))
    && exists rest :: LeavesOut(records, keys, answer, rest)
  }

  ghost predicate LeavesOut(records: seq<Record>, keys: seq<SortKey>, answer: seq<Record>, rest: seq<Record>) {
    && multiset(answer) + multiset(rest) == multiset(records)
    && forall i, j :: 0 <= i < |answer| && 0 <= j < |rest| ==> MayPrecedeByAll(answer[i], rest[j], keys)
  }

  lemma SignedFits(a: Record, b: Record, k: SortKey)
    ensures Signed(a, b, k) <= 0 <==> MayPrecede(a, b, k)
    ensures Signed(a, b, k) == -Signed(b, a, k)
  {
    CompareLaws(a, b, a, k);
    match k.field
    case Path => TwoStrings(a.relative, b.relative);
    case Name => TwoStrings(a.name, b.name);
    case Owner => TwoStrings(a.owner, b.owner);
    case Group => TwoStrings(a.group, b.group);
    case Extension => TwoStrings(a.extension, b.extension);
    case Kind => TwoStrings(a.kind, b.kind);
    case _ =>
  }

  lemma {:induction false} LexFits(a: Record, b: Record, keys: seq<SortKey>)
    ensures Lex(a, b, keys) <= 0 <==> MayPrecedeByAll(a, b, keys)
  {
    hide Signed, MayPrecede;
    if keys != [] {
      SignedFits(a, b, keys[0]);
      SignedFits(b, a, keys[0]);
      LexFits(a, b, keys[1..]);
    }
  }

  function EffectiveSortKeys(keys: seq<SortKey>): seq<SortKey> {
    if keys == [] then [SortKey(Path, false)] else keys
  }

  /** recordBefore. */
  method RecordBefore(a: Record, b: Record, keys: seq<SortKey>) returns (before: bool)
    ensures before <==> Lex(a, b, EffectiveSortKeys(keys)) < 0
    ensures before <==> !MayPrecedeByAll(b, a, if keys == [] then [SortKey(Path, false)] else keys)
  {
    LexFits(b, a, EffectiveSortKeys(keys));
    LexLaws(a, b, a, EffectiveSortKeys(keys));
    var effective := EffectiveSortKeys(keys);
    for i := 0 to |effective|
      invariant Lex(a, b, effective) == Lex(a, b, effective[i..])
    {
      var comparison := Compare(a, b, effective[i].field);
      assert effective[i..][1..] == effective[i + 1..];
      if comparison == 0 { continue; }
      if effective[i].desc { return comparison > 0; }
      return comparison < 0;
    }
    return false;
  }

  /** A record with its place in the order of arrival. */
  datatype Ranked = Ranked(record: Record, order: nat)

  /** rankedRecordBefore: by the keys, then by arrival. */
  predicate RankedBefore(a: Ranked, b: Ranked, keys: seq<SortKey>) {
    Lex(a.record, b.record, keys) < 0 || (Lex(b.record, a.record, keys) >= 0 && a.order < b.order)
  }

  function ByRank(keys: seq<SortKey>): (Ranked, Ranked) -> bool {
    (a: Ranked, b: Ranked) => RankedBefore(a, b, keys)
  }

  ghost function Ranks(records: seq<Record>): set<Ranked> {
    set i | 0 <= i < |records| :: Ranked(records[i], i)
  }

  function Records(l: seq<Ranked>): (r: seq<Record>)
    ensures |r| == |l| && forall i :: 0 <= i < |l| ==> r[i] == l[i].record
  {
    seq(|l|, i requires 0 <= i < |l| => l[i].record)
  }

  /** A stable sort: by the keys, and records that the keys do not tell apart in their old order. */
  ghost function StableSorted(records: seq<Record>, keys: seq<SortKey>): seq<Record> {
    Records(InOrder(Ranks(records), ByRank(keys)))
  }

  lemma CompareLaws(a: Record, b: Record, c: Record, k: SortKey)
    ensures Signed(a, b, k) == -Signed(b, a, k)
    ensures Signed(a, b, k) <= 0 && Signed(b, c, k) <= 0 ==> Signed(a, c, k) <= 0
    ensures Signed(a, b, k) <= 0 && Signed(b, c, k) <= 0 && Signed(a, b, k) + Signed(b, c, k) < 0 ==> Signed(a, c, k) < 0
  {
    StringLaws(a, b, c, k.field);
  }

  lemma StringLaws(a: Record, b: Record, c: Record, f: Field)
    ensures Compare(a, b, f) == -Compare(b, a, f)
    ensures Compare(a, b, f) <= 0 && Compare(b, c, f) <= 0 ==>
      Compare(a, c, f) <= 0 && (Compare(a, b, f) + Compare(b, c, f) < 0 ==> Compare(a, c, f) < 0)
    ensures Compare(a, b, f) >= 0 && Compare(b, c, f) >= 0 ==>
      Compare(a, c, f) >= 0 && (Compare(a, b, f) + Compare(b, c, f) > 0 ==> Compare(a, c, f) > 0)
  {
    match f
    case Path => ThreeStrings(a.relative, b.relative, c.relative);
    case Name => ThreeStrings(a.name, b.name, c.name);
    case Owner => ThreeStrings(a.owner, b.owner, c.owner);
    case Group => ThreeStrings(a.group, b.group, c.group);
    case Extension => ThreeStrings(a.extension, b.extension, c.extension);
    case Kind => ThreeStrings(a.kind, b.kind, c.kind);
    case _ =>
  }

  lemma ThreeStrings(a: string, b: string, c: string)
    ensures CompareStrings(a, b) == -CompareStrings(b, a)
    ensures CompareStrings(a, b) <= 0 && CompareStrings(b, c) <= 0 ==>
      CompareStrings(a, c) <= 0 && (CompareStrings(a, b) + CompareStrings(b, c) < 0 ==> CompareStrings(a, c) < 0)
    ensures CompareStrings(a, b) >= 0 && CompareStrings(b, c) >= 0 ==>
      CompareStrings(a, c) >= 0 && (CompareStrings(a, b) + CompareStrings(b, c) > 0 ==> CompareStrings(a, c) > 0)
  {
    TwoStrings(a, b);
    TwoStrings(b, c);
    TwoStrings(a, c);
    if Less(a, b) && Less(b, c) { LessTransitive(a, b, c); }
    if Less(b, a) && Less(c, b) { LessTransitive(c, b, a); }
  }

  lemma TwoStrings(a: string, b: string)
    ensures a == b || (Less(a, b) && !Less(b, a)) || (Less(b, a) && !Less(a, b))
    ensures a == b ==> !Less(a, b)
  {
    LessTotal(a, b);
    LessIrreflexive(a);
    if Less(a, b) { LessAsymmetric(a, b); }
    if Less(b, a) { LessAsymmetric(b, a); }
  }

  lemma {:induction false} LexLaws(a: Record, b: Record, c: Record, keys: seq<SortKey>)
    ensures Lex(a, b, keys) < 0 <==> Lex(b, a, keys) > 0
    ensures Lex(a, b, keys) <= 0 && Lex(b, c, keys) <= 0 ==> Lex(a, c, keys) <= 0
    ensures Lex(a, b, keys) <= 0 && Lex(b, c, keys) <= 0 && Lex(a, b, keys) + Lex(b, c, keys) < 0 ==> Lex(a, c, keys) < 0
  {
    hide Signed;
    if keys != [] {
      CompareLaws(a, b, c, keys[0]);
      CompareLaws(b, a, c, keys[0]);
      CompareLaws(b, c, a, keys[0]);
      LexLaws(a, b, c, keys[1..]);
    }
  }

  /** Ranking is a strict order, total as soon as arrivals differ. */
  lemma RankLaws(keys: seq<SortKey>)
    ensures Asymmetric(ByRank(keys)) && Transitive(ByRank(keys))
  {
    hide Lex;
    forall x, y | ByRank(keys)(x, y)
      ensures !ByRank(keys)(y, x)
    {
      LexLaws(x.record, y.record, x.record, keys);
      LexLaws(y.record, x.record, y.record, keys);
    }
    forall x, y, z | ByRank(keys)(x, y) && ByRank(keys)(y, z)
      ensures ByRank(keys)(x, z)
    {
      LexLaws(x.record, y.record, z.record, keys);
      LexLaws(y.record, x.record, z.record, keys);
      LexLaws(z.record, y.record, x.record, keys);
      LexLaws(z.record, x.record, y.record, keys);
    }
  }

  lemma RanksDecided(s: set<Ranked>, keys: seq<SortKey>)
    requires forall x, y :: x in s && y in s && x.order == y.order ==> x == y
    ensures Decides(s, ByRank(keys))
  {
    hide Lex;
    forall x, y | x in s && y in s && x != y
      ensures ByRank(keys)(x, y) || ByRank(keys)(y, x)
    {
      LexLaws(x.record, y.record, x.record, keys);
    }
  }
}
