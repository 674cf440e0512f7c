/** Queries with and without a limit: a bounded heap against a full sort. */
module Query {
  import opened Options
  import opened Ordering
  import opened QueryOrder

  lemma RanksAt(records: seq<Record>)
    ensures forall x, y :: x in Ranks(records) && y in Ranks(records) && x.order == y.order ==> x == y
    ensures forall x :: x in Ranks(records) <==> x.order < |records| && x.record == records[x.order]
  {
  }

  lemma StableSortedElements(records: seq<Record>, keys: seq<SortKey>)
    ensures var l := InOrder(Ranks(records), ByRank(keys));
      Elements(l) == Ranks(records) && |l| == |records| && Ordered(l, ByRank(keys))
  {
    RanksAt(records);
    RankLaws(keys);
    RanksDecided(Ranks(records), keys);
    InOrderElements(Ranks(records), ByRank(keys));
    RanksCount(records);
  }

  lemma {:induction false} RanksCount(records: seq<Record>)
    ensures |Ranks(records)| == |records|
  {
    if records != [] {
      var init := records[..|records| - 1];
      RanksCount(init);
      var last := Ranked(records[|records| - 1], |records| - 1);
      RanksAt(init);
      RanksAt(records);
      assert Ranks(records) == Ranks(init) + {last};
    } else {
      assert Ranks(records) == {};
    }
  }

  /** sort.SliceStable by one key. */
  method SliceStable(records: seq<Record>, key: SortKey) returns (r: seq<Record>)
    ensures r == StableSorted(records, [key])
  {
    var ranked: seq<Ranked> := [];
    for i := 0 to |records|
      invariant |ranked| == i && forall j :: 0 <= j < i ==> ranked[j] == Ranked(records[j], j)
    {
      ranked := ranked + [Ranked(records[i], i)];
    }
    RanksAt(records);
    RankLaws([key]);
    RanksDecided(Ranks(records), [key]);
    RanksListed(records, ranked);
    SortIsInOrder(ranked, ByRank([key]));
    r := Records(Sort(ranked, ByRank([key])));
  }

  lemma RanksListed(records: seq<Record>, ranked: seq<Ranked>)
    requires |ranked| == |records| && forall j :: 0 <= j < |ranked| ==> ranked[j] == Ranked(records[j], j)
    ensures Elements(ranked) == Ranks(records)
  {
    forall x | x in Ranks(records)
      ensures x in ranked
    {
      assert ranked[x.order] == x;
    }
  }

  /** The ranks that a sorted list had before it was sorted, in their new order. */
  ghost function OldRanks(records: seq<Record>, keys: seq<SortKey>): (l: seq<Ranked>)
    ensures |l| == |records| && Elements(l) == Ranks(records) && Ordered(l, ByRank(keys))
    ensures StableSorted(records, keys) == Records(l)
  {
    StableSortedElements(records, keys);
    InOrder(Ranks(records), ByRank(keys))
  }

  /** Stably sorting by one more key, after the less significant ones, is stably sorting by all of them. */
  lemma OneMoreKey(records: seq<Record>, key: SortKey, keys: seq<SortKey>)
    ensures StableSorted(StableSorted(records, keys), [key]) == StableSorted(records, [key] + keys)
  {
    var earlier := OldRanks(records, keys);
    var once := StableSorted(records, keys);
    var again := OldRanks(once, [key]);
    var l := seq(|again|, i requires 0 <= i < |again| => AtRank(once, again, earlier, i));
    OldOrdered(records, key, keys, earlier, once, again, l);
    OldElements(records, keys, earlier, once, again, l);
    RankLaws([key] + keys);
    OrderedIsInOrder(l, ByRank([key] + keys));
    assert Records(again) == Records(l);
  }

  /** The old rank of the i-th record after the second sort. */
  ghost function AtRank(once: seq<Record>, again: seq<Ranked>, earlier: seq<Ranked>, i: nat): Ranked
    requires i < |again| && |earlier| == |once| && Elements(again) == Ranks(once)
  {
    assert again[i] in Elements(again);
    earlier[again[i].order]
  }

  lemma OldOrdered(
      records: seq<Record>, key: SortKey, keys: seq<SortKey>, earlier: seq<Ranked>, once: seq<Record>, again: seq<Ranked>,
      l: seq<Ranked>)
    requires once == Records(earlier) && Ordered(earlier, ByRank(keys)) && Elements(again) == Ranks(once)
    requires Ordered(again, ByRank([key]))
    requires |l| == |again| && forall i :: 0 <= i < |l| ==> l[i] == AtRank(once, again, earlier, i)
    ensures Ordered(l, ByRank([key] + keys)) && Records(l) == Records(again)
  {
    hide Signed;
    forall i | 0 <= i < |l|
      ensures again[i].order < |earlier| && l[i] == earlier[again[i].order] && again[i].record == l[i].record
    {
      assert again[i] in Elements(again);
    }
    forall i, j | 0 <= i < j < |l|
      ensures ByRank([key] + keys)(l[i], l[j])
    {
      assert ByRank([key])(again[i], again[j]);
      ThenByOrder(earlier, key, keys, again[i], again[j]);
    }
  }

  lemma LexOne(a: Record, b: Record, key: SortKey)
    ensures Lex(a, b, [key]) == Signed(a, b, key)
  {
    assert [key][1..] == [];
    assert Lex(a, b, []) == 0;
  }

  lemma ThenByOrder(earlier: seq<Ranked>, key: SortKey, keys: seq<SortKey>, x: Ranked, y: Ranked)
    requires Ordered(earlier, ByRank(keys)) && x.order < |earlier| && y.order < |earlier|
    requires x.record == earlier[x.order].record && y.record == earlier[y.order].record
    requires RankedBefore(x, y, [key])
    ensures RankedBefore(earlier[x.order], earlier[y.order], [key] + keys)
  {
    var a, b := x.record, y.record;
    assert ([key] + keys)[0] == key && ([key] + keys)[1..] == keys;
    LexOne(a, b, key);
    LexOne(b, a, key);
    CompareLaws(a, b, a, key);
    CompareLaws(b, a, b, key);
    if Signed(a, b, key) == 0 {
      assert ByRank(keys)(earlier[x.order], earlier[y.order]);
    }
  }

  lemma OldElements(
      records: seq<Record>, keys: seq<SortKey>, earlier: seq<Ranked>, once: seq<Record>, again: seq<Ranked>, l: seq<Ranked>)
    requires once == Records(earlier) && Elements(earlier) == Ranks(records) && Elements(again) == Ranks(once)
    requires |l| == |again| && forall i :: 0 <= i < |l| ==> l[i] == AtRank(once, again, earlier, i)
    ensures Elements(l) == Ranks(records)
  {
    forall x | x in Elements(l)
      ensures x in Elements(earlier)
    {
      var i :| 0 <= i < |l| && l[i] == x;
      assert again[i] in Elements(again);
      assert x == earlier[again[i].order];
    }
    forall x | x in Elements(earlier)
      ensures x in Elements(l)
    {
      var j :| 0 <= j < |earlier| && earlier[j] == x;
      assert Ranked(once[j], j) in Ranks(once);
      assert Ranked(once[j], j) in Elements(again);
      var i :| 0 <= i < |again| && again[i] == Ranked(once[j], j);
      assert l[i] == x;
    }
  }

  /** sortRecords: one stable sort per key, the least significant first. */
  method SortRecords(records: seq<Record>, keys: seq<SortKey>) returns (r: seq<Record>)
    ensures r == StableSorted(records, EffectiveSortKeys(keys))
  {
    hide StableSorted;
    var effective := EffectiveSortKeys(keys);
    r := records;
    NoKeys(records);
    var i := |effective|;
    assert effective[i..] == [];
    while i > 0
      invariant 0 <= i <= |effective| && r == StableSorted(records, effective[i..])
    {
      i := i - 1;
      assert effective[i..] == [effective[i]] + effective[i + 1..];
      r := SliceStable(r, effective[i]);
      OneMoreKey(records, effective[i], effective[i + 1..]);
    }
    assert effective[0..] == effective;
  }

  /** Sorting by no key at all changes nothing. */
  lemma NoKeys(records: seq<Record>)
    ensures StableSorted(records, []) == records
  {
    var l := seq(|records|, i requires 0 <= i < |records| => Ranked(records[i], i));
    RanksListed(records, l);
    RankLaws([]);
    OrderedIsInOrder(l, ByRank([]));
    assert Records(l) == records;
  }

  /** The n first elements of s: nothing outside them comes before any of them. */
  ghost predicate First(kept: set<Ranked>, s: set<Ranked>, n: nat, keys: seq<SortKey>) {
    && kept <= s
    && |kept| == (if n < |s| then n else |s|)
    && forall x, y :: x in kept && y in s && y !in kept ==> ByRank(keys)(x, y)
  }

  /** The heap of a bounded query, with the last of the kept records on top. */
  class TopRecordHeap {
    const keys: seq<SortKey>
    var items: seq<Ranked>

    constructor (keys: seq<SortKey>)
      ensures this.keys == keys && items == []
    {
      this.keys := keys;
      items := [];
    }

    ghost predicate Valid()
      reads this
    {
      Distinct(items) && forall i :: 0 < i < |items| ==> ByRank(keys)(items[i], items[0])
    }

    /** heap.Push. */
    method Push(x: Ranked)
      requires Valid() && x !in items && Decides(Elements(items) + {x}, ByRank(keys))
      modifies this
      ensures Valid() && Elements(items) == old(Elements(items)) + {x} && |items| == old(|items|) + 1
    {
      RankLaws(keys);
      ghost var was := items;
      assert forall y :: y in was <==> y in Elements(was);
      if items != [] && RankedBefore(x, items[0], keys) {
        items := items + [x];
      } else {
        items := [x] + items;
        assert was != [] ==> was[0] in Elements(was) && ByRank(keys)(was[0], x);
      }
    }

    /** The root replaced and heap.Fix at 0. */
    method ReplaceTop(x: Ranked)
      requires Valid() && items != [] && x !in items && Decides(Elements(items) + {x}, ByRank(keys))
      modifies this
      ensures Valid() && |items| == old(|items|)
      ensures Elements(items) == old(Elements(items)) - {old(items[0])} + {x}
    {
      ghost var was := items;
      items := items[0 := x];
      Replaced(was, x);
      var k := LastIndex(items, keys);
      Swapped(items, k);
      items := items[0 := items[k]][k := items[0]];
    }
  }

  lemma Replaced(l: seq<Ranked>, x: Ranked)
    requires l != [] && Distinct(l) && x !in l
    ensures Distinct(l[0 := x]) && Elements(l[0 := x]) == Elements(l) - {l[0]} + {x}
  {
    var r := l[0 := x];
    forall y | y in Elements(l) - {l[0]}
      ensures y in r
    {
      var i :| 0 <= i < |l| && l[i] == y;
      assert r[i] == y;
    }
    assert r[0] == x;
  }

  lemma Swapped(l: seq<Ranked>, k: nat)
    requires k < |l| && Distinct(l)
    ensures Distinct(l[0 := l[k]][k := l[0]]) && Elements(l[0 := l[k]][k := l[0]]) == Elements(l)
  {
    var r := l[0 := l[k]][k := l[0]];
    assert r[0] == l[k] && r[k] == l[0];
    forall y | y in l
      ensures y in r
    {
      var i :| 0 <= i < |l| && l[i] == y;
      assert i != 0 && i != k ==> r[i] == y;
    }
  }

  /** The last record in rank order. */
  method LastIndex(l: seq<Ranked>, keys: seq<SortKey>) returns (k: nat)
    requires l != [] && Distinct(l) && Decides(Elements(l), ByRank(keys))
    ensures k < |l| && forall i :: 0 <= i < |l| && i != k ==> ByRank(keys)(l[i], l[k])
  {
    RankLaws(keys);
    k := 0;
    for i := 1 to |l|
      invariant k < i <= |l| && forall j :: 0 <= j < i && j != k ==> ByRank(keys)(l[j], l[k])
    {
      assert l[i] in Elements(l) && l[k] in Elements(l) && l[i] != l[k];
      if RankedBefore(l[k], l[i], keys) {
        assert ByRank(keys)(l[k], l[i]);
        k := i;
      } else {
        assert ByRank(keys)(l[i], l[k]);
      }
    }
  }

  lemma FirstGrows(kept: set<Ranked>, s: set<Ranked>, n: nat, keys: seq<SortKey>, x: Ranked)
    requires First(kept, s, n, keys) && x !in s && |kept| < n
    ensures kept == s && First(kept + {x}, s + {x}, n, keys)
  {
    if kept != s {
      SubsetSize(kept, s);
      assert false;
    }
  }

  ghost predicate Last(kept: set<Ranked>, keys: seq<SortKey>, top: Ranked) {
    top in kept && forall y :: y in kept && y != top ==> ByRank(keys)(y, top)
  }

  lemma FirstReplaced(kept: set<Ranked>, s: set<Ranked>, n: nat, keys: seq<SortKey>, top: Ranked, x: Ranked)
    requires First(kept, s, n, keys) && x !in s && |kept| == n && Last(kept, keys, top) && ByRank(keys)(x, top)
    ensures First(kept - {top} + {x}, s + {x}, n, keys)
  {
    hide RankedBefore;
    RankLaws(keys);
    var next := kept - {top} + {x};
    forall y, z | y in next && z in s + {x} && z !in next
      ensures ByRank(keys)(y, z)
    {
      assert ByRank(keys)(y, top);
      if z != top {
        assert z in s && z !in kept;
        assert ByRank(keys)(top, z);
      }
    }
  }

  lemma FirstStays(kept: set<Ranked>, s: set<Ranked>, n: nat, keys: seq<SortKey>, top: Ranked, x: Ranked)
    requires First(kept, s, n, keys) && x !in s && |kept| == n && Last(kept, keys, top) && ByRank(keys)(top, x)
    ensures First(kept, s + {x}, n, keys)
  {
    hide RankedBefore;
    RankLaws(keys);
    forall y, z | y in kept && z in s + {x} && z !in kept
      ensures ByRank(keys)(y, z)
    {
      if z == x && y != top {
        assert ByRank(keys)(y, top);
      }
    }
  }

  /** Sorting the n first elements gives the n first of the sorted elements. */
  lemma FirstIsPrefix(kept: set<Ranked>, s: set<Ranked>, n: nat, keys: seq<SortKey>)
    requires First(kept, s, n, keys) && Decides(s, ByRank(keys))
    ensures |kept| <= |InOrder(s, ByRank(keys))|
    ensures InOrder(kept, ByRank(keys)) == InOrder(s, ByRank(keys))[..|kept|]
  {
    hide RankedBefore;
    RankLaws(keys);
    var rest := s - kept;
    var before := ByRank(keys);
    InOrderElements(kept, before);
    InOrderElements(rest, before);
    var a, b := InOrder(kept, before), InOrder(rest, before);
    forall i, j | 0 <= i < j < |a + b|
      ensures before((a + b)[i], (a + b)[j])
    {
      if i < |a| <= j {
        assert a[i] in Elements(a) && b[j - |a|] in Elements(b);
      } else if j < |a| {
        assert before(a[i], a[j]);
      } else {
        assert before(b[i - |a|], b[j - |a|]);
      }
    }
    assert Elements(a + b) == Elements(a) + Elements(b) == s;
    OrderedIsInOrder(a + b, before);
    assert (a + b)[..|a|] == a;
  }

  datatype QueryError = NegativeLimit | WalkFailed

  /** The first limit elements of a list, and all of them for limit zero. */
  function Limited(l: seq<Record>, limit: nat): seq<Record> {
    if limit == 0 || |l| <= limit then l else l[..limit]
  }

  /** BuildContext on the records that the walk reports, in order of arrival. */
  method Build(walked: Result<seq<Record>, QueryError>, sort: seq<SortKey>, limit: int)
    returns (r: Result<seq<Record>, QueryError>)
    ensures limit < 0 ==> r == Err(NegativeLimit)
    ensures limit >= 0 && walked.Err? ==> r == walked
    ensures limit >= 0 && walked.Ok? ==>
      r == Ok(Limited(StableSorted(walked.value, EffectiveSortKeys(sort)), limit))
    ensures limit >= 0 && walked.Ok? ==>
      Answers(walked.value, if sort == [] then [SortKey(Path, false)] else sort, limit, r.value)
  {
    hide StableSorted, Answers;
    if limit >= 0 && walked.Ok? {
      LimitedAnswers(walked.value, EffectiveSortKeys(sort), limit);
    }
    if limit < 0 { return Err(NegativeLimit); }
    var keys := EffectiveSortKeys(sort);
    var records :- walked;
    if limit == 0 {
      var all := SortRecords(records, keys);
      return Ok(all);
    }
    var top := SelectTop(records, keys, limit);
    return Ok(top);
  }

  /** The bounded branch of BuildContext. */
  method SelectTop(records: seq<Record>, keys: seq<SortKey>, limit: nat) returns (r: seq<Record>)
    requires limit > 0
    ensures r == Limited(StableSorted(records, keys), limit)
  {
    var top := new TopRecordHeap(keys);
    var order := 0;
    assert Ranks([]) == {} && records[..0] == [];
    while order < |records|
      invariant order <= |records| && top.Valid() && top.keys == keys && fresh(top)
      invariant First(Elements(top.items), Ranks(records[..order]), limit, keys)
    {
      NextRank(records, order, keys);
      Offer(top, Ranked(records[order], order), limit, Ranks(records[..order]));
      order := order + 1;
    }
    assert records[..order] == records;
    r := Finish(records, top.items, keys, limit);
  }

  /** The visit of one record. */
  method Offer(top: TopRecordHeap, candidate: Ranked, limit: nat, ghost seen: set<Ranked>)
    requires limit > 0 && top.Valid() && candidate !in seen
    requires First(Elements(top.items), seen, limit, top.keys) && Decides(seen + {candidate}, ByRank(top.keys))
    modifies top
    ensures top.Valid() && First(Elements(top.items), seen + {candidate}, limit, top.keys)
  {
    ghost var kept := Elements(top.items);
    ElementsCount(top.items);
    assert kept <= seen;
    if |top.items| < limit {
      FirstGrows(kept, seen, limit, top.keys, candidate);
      top.Push(candidate);
    } else {
      TopIsLast(top.items, top.keys);
      if RankedBefore(candidate, top.items[0], top.keys) {
        FirstReplaced(kept, seen, limit, top.keys, top.items[0], candidate);
        top.ReplaceTop(candidate);
      } else {
        assert top.items[0] in kept;
        assert ByRank(top.keys)(top.items[0], candidate);
        FirstStays(kept, seen, limit, top.keys, top.items[0], candidate);
      }
    }
  }

  lemma TopIsLast(items: seq<Ranked>, keys: seq<SortKey>)
    requires items != [] && forall i :: 0 < i < |items| ==> ByRank(keys)(items[i], items[0])
    ensures Last(Elements(items), keys, items[0])
  {
  }

  lemma NextRank(records: seq<Record>, order: nat, keys: seq<SortKey>)
    requires order < |records|
    ensures var c := Ranked(records[order], order);
      c !in Ranks(records[..order]) && Ranks(records[..order + 1]) == Ranks(records[..order]) + {c}
    ensures Decides(Ranks(records[..order + 1]), ByRank(keys))
  {
    RanksAt(records[..order]);
    RanksAt(records[..order + 1]);
    RanksDecided(Ranks(records[..order + 1]), keys);
  }

  /** What is kept, sorted. */
  method Finish(records: seq<Record>, items: seq<Ranked>, keys: seq<SortKey>, limit: nat) returns (r: seq<Record>)
    requires limit > 0 && Distinct(items)
    requires First(Elements(items), Ranks(records), limit, keys)
    ensures r == Limited(StableSorted(records, keys), limit)
  {
    hide First, InOrder, RankedBefore, Sort;
    ghost var s := Ranks(records);
    KeptDecided(items, records, keys, limit);
    RankLaws(keys);
    SortIsInOrder(items, ByRank(keys));
    FirstIsPrefix(Elements(items), s, limit, keys);
    StableSortedElements(records, keys);
    r := Records(Sort(items, ByRank(keys)));
    assert r == Records(InOrder(s, ByRank(keys))[..|items|]);
  }

  lemma KeptDecided(items: seq<Ranked>, records: seq<Record>, keys: seq<SortKey>, limit: nat)
    requires Distinct(items) && First(Elements(items), Ranks(records), limit, keys)
    ensures Decides(Ranks(records), ByRank(keys)) && Decides(Elements(items), ByRank(keys))
    ensures |Elements(items)| == |items| == (if limit < |records| then limit else |records|)
  {
    hide RankedBefore;
    ElementsCount(items);
    RanksAt(records);
    RanksCount(records);
    RanksDecided(Ranks(records), keys);
    RanksDecided(Elements(items), keys);
  }

  /** A stable sort rearranges the records, in the order of the keys. */
  lemma StableSortLaws(records: seq<Record>, keys: seq<SortKey>)
    ensures multiset(StableSorted(records, keys)) == multiset(records)
    ensures forall i, j :: 0 <= i < j < |StableSorted(records, keys)| ==>
      Lex(StableSorted(records, keys)[i], StableSorted(records, keys)[j], keys) <= 0
  {
    var l := OldRanks(records, keys);
    RanksAt(records);
    RankLaws(keys);
    assert forall i, j :: 0 <= i < j < |l| ==> ByRank(keys)(l[i], l[j]) && l[i] != l[j];
    SameRecords(records, l);
    forall i, j | 0 <= i < j < |l|
      ensures Lex(l[i].record, l[j].record, keys) <= 0
    {
      assert ByRank(keys)(l[i], l[j]);
      LexLaws(l[i].record, l[j].record, l[i].record, keys);
      LexLaws(l[j].record, l[i].record, l[j].record, keys);
    }
  }

  /** The first records of the sorted list are an answer. */
  lemma LimitedAnswers(records: seq<Record>, keys: seq<SortKey>, limit: nat)
    ensures Answers(records, keys, limit, Limited(StableSorted(records, keys), limit))
  {
    hide StableSorted, Lex, MayPrecedeByAll;
    StableSortLaws(records, keys);
    var sorted := StableSorted(records, keys);
    var answer := Limited(sorted, limit);
    var rest := sorted[|answer|..];
    assert sorted == answer + rest;
    assert |sorted| == |records| by { SortedLength(records, keys); }
    forall i, j | 0 <= i < j < |sorted|
      ensures MayPrecedeByAll(sorted[i], sorted[j], keys)
    {
      LexFits(sorted[i], sorted[j], keys);
    }
    assert LeavesOut(records, keys, answer, rest);
  }

  lemma SortedLength(records: seq<Record>, keys: seq<SortKey>)
    ensures |StableSorted(records, keys)| == |records|
  {
    StableSortedElements(records, keys);
  }

  lemma {:induction false} SameRecords(records: seq<Record>, l: seq<Ranked>)
    requires Distinct(l) && Elements(l) == Ranks(records) && |l| == |records|
    ensures multiset(Records(l)) == multiset(records)
  {
    if records != [] {
      var init := records[..|records| - 1];
      var i := LastRank(records, l);
      WithoutOne(l, i);
      RecordsWithout(l, i);
      SameRecords(init, l[..i] + l[i + 1..]);
      assert records == init + [records[|records| - 1]];
    }
  }

  lemma LastRank(records: seq<Record>, l: seq<Ranked>) returns (i: nat)
    requires Elements(l) == Ranks(records) && records != []
    ensures i < |l| && l[i].record == records[|records| - 1]
    ensures Ranks(records[..|records| - 1]) == Ranks(records) - {l[i]}
  {
    RanksAt(records);
    RanksAt(records[..|records| - 1]);
    var last := Ranked(records[|records| - 1], |records| - 1);
    assert last in Elements(l);
    i :| i < |l| && l[i] == last;
  }

  lemma RecordsWithout(l: seq<Ranked>, i: nat)
    requires i < |l|
    ensures multiset(Records(l)) == multiset(Records(l[..i] + l[i + 1..])) + multiset{l[i].record}
  {
    assert Records(l) == Records(l[..i]) + [l[i].record] + Records(l[i + 1..]);
    assert Records(l[..i] + l[i + 1..]) == Records(l[..i]) + Records(l[i + 1..]);
  }

  lemma WithoutOne(l: seq<Ranked>, i: nat)
    requires i < |l| && Distinct(l)
    ensures Distinct(l[..i] + l[i + 1..]) && Elements(l[..i] + l[i + 1..]) == Elements(l) - {l[i]}
  {
    var rest := l[..i] + l[i + 1..];
    forall y | y in Elements(l) - {l[i]}
      ensures y in rest
    {
      var j :| 0 <= j < |l| && l[j] == y;
      assert if j < i then rest[j] == y else rest[j - 1] == y;
    }
  }
}
