/** Enumerating a finite set in a strict order, and the library's sort as far as such an order fixes it. */
module Ordering {
  /** Some element of a set, always the same one for the same set. */
  ghost function Pick<T(!new)>(s: set<T>): (x: T)
    requires s != {}
    ensures x in s
  {
    var x :| x in s;
    x
  }

  /** No two elements come before each other, and none before itself. */
  ghost predicate Asymmetric<T(!new)>(before: (T, T) -> bool) {
    forall x, y :: before(x, y) ==> !before(y, x)
  }

  ghost predicate IsFirst<T(!new)>(s: set<T>, before: (T, T) -> bool, x: T) {
    x in s && forall y :: y in s && y != x ==> before(x, y)
  }

  /** The elements of s, each before the next; [] where no element comes first. */
  ghost function InOrder<T(!new)>(s: set<T>, before: (T, T) -> bool): seq<T> {
    if exists x :: IsFirst(s, before, x) then
      var x :| IsFirst(s, before, x);
      [x] + InOrder(s - {x}, before)
    else []
  }

  ghost predicate Ordered<T(!new)>(l: seq<T>, before: (T, T) -> bool) {
    forall i, j :: 0 <= i < j < |l| ==> before(l[i], l[j])
  }

  ghost predicate Distinct<T(!new)>(s: seq<T>) {
    forall i, j :: 0 <= i < j < |s| ==> s[i] != s[j]
  }

  ghost function Elements<T(!new)>(l: seq<T>): set<T> {
    set x | x in l
  }

  /** A strictly ordered list is the enumeration of its elements. */
  lemma {:induction false} OrderedIsInOrder<T(!new)>(l: seq<T>, before: (T, T) -> bool)
    requires Asymmetric(before) && Ordered(l, before)
    ensures InOrder(Elements(l), before) == l
  {
    var s := Elements(l);
    if l == [] {
      assert s == {};
    } else {
      var x, rest := l[0], l[1..];
      assert l == [x] + rest;
      assert IsFirst(s, before, x);
      assert forall y :: IsFirst(s, before, y) ==> y == x;
      forall y | y in rest
        ensures before(x, y)
      {
        var i :| 0 <= i < |rest| && rest[i] == y;
        assert before(l[0], l[i + 1]);
      }
      assert s - {x} == Elements(rest);
      OrderedIsInOrder(rest, before);
    }
  }

  /** Insertion by the order: what any sort leaves when the order decides every pair. */
  function Insert<T>(l: seq<T>, x: T, before: (T, T) -> bool): seq<T> {
    if l == [] then [x]
    else if before(x, l[0]) then [x] + l
    else [l[0]] + Insert(l[1..], x, before)
  }

  function Sort<T>(l: seq<T>, before: (T, T) -> bool): seq<T> {
    if l == [] then [] else Insert(Sort(l[1..], before), l[0], before)
  }

  lemma {:induction false} InsertElements<T(!new)>(l: seq<T>, x: T, before: (T, T) -> bool)
    ensures forall y :: y in Insert(l, x, before) <==> y == x || y in l
    ensures |Insert(l, x, before)| == |l| + 1
  {
    if l != [] {
      assert l == [l[0]] + l[1..];
      InsertElements(l[1..], x, before);
    }
  }

  lemma {:induction false} SortElements<T(!new)>(l: seq<T>, before: (T, T) -> bool)
    ensures forall y :: y in Sort(l, before) <==> y in l
    ensures |Sort(l, before)| == |l|
  {
    if l != [] {
      assert l == [l[0]] + l[1..];
      SortElements(l[1..], before);
      InsertElements(Sort(l[1..], before), l[0], before);
    }
  }

  ghost predicate Transitive<T(!new)>(before: (T, T) -> bool) {
    forall x, y, z :: before(x, y) && before(y, z) ==> before(x, z)
  }

  /** The order decides between any two different elements of s. */
  ghost predicate Decides<T(!new)>(s: set<T>, before: (T, T) -> bool) {
    forall x, y :: x in s && y in s && x != y ==> before(x, y) || before(y, x)
  }

  lemma {:induction false} InsertOrdered<T(!new)>(l: seq<T>, x: T, before: (T, T) -> bool)
    requires Transitive(before) && Ordered(l, before)
    requires forall y :: y in l ==> before(x, y) || before(y, x)
    ensures Ordered(Insert(l, x, before), before)
  {
    if l != [] {
      var rest := l[1..];
      assert l == [l[0]] + rest;
      if before(x, l[0]) {
        forall i | 0 <= i < |l|
          ensures before(x, l[i])
        {
          assert i > 0 ==> before(l[0], l[i]);
        }
      } else {
        InsertOrdered(rest, x, before);
        InsertElements(rest, x, before);
        forall y | y in Insert(rest, x, before)
          ensures before(l[0], y)
        {
          assert l[0] in l;
          if y != x {
            var i :| 0 <= i < |rest| && rest[i] == y;
            assert before(l[0], l[i + 1]);
          }
        }
      }
    }
  }

  /** Sorting distinct elements enumerates their set. */
  lemma {:induction false} SortIsInOrder<T(!new)>(l: seq<T>, before: (T, T) -> bool)
    requires Asymmetric(before) && Transitive(before) && Decides(Elements(l), before)
    requires forall i, j :: 0 <= i < j < |l| ==> l[i] != l[j]
    ensures Ordered(Sort(l, before), before)
    ensures Sort(l, before) == InOrder(Elements(l), before)
  {
    SortOrdered(l, before);
    SortElements(l, before);
    assert Elements(Sort(l, before)) == Elements(l);
    OrderedIsInOrder(Sort(l, before), before);
  }

  lemma {:induction false} SortOrdered<T(!new)>(l: seq<T>, before: (T, T) -> bool)
    requires Transitive(before) && Decides(Elements(l), before)
    requires forall i, j :: 0 <= i < j < |l| ==> l[i] != l[j]
    ensures Ordered(Sort(l, before), before)
  {
    if l != [] {
      var x, rest := l[0], l[1..];
      assert l == [x] + rest;
      assert x in Elements(l) && forall y :: y in rest ==> y in Elements(l);
      SortOrdered(rest, before);
      SortElements(rest, before);
      forall y | y in Sort(rest, before)
        ensures before(x, y) || before(y, x)
      {
        var i :| 0 <= i < |rest| && rest[i] == y;
        assert l[0] != l[i + 1];
      }
      InsertOrdered(Sort(rest, before), x, before);
    }
  }

  /** A set that the order decides has a first element unless it is empty. */
  lemma {:induction false} FirstExists<T(!new)>(s: set<T>, before: (T, T) -> bool) returns (x: T)
    requires s != {} && Transitive(before) && Decides(s, before)
    ensures IsFirst(s, before, x)
  {
    var w :| w in s;
    var rest := s - {w};
    assert forall z :: z in s ==> z == w || z in rest;
    x := w;
    if rest != {} {
      var y := FirstExists(rest, before);
      assert before(w, y) || before(y, w);
      if before(y, w) {
        x := y;
        forall z | z in s && z != y
          ensures before(y, z)
        {
          assert z == w || z in rest;
        }
      } else {
        forall z | z in s && z != w
          ensures before(w, z)
        {
          assert z in rest;
          assert z != y ==> before(y, z);
        }
      }
    }
  }

  lemma {:induction false} InOrderElements<T(!new)>(s: set<T>, before: (T, T) -> bool)
    requires Asymmetric(before) && Transitive(before) && Decides(s, before)
    ensures Elements(InOrder(s, before)) == s && |InOrder(s, before)| == |s|
    ensures Ordered(InOrder(s, before), before)
  {
    if s != {} {
      var x := FirstExists(s, before);
      assert forall y :: IsFirst(s, before, y) ==> y == x;
      var rest := InOrder(s - {x}, before);
      InOrderElements(s - {x}, before);
      assert InOrder(s, before) == [x] + rest;
      forall j | 0 <= j < |rest|
        ensures before(x, rest[j]) && rest[j] in s - {x}
      {
        assert rest[j] in Elements(rest);
      }
      assert forall y :: y in [x] + rest <==> y == x || y in Elements(rest);
    }
  }

  /** A part is no larger than the whole, and smaller if it is not the whole. */
  lemma SubsetSize<T>(s: set<T>, t: set<T>)
    requires s <= t
    ensures |s| <= |t| && (s != t ==> |s| < |t|)
  {
    assert t == s + (t - s);
    assert s != t ==> t - s != {};
  }

  lemma {:induction false} ElementsCount<T(!new)>(l: seq<T>)
    ensures |Elements(l)| <= |l|
    ensures Distinct(l) ==> |Elements(l)| == |l|
  {
    if l != [] {
      var init, last := l[..|l| - 1], l[|l| - 1];
      assert l == init + [last];
      ElementsCount(init);
      assert Elements(l) == Elements(init) + {last};
    }
  }
}
