/** Slash-joined relative paths and the bytewise order the scanner compares them by. */
module PathOrder {

  /** One path component: nonempty and free of the separator. */
  predicate IsName(s: string) {
    s != "" && '/' !in s
  }

  type Name = s: string | IsName(s) witness "x"

  /** Lexicographic order on strings. */
  predicate Less(a: string, b: string) {
    b != "" && (a == "" || a[0] < b[0] || (a[0] == b[0] && Less(a[1..], b[1..])))
  }

  /** The path of an entry called name inside the directory at path parent ("" is the root). */
  function Join(parent: string, name: string): string {
    if parent == "" then name else parent + "/" + name
  }

  lemma {:induction false} LessIrreflexive(a: string)
    ensures !Less(a, a)
  {
    if a != "" {
      LessIrreflexive(a[1..]);
    }
  }

  lemma {:induction false} LessTransitive(a: string, b: string, c: string)
    requires Less(a, b) && Less(b, c)
    ensures Less(a, c)
  {
    if a != "" && a[0] == b[0] == c[0] {
      LessTransitive(a[1..], b[1..], c[1..]);
    }
  }

  lemma LessAsymmetric(a: string, b: string)
    requires Less(a, b)
    ensures !Less(b, a)
  {
    LessIrreflexive(a);
    if Less(b, a) {
      LessTransitive(a, b, a);
    }
  }

  lemma {:induction false} LessTotal(a: string, b: string)
    ensures a == b || Less(a, b) || Less(b, a)
  {
    if a != "" && b != "" && a[0] == b[0] {
      LessTotal(a[1..], b[1..]);
      if a[1..] == b[1..] {
        assert a == [a[0]] + a[1..] == [b[0]] + b[1..] == b;
      }
    }
  }

  lemma {:induction false} ExtensionIsLater(a: string, suffix: string)
    requires suffix != ""
    ensures Less(a, a + suffix)
  {
    if a == "" {
      assert a + suffix == suffix;
    } else {
      ExtensionIsLater(a[1..], suffix);
      assert (a + suffix)[1..] == a[1..] + suffix;
    }
  }

  /** Every entry sorts after the directory that holds it. */
  lemma JoinIsLater(parent: string, name: string)
    requires name != ""
    ensures Less(parent, Join(parent, name))
  {
    if parent != "" {
      ExtensionIsLater(parent, "/" + name);
      assert parent + ("/" + name) == parent + "/" + name;
    }
  }

  /** Where the last separator of a joined path stands. */
  lemma LastSlash(parent: string, name: string)
    requires IsName(name)
    ensures parent == "" ==> '/' !in Join(parent, name)
    ensures parent != "" ==> |parent| < |Join(parent, name)| && Join(parent, name)[|parent|] == '/'
    ensures forall i :: |parent| < i < |Join(parent, name)| ==> Join(parent, name)[i] != '/'
  {
    forall i | |parent| < i < |Join(parent, name)|
      ensures Join(parent, name)[i] != '/'
    {
      if parent == "" {
        assert name[i] in name;
      } else {
        assert Join(parent, name)[i] == name[i - |parent| - 1];
        assert name[i - |parent| - 1] in name;
      }
    }
  }

  /** The last component and the rest can be read back from a joined path. */
  lemma JoinInjective(p: string, n: string, q: string, m: string)
    requires IsName(n) && IsName(m)
    requires Join(p, n) == Join(q, m)
    ensures p == q && n == m
  {
    var s := Join(p, n);
    LastSlash(p, n);
    LastSlash(q, m);
    assert p == "" <==> '/' !in s;
    assert q == "" <==> '/' !in s;
    assert |p| == |q|;
    assert p == s[..|p|] && q == s[..|q|];
    if p != "" {
      assert n == s[|p| + 1..] && m == s[|q| + 1..];
    }
  }

  /** Two steps of weak and strict comparison chain into a strict one. */
  lemma LessChain(a: string, b: string, c: string)
    requires !Less(b, a)
    requires Less(b, c)
    ensures Less(a, c)
  {
    LessTotal(a, b);
    if a != b {
      LessTransitive(a, b, c);
    }
  }

  /** Among finitely many keys one has a least image. */
  lemma {:induction false} LeastExists<K(!new)>(keys: set<K>, key: K -> string) returns (least: K)
    requires keys != {}
    ensures least in keys
    ensures forall k :: k in keys ==> !Less(key(k), key(least))
  {
    least :| least in keys;
    var rest := keys - {least};
    LessIrreflexive(key(least));
    assert keys == rest + {least};
    if rest != {} {
      var other := LeastExists(rest, key);
      forall k | k in keys
        ensures k == least || !Less(key(k), key(other))
      {
        assert k == least || k in rest;
      }
      if Less(key(other), key(least)) {
        LessTotal(key(least), key(other));
        forall k | k in keys
          ensures !Less(key(k), key(other))
        {
          if k == least && Less(key(k), key(other)) {
            LessTransitive(key(least), key(other), key(least));
          }
        }
        least := other;
      } else {
        forall k | k in keys
          ensures !Less(key(k), key(least))
        {
          if k != least && Less(key(k), key(least)) {
            assert k in rest;
            LessChain(key(other), key(k), key(least));
          }
        }
      }
    }
  }

  // Paths as sequences of components.

  /** filepath.Dir: the path without its last component. */
  function Dir<T>(p: seq<T>): seq<T> {
    if p == [] then [] else p[..|p| - 1]
  }
}
