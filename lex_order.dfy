/**
 * The ordering Java's `String.compareTo` imposes (character by character, a proper
 * prefix first) and the sorted enumeration of a key set that
 * `new ArrayList<>(keys)` followed by `Collections.sort` produces.
 */
module LexOrder {

  /** `a` is at or before `b` in the order of `String.compareTo`; a prefix sorts first. */
  predicate LexLe(a: string, b: string): (r: bool)
    ensures |a| <= |b| && a == b[..|a|] ==> r
    decreases |a|
  {
    if |a| == 0 then true
    else if |b| == 0 then false
    else if a[0] != b[0] then a[0] < b[0]
    else LexLe(a[1..], b[1..])
  }

  /**
   * The order `String.compareTo` documents: `a` is a prefix of `b`, or at the first
   * index where they differ `a` has the smaller character.
   */
  ghost predicate CompareToLe(a: string, b: string)
  {
    || (|a| <= |b| && a == b[..|a|])
    || exists k :: 0 <= k < |a| && k < |b| && a[..k] == b[..k] && a[k] < b[k]
  }

  /** When the first characters differ, they alone decide the documented order. */
  lemma HeadsDiffer(a: string, b: string)
    requires |a| > 0 && |b| > 0 && a[0] != b[0]
    ensures CompareToLe(a, b) <==> a[0] < b[0]
  {
    // no prefix of positive length is common to both
    forall k | 0 < k <= |a| && k <= |b|
      ensures a[..k] != b[..k]
    {
      assert a[..k][0] != b[..k][0];
    }
    assert a[..0] == b[..0];
  }

  /** When the first characters agree, the documented order is that of the rests. */
  lemma HeadsEqual(a: string, b: string)
    requires |a| > 0 && |b| > 0 && a[0] == b[0]
    ensures CompareToLe(a, b) <==> CompareToLe(a[1..], b[1..])
  {
    var a', b' := a[1..], b[1..];
    if CompareToLe(a', b') {
      if |a'| <= |b'| && a' == b'[..|a'|] {
        assert a == [a[0]] + a';
        assert b[..|a|] == [b[0]] + b'[..|a'|];
      } else {
        var k :| 0 <= k < |a'| && k < |b'| && a'[..k] == b'[..k] && a'[k] < b'[k];
        assert a[..k + 1] == [a[0]] + a'[..k];
        assert b[..k + 1] == [b[0]] + b'[..k];
      }
    }
    if CompareToLe(a, b) {
      if |a| <= |b| && a == b[..|a|] {
        assert a' == b'[..|a'|];
      } else {
        var k :| 0 <= k < |a| && k < |b| && a[..k] == b[..k] && a[k] < b[k];
        assert k > 0;
        assert a'[..k - 1] == a[..k][1..];
        assert b'[..k - 1] == b[..k][1..];
        assert a'[k - 1] == a[k];
      }
    }
  }

  /** `LexLe` is exactly the documented order of `String.compareTo`. */
  lemma {:induction false} LexLeCompareTo(a: string, b: string)
    ensures LexLe(a, b) <==> CompareToLe(a, b)
    decreases |a|
  {
    if |a| == 0 || |b| == 0 {
    } else if a[0] != b[0] {
      HeadsDiffer(a, b);
    } else {
      HeadsEqual(a, b);
      LexLeCompareTo(a[1..], b[1..]);
    }
  }

  /** `a` sorts strictly before `b`. */
  predicate LexLt(a: string, b: string)
  {
    LexLe(a, b) && a != b
  }

  lemma {:induction false} LexLeReflexive(a: string)
    ensures LexLe(a, a)
  {
    if |a| > 0 {
      LexLeReflexive(a[1..]);
    }
  }

  lemma {:induction false} LexLeTotal(a: string, b: string)
    ensures LexLe(a, b) || LexLe(b, a)
  {
    if |a| > 0 && |b| > 0 && a[0] == b[0] {
      LexLeTotal(a[1..], b[1..]);
    }
  }

  lemma {:induction false} LexLeAntisymmetric(a: string, b: string)
    requires LexLe(a, b) && LexLe(b, a)
    ensures a == b
  {
    if |a| > 0 && |b| > 0 {
      LexLeAntisymmetric(a[1..], b[1..]);
      assert a == [a[0]] + a[1..];
      assert b == [b[0]] + b[1..];
    }
  }

  lemma {:induction false} LexLeTransitive(a: string, b: string, c: string)
    requires LexLe(a, b) && LexLe(b, c)
    ensures LexLe(a, c)
  {
    if |a| > 0 && |b| > 0 && |c| > 0 && a[0] == b[0] == c[0] {
      LexLeTransitive(a[1..], b[1..], c[1..]);
    }
  }

  /** Strictly ascending, hence free of duplicates. */
  predicate StrictlySorted(s: seq<string>)
  {
    forall i, j :: 0 <= i < j < |s| ==> LexLt(s[i], s[j])
  }

  /** `m` is the first of `keys` in lexicographic order. */
  ghost predicate IsLeast(m: string, keys: set<string>)
  {
    m in keys && forall y :: y in keys ==> LexLe(m, y)
  }

  lemma {:induction false} LeastExists(keys: set<string>)
    requires keys != {}
    ensures exists m :: IsLeast(m, keys)
    decreases keys
  {
    var x :| x in keys;
    var rest := keys - {x};
    if rest == {} {
      LexLeReflexive(x);
      assert keys == {x};
      assert IsLeast(x, keys);
    } else {
      LeastExists(rest);
      var y :| IsLeast(y, rest);
      LexLeTotal(x, y);
      if LexLe(x, y) {
        forall z | z in keys
          ensures LexLe(x, z)
        {
          if z == x {
            LexLeReflexive(x);
          } else {
            LexLeTransitive(x, y, z);
          }
        }
        assert IsLeast(x, keys);
      } else {
        LexLeReflexive(y);
        assert IsLeast(y, keys);
      }
    }
  }

  /**
   * The keys of a set in ascending order: the list that `new ArrayList<>(keys)`
   * followed by `Collections.sort` yields.
   */
  ghost function SortedKeys(keys: set<string>): (r: seq<string>)
    ensures StrictlySorted(r)
    ensures forall y :: y in r <==> y in keys
    decreases keys
  {
    if keys == {} then []
    else
      LeastExists(keys);
      var m :| IsLeast(m, keys);
      var rest := SortedKeys(keys - {m});
      assert forall j :: 0 <= j < |rest| ==> LexLt(m, rest[j]);
      [m] + rest
  }

  /** The head of a strictly sorted enumeration of `keys` is their least element. */
  lemma SortedHeadLeast(s: seq<string>, keys: set<string>)
    requires StrictlySorted(s) && s != []
    requires forall y :: y in s <==> y in keys
    ensures IsLeast(s[0], keys)
  {
    forall y | y in keys
      ensures LexLe(s[0], y)
    {
      var j :| 0 <= j < |s| && s[j] == y;
      if j == 0 {
        LexLeReflexive(y);
      }
    }
  }

  /** The tail of a strictly sorted enumeration of `keys` enumerates the others. */
  lemma SortedTailKeys(s: seq<string>, keys: set<string>)
    requires StrictlySorted(s) && s != []
    requires forall y :: y in s <==> y in keys
    ensures StrictlySorted(s[1..])
    ensures forall y :: y in s[1..] <==> y in keys - {s[0]}
  {
    var tail := s[1..];
    forall i, j | 0 <= i < j < |tail|
      ensures LexLt(tail[i], tail[j])
    {
      assert tail[i] == s[i + 1] && tail[j] == s[j + 1];
    }
    forall y
      ensures y in tail <==> y in keys - {s[0]}
    {
      if y in tail {
        var j :| 0 <= j < |tail| && tail[j] == y;
        assert LexLt(s[0], s[j + 1]);
      }
      if y in keys - {s[0]} {
        var j :| 0 <= j < |s| && s[j] == y;
        assert j != 0;
        assert tail[j - 1] == y;
      }
    }
  }

  /** A sorted, duplicate-free enumeration of a set is unique. */
  lemma {:induction false} SortedKeysUnique(s: seq<string>, keys: set<string>)
    requires StrictlySorted(s)
    requires forall y :: y in s <==> y in keys
    ensures s == SortedKeys(keys)
    decreases keys
  {
    var r := SortedKeys(keys);
    if s == [] {
      assert keys == {};
    } else {
      assert s[0] in keys;
      assert r == [r[0]] + SortedKeys(keys - {r[0]});
      assert IsLeast(r[0], keys);
      SortedHeadLeast(s, keys);
      LexLeAntisymmetric(s[0], r[0]);
      SortedTailKeys(s, keys);
      SortedKeysUnique(s[1..], keys - {r[0]});
      assert s == [s[0]] + s[1..];
    }
  }

  /** Inserts `x` at its place in a strictly sorted list. */
  function Insert(x: string, s: seq<string>): (r: seq<string>)
    requires StrictlySorted(s) && x !in s
    ensures StrictlySorted(r)
    ensures forall y :: y in r <==> y == x || y in s
    decreases |s|
  {
    if s == [] then [x]
    else if LexLe(x, s[0]) then
      SortedPrepend(x, s);
      [x] + s
    else
      LexLeTotal(x, s[0]);
      var tail := Insert(x, s[1..]);
      assert forall y :: y in tail ==> LexLt(s[0], y) by {
        forall y | y in tail
          ensures LexLt(s[0], y)
        {
          if y != x {
            var j :| 0 <= j < |s[1..]| && s[1..][j] == y;
            assert s[j + 1] == y;
          }
        }
      }
      assert forall j :: 0 <= j < |tail| ==> tail[j] in tail;
      [s[0]] + tail
  }

  lemma SortedPrepend(x: string, s: seq<string>)
    requires StrictlySorted(s) && x !in s && |s| > 0 && LexLe(x, s[0])
    ensures StrictlySorted([x] + s)
  {
    forall j | 0 <= j < |s|
      ensures LexLt(x, s[j])
    {
      if j > 0 {
        LexLeTransitive(x, s[0], s[j]);
      }
    }
  }

  /**
   * Copies a key set into a list and sorts it, as `new ArrayList<>(keys)` and
   * `Collections.sort` do.
   */
  method SortNames(keys: set<string>) returns (names: seq<string>)
    ensures names == SortedKeys(keys)
  {
    names := [];
    var rest := keys;
    while rest != {}
      invariant rest <= keys
      invariant StrictlySorted(names)
      invariant forall y :: y in names <==> y in keys && y !in rest
      decreases rest
    {
      var n :| n in rest;
      names := Insert(n, names);
      rest := rest - {n};
    }
    SortedKeysUnique(names, keys);
  }
}
