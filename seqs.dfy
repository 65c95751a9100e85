/** Order-preserving filtering of sequences, as Swift's `Array.filter` does it. */
module Seqs {

  /** The elements of `s` that satisfy `p`, in their original order. */
  function Filter<T>(s: seq<T>, p: T -> bool): (r: seq<T>)
    ensures |r| <= |s|
  {
    if s == [] then [] else (if p(s[0]) then [s[0]] else []) + Filter(s[1..], p)
  }

  /** An element is kept exactly when it is in `s` and passes the test. */
  lemma {:induction false} FilterMembers<T>(s: seq<T>, p: T -> bool)
    ensures forall i :: 0 <= i < |Filter(s, p)| ==> Filter(s, p)[i] in s && p(Filter(s, p)[i])
    ensures forall i :: 0 <= i < |s| && p(s[i]) ==> s[i] in Filter(s, p)
  {
    if s != [] {
      FilterMembers(s[1..], p);
      var r := Filter(s, p);
      var head := if p(s[0]) then [s[0]] else [];
      assert r == head + Filter(s[1..], p);
      forall i | 0 <= i < |r| ensures r[i] in s && p(r[i]) {
        if i >= |head| {
          assert r[i] == Filter(s[1..], p)[i - |head|];
        }
      }
      forall i | 0 <= i < |s| && p(s[i]) ensures s[i] in r {
        if i > 0 {
          assert s[i] == s[1..][i - 1];
        }
      }
    }
  }

  lemma FilterSnoc<T>(s: seq<T>, x: T, p: T -> bool)
    ensures Filter(s + [x], p) == Filter(s, p) + (if p(x) then [x] else [])
  {
    FilterConcat(s, [x], p);
    assert [x][1..] == [];
  }

  /** `r` can be obtained from `s` by deleting elements, keeping the order of the rest. */
  ghost predicate IsSubsequence<T>(r: seq<T>, s: seq<T>)
    decreases |s|
  {
    r == [] || (s != [] && ((r[0] == s[0] && IsSubsequence(r[1..], s[1..])) || IsSubsequence(r, s[1..])))
  }

  lemma {:induction false} FilterIsSubsequence<T>(s: seq<T>, p: T -> bool)
    ensures IsSubsequence(Filter(s, p), s)
  {
    if s != [] {
      FilterIsSubsequence(s[1..], p);
      var r := Filter(s, p);
      if p(s[0]) {
        assert r[0] == s[0] && r[1..] == Filter(s[1..], p);
      } else {
        assert r == Filter(s[1..], p);
      }
    }
  }

  lemma {:induction false} FilterConcat<T>(a: seq<T>, b: seq<T>, p: T -> bool)
    ensures Filter(a + b, p) == Filter(a, p) + Filter(b, p)
  {
    if a == [] {
      assert a + b == b;
    } else {
      var head := if p(a[0]) then [a[0]] else [];
      assert (a + b)[0] == a[0] && (a + b)[1..] == a[1..] + b;
      assert Filter(a + b, p) == head + Filter(a[1..] + b, p);
      FilterConcat(a[1..], b, p);
      assert Filter(a, p) == head + Filter(a[1..], p);
    }
  }

  /** No two elements of `s` share a key. */
  ghost predicate DistinctBy<T, K>(s: seq<T>, key: T -> K)
  {
    forall i, j :: 0 <= i < j < |s| ==> key(s[i]) != key(s[j])
  }

  /** Filtering never makes two elements share a key. */
  lemma {:induction false} FilterKeepsDistinct<T, K>(s: seq<T>, p: T -> bool, key: T -> K)
    requires DistinctBy(s, key)
    ensures DistinctBy(Filter(s, p), key)
  {
    if s != [] {
      assert DistinctBy(s[1..], key) by {
        forall i, j | 0 <= i < j < |s[1..]| ensures key(s[1..][i]) != key(s[1..][j]) {
          assert s[1..][i] == s[i + 1] && s[1..][j] == s[j + 1];
        }
      }
      FilterKeepsDistinct(s[1..], p, key);
      FilterMembers(s[1..], p);
      var rest := Filter(s[1..], p);
      if p(s[0]) {
        forall j | 0 <= j < |rest| ensures key(s[0]) != key(rest[j]) {
          var k :| 0 <= k < |s[1..]| && s[1..][k] == rest[j];
          assert s[k + 1] == rest[j];
        }
        var r := [s[0]] + rest;
        forall i, j | 0 <= i < j < |r| ensures key(r[i]) != key(r[j]) {
          assert r[j] == rest[j - 1];
          if i > 0 {
            assert r[i] == rest[i - 1];
          }
        }
      }
    }
  }

  /** No element occurs twice. */
  ghost predicate Distinct<T>(s: seq<T>)
  {
    forall i, j :: 0 <= i < j < |s| ==> s[i] != s[j]
  }

  /** The elements of `s` not in `gone`, in their original order. */
  function Without<T(==)>(s: seq<T>, gone: set<T>): (r: seq<T>)
    ensures |r| <= |s|
  {
    if s == [] then [] else (if s[0] in gone then [] else [s[0]]) + Without(s[1..], gone)
  }

  /** An element is kept exactly when it is in `s` and not in `gone`. */
  lemma {:induction false} WithoutMembers<T>(s: seq<T>, gone: set<T>)
    ensures forall i :: 0 <= i < |Without(s, gone)| ==> Without(s, gone)[i] in s && Without(s, gone)[i] !in gone
    ensures forall i :: 0 <= i < |s| && s[i] !in gone ==> s[i] in Without(s, gone)
  {
    if s != [] {
      WithoutMembers(s[1..], gone);
      var r := Without(s, gone);
      var head := if s[0] in gone then [] else [s[0]];
      assert r == head + Without(s[1..], gone);
      forall i | 0 <= i < |r| ensures r[i] in s && r[i] !in gone {
        if i >= |head| {
          assert r[i] == Without(s[1..], gone)[i - |head|];
        }
      }
      forall i | 0 <= i < |s| && s[i] !in gone ensures s[i] in r {
        if i > 0 {
          assert s[i] == s[1..][i - 1];
        }
      }
    }
  }

  lemma {:induction false} WithoutNothing<T>(s: seq<T>)
    ensures Without(s, {}) == s
  {
    if s != [] {
      WithoutNothing(s[1..]);
    }
  }

  /** Removing `g1` and then `g2` is removing both at once. */
  lemma {:induction false} WithoutTwice<T>(s: seq<T>, g1: set<T>, g2: set<T>)
    ensures Without(Without(s, g1), g2) == Without(s, g1 + g2)
  {
    if s != [] {
      WithoutTwice(s[1..], g1, g2);
      var head := if s[0] in g1 then [] else [s[0]];
      assert Without(s, g1) == head + Without(s[1..], g1);
      WithoutConcat(head, Without(s[1..], g1), g2);
      if s[0] !in g1 {
        assert head[1..] == [];
      }
    }
  }

  lemma {:induction false} WithoutConcat<T>(a: seq<T>, b: seq<T>, gone: set<T>)
    ensures Without(a + b, gone) == Without(a, gone) + Without(b, gone)
  {
    if a == [] {
      assert a + b == b;
    } else {
      var head := if a[0] in gone then [] else [a[0]];
      assert (a + b)[0] == a[0] && (a + b)[1..] == a[1..] + b;
      assert Without(a + b, gone) == head + Without(a[1..] + b, gone);
      WithoutConcat(a[1..], b, gone);
      assert Without(a, gone) == head + Without(a[1..], gone);
    }
  }

  /** Two removal sets that agree on the elements of `s` remove the same elements. */
  lemma {:induction false} WithoutCongruent<T>(s: seq<T>, g1: set<T>, g2: set<T>)
    requires forall i :: 0 <= i < |s| ==> (s[i] in g1 <==> s[i] in g2)
    ensures Without(s, g1) == Without(s, g2)
  {
    if s != [] {
      WithoutCongruent(s[1..], g1, g2);
    }
  }

  /** Removing elements never makes two of the rest equal. */
  lemma {:induction false} WithoutKeepsDistinct<T>(s: seq<T>, gone: set<T>)
    requires Distinct(s)
    ensures Distinct(Without(s, gone))
  {
    if s != [] {
      assert Distinct(s[1..]) by {
        forall i, j | 0 <= i < j < |s[1..]| ensures s[1..][i] != s[1..][j] {
          assert s[1..][i] == s[i + 1] && s[1..][j] == s[j + 1];
        }
      }
      WithoutKeepsDistinct(s[1..], gone);
      WithoutMembers(s[1..], gone);
      var rest := Without(s[1..], gone);
      if s[0] !in gone {
        forall j | 0 <= j < |rest| ensures s[0] != rest[j] {
          var k :| 0 <= k < |s[1..]| && s[1..][k] == rest[j];
          assert s[k + 1] == rest[j];
        }
        var r := [s[0]] + rest;
        forall i, j | 0 <= i < j < |r| ensures r[i] != r[j] {
          assert r[j] == rest[j - 1];
          if i > 0 {
            assert r[i] == rest[i - 1];
          }
        }
      }
    }
  }
}
