/** Sequence helpers shared by the engine, the store and the form:
    Array.prototype.filter, first-occurrence de-duplication (the iteration
    order of a JavaScript Set), index lookup and order-preserving subsequences. */
module Seqs {

  /** The elements of `s` that satisfy `p`, in their original order. */
  function Filter<T(!new)>(s: seq<T>, p: T -> bool): (r: seq<T>)
    ensures |r| <= |s|
    ensures forall x :: x in r <==> x in s && p(x)
    decreases |s|
  {
    if s == [] then []
    else
      var init := Filter(s[..|s| - 1], p);
      assert s == s[..|s| - 1] + [s[|s| - 1]];
      if p(s[|s| - 1]) then init + [s[|s| - 1]] else init
  }

  /** Each kept element is kept as often as it occurs. */
  lemma {:induction false} FilterMultiset<T(!new)>(s: seq<T>, p: T -> bool)
    ensures forall x :: multiset(Filter(s, p))[x] == if p(x) then multiset(s)[x] else 0
    decreases |s|
  {
    if s != [] {
      var init := s[..|s| - 1];
      FilterMultiset(init, p);
      assert s == init + [s[|s| - 1]];
    }
  }

  /** `a` is obtained from `b` by deleting elements, keeping the order of the rest. */
  ghost predicate IsSubsequence<T>(a: seq<T>, b: seq<T>)
    decreases |b|
  {
    if a == [] then true
    else if b == [] then false
    else if a[|a| - 1] == b[|b| - 1] && IsSubsequence(a[..|a| - 1], b[..|b| - 1]) then true
    else IsSubsequence(a, b[..|b| - 1])
  }

  lemma {:induction false} FilterIsSubsequence<T(!new)>(s: seq<T>, p: T -> bool)
    ensures IsSubsequence(Filter(s, p), s)
    decreases |s|
  {
    if s != [] {
      var init := s[..|s| - 1];
      FilterIsSubsequence(init, p);
      var r := Filter(s, p);
      if p(s[|s| - 1]) {
        assert r[..|r| - 1] == Filter(init, p);
      } else if r != [] {
        assert r == Filter(init, p);
      }
    }
  }

  lemma {:induction false} FilterAppend<T(!new)>(a: seq<T>, b: seq<T>, p: T -> bool)
    ensures Filter(a + b, p) == Filter(a, p) + Filter(b, p)
    decreases |b|
  {
    if b == [] {
      assert a + b == a;
    } else {
      var b' := b[..|b| - 1];
      assert (a + b)[..|a + b| - 1] == a + b';
      assert (a + b)[|a + b| - 1] == b[|b| - 1];
      FilterAppend(a, b', p);
    }
  }

  /** Filtering with a predicate that every element satisfies changes nothing. */
  lemma {:induction false} FilterAll<T(!new)>(s: seq<T>, p: T -> bool)
    requires forall x :: x in s ==> p(x)
    ensures Filter(s, p) == s
    decreases |s|
  {
    if s != [] {
      var init := s[..|s| - 1];
      assert forall x :: x in init ==> x in s;
      FilterAll(init, p);
      assert p(s[|s| - 1]);
      calc {
        Filter(s, p);
        Filter(init, p) + [s[|s| - 1]];
        init + [s[|s| - 1]];
        s;
      }
    }
  }

  /** Two predicates that never hold together select at most |s| elements in all. */
  lemma {:induction false} FilterDisjointCount<T(!new)>(s: seq<T>, p: T -> bool, q: T -> bool)
    requires forall x :: !(p(x) && q(x))
    ensures |Filter(s, p)| + |Filter(s, q)| <= |s|
    decreases |s|
  {
    if s != [] {
      FilterDisjointCount(s[..|s| - 1], p, q);
    }
  }

  ghost predicate Distinct<T>(s: seq<T>) {
    forall i, j :: 0 <= i < j < |s| ==> s[i] != s[j]
  }

  /** Index of the first occurrence of `x` in `s`, or |s| when it does not occur. */
  function IndexOf<T(==)>(s: seq<T>, x: T): (i: nat)
    ensures i <= |s|
    ensures i < |s| <==> x in s
    ensures i < |s| ==> s[i] == x && x !in s[..i]
  {
    if s == [] then 0
    else if s[0] == x then 0
    else
      var j := IndexOf(s[1..], x);
      assert j < |s[1..]| ==> s[..j + 1] == [s[0]] + s[1..][..j];
      j + 1
  }

  lemma IndexOfPrefix<T>(s: seq<T>, k: nat, x: T)
    requires k <= |s| && x in s[..k]
    ensures IndexOf(s, x) == IndexOf(s[..k], x) < k
  {
    var i := IndexOf(s[..k], x);
    assert s[..k][..i] == s[..i];
  }

  /** The distinct elements of `s` in order of first occurrence: what
      `Array.from(new Set(s))` yields. */
  function Unique<T(==,!new)>(s: seq<T>): (r: seq<T>)
    ensures |r| <= |s|
    ensures forall x :: x in r <==> x in s
    ensures Distinct(r)
    decreases |s|
  {
    if s == [] then []
    else
      var u := Unique(s[..|s| - 1]);
      assert s == s[..|s| - 1] + [s[|s| - 1]];
      if s[|s| - 1] in u then u else u + [s[|s| - 1]]
  }

  /** Unique lists elements in the order in which they are first encountered. */
  lemma {:induction false} UniqueFirstEncounterOrder<T(!new)>(s: seq<T>)
    ensures forall i, j :: 0 <= i < j < |Unique(s)| ==> IndexOf(s, Unique(s)[i]) < IndexOf(s, Unique(s)[j])
    decreases |s|
  {
    if s != [] {
      var n := |s| - 1;
      var init := s[..n];
      UniqueFirstEncounterOrder(init);
      var u := Unique(init);
      var r := Unique(s);
      forall i, j | 0 <= i < j < |r| ensures IndexOf(s, r[i]) < IndexOf(s, r[j]) {
        assert r[i] in init;
        IndexOfPrefix(s, n, r[i]);
        if j < |u| {
          assert r[j] == u[j] && r[i] == u[i];
          IndexOfPrefix(s, n, r[j]);
        } else {
          assert r[j] == s[n] && s[n] !in init;
          assert s[..n] == init;
          assert IndexOf(s, r[j]) == n;
        }
      }
    }
  }

  /** The first `n` elements (Array.prototype.slice(0, n)). */
  function Take<T>(s: seq<T>, n: nat): (r: seq<T>)
    ensures |r| == if |s| <= n then |s| else n
    ensures r == s[..|r|]
  {
    if |s| <= n then s else s[..n]
  }

  /** Array.prototype.reverse. */
  function Reverse<T>(s: seq<T>): (r: seq<T>)
    ensures |r| == |s|
    ensures forall k :: 0 <= k < |s| ==> r[k] == s[|s| - 1 - k]
  {
    if s == [] then [] else Reverse(s[1..]) + [s[0]]
  }

  /** Filtering a sequence without repetitions keeps the elements in the order of their positions. */
  lemma {:induction false} FilterIndexIncreasing<T(!new)>(s: seq<T>, p: T -> bool)
    requires Distinct(s)
    ensures forall i, j :: 0 <= i < j < |Filter(s, p)| ==> IndexOf(s, Filter(s, p)[i]) < IndexOf(s, Filter(s, p)[j])
    decreases |s|
  {
    if s != [] {
      var n := |s| - 1;
      var init := s[..n];
      FilterIndexIncreasing(init, p);
      var f := Filter(init, p);
      var r := Filter(s, p);
      forall i, j | 0 <= i < j < |r| ensures IndexOf(s, r[i]) < IndexOf(s, r[j]) {
        assert r[i] in f;
        IndexOfPrefix(s, n, r[i]);
        if j < |f| {
          assert r[j] == f[j] && r[i] == f[i];
          IndexOfPrefix(s, n, r[j]);
        } else {
          assert r[j] == s[n];
          assert s[n] !in init by {
            forall k | 0 <= k < n ensures init[k] != s[n] {
              assert init[k] == s[k];
            }
          }
          assert IndexOf(s, r[j]) == n;
        }
      }
    }
  }

  /** Filtering with a predicate that no element satisfies leaves nothing. */
  lemma {:induction false} FilterNone<T(!new)>(s: seq<T>, p: T -> bool)
    requires forall x :: x in s ==> !p(x)
    ensures Filter(s, p) == []
    decreases |s|
  {
    if s != [] {
      var init := s[..|s| - 1];
      assert forall x :: x in init ==> x in s;
      FilterNone(init, p);
      assert !p(s[|s| - 1]);
    }
  }

  lemma {:induction false} DistinctCount<T>(s: seq<T>, x: T)
    requires Distinct(s)
    ensures multiset(s)[x] <= 1
    decreases |s|
  {
    if s != [] {
      var t := s[..|s| - 1];
      assert s == t + [s[|s| - 1]];
      DistinctCount(t, x);
      if x == s[|s| - 1] {
        assert x !in t;
      }
    }
  }

  /** Two equal entries at distinct positions give a multiplicity of at least two. */
  lemma Duplicate<T>(r: seq<T>, i: nat, j: nat)
    requires i < j < |r| && r[i] == r[j]
    ensures multiset(r)[r[i]] >= 2
  {
    assert r == r[..i] + [r[i]] + r[i + 1..j] + [r[j]] + r[j + 1..];
  }


  /** Nothing is dropped exactly when every element satisfies the predicate. */
  lemma {:induction false} FilterKeepsAll<T(!new)>(s: seq<T>, p: T -> bool)
    ensures |Filter(s, p)| == |s| <==> forall x :: x in s ==> p(x)
    decreases |s|
  {
    if forall x :: x in s ==> p(x) {
      FilterAll(s, p);
    } else if s != [] {
      var init := s[..|s| - 1];
      var last := s[|s| - 1];
      assert s == init + [last];
      FilterKeepsAll(init, p);
      if p(last) {
        assert exists x :: x in init && !p(x);
      }
    }
  }

  /** Nothing is kept exactly when no element satisfies the predicate. */
  lemma FilterKeepsNone<T(!new)>(s: seq<T>, p: T -> bool)
    ensures |Filter(s, p)| == 0 <==> forall x :: x in s ==> !p(x)
  {
    if |Filter(s, p)| == 0 {
      forall x | x in s ensures !p(x) {
        assert x !in Filter(s, p);
      }
    }
    if forall x :: x in s ==> !p(x) {
      FilterNone(s, p);
    }
  }

  /** One element appended: it is kept or dropped by itself. */
  lemma FilterSnoc<T(!new)>(s: seq<T>, x: T, p: T -> bool)
    ensures Filter(s + [x], p) == Filter(s, p) + (if p(x) then [x] else [])
  {
    var t := s + [x];
    assert t[..|t| - 1] == s;
  }

  /** Counting one more prefix element: the count grows by one exactly when
      the new element passes. */
  lemma FilterCountStep<T(!new)>(s: seq<T>, i: nat, p: T -> bool)
    requires i < |s|
    ensures |Filter(s[..i + 1], p)| == |Filter(s[..i], p)| + (if p(s[i]) then 1 else 0)
  {
    assert s[..i + 1] == s[..i] + [s[i]];
    FilterSnoc(s[..i], s[i], p);
  }

  /** A sequence without repetitions is its own de-duplication. */
  lemma {:induction false} UniqueOfDistinct<T(!new)>(s: seq<T>)
    requires Distinct(s)
    ensures Unique(s) == s
    decreases |s|
  {
    if s != [] {
      var n := |s| - 1;
      var init := s[..n];
      UniqueOfDistinct(init);
      assert s[n] !in init by {
        forall k | 0 <= k < n ensures init[k] != s[n] {
          assert init[k] == s[k];
        }
      }
      assert s == init + [s[n]];
    }
  }
}
