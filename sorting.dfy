/** The two sorts the dashboard relies on. JavaScript's Array.prototype.sort
    is stable, so `xs.sort((a, b) => key(b) - key(a))` puts the elements in
    descending key order and keeps equal keys in their input order; this is
    modelled by a stable insertion sort. The argument-less `sort()` on strings
    is modelled by a lexicographic insertion sort. */
module Sorting {
  import opened Seqs

  ghost predicate SortedDesc<T>(s: seq<T>, key: T -> real) {
    forall i, j {:trigger key(s[i]), key(s[j])} :: 0 <= i < j < |s| ==> key(s[i]) >= key(s[j])
  }

  /** Inserts `x` in front of the first element whose key does not exceed its own. */
  function Insert<T>(x: T, s: seq<T>, key: T -> real): (r: seq<T>)
    ensures |r| == |s| + 1
    ensures multiset(r) == multiset(s) + multiset{x}
  {
    if s == [] then [x]
    else if key(s[0]) <= key(x) then [x] + s
    else
      assert s == [s[0]] + s[1..];
      [s[0]] + Insert(x, s[1..], key)
  }

  lemma InsertMembers<T>(x: T, s: seq<T>, key: T -> real)
    ensures forall y :: y in Insert(x, s, key) <==> y == x || y in s
  {
    var r := Insert(x, s, key);
    forall y ensures y in r <==> y == x || y in s {
      assert y in r <==> y in multiset(r);
      assert y in s <==> y in multiset(s);
    }
  }

  /** An element no smaller than everything after it extends a sorted sequence. */
  lemma SortedDescCons<T>(y: T, rest: seq<T>, key: T -> real)
    requires SortedDesc(rest, key)
    requires forall z :: z in rest ==> key(y) >= key(z)
    ensures SortedDesc([y] + rest, key)
  {
    var r := [y] + rest;
    forall i, j | 0 <= i < j < |r| ensures key(r[i]) >= key(r[j]) {
      if i == 0 {
        assert r[j] == rest[j - 1] && rest[j - 1] in rest;
      } else {
        assert r[i] == rest[i - 1] && r[j] == rest[j - 1];
      }
    }
  }

  lemma SortedDescHead<T>(s: seq<T>, key: T -> real)
    requires SortedDesc(s, key) && s != []
    ensures SortedDesc(s[1..], key)
    ensures forall z :: z in s[1..] ==> key(s[0]) >= key(z)
  {
    var t := s[1..];
    forall i, j | 0 <= i < j < |t| ensures key(t[i]) >= key(t[j]) {
      assert t[i] == s[i + 1] && t[j] == s[j + 1];
    }
    forall z | z in t ensures key(s[0]) >= key(z) {
      var m :| 0 <= m < |t| && t[m] == z;
      assert s[m + 1] == z;
    }
  }

  lemma {:induction false} InsertSorted<T>(x: T, s: seq<T>, key: T -> real)
    requires SortedDesc(s, key)
    ensures SortedDesc(Insert(x, s, key), key)
    decreases |s|
  {
    if s == [] {
      assert Insert(x, s, key) == [x] + [];
      SortedDescCons(x, [], key);
    } else if key(s[0]) <= key(x) {
      forall z | z in s ensures key(x) >= key(z) {
        var m :| 0 <= m < |s| && s[m] == z;
        if m > 0 {
          assert key(s[0]) >= key(s[m]);
        }
      }
      SortedDescCons(x, s, key);
    } else {
      var t := s[1..];
      SortedDescHead(s, key);
      InsertSorted(x, t, key);
      InsertMembers(x, t, key);
      var rest := Insert(x, t, key);
      forall z | z in rest ensures key(s[0]) >= key(z) {
        assert z in multiset(rest);
        if z != x {
          assert z in multiset(t);
        }
      }
      SortedDescCons(s[0], rest, key);
    }
  }

  /** The stable descending sort by `key`. */
  function SortDesc<T>(s: seq<T>, key: T -> real): (r: seq<T>)
    ensures |r| == |s|
    ensures multiset(r) == multiset(s)
    ensures SortedDesc(r, key)
  {
    if s == [] then []
    else
      assert s == [s[0]] + s[1..];
      var t := SortDesc(s[1..], key);
      InsertSorted(s[0], t, key);
      Insert(s[0], t, key)
  }

  lemma SortDescMembers<T>(s: seq<T>, key: T -> real)
    ensures forall x :: x in SortDesc(s, key) <==> x in s
  {
    forall x ensures x in SortDesc(s, key) <==> x in s {
      assert x in SortDesc(s, key) <==> x in multiset(SortDesc(s, key));
    }
  }

  /** Sorting keeps a repetition-free sequence free of repetitions. */
  lemma SortDescDistinct<T>(s: seq<T>, key: T -> real)
    requires Distinct(s)
    ensures Distinct(SortDesc(s, key))
  {
    var r := SortDesc(s, key);
    forall i, j | 0 <= i < j < |r| ensures r[i] != r[j] {
      if r[i] == r[j] {
        Duplicate(r, i, j);
        DistinctCount(s, r[i]);
      }
    }
  }

  /** The elements with key `k`, in order. */
  function Only<T>(s: seq<T>, key: T -> real, k: real): seq<T> {
    if s == [] then []
    else (if key(s[0]) == k then [s[0]] else []) + Only(s[1..], key, k)
  }

  lemma OnlyCons<T>(y: T, t: seq<T>, key: T -> real, k: real)
    ensures Only([y] + t, key, k) == (if key(y) == k then [y] else []) + Only(t, key, k)
  {
    assert ([y] + t)[1..] == t;
  }

  lemma {:induction false} InsertOnly<T>(x: T, s: seq<T>, key: T -> real, k: real)
    ensures Only(Insert(x, s, key), key, k) == (if key(x) == k then [x] else []) + Only(s, key, k)
    decreases |s|
  {
    if s == [] {
      assert Insert(x, s, key) == [x] + s;
      OnlyCons(x, s, key, k);
    } else if key(s[0]) <= key(x) {
      assert Insert(x, s, key) == [x] + s;
      OnlyCons(x, s, key, k);
    } else {
      InsertOnlyDeeper(x, s, key, k);
    }
  }

  /** The case where `x` goes after the head of `s`. */
  lemma {:induction false} InsertOnlyDeeper<T>(x: T, s: seq<T>, key: T -> real, k: real)
    requires s != [] && key(s[0]) > key(x)
    ensures Only(Insert(x, s, key), key, k) == (if key(x) == k then [x] else []) + Only(s, key, k)
    decreases |s|, 0
  {
    var t := s[1..];
    var rest := Insert(x, t, key);
    assert Insert(x, s, key) == [s[0]] + rest;
    assert s == [s[0]] + t;
    InsertOnly(x, t, key, k);
    OnlyCons(s[0], rest, key, k);
    OnlyCons(s[0], t, key, k);
    if key(x) == k {
      assert key(s[0]) != k;
      assert Only(s, key, k) == Only(t, key, k);
      assert Only([s[0]] + rest, key, k) == Only(rest, key, k);
      assert Only(Insert(x, s, key), key, k) == [x] + Only(s, key, k);
    } else {
      assert Only(rest, key, k) == Only(t, key, k);
      assert Only(Insert(x, s, key), key, k) == Only(s, key, k);
      assert [] + Only(s, key, k) == Only(s, key, k);
    }
  }

  /** Stability: among the elements of any one key, the sort keeps the input order. */
  lemma {:induction false} SortDescStable<T>(s: seq<T>, key: T -> real, k: real)
    ensures Only(SortDesc(s, key), key, k) == Only(s, key, k)
    decreases |s|
  {
    if s != [] {
      SortDescStable(s[1..], key, k);
      InsertOnly(s[0], SortDesc(s[1..], key), key, k);
    }
  }

  lemma {:induction false} OnlyAppend<T>(a: seq<T>, b: seq<T>, key: T -> real, k: real)
    ensures Only(a + b, key, k) == Only(a, key, k) + Only(b, key, k)
    decreases |a|
  {
    if a != [] {
      assert (a + b)[1..] == a[1..] + b;
      OnlyAppend(a[1..], b, key, k);
    } else {
      assert a + b == b;
    }
  }

  ghost predicate RankIncreasing<T>(s: seq<T>, rank: T -> int) {
    forall i, j {:trigger rank(s[i]), rank(s[j])} :: 0 <= i < j < |s| ==> rank(s[i]) < rank(s[j])
  }

  /** Equal keys appear in increasing rank. */
  ghost predicate TiesByRank<T>(s: seq<T>, key: T -> real, rank: T -> int) {
    forall i, j {:trigger rank(s[i]), rank(s[j])} :: 0 <= i < j < |s| && key(s[i]) == key(s[j]) ==> rank(s[i]) < rank(s[j])
  }

  /** An element ranked below every element of equal key after it extends
      a sequence whose ties are in rank order. */
  lemma TiesByRankCons<T>(y: T, rest: seq<T>, key: T -> real, rank: T -> int)
    requires TiesByRank(rest, key, rank)
    requires forall z :: z in rest && key(z) == key(y) ==> rank(y) < rank(z)
    ensures TiesByRank([y] + rest, key, rank)
  {
    var r := [y] + rest;
    forall i, j | 0 <= i < j < |r| && key(r[i]) == key(r[j]) ensures rank(r[i]) < rank(r[j]) {
      if i == 0 {
        assert r[j] == rest[j - 1] && rest[j - 1] in rest;
      } else {
        assert r[i] == rest[i - 1] && r[j] == rest[j - 1];
      }
    }
  }

  lemma TiesByRankHead<T>(s: seq<T>, key: T -> real, rank: T -> int)
    requires TiesByRank(s, key, rank) && s != []
    ensures TiesByRank(s[1..], key, rank)
    ensures forall z :: z in s[1..] && key(z) == key(s[0]) ==> rank(s[0]) < rank(z)
  {
    var t := s[1..];
    forall i, j | 0 <= i < j < |t| && key(t[i]) == key(t[j]) ensures rank(t[i]) < rank(t[j]) {
      assert t[i] == s[i + 1] && t[j] == s[j + 1];
    }
    forall z | z in t && key(z) == key(s[0]) ensures rank(s[0]) < rank(z) {
      var m :| 0 <= m < |t| && t[m] == z;
      assert s[m + 1] == z;
    }
  }

  lemma {:induction false} InsertTiesByRank<T>(x: T, s: seq<T>, key: T -> real, rank: T -> int)
    requires TiesByRank(s, key, rank)
    requires forall y :: y in s ==> rank(x) < rank(y)
    ensures TiesByRank(Insert(x, s, key), key, rank)
    decreases |s|
  {
    if s == [] {
      assert Insert(x, s, key) == [x] + [];
      TiesByRankCons(x, [], key, rank);
    } else if key(s[0]) <= key(x) {
      TiesByRankCons(x, s, key, rank);
    } else {
      var t := s[1..];
      TiesByRankHead(s, key, rank);
      assert forall y :: y in t ==> y in s;
      InsertTiesByRank(x, t, key, rank);
      InsertMembers(x, t, key);
      var rest := Insert(x, t, key);
      forall z | z in rest && key(z) == key(s[0]) ensures rank(s[0]) < rank(z) {
        assert z in multiset(rest);
        if z != x {
          assert z in multiset(t);
        }
      }
      TiesByRankCons(s[0], rest, key, rank);
    }
  }

  /** Stability stated with a rank: when the input is in increasing rank,
      elements with equal keys leave the sort in increasing rank. */
  lemma {:induction false} SortDescTiesByRank<T>(s: seq<T>, key: T -> real, rank: T -> int)
    requires RankIncreasing(s, rank)
    ensures TiesByRank(SortDesc(s, key), key, rank)
    decreases |s|
  {
    if s != [] {
      var t := s[1..];
      assert RankIncreasing(t, rank) by {
        forall i, j | 0 <= i < j < |t| ensures rank(t[i]) < rank(t[j]) {
          assert t[i] == s[i + 1] && t[j] == s[j + 1];
        }
      }
      SortDescTiesByRank(t, key, rank);
      var st := SortDesc(t, key);
      forall y | y in st ensures rank(s[0]) < rank(y) {
        assert y in multiset(st);
        assert y in t;
        var m :| 0 <= m < |t| && t[m] == y;
        assert s[m + 1] == y;
      }
      InsertTiesByRank(s[0], st, key, rank);
    }
  }

  // ---- strings ----

  /** Lexicographic order on code points (`a <= b` for JavaScript strings). */
  predicate LessEq(a: string, b: string) {
    |a| == 0 || (|b| > 0 && (a[0] < b[0] || (a[0] == b[0] && LessEq(a[1..], b[1..]))))
  }

  lemma {:induction false} LessEqTotal(a: string, b: string)
    ensures LessEq(a, b) || LessEq(b, a)
  {
    if |a| > 0 && |b| > 0 && a[0] == b[0] {
      LessEqTotal(a[1..], b[1..]);
    }
  }

  lemma {:induction false} LessEqAntisymmetric(a: string, b: string)
    requires LessEq(a, b) && LessEq(b, a)
    ensures a == b
  {
    if |a| > 0 && |b| > 0 {
      LessEqAntisymmetric(a[1..], b[1..]);
      assert a == [a[0]] + a[1..] && b == [b[0]] + b[1..];
    }
  }

  lemma {:induction false} LessEqTransitive(a: string, b: string, c: string)
    requires LessEq(a, b) && LessEq(b, c)
    ensures LessEq(a, c)
  {
    if |a| > 0 && |b| > 0 && |c| > 0 && a[0] == b[0] && b[0] == c[0] {
      LessEqTransitive(a[1..], b[1..], c[1..]);
    }
  }

  ghost predicate SortedAsc(s: seq<string>) {
    forall i, j :: 0 <= i < j < |s| ==> LessEq(s[i], s[j])
  }

  function InsertString(x: string, s: seq<string>): (r: seq<string>)
    ensures |r| == |s| + 1
    ensures multiset(r) == multiset(s) + multiset{x}
  {
    if s == [] then [x]
    else if LessEq(x, s[0]) then [x] + s
    else
      assert s == [s[0]] + s[1..];
      [s[0]] + InsertString(x, s[1..])
  }

  lemma SortedAscCons(y: string, rest: seq<string>)
    requires SortedAsc(rest)
    requires forall z :: z in rest ==> LessEq(y, z)
    ensures SortedAsc([y] + rest)
  {
    var r := [y] + rest;
    forall i, j | 0 <= i < j < |r| ensures LessEq(r[i], r[j]) {
      if i == 0 {
        assert r[j] == rest[j - 1] && rest[j - 1] in rest;
      } else {
        assert r[i] == rest[i - 1] && r[j] == rest[j - 1];
      }
    }
  }

  lemma SortedAscHead(s: seq<string>)
    requires SortedAsc(s) && s != []
    ensures SortedAsc(s[1..])
    ensures forall z :: z in s[1..] ==> LessEq(s[0], z)
  {
    var t := s[1..];
    forall i, j | 0 <= i < j < |t| ensures LessEq(t[i], t[j]) {
      assert t[i] == s[i + 1] && t[j] == s[j + 1];
    }
    forall z | z in t ensures LessEq(s[0], z) {
      var m :| 0 <= m < |t| && t[m] == z;
      assert s[m + 1] == z;
    }
  }

  lemma {:induction false} InsertStringSorted(x: string, s: seq<string>)
    requires SortedAsc(s)
    ensures SortedAsc(InsertString(x, s))
    decreases |s|
  {
    if s == [] {
      assert InsertString(x, s) == [x] + [];
      SortedAscCons(x, []);
    } else if LessEq(x, s[0]) {
      SortedAscHead(s);
      forall z | z in s ensures LessEq(x, z) {
        if z != s[0] {
          assert z in s[1..] by {
            var m :| 0 <= m < |s| && s[m] == z;
            assert s[1..][m - 1] == z;
          }
          LessEqTransitive(x, s[0], z);
        }
      }
      SortedAscCons(x, s);
    } else {
      var t := s[1..];
      SortedAscHead(s);
      InsertStringSorted(x, t);
      LessEqTotal(x, s[0]);
      var rest := InsertString(x, t);
      forall z | z in rest ensures LessEq(s[0], z) {
        assert z in multiset(rest);
        assert z == x || z in t;
      }
      SortedAscCons(s[0], rest);
    }
  }

  /** `Array.prototype.sort()` on strings. */
  function SortStrings(s: seq<string>): (r: seq<string>)
    ensures |r| == |s|
    ensures multiset(r) == multiset(s)
    ensures SortedAsc(r)
  {
    if s == [] then []
    else
      assert s == [s[0]] + s[1..];
      var t := SortStrings(s[1..]);
      InsertStringSorted(s[0], t);
      InsertString(s[0], t)
  }

  /** Sorting distinct strings yields a strictly increasing list with the same members. */
  lemma SortStringsDistinct(s: seq<string>)
    requires forall i, j :: 0 <= i < j < |s| ==> s[i] != s[j]
    ensures forall x :: x in SortStrings(s) <==> x in s
    ensures forall i, j :: 0 <= i < j < |SortStrings(s)| ==>
      SortStrings(s)[i] != SortStrings(s)[j] && LessEq(SortStrings(s)[i], SortStrings(s)[j])
  {
    var r := SortStrings(s);
    forall x ensures x in r <==> x in s {
      assert x in r <==> x in multiset(r);
    }
    forall i, j | 0 <= i < j < |r| ensures r[i] != r[j] {
      if r[i] == r[j] {
        Duplicate(r, i, j);
        DistinctCount(s, r[i]);
      }
    }
  }

}
