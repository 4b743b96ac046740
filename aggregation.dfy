/** The stages of the database's aggregation pipelines that the admin reports rely on:
    `$sort` on one numeric key, `$limit`, and `$match` as a filter. */
module Aggregation {

  /** Ascending by `key`; a descending sort is an ascending sort on the negated key. */
  predicate SortedBy<T>(s: seq<T>, key: T -> real)
  {
    forall i, j :: 0 <= i < j < |s| ==> key(s[i]) <= key(s[j])
  }

  /** Puts `x` in front of the first element whose key is not smaller. */
  function Insert<T>(x: T, s: seq<T>, key: T -> real): (r: seq<T>)
    ensures |r| == |s| + 1
  {
    if s == [] then [x]
    else if key(x) <= key(s[0]) then [x] + s
    else [s[0]] + Insert(x, s[1..], key)
  }

  /** Inserting adds `x` and loses nothing. */
  lemma {:induction false} InsertMultiset<T>(x: T, s: seq<T>, key: T -> real)
    ensures multiset(Insert(x, s, key)) == multiset(s) + multiset{x}
  {
    if s != [] && key(s[0]) < key(x) {
      InsertMultiset(x, s[1..], key);
      assert s == [s[0]] + s[1..];
    }
  }

  /** Inserting into a sorted sequence keeps it sorted. */
  lemma {:induction false} InsertSorted<T>(x: T, s: seq<T>, key: T -> real)
    requires SortedBy(s, key)
    ensures SortedBy(Insert(x, s, key), key)
  {
    if s != [] && key(s[0]) < key(x) {
      var rest := Insert(x, s[1..], key);
      InsertSorted(x, s[1..], key);
      InsertMultiset(x, s[1..], key);
      forall i | 0 <= i < |rest| ensures key(s[0]) <= key(rest[i]) {
        assert rest[i] in multiset(rest);
        assert rest[i] == x || rest[i] in multiset(s[1..]);
        if rest[i] != x {
          var k :| 0 <= k < |s[1..]| && s[1..][k] == rest[i];
          assert s[k + 1] == rest[i];
        }
      }
    }
  }

  /** `$sort`: an insertion sort on `key`. */
  function SortBy<T>(s: seq<T>, key: T -> real): (r: seq<T>)
    ensures |r| == |s|
  {
    if s == [] then [] else Insert(s[0], SortBy(s[1..], key), key)
  }

  /** The sort orders its input ascending by key and keeps every element. */
  lemma {:induction false} SortByCorrect<T>(s: seq<T>, key: T -> real)
    ensures SortedBy(SortBy(s, key), key)
    ensures multiset(SortBy(s, key)) == multiset(s)
  {
    if s != [] {
      SortByCorrect(s[1..], key);
      InsertSorted(s[0], SortBy(s[1..], key), key);
      InsertMultiset(s[0], SortBy(s[1..], key), key);
      assert s == [s[0]] + s[1..];
    }
  }

  /** A sort keeps exactly the elements it is given. */
  lemma SortByMembers<T>(s: seq<T>, key: T -> real, x: T)
    ensures x in SortBy(s, key) <==> x in s
  {
    SortByCorrect(s, key);
    assert x in SortBy(s, key) <==> x in multiset(SortBy(s, key));
    assert x in s <==> x in multiset(s);
  }

  /** `$limit`: the first `n` elements, or all of them when there are fewer. */
  function Limit<T>(s: seq<T>, n: nat): (r: seq<T>)
    ensures |r| <= n && |r| <= |s|
    ensures |s| <= n ==> r == s
    ensures r == s[..|r|]
  {
    if |s| <= n then s else s[..n]
  }

  lemma LimitSorted<T>(s: seq<T>, key: T -> real, n: nat)
    requires SortedBy(s, key)
    ensures SortedBy(Limit(s, n), key)
  {
  }

  /** After a sort and a limit, every element left out has a key no smaller than every
      element kept: the kept ones are the first `n` by key. */
  lemma LimitKeepsSmallest<T>(s: seq<T>, key: T -> real, n: nat, x: T)
    requires x in s && x !in Limit(SortBy(s, key), n)
    ensures forall i :: 0 <= i < |Limit(SortBy(s, key), n)| ==> key(Limit(SortBy(s, key), n)[i]) <= key(x)
  {
    var sorted := SortBy(s, key);
    var kept := Limit(sorted, n);
    SortByCorrect(s, key);
    SortByMembers(s, key, x);
    var j :| 0 <= j < |sorted| && sorted[j] == x;
    assert j >= |kept|;
    forall i | 0 <= i < |kept| ensures key(kept[i]) <= key(x) {
      assert sorted[i] == kept[i];
    }
  }

  /** `$match`: the elements satisfying `keep`, in order. */
  function Filter<T>(s: seq<T>, keep: T -> bool): (r: seq<T>)
    ensures |r| <= |s|
    ensures forall i :: 0 <= i < |r| ==> r[i] in s && keep(r[i])
    ensures forall i :: 0 <= i < |s| && keep(s[i]) ==> s[i] in r
  {
    if s == [] then []
    else
      var rest := Filter(s[..|s| - 1], keep);
      assert s == s[..|s| - 1] + [s[|s| - 1]];
      if keep(s[|s| - 1]) then rest + [s[|s| - 1]] else rest
  }

  /** Filtering keeps the order, so a sorted sequence stays sorted. */
  lemma {:induction false} FilterSorted<T>(s: seq<T>, keep: T -> bool, key: T -> real)
    requires SortedBy(s, key)
    ensures SortedBy(Filter(s, keep), key)
  {
    if s != [] {
      var init := s[..|s| - 1];
      assert SortedBy(init, key);
      FilterSorted(init, keep, key);
      var rest := Filter(init, keep);
      if keep(s[|s| - 1]) {
        forall i | 0 <= i < |rest| ensures key(rest[i]) <= key(s[|s| - 1]) {
          assert rest[i] in init;
        }
      }
    }
  }
}
