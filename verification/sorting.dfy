/** The `.sort({ field: 1 })` / `.sort({ field: -1 })` of a database query,
    modelled as a stable insertion sort on an integer key. A descending sort is
    an ascending sort on the negated key. */
module Sorting {

  /** Keys never decrease along `s`. */
  predicate SortedBy<T>(s: seq<T>, key: T -> int) {
    forall i, j | 0 <= i < j < |s| :: key(s[i]) <= key(s[j])
  }

  /** Places `x` before the first element whose key is not smaller. */
  function Insert<T(!new)>(x: T, s: seq<T>, key: T -> int): (r: seq<T>)
    requires SortedBy(s, key)
    ensures |r| == |s| + 1
    ensures SortedBy(r, key)
    ensures r[0] == x || (s != [] && r[0] == s[0])
  {
    if s == [] then [x]
    else if key(x) <= key(s[0]) then [x] + s
    else
      var rest := Insert(x, s[1..], key);
      assert s == [s[0]] + s[1..];
      var r := [s[0]] + rest;
      assert key(s[0]) <= key(rest[0]);
      assert forall j | 0 < j < |r| :: key(r[0]) <= key(r[j]) by {
        forall j | 0 < j < |r| ensures key(r[0]) <= key(r[j]) {
          assert r[j] == rest[j - 1];
        }
      }
      r
  }

  /** Inserting adds exactly the one record. */
  lemma {:induction false} InsertPermutes<T(!new)>(x: T, s: seq<T>, key: T -> int)
    requires SortedBy(s, key)
    ensures multiset(Insert(x, s, key)) == multiset(s) + multiset{x}
  {
    if s != [] && key(x) > key(s[0]) {
      InsertPermutes(x, s[1..], key);
      assert s == [s[0]] + s[1..];
      assert multiset(s) == multiset{s[0]} + multiset(s[1..]);
    }
  }

  /** The records of `s` reordered by ascending key. */
  function SortBy<T(!new)>(s: seq<T>, key: T -> int): (r: seq<T>)
    ensures |r| == |s|
    ensures SortedBy(r, key)
  {
    if s == [] then [] else Insert(s[0], SortBy(s[1..], key), key)
  }

  /** Sorting is a permutation: every record is kept as often as it occurs. */
  lemma {:induction false} SortByPermutes<T(!new)>(s: seq<T>, key: T -> int)
    ensures multiset(SortBy(s, key)) == multiset(s)
  {
    if s != [] {
      SortByPermutes(s[1..], key);
      InsertPermutes(s[0], SortBy(s[1..], key), key);
      assert s == [s[0]] + s[1..];
    }
  }

  /** Sorting neither adds nor drops a record. */
  lemma SortKeepsMembers<T(!new)>(s: seq<T>, key: T -> int, x: T)
    ensures x in SortBy(s, key) <==> x in s
  {
    SortByPermutes(s, key);
    var r := SortBy(s, key);
    assert x in r <==> multiset(r)[x] > 0;
    assert x in s <==> multiset(s)[x] > 0;
  }

  /** The first `n` elements of a sorted sequence have the smallest keys: an
      element the prefix holds fewer times than the whole sequence has a copy
      after the prefix, so its key is at least as large as each kept one. */
  lemma PrefixHasSmallestCopies<T>(s: seq<T>, key: T -> int, n: nat)
    requires SortedBy(s, key) && n <= |s|
    ensures forall x | multiset(s[..n])[x] < multiset(s)[x] :: forall k | 0 <= k < n :: key(s[k]) <= key(x)
  {
    assert s == s[..n] + s[n..];
    forall x | multiset(s[..n])[x] < multiset(s)[x] ensures forall k | 0 <= k < n :: key(s[k]) <= key(x) {
      assert x in multiset(s[n..]);
      var i :| 0 <= i < |s[n..]| && s[n..][i] == x;
      assert s[n + i] == x;
    }
  }
}
