/** Array operations the handlers use on lists: `filter`, and the
    order-preserving subsequence relation that `filter` establishes. */
module Lists {

  /** `a` is obtained from `b` by deleting elements, keeping the order of the rest. */
  predicate IsSubsequence<T(==)>(a: seq<T>, b: seq<T>)
    decreases |b|
  {
    if a == [] then true
    else if b == [] then false
    else if a[0] == b[0] then IsSubsequence(a[1..], b[1..])
    else IsSubsequence(a, b[1..])
  }

  /** Every list is a subsequence of itself. */
  lemma {:induction false} SubsequenceReflexive<T>(a: seq<T>)
    ensures IsSubsequence(a, a)
  {
    if a != [] {
      SubsequenceReflexive(a[1..]);
    }
  }

  /** `s.filter(p)`: the elements satisfying `p`, in their original order. */
  function Filter<T(!new)>(s: seq<T>, p: T -> bool): (r: seq<T>)
    ensures |r| <= |s|
    ensures forall x :: x in r <==> x in s && p(x)
  {
    if s == [] then []
    else
      var rest := Filter(s[1..], p);
      assert s == [s[0]] + s[1..];
      if p(s[0]) then [s[0]] + rest else rest
  }

  /** A filter keeps every kept element as often as it occurs, and drops the others. */
  lemma {:induction false} FilterCounts<T(!new)>(s: seq<T>, p: T -> bool)
    ensures forall x | p(x) :: multiset(Filter(s, p))[x] == multiset(s)[x]
    ensures forall x | !p(x) :: multiset(Filter(s, p))[x] == 0
  {
    if s != [] {
      FilterCounts(s[1..], p);
      assert s == [s[0]] + s[1..];
      assert multiset(s) == multiset{s[0]} + multiset(s[1..]);
    }
  }

  /** A filter keeps the order of what it keeps. */
  lemma {:induction false} FilterIsSubsequence<T(!new)>(s: seq<T>, p: T -> bool)
    ensures IsSubsequence(Filter(s, p), s)
  {
    if s != [] {
      FilterIsSubsequence(s[1..], p);
      var r := Filter(s, p);
      if p(s[0]) {
        assert r[0] == s[0] && r[1..] == Filter(s[1..], p);
      } else if r != [] {
        assert r[0] in r && r[0] != s[0];
      }
    }
  }

  /** A filter that rejects nothing returns the list unchanged. */
  lemma {:induction false} FilterKeepsAll<T(!new)>(s: seq<T>, p: T -> bool)
    requires forall x | x in s :: p(x)
    ensures Filter(s, p) == s
  {
    if s != [] {
      FilterKeepsAll(s[1..], p);
    }
  }

  /** Filtering a list with one more element at the end. */
  lemma {:induction false} FilterAppend<T(!new)>(s: seq<T>, x: T, p: T -> bool)
    ensures Filter(s + [x], p) == if p(x) then Filter(s, p) + [x] else Filter(s, p)
  {
    if s == [] {
      assert Filter([x], p) == (if p(x) then [x] + Filter([], p) else Filter([], p));
    } else {
      FilterAppend(s[1..], x, p);
      var t := s + [x];
      assert t[0] == s[0] && t[1..] == s[1..] + [x];
      assert Filter(t, p) == (if p(s[0]) then [s[0]] + Filter(t[1..], p) else Filter(t[1..], p));
      assert Filter(s, p) == (if p(s[0]) then [s[0]] + Filter(s[1..], p) else Filter(s[1..], p));
    }
  }

  /** `s.filter((y) => y !== x)`: every occurrence of `x` removed. */
  function RemoveAll<T(==,!new)>(s: seq<T>, x: T): (r: seq<T>)
    ensures x !in r
    ensures forall y | y != x :: (y in r <==> y in s) && multiset(r)[y] == multiset(s)[y]
    ensures IsSubsequence(r, s)
    ensures x !in s ==> r == s
  {
    var keep := (y: T) => y != x;
    var r := Filter(s, keep);
    FilterCounts(s, keep);
    FilterIsSubsequence(s, keep);
    assert x !in s ==> r == s by {
      if x !in s {
        FilterKeepsAll(s, keep);
      }
    }
    r
  }

  /** No element occurs twice: the set semantics of a member list. */
  ghost predicate NoDuplicates<T(!new)>(s: seq<T>) {
    forall x :: multiset(s)[x] <= 1
  }

  /** Removing an element that was appended to a list without it gives the list back. */
  lemma {:induction false} RemoveAllAppended<T(!new)>(s: seq<T>, x: T)
    requires x !in s
    ensures RemoveAll(s + [x], x) == s
  {
    if s == [] {
      assert RemoveAll([x], x) == [];
    } else {
      RemoveAllAppended(s[1..], x);
      assert (s + [x])[1..] == s[1..] + [x];
      assert s == [s[0]] + s[1..];
    }
  }
}
