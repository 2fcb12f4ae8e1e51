/**
 * A sort into descending order of an integer key. It stands for the two orderings the
 * application relies on: `Array.prototype.sort` with the comparator `b.k - a.k` and a
 * database `orderBy: { k: "desc" }`.
 */
module Sorting {

  /** Keys never increase from left to right. */
  ghost predicate NonIncreasing<T>(s: seq<T>, key: T -> int)
  {
    forall i, j :: 0 <= i < j < |s| ==> key(s[i]) >= key(s[j])
  }

  /** An element whose key is at least the head's can be put in front. */
  lemma ConsNonIncreasing<T>(a: T, t: seq<T>, key: T -> int)
    requires NonIncreasing(t, key)
    requires t != [] ==> key(a) >= key(t[0])
    ensures NonIncreasing([a] + t, key)
  {
    var u := [a] + t;
    forall i, j | 0 <= i < j < |u|
      ensures key(u[i]) >= key(u[j])
    {
      if i == 0 {
        assert u[j] == t[j - 1];
      } else {
        assert u[i] == t[i - 1] && u[j] == t[j - 1];
      }
    }
  }

  /** Keeping the head of `s` in front of `x` inserted into the tail yields `x` inserted into `s`. */
  lemma InsertFront<T>(x: T, s: seq<T>, rest: seq<T>, key: T -> int)
    requires s != [] && NonIncreasing(s, key) && key(s[0]) >= key(x)
    requires NonIncreasing(rest, key) && multiset(rest) == multiset(s[1..]) + multiset{x} && |rest| == |s|
    requires rest[0] == x || (|s| > 1 && rest[0] == s[1])
    ensures NonIncreasing([s[0]] + rest, key)
    ensures multiset([s[0]] + rest) == multiset(s) + multiset{x}
  {
    assert multiset(s) == multiset{s[0]} + multiset(s[1..]) by { assert s == [s[0]] + s[1..]; }
    ConsNonIncreasing(s[0], rest, key);
  }

  /** Places `x` after every element whose key is at least its own. */
  function Insert<T>(x: T, s: seq<T>, key: T -> int): (r: seq<T>)
    requires NonIncreasing(s, key)
    ensures NonIncreasing(r, key)
    ensures multiset(r) == multiset(s) + multiset{x}
    ensures |r| == |s| + 1
    ensures r[0] == x || (s != [] && r[0] == s[0])
  {
    if s == [] then [x]
    else if key(s[0]) >= key(x) then
      var rest := Insert(x, s[1..], key);
      InsertFront(x, s, rest, key);
      [s[0]] + rest
    else
      ConsNonIncreasing(x, s, key);
      [x] + s
  }

  /** Insertion sort, taking the elements in input order. */
  function SortDesc<T>(s: seq<T>, key: T -> int): (r: seq<T>)
    ensures NonIncreasing(r, key)
    ensures multiset(r) == multiset(s)
    ensures |r| == |s|
  {
    if s == [] then []
    else
      assert s == s[..|s| - 1] + [s[|s| - 1]];
      Insert(s[|s| - 1], SortDesc(s[..|s| - 1], key), key)
  }

  /** The first `n` elements, or all of them when there are fewer (`slice(0, n)`). */
  function Take<T>(s: seq<T>, n: nat): (r: seq<T>)
    ensures |r| == if |s| <= n then |s| else n
    ensures r <= s
    ensures |s| <= n ==> r == s
  {
    if |s| <= n then s else s[..n]
  }

  /** A sequence's elements are those of its first `n` plus those of the rest. */
  lemma SplitMultiset<T>(s: seq<T>, n: nat)
    requires n <= |s|
    ensures multiset(s) == multiset(s[..n]) + multiset(s[n..])
  {
    assert s == s[..n] + s[n..];
  }

  /** In a sorted sequence, an element of the first `n` is at least any element after them. */
  lemma PrefixBeatsSuffix<T>(s: seq<T>, n: nat, key: T -> int, x: T, y: T)
    requires NonIncreasing(s, key) && n <= |s|
    requires x in s[..n] && y in s[n..]
    ensures key(y) <= key(x)
  {
    var i :| 0 <= i < n && s[..n][i] == x;
    var j :| 0 <= j < |s| - n && s[n..][j] == y;
    assert s[i] == x && s[n + j] == y;
  }

  /**
   * The first `n` elements of a sorted sequence are its largest: nothing left out has a
   * larger key than anything kept.
   */
  lemma TakeOfSortedIsLargest<T>(s: seq<T>, n: nat, key: T -> int)
    requires NonIncreasing(s, key)
    ensures NonIncreasing(Take(s, n), key)
    ensures multiset(Take(s, n)) <= multiset(s)
    ensures forall x, y :: x in Take(s, n) && y in multiset(s) - multiset(Take(s, n)) ==> key(y) <= key(x)
  {
    if |s| > n {
      SplitMultiset(s, n);
      forall x, y | x in s[..n] && y in multiset(s) - multiset(s[..n])
        ensures key(y) <= key(x)
      {
        assert y in multiset(s[n..]);
        PrefixBeatsSuffix(s, n, key, x, y);
      }
    }
  }
}
