// JavaScript's `Array.prototype.sort` is stable. Every sort in the repository
// is modelled by this insertion sort, which keeps equal elements in their
// original order: an element is placed in front of the first element it is
// not greater than.
module Sorting {

  /** `le` orders any two values and is transitive: a comparator consistent as `cmp(a, b) <= 0`. */
  ghost predicate TotalPreorder<T(!new)>(le: (T, T) -> bool) {
    (forall a, b :: le(a, b) || le(b, a))
    && (forall a, b, c :: le(a, b) && le(b, c) ==> le(a, c))
  }

  ghost predicate Sorted<T>(s: seq<T>, le: (T, T) -> bool) {
    forall i, j :: 0 <= i < j < |s| ==> le(s[i], s[j])
  }

  /** Insert x in front of the first element it is not greater than. */
  function Insert<T>(x: T, s: seq<T>, le: (T, T) -> bool): (r: seq<T>)
    ensures |r| == |s| + 1
    ensures multiset(r) == multiset(s) + multiset{x}
  {
    if s == [] then [x]
    else if le(x, s[0]) then [x] + s
    else
      assert s == [s[0]] + s[1..];
      [s[0]] + Insert(x, s[1..], le)
  }

  /** A stable sort of s under the comparator `le`. */
  function StableSort<T>(s: seq<T>, le: (T, T) -> bool): (r: seq<T>)
    ensures |r| == |s|
    ensures multiset(r) == multiset(s)
  {
    if s == [] then []
    else
      assert s == [s[0]] + s[1..];
      Insert(s[0], StableSort(s[1..], le), le)
  }

  lemma {:induction false} InsertSorted<T(!new)>(x: T, s: seq<T>, le: (T, T) -> bool)
    requires TotalPreorder(le) && Sorted(s, le)
    ensures Sorted(Insert(x, s, le), le)
  {
    if s != [] && !le(x, s[0]) {
      InsertSorted(x, s[1..], le);
      var r := Insert(x, s[1..], le);
      forall k | 0 <= k < |r| ensures le(s[0], r[k]) {
        assert r[k] in multiset(r);
        assert r[k] in multiset(s[1..]) + multiset{x};
        if r[k] in multiset(s[1..]) {
          var m :| 0 <= m < |s[1..]| && s[1..][m] == r[k];
          assert s[1..][m] == s[m + 1];
        }
      }
    }
  }

  /** The stable sort under a total preorder is sorted. */
  lemma {:induction false} StableSortSorted<T(!new)>(s: seq<T>, le: (T, T) -> bool)
    requires TotalPreorder(le)
    ensures Sorted(StableSort(s, le), le)
  {
    if s != [] {
      StableSortSorted(s[1..], le);
      InsertSorted(s[0], StableSort(s[1..], le), le);
    }
  }

  /** a and b tie under `le`: neither comes strictly before the other. */
  predicate Tied<T>(a: T, b: T, le: (T, T) -> bool) {
    le(a, b) && le(b, a)
  }

  /** The elements of s that tie with x, in their order in s. */
  function Ties<T>(s: seq<T>, x: T, le: (T, T) -> bool): (r: seq<T>)
    ensures |r| <= |s|
    ensures forall k :: 0 <= k < |r| ==> Tied(x, r[k], le) && r[k] in s
  {
    if s == [] then []
    else (if Tied(x, s[0], le) then [s[0]] else []) + Ties(s[1..], x, le)
  }

  lemma TiesCons<T>(a: T, u: seq<T>, x: T, le: (T, T) -> bool)
    ensures Ties([a] + u, x, le) == (if Tied(x, a, le) then [a] else []) + Ties(u, x, le)
  {
    assert ([a] + u)[1..] == u;
  }

  /**
   * Inserting e adds it to the front of its ties: no element tied with e
   * lies before the place the insertion picks.
   */
  lemma {:induction false} InsertTies<T(!new)>(e: T, t: seq<T>, x: T, le: (T, T) -> bool)
    requires TotalPreorder(le)
    ensures Ties(Insert(e, t, le), x, le) == (if Tied(x, e, le) then [e] else []) + Ties(t, x, le)
  {
    if t == [] {
    } else if le(e, t[0]) {
      TiesCons(e, t, x, le);
    } else {
      var u := Insert(e, t[1..], le);
      InsertTies(e, t[1..], x, le);
      TiesCons(t[0], u, x, le);
      assert t == [t[0]] + t[1..];
      TiesCons(t[0], t[1..], x, le);
      var t0 := t[0];
      assert le(e, x) && le(x, t0) ==> le(e, t0);
      if Tied(x, e, le) {
        assert !Tied(x, t[0], le);
        assert Ties(t, x, le) == Ties(t[1..], x, le);
      } else {
        assert Ties(Insert(e, t, le), x, le) == Ties([t[0]] + u, x, le);
      }
    }
  }

  /**
   * Stability: for every x, the elements tied with x appear in the sorted
   * sequence in the same relative order as in s.
   */
  lemma {:induction false} StableSortKeepsTieOrder<T(!new)>(s: seq<T>, x: T, le: (T, T) -> bool)
    requires TotalPreorder(le)
    ensures Ties(StableSort(s, le), x, le) == Ties(s, x, le)
  {
    if s != [] {
      StableSortKeepsTieOrder(s[1..], x, le);
      InsertTies(s[0], StableSort(s[1..], le), x, le);
    }
  }

  /** Index of the first element of s whose key is minimal. */
  function FirstMinIndex<T>(s: seq<T>, key: T -> int): (i: nat)
    requires |s| > 0
    ensures i < |s|
    ensures forall j :: 0 <= j < |s| ==> key(s[i]) <= key(s[j])
    ensures forall j :: 0 <= j < i ==> key(s[j]) > key(s[i])
  {
    if |s| == 1 then 0
    else
      var k := FirstMinIndex(s[1..], key);
      if key(s[0]) <= key(s[1..][k]) then 0 else k + 1
  }

  /**
   * Sorting by ascending key and taking the head picks the first element with
   * the smallest key: ties keep their original order.
   */
  lemma {:induction false} StableSortHead<T>(s: seq<T>, le: (T, T) -> bool, key: T -> int)
    requires |s| > 0
    requires forall a, b :: le(a, b) == (key(a) <= key(b))
    ensures StableSort(s, le)[0] == s[FirstMinIndex(s, key)]
  {
    if |s| > 1 {
      StableSortHead(s[1..], le, key);
    }
  }

  /** `s.slice(0, n)` for n >= 0. */
  function Take<T>(s: seq<T>, n: nat): (r: seq<T>)
    ensures |r| == if n < |s| then n else |s|
    ensures r == s[..|r|]
  {
    if n < |s| then s[..n] else s
  }
}
