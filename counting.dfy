// Counters as the statistics service builds them: a JavaScript `Map` filled
// with `map.set(k, (map.get(k) ?? 0) + n)`. Such a map lists its keys in the
// order they were first set, which is the order `Array.from(map.entries())`
// returns, so a counter is the sequence of its entries in that order.
module Counting {
  import Sorting

  datatype Entry<K> = Entry(key: K, count: nat)

  predicate HasKey<K(==)>(c: seq<Entry<K>>, k: K) {
    exists i :: 0 <= i < |c| && c[i].key == k
  }

  predicate DistinctKeys<K(==)>(c: seq<Entry<K>>) {
    forall i, j :: 0 <= i < j < |c| ==> c[i].key != c[j].key
  }

  /** A key of a non-empty counter is its first key or a key of the rest. */
  lemma HasKeyCons<K>(c: seq<Entry<K>>, k: K)
    requires c != []
    ensures HasKey(c, k) <==> c[0].key == k || HasKey(c[1..], k)
  {
    if HasKey(c, k) && c[0].key != k {
      var i :| 0 <= i < |c| && c[i].key == k;
      assert c[1..][i - 1].key == k;
    }
    if HasKey(c[1..], k) {
      var i :| 0 <= i < |c[1..]| && c[1..][i].key == k;
      assert c[i + 1].key == k;
    }
  }

  /** `map.get(k) ?? 0`. */
  function CountOf<K(==)>(c: seq<Entry<K>>, k: K): (n: nat)
    ensures !HasKey(c, k) ==> n == 0
  {
    if c == [] then 0
    else if c[0].key == k then c[0].count
    else
      HasKeyCons(c, k);
      CountOf(c[1..], k)
  }

  /** `map.set(k, (map.get(k) ?? 0) + n)`: an existing key keeps its place, a new one goes last. */
  function Add<K(==)>(c: seq<Entry<K>>, k: K, n: nat): (r: seq<Entry<K>>)
    ensures HasKey(c, k) ==> |r| == |c|
    ensures !HasKey(c, k) ==> r == c + [Entry(k, n)]
  {
    if c == [] then [Entry(k, n)]
    else if c[0].key == k then [Entry(k, c[0].count + n)] + c[1..]
    else
      HasKeyCons(c, k);
      [c[0]] + Add(c[1..], k, n)
  }

  /** The keys after an Add are the old keys and k. */
  lemma {:induction false} AddKeys<K>(c: seq<Entry<K>>, k: K, n: nat, k': K)
    ensures HasKey(Add(c, k, n), k') <==> HasKey(c, k') || k' == k
  {
    var r := Add(c, k, n);
    HasKeyCons(r, k');
    if c == [] {
      assert r[1..] == [];
    } else {
      HasKeyCons(c, k');
      if c[0].key != k {
        AddKeys(c[1..], k, n, k');
        assert r[1..] == Add(c[1..], k, n);
      } else {
        assert r[1..] == c[1..];
      }
    }
  }

  /** Adding n under k raises k's count by n and leaves every other count alone. */
  lemma {:induction false} AddCount<K>(c: seq<Entry<K>>, k: K, n: nat, k': K)
    ensures CountOf(Add(c, k, n), k') == CountOf(c, k') + (if k' == k then n else 0)
  {
    if c != [] && c[0].key != k {
      AddCount(c[1..], k, n, k');
      var r := Add(c, k, n);
      assert r[0] == c[0] && r[1..] == Add(c[1..], k, n);
    } else if c != [] {
      var r := Add(c, k, n);
      assert r[1..] == c[1..];
    }
  }

  lemma {:induction false} AddDistinct<K>(c: seq<Entry<K>>, k: K, n: nat)
    requires DistinctKeys(c)
    ensures DistinctKeys(Add(c, k, n))
  {
    if c != [] && c[0].key != k {
      AddDistinct(c[1..], k, n);
      var r := Add(c, k, n);
      var rest := Add(c[1..], k, n);
      assert r == [c[0]] + rest;
      assert !HasKey(c[1..], c[0].key) by {
        forall i | 0 <= i < |c[1..]| ensures c[1..][i].key != c[0].key {
          assert c[1..][i] == c[i + 1];
        }
      }
      AddKeys(c[1..], k, n, c[0].key);
      forall j | 0 < j < |r| ensures r[0].key != r[j].key {
        assert r[j] == rest[j - 1];
      }
    }
  }

  /** The sum of the counts. */
  function Total<K>(c: seq<Entry<K>>): nat {
    if c == [] then 0 else c[0].count + Total(c[1..])
  }

  lemma {:induction false} AddTotal<K>(c: seq<Entry<K>>, k: K, n: nat)
    ensures Total(Add(c, k, n)) == Total(c) + n
  {
    if c != [] && c[0].key != k {
      AddTotal(c[1..], k, n);
      assert Add(c, k, n)[1..] == Add(c[1..], k, n);
    } else if c != [] {
      assert Add(c, k, n)[1..] == c[1..];
    }
  }

  /** With distinct keys, an entry's count is the count of its key. */
  lemma {:induction false} CountAt<K>(c: seq<Entry<K>>, i: nat)
    requires DistinctKeys(c) && i < |c|
    ensures CountOf(c, c[i].key) == c[i].count
  {
    if i > 0 {
      assert c[1..][i - 1] == c[i];
      CountAt(c[1..], i - 1);
    }
  }

  /** The counter of a sequence of keys, each counted once, in the order given. */
  function Tally<K(==)>(ks: seq<K>): seq<Entry<K>> {
    if ks == [] then [] else Add(Tally(ks[..|ks| - 1]), ks[|ks| - 1], 1)
  }

  /** Counting one more key is one Add. */
  lemma TallySnoc<K>(ks: seq<K>, k: K)
    ensures Tally(ks + [k]) == Add(Tally(ks), k, 1)
  {
    assert (ks + [k])[..|ks|] == ks;
  }

  /**
   * A tally has one entry per distinct key, in first-occurrence order; each
   * count is the number of occurrences, and the counts sum to the number of keys.
   */
  lemma {:induction false} TallyFacts<K>(ks: seq<K>)
    ensures DistinctKeys(Tally(ks))
    ensures forall k :: HasKey(Tally(ks), k) <==> k in ks
    ensures forall k :: CountOf(Tally(ks), k) == multiset(ks)[k]
    ensures Total(Tally(ks)) == |ks|
  {
    if ks != [] {
      var init, last := ks[..|ks| - 1], ks[|ks| - 1];
      assert ks == init + [last];
      TallyFacts(init);
      AddDistinct(Tally(init), last, 1);
      AddTotal(Tally(init), last, 1);
      forall k ensures HasKey(Tally(ks), k) <==> k in ks {
        AddKeys(Tally(init), last, 1, k);
      }
      forall k ensures CountOf(Tally(ks), k) == multiset(ks)[k] {
        AddCount(Tally(init), last, 1, k);
      }
    }
  }

  /** With distinct keys there are as many entries as keys. */
  lemma {:induction false} DistinctKeysCardinality<K>(c: seq<Entry<K>>)
    requires DistinctKeys(c)
    ensures |set e | e in c :: e.key| == |c|
  {
    if c != [] {
      DistinctKeysCardinality(c[1..]);
      var rest := set e | e in c[1..] :: e.key;
      assert c[0].key !in rest by {
        forall e | e in c[1..] ensures e.key != c[0].key {
          var i :| 0 <= i < |c[1..]| && c[1..][i] == e;
          assert c[i + 1] == e;
        }
      }
      assert (set e | e in c :: e.key) == rest + {c[0].key} by {
        assert c == [c[0]] + c[1..];
      }
    }
  }

  /** The distinct elements of ks. */
  ghost function KeySet<K>(ks: seq<K>): set<K> {
    set k | k in ks
  }

  /** A tally has one entry for each distinct key. */
  lemma TallyKeySet<K>(ks: seq<K>)
    ensures (set e | e in Tally(ks) :: e.key) == KeySet(ks)
    ensures |Tally(ks)| == |KeySet(ks)|
  {
    var c := Tally(ks);
    TallyFacts(ks);
    DistinctKeysCardinality(c);
    var a, b := set e | e in c :: e.key, KeySet(ks);
    forall k | k in b ensures k in a {
      var i :| 0 <= i < |c| && c[i].key == k;
      assert c[i] in c;
    }
    forall k | k in a ensures k in b {
      var e :| e in c && e.key == k;
      var i :| 0 <= i < |c| && c[i] == e;
      assert HasKey(c, k);
    }
  }

  // ----- sorted counters -----

  /** The comparator `(a, b) => b[1] - a[1]`: higher counts first. */
  predicate CountAtLeast<K>(a: Entry<K>, b: Entry<K>) {
    a.count >= b.count
  }

  /** The comparator `(a, b) => a[0] - b[0]` on numeric keys: smaller keys first. */
  predicate KeyAtMost(a: Entry<int>, b: Entry<int>) {
    a.key <= b.key
  }

  lemma ComparatorsArePreorders<K(!new)>()
    ensures Sorting.TotalPreorder(CountAtLeast<K>)
    ensures Sorting.TotalPreorder(KeyAtMost)
  {
  }

  /** Sorting keeps the entries. */
  lemma SortMembers<K>(c: seq<Entry<K>>, le: (Entry<K>, Entry<K>) -> bool)
    ensures forall e :: e in Sorting.StableSort(c, le) <==> e in c
  {
    var r := Sorting.StableSort(c, le);
    forall e ensures e in r <==> e in c {
      assert e in r <==> e in multiset(r);
      assert e in c <==> e in multiset(c);
    }
  }

  /** Sorting a counter keeps its keys. */
  lemma SortKeepsKeys<K>(c: seq<Entry<K>>, le: (Entry<K>, Entry<K>) -> bool)
    ensures forall k :: HasKey(Sorting.StableSort(c, le), k) <==> HasKey(c, k)
  {
    var r := Sorting.StableSort(c, le);
    SortMembers(c, le);
    forall k ensures HasKey(r, k) <==> HasKey(c, k) {
      if HasKey(r, k) {
        var i :| 0 <= i < |r| && r[i].key == k;
        assert r[i] in c;
      }
      if HasKey(c, k) {
        var i :| 0 <= i < |c| && c[i].key == k;
        assert c[i] in r;
      }
    }
  }

  /** Sorting a counter keeps distinct keys. */
  lemma {:induction false} SortDistinct<K>(c: seq<Entry<K>>, le: (Entry<K>, Entry<K>) -> bool)
    requires DistinctKeys(c)
    ensures DistinctKeys(Sorting.StableSort(c, le))
  {
    if c != [] {
      RestAvoidsFirst(c);
      SortDistinct(c[1..], le);
      var s := Sorting.StableSort(c[1..], le);
      SortMembers(c[1..], le);
      RestAvoidsFirst(c);
      InsertDistinct(c[0], s, le);
    }
  }

  /** Inserting adds x to the entries. */
  lemma InsertMembers<K>(x: Entry<K>, s: seq<Entry<K>>, le: (Entry<K>, Entry<K>) -> bool)
    ensures forall e :: e in Sorting.Insert(x, s, le) <==> e == x || e in s
  {
    var r := Sorting.Insert(x, s, le);
    forall e ensures e in r <==> e == x || e in s {
      assert e in r <==> e in multiset(r);
      assert e in s <==> e in multiset(s);
    }
  }

  /** The entries after the first have no key of the first. */
  lemma RestAvoidsFirst<K>(s: seq<Entry<K>>)
    requires DistinctKeys(s) && s != []
    ensures DistinctKeys(s[1..])
    ensures forall e :: e in s[1..] ==> e in s && e.key != s[0].key
  {
    forall e | e in s[1..] ensures e in s && e.key != s[0].key {
      var i :| 0 <= i < |s[1..]| && s[1..][i] == e;
      assert s[i + 1] == e;
    }
    forall i, j | 0 <= i < j < |s[1..]| ensures s[1..][i].key != s[1..][j].key {
      assert s[1..][i] == s[i + 1] && s[1..][j] == s[j + 1];
    }
  }

  lemma {:induction false} InsertDistinct<K>(x: Entry<K>, s: seq<Entry<K>>, le: (Entry<K>, Entry<K>) -> bool)
    requires DistinctKeys(s)
    requires forall e :: e in s ==> e.key != x.key
    ensures DistinctKeys(Sorting.Insert(x, s, le))
  {
    var r := Sorting.Insert(x, s, le);
    if s != [] && !le(x, s[0]) {
      var t := Sorting.Insert(x, s[1..], le);
      RestAvoidsFirst(s);
      InsertDistinct(x, s[1..], le);
      InsertMembers(x, s[1..], le);
      assert r == [s[0]] + t;
      assert s[0] in s;
      forall j | 0 < j < |r| ensures r[0].key != r[j].key {
        assert r[j] == t[j - 1];
        assert t[j - 1] in t;
      }
    } else if s != [] {
      assert r == [x] + s;
      forall j | 0 < j < |r| ensures r[0].key != r[j].key {
        assert r[j] == s[j - 1];
      }
    }
  }

  /** Sorting a counter keeps its total. */
  lemma {:induction false} SortTotal<K>(c: seq<Entry<K>>, le: (Entry<K>, Entry<K>) -> bool)
    ensures Total(Sorting.StableSort(c, le)) == Total(c)
  {
    if c != [] {
      SortTotal(c[1..], le);
      InsertTotal(c[0], Sorting.StableSort(c[1..], le), le);
    }
  }

  lemma {:induction false} InsertTotal<K>(x: Entry<K>, s: seq<Entry<K>>, le: (Entry<K>, Entry<K>) -> bool)
    ensures Total(Sorting.Insert(x, s, le)) == Total(s) + x.count
  {
    var r := Sorting.Insert(x, s, le);
    if s == [] {
      assert r == [x];
      assert r[1..] == [];
    } else if le(x, s[0]) {
      assert r == [x] + s;
      assert r[1..] == s;
    } else {
      InsertTotal(x, s[1..], le);
      assert r[1..] == Sorting.Insert(x, s[1..], le);
    }
  }

  /** `reduce((max, e) => Math.max(max, e.count), 0)`. */
  function MaxCount<K>(c: seq<Entry<K>>): (m: nat)
    ensures forall i :: 0 <= i < |c| ==> c[i].count <= m
    ensures c == [] ==> m == 0
    ensures c != [] ==> exists i :: 0 <= i < |c| && c[i].count == m
  {
    if c == [] then 0
    else
      var m := MaxCount(c[..|c| - 1]);
      assert forall i :: 0 <= i < |c| - 1 ==> c[..|c| - 1][i] == c[i];
      if m >= c[|c| - 1].count then m else c[|c| - 1].count
  }

  /** The first n entries of a counter sorted by descending count: at most n distinct entries of it, highest count first. */
  lemma TopEntriesOrdered<K(!new)>(c: seq<Entry<K>>, n: nat)
    requires DistinctKeys(c)
    ensures |Sorting.Take(Sorting.StableSort(c, CountAtLeast), n)| <= n
    ensures DistinctKeys(Sorting.Take(Sorting.StableSort(c, CountAtLeast), n))
    ensures forall i, j :: 0 <= i < j < |Sorting.Take(Sorting.StableSort(c, CountAtLeast), n)| ==>
      Sorting.Take(Sorting.StableSort(c, CountAtLeast), n)[i].count >= Sorting.Take(Sorting.StableSort(c, CountAtLeast), n)[j].count
    ensures forall e :: e in Sorting.Take(Sorting.StableSort(c, CountAtLeast), n) ==> e in c
  {
    var sorted := Sorting.StableSort(c, CountAtLeast);
    var top := Sorting.Take(sorted, n);
    ComparatorsArePreorders<K>();
    Sorting.StableSortSorted(c, CountAtLeast);
    SortDistinct(c, CountAtLeast);
    SortMembers(c, CountAtLeast);
    forall i, j | 0 <= i < j < |top| ensures top[i].count >= top[j].count {
      assert top[i] == sorted[i] && top[j] == sorted[j];
      assert CountAtLeast(sorted[i], sorted[j]);
    }
    forall e | e in top ensures e in c {
      var i :| 0 <= i < |top| && top[i] == e;
      assert sorted[i] == e;
    }
  }

  /** Every entry left out of the top n has a count no higher than any kept, and then n were kept. */
  lemma TopEntriesComplete<K(!new)>(c: seq<Entry<K>>, n: nat, e: Entry<K>)
    requires e in c && e !in Sorting.Take(Sorting.StableSort(c, CountAtLeast), n)
    ensures |Sorting.Take(Sorting.StableSort(c, CountAtLeast), n)| == n
    ensures forall i :: 0 <= i < n ==> Sorting.Take(Sorting.StableSort(c, CountAtLeast), n)[i].count >= e.count
  {
    var sorted := Sorting.StableSort(c, CountAtLeast);
    var top := Sorting.Take(sorted, n);
    ComparatorsArePreorders<K>();
    Sorting.StableSortSorted(c, CountAtLeast);
    SortMembers(c, CountAtLeast);
    var m :| 0 <= m < |sorted| && sorted[m] == e;
    assert forall i :: 0 <= i < |top| ==> sorted[i] == top[i] && sorted[i] in top;
    forall i | 0 <= i < |top| ensures top[i].count >= e.count {
      assert CountAtLeast(sorted[i], sorted[m]);
    }
  }

  /** `Array.from(counts.entries()).sort((a, b) => b[1] - a[1]).slice(0, n)` for a counter of ks. */
  function TopOf<K(==)>(ks: seq<K>, n: nat): seq<Entry<K>> {
    Sorting.Take(Sorting.StableSort(Tally(ks), CountAtLeast), n)
  }

  /**
   * The top n of a tally: at most n distinct keys of ks, highest count first,
   * each with its number of occurrences; a key left out means n were kept,
   * each occurring at least as often.
   */
  lemma TopOfTally<K(!new)>(ks: seq<K>, n: nat)
    ensures |TopOf(ks, n)| <= n && DistinctKeys(TopOf(ks, n))
    ensures forall i, j :: 0 <= i < j < |TopOf(ks, n)| ==> TopOf(ks, n)[i].count >= TopOf(ks, n)[j].count
    ensures forall e :: e in TopOf(ks, n) ==> e.key in ks && e.count == multiset(ks)[e.key]
    ensures forall k :: k in ks && !HasKey(TopOf(ks, n), k) ==>
      |TopOf(ks, n)| == n && forall i :: 0 <= i < n ==> TopOf(ks, n)[i].count >= multiset(ks)[k]
  {
    var tally := Tally(ks);
    var top := TopOf(ks, n);
    TallyFacts(ks);
    TopEntriesOrdered(tally, n);
    forall e | e in top ensures e.key in ks && e.count == multiset(ks)[e.key] {
      var i :| 0 <= i < |tally| && tally[i] == e;
      CountAt(tally, i);
      assert HasKey(tally, e.key);
    }
    forall k | k in ks && !HasKey(top, k)
      ensures |top| == n && forall i :: 0 <= i < n ==> top[i].count >= multiset(ks)[k]
    {
      assert HasKey(tally, k);
      var i :| 0 <= i < |tally| && tally[i].key == k;
      CountAt(tally, i);
      assert forall j :: 0 <= j < |top| ==> top[j] != tally[i];
      TopEntriesComplete(tally, n, tally[i]);
    }
  }

  /** A counter with distinct numeric keys, sorted by key, has strictly ascending keys. */
  lemma SortByKeyAscending(c: seq<Entry<int>>)
    requires DistinctKeys(c)
    ensures forall i, j :: 0 <= i < j < |Sorting.StableSort(c, KeyAtMost)| ==>
      Sorting.StableSort(c, KeyAtMost)[i].key < Sorting.StableSort(c, KeyAtMost)[j].key
    ensures DistinctKeys(Sorting.StableSort(c, KeyAtMost))
  {
    var sorted := Sorting.StableSort(c, KeyAtMost);
    ComparatorsArePreorders<int>();
    Sorting.StableSortSorted(c, KeyAtMost);
    SortDistinct(c, KeyAtMost);
    SortMembers(c, KeyAtMost);
    forall i, j | 0 <= i < j < |sorted| ensures sorted[i].key < sorted[j].key {
      assert KeyAtMost(sorted[i], sorted[j]);
    }
  }
}
