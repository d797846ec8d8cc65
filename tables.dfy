/** The query shapes the services run against their tables: a WHERE filter,
    an ORDER BY on one integer column, and a lookup of the row with a given key. */
module Tables {
  import opened Common

  /** Every row's key is at most the key of every later row. */
  predicate SortedBy<T>(s: seq<T>, key: T -> int) {
    forall i, j :: 0 <= i < j < |s| ==> key(s[i]) <= key(s[j])
  }

  /** A row whose key is at most the first key of a sorted table can go in front of it. */
  lemma SortedCons<T>(h: T, t: seq<T>, key: T -> int)
    requires SortedBy(t, key)
    requires t != [] ==> key(h) <= key(t[0])
    ensures SortedBy([h] + t, key)
  {
    var r := [h] + t;
    forall i, j | 0 <= i < j < |r| ensures key(r[i]) <= key(r[j]) {
      if i == 0 && j > 1 {
        assert key(t[0]) <= key(t[j - 1]);
      }
    }
  }

  /** Places `x` into a sorted sequence, before the first row with a larger key. */
  function Insert<T(==)>(x: T, s: seq<T>, key: T -> int): (r: seq<T>)
    requires SortedBy(s, key)
    ensures SortedBy(r, key)
    ensures multiset(r) == multiset(s) + multiset{x}
    ensures r[0] == x || (s != [] && r[0] == s[0])
    decreases |s|
  {
    if s == [] || key(x) <= key(s[0]) then
      SortedCons(x, s, key);
      [x] + s
    else
      var tail := Insert(x, s[1..], key);
      assert s == [s[0]] + s[1..];
      SortedCons(s[0], tail, key);
      [s[0]] + tail
  }

  /** ORDER BY `key` ascending: a sorted permutation of the rows. */
  function SortBy<T(==)>(s: seq<T>, key: T -> int): (r: seq<T>)
    ensures SortedBy(r, key)
    ensures multiset(r) == multiset(s)
    decreases |s|
  {
    if s == [] then []
    else
      assert s == [s[0]] + s[1..];
      Insert(s[0], SortBy(s[1..], key), key)
  }

  /** WHERE `p`: the rows satisfying `p`, each as often as it occurs in the table. */
  function Filter<T(==,!new)>(s: seq<T>, p: T -> bool): (r: seq<T>)
    ensures forall x :: multiset(r)[x] == if p(x) then multiset(s)[x] else 0
    decreases |s|
  {
    if s == [] then []
    else
      assert s == [s[0]] + s[1..];
      (if p(s[0]) then [s[0]] else []) + Filter(s[1..], p)
  }

  /** A condition every row meets keeps the whole table. */
  lemma {:induction false} FilterAll<T(!new)>(s: seq<T>, p: T -> bool)
    requires forall x :: p(x)
    ensures Filter(s, p) == s
    decreases |s|
  {
    if s != [] {
      FilterAll(s[1..], p);
      assert s == [s[0]] + s[1..];
    }
  }

  /** No two rows share a key. */
  predicate UniqueKeys<T, K(==)>(s: seq<T>, keyOf: T -> K) {
    forall i, j :: 0 <= i < j < |s| ==> keyOf(s[i]) != keyOf(s[j])
  }

  /** The position of the first row whose key is `k`, if any. */
  function IndexOf<T, K(==)>(s: seq<T>, k: K, keyOf: T -> K): (r: Option<nat>)
    ensures r.Some? ==> r.value < |s| && keyOf(s[r.value]) == k
    ensures r.Some? ==> forall j :: 0 <= j < r.value ==> keyOf(s[j]) != k
    ensures r.None? <==> forall j :: 0 <= j < |s| ==> keyOf(s[j]) != k
    decreases |s|
  {
    if s == [] then None
    else if keyOf(s[0]) == k then Some(0)
    else match IndexOf(s[1..], k, keyOf)
      case None => None
      case Some(i) => Some(i + 1)
  }

  /** With unique keys, the row at position `i` is the one found under its own key. */
  lemma IndexOfUnique<T, K>(s: seq<T>, i: nat, keyOf: T -> K)
    requires UniqueKeys(s, keyOf) && i < |s|
    ensures IndexOf(s, keyOf(s[i]), keyOf) == Some(i)
  {
  }

  /** A key that some row carries is found. */
  lemma IndexOfFound<T, K>(s: seq<T>, i: nat, k: K, keyOf: T -> K)
    requires i < |s| && keyOf(s[i]) == k
    ensures IndexOf(s, k, keyOf).Some?
  {
  }

  /** Appending a row under a key no row carries keeps the keys unique. */
  lemma AppendUnique<T, K>(s: seq<T>, x: T, keyOf: T -> K)
    requires UniqueKeys(s, keyOf)
    requires IndexOf(s, keyOf(x), keyOf).None?
    ensures UniqueKeys(s + [x], keyOf)
  {
    var r := s + [x];
    forall i, j | 0 <= i < j < |r| ensures keyOf(r[i]) != keyOf(r[j]) {
      if j == |s| {
        assert r[i] == s[i];
      } else {
        assert r[i] == s[i] && r[j] == s[j];
      }
    }
  }
}
