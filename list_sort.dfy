/**
 * Python's `list.sort(key=...)`: a stable sort by a key. The keys the
 * playback uses are a number or a pair (number, flag), compared the way
 * Python compares tuples: first component, then the second.
 */
module ListSort {

  datatype SortKey = SortKey(primary: real, secondary: int)

  predicate KeyLe(a: SortKey, b: SortKey) {
    a.primary < b.primary || (a.primary == b.primary && a.secondary <= b.secondary)
  }

  predicate SortedBy<T>(s: seq<T>, key: T -> SortKey) {
    forall i, j :: 0 <= i < j < |s| ==> KeyLe(key(s[i]), key(s[j]))
  }

  /** The elements of `s` whose key is `k`, in their order in `s`. */
  function KeyClass<T>(s: seq<T>, key: T -> SortKey, k: SortKey): seq<T> {
    if s == [] then []
    else (if key(s[0]) == k then [s[0]] else []) + KeyClass(s[1..], key, k)
  }

  /** Inserts `x` before the first element whose key is not below its own. */
  function Insert<T>(x: T, s: seq<T>, key: T -> SortKey): (r: seq<T>)
    requires SortedBy(s, key)
    ensures SortedBy(r, key)
    ensures multiset(r) == multiset(s) + multiset{x}
  {
    if s == [] || KeyLe(key(x), key(s[0])) then [x] + s
    else
      var tail := Insert(x, s[1..], key);
      assert s == [s[0]] + s[1..];
      forall j | 0 <= j < |tail| ensures KeyLe(key(s[0]), key(tail[j])) {
        assert tail[j] in multiset(tail);
        if tail[j] != x {
          assert tail[j] in s[1..];
        }
      }
      [s[0]] + tail
  }

  /** Insertion sort; the inserted element always precedes the rest, so it is stable. */
  function SortByKey<T>(s: seq<T>, key: T -> SortKey): (r: seq<T>)
    ensures SortedBy(r, key)
    ensures multiset(r) == multiset(s)
  {
    if s == [] then []
    else
      assert s == [s[0]] + s[1..];
      Insert(s[0], SortByKey(s[1..], key), key)
  }

  lemma {:induction false} InsertKeyClass<T>(x: T, s: seq<T>, key: T -> SortKey, k: SortKey)
    requires SortedBy(s, key)
    ensures KeyClass(Insert(x, s, key), key, k) == (if key(x) == k then [x] else []) + KeyClass(s, key, k)
  {
    if s == [] || KeyLe(key(x), key(s[0])) {
      KeyClassCons(x, s, key, k);
    } else {
      var tail := Insert(x, s[1..], key);
      InsertKeyClass(x, s[1..], key, k);
      KeyClassCons(s[0], tail, key, k);
      KeyClassCons(s[0], s[1..], key, k);
      assert [s[0]] + s[1..] == s;
    }
  }

  /** The key class of a list with `y` in front: `y` if it has the key, then the class of the rest. */
  lemma KeyClassCons<T>(y: T, t: seq<T>, key: T -> SortKey, k: SortKey)
    ensures KeyClass([y] + t, key, k) == (if key(y) == k then [y] else []) + KeyClass(t, key, k)
  {
    assert ([y] + t)[1..] == t;
  }

  /**
   * Stability: the elements that share a key appear in the sorted list in
   * the order they had before sorting.
   */
  lemma {:induction false} SortByKeyIsStable<T>(s: seq<T>, key: T -> SortKey, k: SortKey)
    ensures KeyClass(SortByKey(s, key), key, k) == KeyClass(s, key, k)
  {
    if s != [] {
      SortByKeyIsStable(s[1..], key, k);
      InsertKeyClass(s[0], SortByKey(s[1..], key), key, k);
    }
  }
}
