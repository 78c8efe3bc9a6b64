/**
 * Order-preserving removal of duplicates that keeps the first element of each
 * key: Python's `list(dict.fromkeys(xs))` when the key is the element's own
 * equality, and pandas' `drop_duplicates(subset=..., keep="first")` when the
 * key is a tuple of columns.
 */
module Dedupe {

  /** The keys that occur in `s`. */
  function KeySet<T, K>(s: seq<T>, key: T -> K): set<K> {
    set i | 0 <= i < |s| :: key(s[i])
  }

  /** No two elements of `s` share a key. */
  predicate DistinctKeys<T, K(==)>(s: seq<T>, key: T -> K) {
    forall i, j :: 0 <= i < j < |s| ==> key(s[i]) != key(s[j])
  }

  /** The index of the first element of `s` whose key is `k`, or `|s|` if there is none. */
  function IndexOfKey<T, K(==)>(s: seq<T>, key: T -> K, k: K): (j: nat)
    ensures j <= |s|
    ensures j < |s| ==> key(s[j]) == k
    ensures forall i :: 0 <= i < j ==> key(s[i]) != k
  {
    if s == [] then 0
    else if key(s[0]) == k then 0
    else 1 + IndexOfKey(s[1..], key, k)
  }

  lemma IndexOfKeyInKeySet<T, K>(s: seq<T>, key: T -> K, k: K)
    ensures k in KeySet(s, key) <==> IndexOfKey(s, key, k) < |s|
  {
    var j := IndexOfKey(s, key, k);
    if j < |s| {
      assert key(s[j]) == k;
    }
  }

  /** A first occurrence inside a prefix is the first occurrence in the whole sequence. */
  lemma IndexOfKeyPrefix<T, K>(s: seq<T>, m: nat, key: T -> K, k: K)
    requires m <= |s|
    requires IndexOfKey(s[..m], key, k) < m
    ensures IndexOfKey(s, key, k) == IndexOfKey(s[..m], key, k)
  {
    var j', j := IndexOfKey(s[..m], key, k), IndexOfKey(s, key, k);
    assert s[..m][j'] == s[j'];
    assert forall i :: 0 <= i < j' ==> s[..m][i] == s[i];
  }

  /** The key of the last element first occurs at the last index when no earlier element has it. */
  lemma IndexOfKeyLast<T, K>(s: seq<T>, key: T -> K)
    requires |s| > 0
    requires IndexOfKey(s[..|s| - 1], key, key(s[|s| - 1])) == |s| - 1
    ensures IndexOfKey(s, key, key(s[|s| - 1])) == |s| - 1
  {
    var n := |s| - 1;
    assert forall i :: 0 <= i < n ==> s[..n][i] == s[i];
  }

  /**
   * `r` keeps exactly one element per key of `s`, that element is the first one
   * of `s` with its key, and the kept elements keep their order in `s`.
   */
  ghost predicate FirstPerKey<T, K>(r: seq<T>, s: seq<T>, key: T -> K) {
    && |r| <= |s|
    && DistinctKeys(r, key)
    && KeySet(r, key) == KeySet(s, key)
    && (forall i :: 0 <= i < |r| ==>
      IndexOfKey(s, key, key(r[i])) < |s| && r[i] == s[IndexOfKey(s, key, key(r[i]))])
    && (forall i, j :: 0 <= i < j < |r| ==>
      IndexOfKey(s, key, key(r[i])) < IndexOfKey(s, key, key(r[j])))
  }

  lemma KeySetSnoc<T, K>(s: seq<T>, key: T -> K)
    requires |s| > 0
    ensures KeySet(s, key) == KeySet(s[..|s| - 1], key) + {key(s[|s| - 1])}
  {
    var n := |s| - 1;
    assert forall i :: 0 <= i < n ==> s[..n][i] == s[i];
  }

  /** A single element is its own dedupe. */
  lemma DedupeOne<T, K>(x: T, key: T -> K)
    ensures DedupeBy([x], key) == [x]
  {
    assert [x][..0] == [];
  }

  /** There are no more keys than elements, and exactly as many when no two elements share a key. */
  lemma {:induction false} KeySetSize<T, K>(s: seq<T>, key: T -> K)
    ensures |KeySet(s, key)| <= |s|
    ensures DistinctKeys(s, key) ==> |KeySet(s, key)| == |s|
  {
    if s != [] {
      var n := |s| - 1;
      KeySetSnoc(s, key);
      KeySetSize(s[..n], key);
      if DistinctKeys(s, key) {
        assert DistinctKeys(s[..n], key);
        forall i | 0 <= i < n ensures key(s[..n][i]) != key(s[n]) {
          assert s[..n][i] == s[i];
        }
      }
    }
  }

  /** The keys of a prefix are no more than the keys of the whole. */
  lemma KeySetPrefix<T, K>(s: seq<T>, m: nat, key: T -> K)
    requires m <= |s|
    ensures KeySet(s[..m], key) <= KeySet(s, key)
    ensures |KeySet(s[..m], key)| <= |KeySet(s, key)|
  {
    var a, b := KeySet(s[..m], key), KeySet(s, key);
    forall k | k in a ensures k in b {
      var i :| 0 <= i < m && key(s[..m][i]) == k;
      assert key(s[i]) == k;
    }
    assert b == a + (b - a);
  }

  /** Extending `s` by one element does not move the first occurrence of a key already in the prefix. */
  lemma IndexOfKeysPrefix<T, K>(init: seq<T>, s: seq<T>, key: T -> K)
    requires |s| > 0
    requires forall i :: 0 <= i < |init| ==> IndexOfKey(s[..|s| - 1], key, key(init[i])) < |s| - 1
    ensures forall i :: 0 <= i < |init| ==>
      IndexOfKey(s, key, key(init[i])) == IndexOfKey(s[..|s| - 1], key, key(init[i]))
  {
    var m := |s| - 1;
    forall i | 0 <= i < |init| ensures IndexOfKey(s, key, key(init[i])) == IndexOfKey(s[..m], key, key(init[i])) {
      IndexOfKeyPrefix(s, m, key, key(init[i]));
    }
  }

  /** An element whose key the prefix already has is dropped. */
  lemma FirstPerKeyDrop<T, K>(init: seq<T>, s: seq<T>, key: T -> K)
    requires |s| > 0 && FirstPerKey(init, s[..|s| - 1], key)
    requires key(s[|s| - 1]) in KeySet(init, key)
    ensures FirstPerKey(init, s, key)
  {
    KeySetSnoc(s, key);
    IndexOfKeysPrefix(init, s, key);
  }

  /** An element with a new key is kept, at the end. */
  lemma FirstPerKeyKeep<T, K>(init: seq<T>, s: seq<T>, key: T -> K)
    requires |s| > 0 && FirstPerKey(init, s[..|s| - 1], key)
    requires key(s[|s| - 1]) !in KeySet(init, key)
    ensures FirstPerKey(init + [s[|s| - 1]], s, key)
  {
    var n, x := |s| - 1, s[|s| - 1];
    KeySetSnoc(s, key);
    IndexOfKeysPrefix(init, s, key);
    IndexOfKeyInKeySet(s[..n], key, key(x));
    IndexOfKeyLast(s, key);
    var r := init + [x];
    assert forall i :: 0 <= i < |init| ==> r[i] == init[i];
    assert r[|init|] == x;
    assert KeySet(r, key) == KeySet(init, key) + {key(x)};
  }

  /**
   * `s` with every element whose key already occurred earlier removed. The
   * result keeps exactly one element per key of `s`, that element is the first
   * one of `s` with its key, and the kept elements keep their order in `s`.
   */
  function DedupeBy<T, K(==)>(s: seq<T>, key: T -> K): (r: seq<T>)
    ensures |r| <= |s|
    ensures DistinctKeys(r, key)
    ensures KeySet(r, key) == KeySet(s, key)
    ensures forall i :: 0 <= i < |r| ==>
      IndexOfKey(s, key, key(r[i])) < |s| && r[i] == s[IndexOfKey(s, key, key(r[i]))]
    ensures forall i, j :: 0 <= i < j < |r| ==>
      IndexOfKey(s, key, key(r[i])) < IndexOfKey(s, key, key(r[j]))
  {
    if s == [] then []
    else
      var init, x := DedupeBy(s[..|s| - 1], key), s[|s| - 1];
      if key(x) in KeySet(init, key) then
        FirstPerKeyDrop(init, s, key);
        init
      else
        FirstPerKeyKeep(init, s, key);
        init + [x]
  }
}
