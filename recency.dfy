/**
 * The recency order of the cache: the keys of the store's LinkedHashMap listed
 * from the least recently used (front) to the most recently used (back).
 */
module Recency {
  import opened Bytes

  /** Keys are byte strings. */
  type Key = Bytes

  /** No key appears twice in an order. */
  predicate NoDup(s: seq<Key>) {
    forall i, j | 0 <= i < j < |s| :: s[i] != s[j]
  }

  /** The keys an order lists. */
  function Elems(s: seq<Key>): set<Key> {
    set x | x in s
  }

  /**
   * Unlinks `k` from the order, as LinkedHashMap::remove does with the entry's
   * node; every other key keeps its place relative to the rest.
   */
  function Remove(s: seq<Key>, k: Key): (r: seq<Key>)
    ensures forall x :: x in r <==> x in s && x != k
    ensures k !in s ==> r == s
    ensures NoDup(s) ==> NoDup(r)
    ensures NoDup(s) && k in s ==> |r| == |s| - 1
  {
    if s == [] then []
    else if s[0] == k then Remove(s[1..], k)
    else
      var rest := Remove(s[1..], k);
      assert NoDup(s) ==> s[0] !in s[1..];
      [s[0]] + rest
  }

  /**
   * In an order free of duplicates, removing the key at position `i` closes
   * the gap: the keys before it and the keys after it stay as they were.
   */
  lemma {:induction false} RemoveAt(s: seq<Key>, i: nat)
    requires NoDup(s) && i < |s|
    ensures Remove(s, s[i]) == s[..i] + s[i + 1..]
  {
    if i == 0 {
      assert s[0] !in s[1..];
    } else {
      var tail := s[1..];
      assert tail[i - 1] == s[i] && s[0] != s[i];
      RemoveAt(tail, i - 1);
      assert s[..i] == [s[0]] + tail[..i - 1];
      assert tail[i..] == s[i + 1..];
    }
  }

  /** Removing a key from a concatenation removes it from each part. */
  lemma {:induction false} RemoveConcat(a: seq<Key>, b: seq<Key>, k: Key)
    ensures Remove(a + b, k) == Remove(a, k) + Remove(b, k)
  {
    if a == [] {
      assert a + b == b;
    } else {
      assert (a + b)[1..] == a[1..] + b;
      RemoveConcat(a[1..], b, k);
    }
  }

  /**
   * The order after the remove-then-insert that `put` and `get` perform on `k`:
   * `k` is unlinked wherever it was and appended at the most recently used end.
   */
  function MoveToBack(s: seq<Key>, k: Key): seq<Key> {
    Remove(s, k) + [k]
  }

  /**
   * Moving `k` to the back keeps an order free of duplicates, lists exactly the
   * old keys plus `k`, puts `k` last, grows the order only when `k` is new, and
   * leaves the relative order of every other key as it was.
   */
  lemma {:induction false} MoveToBackFacts(s: seq<Key>, k: Key)
    requires NoDup(s)
    ensures NoDup(MoveToBack(s, k))
    ensures Elems(MoveToBack(s, k)) == Elems(s) + {k}
    ensures MoveToBack(s, k)[|MoveToBack(s, k)| - 1] == k
    ensures |MoveToBack(s, k)| == if k in s then |s| else |s| + 1
    ensures Remove(MoveToBack(s, k), k) == Remove(s, k)
  {
    var r := Remove(s, k);
    assert k !in r;
    RemoveConcat(r, [k], k);
    assert Remove([k], k) == [];
    assert r + [] == r;
  }

  /** Dropping the `m` oldest keys keeps an order free of duplicates and lists the rest. */
  lemma DropOldest(s: seq<Key>, m: nat)
    requires NoDup(s) && m <= |s|
    ensures NoDup(s[m..])
    ensures Elems(s[m..]) == Elems(s) - Elems(s[..m])
  {
    assert s == s[..m] + s[m..];
    forall x | x in Elems(s) - Elems(s[..m]) ensures x in Elems(s[m..]) {
      var i :| 0 <= i < |s| && s[i] == x;
      assert s[m..][i - m] == x;
    }
  }
}
