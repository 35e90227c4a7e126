/**
 * Binary search over a table on a key, as the slice method
 * `binary_search_by` is used by the Unicode lookups: the caller only asks
 * whether the key is present and, if so, at which entry.  The answer is
 * complete only when the table is sorted on that key.
 */
module Search {
  import opened Options

  /** The table is sorted (not necessarily strictly) on `key`. */
  ghost predicate SortedBy<T>(table: seq<T>, key: T -> int) {
    forall i, j :: 0 <= i < j < |table| ==> key(table[i]) <= key(table[j])
  }

  /**
   * Finds an entry whose key is `target` in `table[lo..hi]`.  A found entry
   * always holds the key; a miss rules the key out only when the table is
   * sorted on it.
   */
  function SearchRange<T>(table: seq<T>, key: T -> int, target: int, lo: nat, hi: nat): (r: Option<nat>)
    requires lo <= hi <= |table|
    ensures r.Some? ==> lo <= r.value < hi && key(table[r.value]) == target
    ensures r.None? && SortedBy(table, key) ==> forall i :: lo <= i < hi ==> key(table[i]) != target
    decreases hi - lo
  {
    if lo == hi then None
    else
      var mid := lo + (hi - lo) / 2;
      var k := key(table[mid]);
      if k < target then SearchRange(table, key, target, mid + 1, hi)
      else if target < k then SearchRange(table, key, target, lo, mid)
      else Some(mid)
  }

  /**
   * A returned index holds the key, and no entry holding the key means None.
   * On a table sorted on `key`, None also means that no entry holds it.
   */
  function BinarySearch<T>(table: seq<T>, key: T -> int, target: int): (r: Option<nat>)
    ensures r.Some? ==> r.value < |table| && key(table[r.value]) == target
    ensures (forall i :: 0 <= i < |table| ==> key(table[i]) != target) ==> r.None?
    ensures SortedBy(table, key) ==> (r.None? <==> forall i :: 0 <= i < |table| ==> key(table[i]) != target)
  {
    SearchRange(table, key, target, 0, |table|)
  }
}
