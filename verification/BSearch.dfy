/** The two binary searches of metis/lib/bsearch.c over an array of `keyvals_t`.

    Only the order of keys matters to the program (every access goes through
    `keycmp`), and every countable total order embeds in the reals, so a key is
    modelled by its place in that order. */
module BSearch {

  type Key = real
  type Value = int

  /** A B+tree node's address; 0 is NULL. */
  type Ref = nat

  /** One `keyvals_t`. The C field `vals` holds the value array in a leaf and the
      child pointer in an internal node; the two readings are kept apart here. */
  datatype Slot = Slot(key: Key, vals: seq<Value>, child: Ref, hash: nat)

  ghost predicate Ascending(arr: seq<Slot>, n: nat)
    requires n <= |arr|
  {
    forall i, j :: 0 <= i < j < n ==> arr[i].key < arr[j].key
  }

  /** How many of the first `n` keys are at most `key`: the index of the first greater one. */
  method SearchLargest(key: Key, arr: seq<Slot>, n: nat) returns (pos: nat)
    requires n <= |arr| && Ascending(arr, n)
    ensures pos <= n
    ensures forall i :: 0 <= i < pos ==> arr[i].key <= key
    ensures forall i :: pos <= i < n ==> key < arr[i].key
  {
    if n == 0 { return 0; }
    if key >= arr[n - 1].key { return n; }
    if n == 1 { return 0; }
    if n == 2 {
      if key < arr[0].key { return 0; }
      return 1;
    }
    var left, right := 0, n - 2;
    while left < right
      invariant 0 <= left <= n - 1 && left - 1 <= right <= n - 2
      invariant forall i :: 0 <= i < left ==> arr[i].key <= key
      invariant key < arr[right + 1].key
      decreases right - left
    {
      var mid := (left + right) / 2;
      if key >= arr[mid].key {
        left := mid + 1;
      } else {
        right := mid - 1;
      }
    }
    if key >= arr[left].key { return left + 1; }
    return left;
  }

  /** The index of `key` among the first `n` keys, or else the index where it belongs. */
  method SearchEqual(key: Key, arr: seq<Slot>, n: nat) returns (pos: nat, found: bool)
    requires n <= |arr| && Ascending(arr, n)
    ensures pos <= n
    ensures found <==> exists i :: 0 <= i < n && arr[i].key == key
    ensures found ==> pos < n && arr[pos].key == key
    ensures forall i :: 0 <= i < pos ==> arr[i].key < key
    ensures !found ==> forall i :: pos <= i < n ==> key < arr[i].key
  {
    if n == 0 { return 0, false; }
    if key == arr[n - 1].key { return n - 1, true; }
    if key > arr[n - 1].key { return n, false; }
    if n == 1 { return 0, false; }
    if n == 2 {
      if key == arr[0].key { return 0, true; }
      if key < arr[0].key { return 0, false; }
      return 1, false;
    }
    var left, right := 0, n - 2;
    while left < right
      invariant 0 <= left <= n - 1 && left - 1 <= right <= n - 2
      invariant forall i :: 0 <= i < left ==> arr[i].key < key
      invariant key < arr[right + 1].key
      decreases right - left
    {
      var mid := (left + right) / 2;
      if key == arr[mid].key {
        return mid, true;
      } else if key < arr[mid].key {
        right := mid - 1;
      } else {
        left := mid + 1;
      }
    }
    if key == arr[left].key { return left, true; }
    if key > arr[left].key { return left + 1, false; }
    return left, false;
  }
}
