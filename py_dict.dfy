/**
 * Python lists searched by value and Python dicts with string keys.  A dict is
 * the sequence of its entries in insertion order, which is the order
 * `items()` visits them; assigning to a present key keeps its place, and
 * assigning to a new key adds an entry at the end.
 */
module PyDict {
  import opened Wrappers

  /** The first index at or after `k` where `x` occurs in `names`. */
  function Find(names: seq<string>, x: string, k: nat := 0): (r: Option<nat>)
    requires k <= |names|
    ensures r.Some? ==> k <= r.value < |names| && names[r.value] == x && forall i | k <= i < r.value :: names[i] != x
    ensures r.None? ==> forall i | k <= i < |names| :: names[i] != x
    decreases |names| - k
  {
    if k == |names| then None else if names[k] == x then Some(k) else Find(names, x, k + 1)
  }

  datatype Entry<V> = Entry(key: string, value: V)

  type Dict<V> = seq<Entry<V>>

  function Keys<V>(d: Dict<V>): (r: seq<string>)
    ensures |r| == |d| && forall i | 0 <= i < |d| :: r[i] == d[i].key
  {
    seq(|d|, i requires 0 <= i < |d| => d[i].key)
  }

  /** `k in d` */
  predicate Has<V>(d: Dict<V>, k: string) {
    Find(Keys(d), k).Some?
  }

  /** `d.get(k)`: the value of the key's entry, None when the key is absent. */
  function Get<V>(d: Dict<V>, k: string): (r: Option<V>)
    ensures r.Some? <==> Has(d, k)
    ensures r.Some? ==> exists i | 0 <= i < |d| :: d[i] == Entry(k, r.value)
    ensures r.None? ==> forall i | 0 <= i < |d| :: d[i].key != k
  {
    match Find(Keys(d), k)
    case Some(i) => Some(d[i].value)
    case None => None
  }

  /** `d[k] = v` */
  function Put<V>(d: Dict<V>, k: string, v: V): Dict<V> {
    match Find(Keys(d), k)
    case Some(i) => d[i := Entry(k, v)]
    case None => d + [Entry(k, v)]
  }

  /** No key occurs twice, as in every Python dict. */
  predicate UniqueKeys<V>(d: Dict<V>) {
    forall i, j | 0 <= i < j < |d| :: d[i].key != d[j].key
  }

  /**
   * After `d[k] = v`, `k` maps to `v`, every other key keeps its value, a
   * present key keeps its place, a new key comes last, and keys stay unique.
   */
  lemma PutEffect<V>(d: Dict<V>, k: string, v: V)
    ensures Get(Put(d, k, v), k) == Some(v)
    ensures forall k' | k' != k :: Get(Put(d, k, v), k') == Get(d, k')
    ensures Keys(Put(d, k, v)) == if Has(d, k) then Keys(d) else Keys(d) + [k]
    ensures UniqueKeys(d) ==> UniqueKeys(Put(d, k, v))
  {
    var r := Put(d, k, v);
    match Find(Keys(d), k)
    case Some(i) =>
      assert Keys(r) == Keys(d);
      assert Find(Keys(r), k) == Some(i);
    case None =>
      assert Keys(r) == Keys(d) + [k] && Keys(r)[|d|] == k;
      assert forall i | 0 <= i < |d| :: Keys(r)[i] != k;
      forall k' | k' != k ensures Get(r, k') == Get(d, k') {
        AppendedFind(Keys(d), k, k', 0);
      }
  }

  /** A search for another key is not changed by a key added at the end, except where it was missing. */
  lemma {:induction false} AppendedFind(a: seq<string>, y: string, x: string, k: nat)
    requires x != y && k <= |a|
    ensures Find(a + [y], x, k) == Find(a, x, k)
    decreases |a| - k
  {
    var b := a + [y];
    if k == |a| {
      assert Find(b, x, k + 1) == None;
    } else {
      assert b[k] == a[k];
      if a[k] != x {
        AppendedFind(a, y, x, k + 1);
      }
    }
  }

  /** A list in which no value appears twice. */
  predicate Distinct<T(==)>(s: seq<T>) {
    forall i, j | 0 <= i < j < |s| :: s[i] != s[j]
  }

  // ---------------------------------------------------------------------------
  // Dicts of JSON lists

  /** A JSON value stored under a key: a list, or another value, with its `len` when it has one (None: `len` raises a TypeError). */
  datatype Slot<T> = Items(items: seq<T>) | Other(size: Option<nat>)

  /** `key in d and isinstance(d[key], list)` */
  predicate IsList<T>(d: Dict<Slot<T>>, key: string) {
    Get(d, key).Some? && Get(d, key).value.Items?
  }

  /** A key's list, `[]` when the key is absent, for the path that extends or appends to it. */
  function ListOr<T>(d: Dict<Slot<T>>, key: string): Option<seq<T>> {
    var v := Get(d, key);
    if v.None? then Some([]) else if v.value.Items? then Some(v.value.items) else None
  }

  /**
   * `d[key] = []` when absent, then `d[key].extend(more)`: the extended dict,
   * None when the key holds a non-list, which has no `extend` and raises.
   */
  function Extend<T>(d: Dict<Slot<T>>, key: string, more: seq<T>): Option<Dict<Slot<T>>> {
    match ListOr(d, key)
    case None => None
    case Some(xs) => Some(Put(d, key, Items(xs + more)))
  }

  /** Extending appends after the key's list and touches no other key. */
  lemma ExtendEffect<T>(d: Dict<Slot<T>>, key: string, more: seq<T>)
    ensures Extend(d, key, more).Some? <==> ListOr(d, key).Some?
    ensures Extend(d, key, more).Some? ==>
      && Get(Extend(d, key, more).value, key) == Some(Items(ListOr(d, key).value + more))
      && (forall k | k != key :: Get(Extend(d, key, more).value, k) == Get(d, k))
      && (UniqueKeys(d) ==> UniqueKeys(Extend(d, key, more).value))
  {
    if ListOr(d, key).Some? {
      PutEffect(d, key, Items(ListOr(d, key).value + more));
    }
  }

  /** `len(v)`, raising a TypeError for a value without a length. */
  function Len<T>(v: Slot<T>): Outcome<nat> {
    match v
    case Items(xs) => Done(|xs|)
    case Other(Some(n)) => Done(n)
    case Other(None) => Raised
  }
}
