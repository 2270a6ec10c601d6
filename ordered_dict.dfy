/**
 * Insertion-ordered dictionaries with string keys, the shape of every
 * mapping in the attendance calculator: the timetable (day to schedule),
 * each day's schedule (subject to periods) and the absence input (day to
 * count). A dictionary is the list of its bindings in insertion order.
 */
module OrderedDict {

  datatype Option<+T> = None | Some(value: T)

  /** One key/value pair of a dictionary. */
  datatype Binding<+V> = Binding(key: string, value: V)

  /** A dictionary as its bindings, in insertion order. */
  type Dict<V> = seq<Binding<V>>

  /** `k in d` */
  predicate HasKey<V>(d: Dict<V>, k: string)
  {
    exists i | 0 <= i < |d| :: d[i].key == k
  }

  /** No key is bound twice, as in every dictionary value. */
  predicate DistinctKeys<V>(d: Dict<V>)
  {
    forall i, j | 0 <= i < j < |d| :: d[i].key != d[j].key
  }

  /**
   * `d[k]`: the value bound to `k`, or None where indexing raises KeyError.
   * With distinct keys this is the value of the one binding of `k`.
   */
  function Lookup<V>(d: Dict<V>, k: string): (r: Option<V>)
    ensures r.None? <==> !HasKey(d, k)
    ensures r.Some? ==> exists i | 0 <= i < |d| :: d[i].key == k && d[i].value == r.value
    ensures DistinctKeys(d) ==>
              forall i | 0 <= i < |d| && d[i].key == k :: r == Some(d[i].value)
  {
    if d == [] then None
    else if d[|d| - 1].key == k then Some(d[|d| - 1].value)
    else
      var r := Lookup(d[..|d| - 1], k);
      assert forall i | 0 <= i < |d| - 1 :: d[..|d| - 1][i] == d[i];
      r
  }

  /** `d.get(k, default)` */
  function Get<V>(d: Dict<V>, k: string, default: V): V
  {
    match Lookup(d, k)
    case Some(v) => v
    case None => default
  }
}
