/** Values shared by the component models. */
module Common {

  datatype Option<+T> = None | Some(value: T)

  /** Rust's `saturating_duration_since`: elapsed time, never negative. */
  function Since(now: int, earlier: int): (d: nat)
    ensures earlier <= now ==> d == now - earlier
  {
    if earlier <= now then now - earlier else 0
  }

  function Newer(a: int, b: int): int { if a < b then b else a }

  /** `until` is set and still lies in the future. */
  predicate Pending(until: Option<int>, now: int) {
    until.Some? && now < until.value
  }

  predicate Distinct<T(==)>(items: seq<T>) {
    forall i, j | 0 <= i < j < |items| :: items[i] != items[j]
  }

  /** Adding a fresh key to a finite map grows it by one. */
  lemma MapAddSize<K, V>(m: map<K, V>, k: K, v: V)
    requires k !in m
    ensures |m[k := v]| == |m| + 1
  {
    assert m[k := v].Keys == m.Keys + {k};
  }

  /** Removing a present key from a finite map shrinks it by one. */
  lemma MapRemoveSize<K, V>(m: map<K, V>, k: K)
    requires k in m
    ensures |m - {k}| == |m| - 1
  {
    assert (m - {k}).Keys == m.Keys - {k};
  }

  /** A map whose keys lie within another's is no larger. */
  lemma MapSubsetSize<K, V>(small: map<K, V>, large: map<K, V>)
    requires small.Keys <= large.Keys
    ensures |small| <= |large|
  {
    SubsetSize(small.Keys, large.Keys);
  }

  lemma SubsetSize<T>(small: set<T>, large: set<T>)
    requires small <= large
    ensures |small| <= |large|
  {
    assert large == small + (large - small);
  }
}
