/**
 * The collection helpers of the `util` package. Go maps are reference values and
 * may be `nil`; Dafny maps are immutable values, so a Go map that may be nil
 * is an `Option<map<...>>` and an update a caller can observe is a returned map.
 */
module Collection {
  import opened Wrappers

  /**
   * What `Contains` finds when it reflects on its `target` argument: a slice or
   * array, a map, or a value of any other kind.
   */
  datatype Target<K, V> = SliceOf(items: seq<K>) | MapOf(entries: map<K, V>) | OtherKind

  /** The element scan over a slice: true as soon as one element equals `obj`. */
  function SliceContains<K(==)>(obj: K, items: seq<K>): (r: bool)
    ensures r <==> exists i :: 0 <= i < |items| && items[i] == obj
    decreases |items|
  {
    if |items| == 0 then false
    else if items[0] == obj then true
    else
      var rest := SliceContains(obj, items[1..]);
      assert forall i :: 0 < i < |items| ==> items[i] == items[1..][i - 1];
      rest
  }

  /** `util.Contains`: element of a slice, key of a map, false for anything else. */
  function Contains<K(==), V>(obj: K, target: Target<K, V>): (r: bool)
    ensures target.SliceOf? ==> (r <==> obj in target.items)
    ensures target.MapOf? ==> (r <==> obj in target.entries)
    ensures target.OtherKind? ==> !r
  {
    match target
    case SliceOf(items) => SliceContains(obj, items)
    case MapOf(entries) => obj in entries
    case OtherKind => false
  }

  /** Every pair of `subset` occurs, with the same value, in `fullset`. */
  predicate IsSubmap(subset: map<string, string>, fullset: map<string, string>) {
    forall k :: k in subset ==> k in fullset && fullset[k] == subset[k]
  }

  /**
   * `util.MapContains`: for each pair of `subset`, scan all of `fullset` for an
   * equal pair, and give up on the first pair that has none.
   */
  method MapContains(subset: map<string, string>, fullset: map<string, string>) returns (r: bool)
    ensures r <==> IsSubmap(subset, fullset)
  {
    var pending := subset.Keys;
    while pending != {}
      invariant pending <= subset.Keys
      invariant forall k :: k in subset && k !in pending ==> k in fullset && fullset[k] == subset[k]
      decreases pending
    {
      var sk :| sk in pending;
      var sv := subset[sk];
      var find := false;
      var scan := fullset.Keys;
      while scan != {}
        invariant scan <= fullset.Keys
        invariant find <==> (sk in fullset && sk !in scan && fullset[sk] == sv)
        decreases scan
      {
        var fk :| fk in scan;
        if sk == fk && sv == fullset[fk] {
          find := true;
          break;
        }
        scan := scan - {fk};
      }
      if !find {
        return false;
      }
      pending := pending - {sk};
    }
    return true;
  }

  /** An empty subset is contained in anything, and every map contains itself. */
  lemma MapContainsEmptyAndReflexive(m: map<string, string>)
    ensures IsSubmap(map[], m)
    ensures IsSubmap(m, m)
  {
  }

  /** Containment is transitive. */
  lemma MapContainsTransitive(a: map<string, string>, b: map<string, string>, c: map<string, string>)
    requires IsSubmap(a, b) && IsSubmap(b, c)
    ensures IsSubmap(a, c)
  {
  }

  /**
   * `util.MapPut`: on a non-nil map, sets `k` to `v` in the caller's map. On a nil
   * map the function allocates a map of its own, which the caller never sees.
   */
  function MapPut(m: Option<map<string, string>>, k: string, v: string): (r: Option<map<string, string>>)
    ensures m.None? ==> r.None?
    ensures m.Some? ==> r.Some? && k in r.value && r.value[k] == v
    ensures m.Some? ==> r.value.Keys == m.value.Keys + {k}
    ensures m.Some? ==> forall j :: j in m.value && j != k ==> r.value[j] == m.value[j]
  {
    match m
    case None => None
    case Some(entries) => Some(entries[k := v])
  }

  /**
   * `util.MergeMap`: copy every pair of `m1`, then every pair of `m2`, into a
   * fresh map. The inputs are values and cannot change.
   */
  method MergeMap(m1: map<string, string>, m2: map<string, string>) returns (cp: map<string, string>)
    ensures cp.Keys == m1.Keys + m2.Keys
    ensures forall k :: k in m2 ==> cp[k] == m2[k]
    ensures forall k :: k in m1 && k !in m2 ==> cp[k] == m1[k]
    ensures IsSubmap(m2, cp)
  {
    cp := map[];
    var rest := m1.Keys;
    while rest != {}
      invariant rest <= m1.Keys
      invariant cp.Keys == m1.Keys - rest
      invariant forall k :: k in cp ==> cp[k] == m1[k]
      decreases rest
    {
      var key :| key in rest;
      cp := cp[key := m1[key]];
      rest := rest - {key};
    }
    rest := m2.Keys;
    while rest != {}
      invariant rest <= m2.Keys
      invariant cp.Keys == m1.Keys + (m2.Keys - rest)
      invariant forall k :: k in m2 && k !in rest ==> cp[k] == m2[k]
      invariant forall k :: k in m1 && k !in m2 ==> cp[k] == m1[k]
      invariant forall k :: k in m1 && k in rest ==> cp[k] == m1[k]
      decreases rest
    {
      var key :| key in rest;
      cp := cp[key := m2[key]];
      rest := rest - {key};
    }
  }
}
