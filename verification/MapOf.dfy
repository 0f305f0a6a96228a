/** Lookup functions as maps: what a layer and what the whole tree hold. */
module MapOf {
  import opened NodeStore

  ghost function AsMap<K(!new), V>(f: K -> Option<V>): imap<K, V> {
    imap k: K | f(k).Some? :: f(k).value
  }

  lemma AsMapStored<K(!new), V>(f: K -> Option<V>, g: K -> Option<V>, k: K, v: Option<V>)
    requires forall j :: g(j) == if j == k then v else f(j)
    ensures AsMap(g) == if v.Some? then AsMap(f)[k := v.value] else AsMap(f) - {k}
  {
  }

  lemma AsMapSame<K(!new), V>(f: K -> Option<V>, g: K -> Option<V>)
    requires forall j :: g(j) == f(j)
    ensures AsMap(g) == AsMap(f)
  {
  }
}
