/**
 * The optional page cache (cache.py). The process-wide memcache client is
 * modelled as a value: either no cache is configured (`CACHE is None`) or
 * the backend is a map from key to stored text and TTL.
 */
module Cache {
  import opened Options

  /** Seconds an entry lives when `set` is called without a TTL. */
  const CACHE_TTL: int := 60

  /** A stored value together with the TTL it was stored with. */
  datatype Entry = Entry(text: string, ttl: int)

  /** The cache client: absent, or a backend holding entries by key. */
  datatype Store = Disabled | Enabled(entries: map<string, Entry>)

  /** `cache.get(key)`: the stored text, or `None` on a miss or without a cache. */
  function Get(store: Store, key: string): (r: Option<string>)
    ensures store.Disabled? ==> r.None?
    ensures r.Some? <==> store.Enabled? && key in store.entries
    ensures r.Some? ==> r.value == store.entries[key].text
  {
    match store
    case Disabled => None
    case Enabled(entries) => if key in entries then Some(entries[key].text) else None
  }

  /** `cache.set(key, value, ttl)`; `ttl == None` selects `CACHE_TTL`. */
  function Set(store: Store, key: string, value: string, ttl: Option<int>): (r: Store)
    ensures store.Disabled? ==> r == store
    ensures store.Enabled? ==> r.Enabled? && key in r.entries
    ensures r.Enabled? ==> r.entries[key].ttl == (if ttl.None? then CACHE_TTL else ttl.value)
    ensures Get(r, key) == (if store.Enabled? then Some(value) else None)
    ensures forall k :: k != key ==> Get(r, k) == Get(store, k)
  {
    match store
    case Disabled => Disabled
    case Enabled(entries) =>
      var t := if ttl.None? then CACHE_TTL else ttl.value;
      Enabled(entries[key := Entry(value, t)])
  }
}
