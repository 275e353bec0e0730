/** The per-widget cache: a map from product id to the last value stored for it
    and the clock reading of that store. An entry is reused while strictly less
    than `expiry` milliseconds have elapsed; it is only ever replaced, never evicted. */
module ExpiringCache {
  import opened Wrappers

  datatype Entry<T> = Entry(data: T, timestamp: nat)

  type Cache<T> = map<string, Entry<T>>

  /** A widget's state after one poll tick, and whether the tick went to the network. */
  datatype TickResult<W> = TickResult(state: W, fetched: bool)

  /** The cache-hit test every widget performs before fetching. */
  function Lookup<T>(c: Cache<T>, key: string, now: nat, expiry: nat): (r: Option<T>)
    ensures r.Some? <==> key in c && now < c[key].timestamp + expiry
    ensures r.Some? ==> r.value == c[key].data
  {
    if key in c && now - c[key].timestamp < expiry then Some(c[key].data) else None
  }

  /** `cache.set(key, { data, timestamp: at })`: a whole-entry replacement. */
  function Store<T>(c: Cache<T>, key: string, data: T, at: nat): (r: Cache<T>)
    ensures r.Keys == c.Keys + {key}
    ensures r[key] == Entry(data, at)
    ensures forall k :: k in c && k != key ==> r[k] == c[k]
  {
    c[key := Entry(data, at)]
  }

  /** A stored value is served back exactly while it is fresh. */
  lemma StoreThenLookup<T>(c: Cache<T>, key: string, data: T, at: nat, now: nat, expiry: nat)
    ensures now - at < expiry ==> Lookup(Store(c, key, data, at), key, now, expiry) == Some(data)
    ensures now - at >= expiry ==> Lookup(Store(c, key, data, at), key, now, expiry).None?
  {
  }

  /** Storing under one key does not change what any other key looks up to. */
  lemma StoreKeepsOtherKeys<T>(c: Cache<T>, key: string, other: string, data: T, at: nat, now: nat, expiry: nat)
    requires other != key
    ensures Lookup(Store(c, key, data, at), other, now, expiry) == Lookup(c, other, now, expiry)
  {
  }

  /** The freshness test is strict: at exactly `expiry` ms of age an entry is stale. */
  lemma StaleAtExpiry<T>(c: Cache<T>, key: string, expiry: nat)
    requires key in c
    ensures Lookup(c, key, c[key].timestamp + expiry, expiry).None?
    ensures expiry > 0 ==> Lookup(c, key, c[key].timestamp + expiry - 1, expiry) == Some(c[key].data)
  {
  }
}
