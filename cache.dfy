/** The cache manager behind the token blacklist, as a map from keys to entries
    that carry their own expiry time (milliseconds since the epoch). */
module Cache {
  import opened Common

  datatype Entry = Entry(value: string, expiresAt: int)

  type Store = map<string, Entry>

  /** `get`: the value of an entry that has not yet expired; an expired or
      missing entry reads as absent. */
  function Get(store: Store, key: string, now: int): Option<string>
  {
    if key in store && now < store[key].expiresAt then Some(store[key].value) else None
  }

  /** `set` with a time-to-live in milliseconds: the entry is readable for
      exactly `ttl` milliseconds from `now`, and no other key changes. */
  function Put(store: Store, key: string, value: string, ttl: int, now: int): (r: Store)
    requires ttl > 0
    ensures forall later :: now <= later < now + ttl ==> Get(r, key, later) == Some(value)
    ensures forall later :: now + ttl <= later ==> Get(r, key, later) == None
    ensures forall k, later :: k != key ==> Get(r, k, later) == Get(store, k, later)
    ensures r.Keys == store.Keys + {key}
  {
    store[key := Entry(value, now + ttl)]
  }
}
