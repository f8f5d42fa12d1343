/**
 * The in-memory cache behind automatic persisted queries: query hashes
 * mapped to query text. Entries are only ever added or overwritten; the TTL
 * is recorded at construction and never consulted.
 */
module Cache {

  /** A `time.Duration`: a count of nanoseconds in a signed 64-bit integer. */
  newtype Duration = x: int | -0x8000_0000_0000_0000 <= x < 0x8000_0000_0000_0000

  class InMemoryCache {
    var cache: map<string, string>
    var ttl: Duration

    /** `NewInMemoryCache`: an empty cache that keeps the given TTL. */
    constructor (ttl: Duration)
      ensures cache == map[]
      ensures this.ttl == ttl
    {
      cache := map[];
      this.ttl := ttl;
    }

    /** `Add`: store `value` under `key`, replacing any earlier value; no other entry and not the TTL changes. */
    method Add(key: string, value: string)
      modifies this
      ensures cache == old(cache)[key := value]
      ensures ttl == old(ttl)
    {
      cache := cache[key := value];
    }

    /** `Get`: the value stored under `key` and whether there is one; "" (Go's zero value) when there is none. */
    method Get(key: string) returns (val: string, found: bool)
      ensures found <==> key in cache
      ensures found ==> val == cache[key]
      ensures !found ==> val == ""
    {
      found := key in cache;
      val := if found then cache[key] else "";
    }
  }

  /** A fresh cache finds nothing. */
  method FreshCacheIsEmpty(ttl: Duration, key: string) returns (c: InMemoryCache, val: string, found: bool)
    ensures fresh(c) && c.ttl == ttl
    ensures val == "" && !found
  {
    c := new InMemoryCache(ttl);
    val, found := c.Get(key);
  }

  /** After `Add(k, v)`, `Get(k)` returns `(v, true)`, and a second `Add(k, v2)` overwrites it. */
  method AddThenGet(c: InMemoryCache, key: string, v1: string, v2: string) returns (first: string, second: string, found: bool)
    modifies c
    ensures first == v1 && second == v2 && found
    ensures c.cache == old(c.cache)[key := v2] && c.ttl == old(c.ttl)
  {
    c.Add(key, v1);
    first, found := c.Get(key);
    c.Add(key, v2);
    second, found := c.Get(key);
  }

  /** `Add` leaves every other key as it was, and the set of keys only grows. */
  method AddKeepsOthers(c: InMemoryCache, key: string, value: string, other: string)
    requires other != key
    modifies c
    ensures other in c.cache <==> other in old(c.cache)
    ensures other in c.cache ==> c.cache[other] == old(c.cache)[other]
    ensures old(c.cache).Keys + {key} == c.cache.Keys
  {
    c.Add(key, value);
  }

  /** `Add` is idempotent: adding the same entry twice gives the state of adding it once. */
  method AddIdempotent(c: InMemoryCache, key: string, value: string)
    modifies c
    ensures c.cache == old(c.cache)[key := value] && c.ttl == old(c.ttl)
  {
    c.Add(key, value);
    ghost var once := c.cache;
    c.Add(key, value);
    assert c.cache == once;
  }
}
