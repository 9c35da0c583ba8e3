/** The static `SimpleCache` of chapter 6: a map that is never changed in
    place. Every update builds a copy with the change and swaps the field
    over to it, so a reader sees either the whole old map or the whole new
    one. A miss loads the value from the (simulated) database and stores it. */
module CopyOnWriteCache {

  /** `loadFromDB`: the value the database holds for `key`. */
  function LoadFromDB(key: string): (v: string)
    ensures |v| == |key| + 9 && v[..9] == "Data for " && v[9..] == key
  {
    "Data for " + key
  }

  /** The result of `get`: the value returned and the map the field refers to afterwards. */
  datatype Fetched = Fetched(value: string, cache: map<string, string>)

  /** `get`: a hit returns the cached value and keeps the map; a miss loads
      the value and publishes a copy that also holds it. */
  function GetOrLoad(cache: map<string, string>, key: string): (r: Fetched)
    ensures key in r.cache && r.cache[key] == r.value
    ensures key in cache ==> r.value == cache[key] && r.cache == cache
    ensures key !in cache ==> r.value == LoadFromDB(key)
    ensures r.cache.Keys == cache.Keys + {key}
    ensures forall k :: k in cache ==> r.cache[k] == cache[k]
  {
    if key in cache then Fetched(cache[key], cache)
    else Fetched(LoadFromDB(key), cache[key := LoadFromDB(key)])
  }

  /** A second `get` of the same key returns the same value and changes nothing. */
  lemma GetIsIdempotent(cache: map<string, string>, key: string)
    ensures var first := GetOrLoad(cache, key);
            GetOrLoad(first.cache, key) == first
  {
  }

  class Cache {
    var cache: map<string, string>

    constructor ()
      ensures cache == map[]
    {
      cache := map[];
    }

    /** `get`. The source checks the map a second time under the class
        lock; run alone that second check sees the same map as the first,
        so it is not repeated here. */
    method Get(key: string) returns (value: string)
      modifies this
      ensures Fetched(value, cache) == GetOrLoad(old(cache), key)
    {
      if key in cache {
        return cache[key];
      }
      value := LoadFromDB(key);
      var newCache := cache[key := value];
      cache := newCache;
    }

    /** `put`: publishes a copy in which `key` maps to `value`; every other entry is kept. */
    method Put(key: string, value: string)
      modifies this
      ensures cache == old(cache)[key := value]
    {
      var newCache := cache[key := value];
      cache := newCache;
    }

    /** `clear`: publishes an empty map. */
    method Clear()
      modifies this
      ensures cache == map[]
    {
      cache := map[];
    }
  }

  /** After `put(k, v)` a `get(k)` returns `v`; after `clear()` it reloads from the database. */
  method PutGetClearGet(c: Cache, k: string, v: string) returns (afterPut: string, afterClear: string)
    modifies c
    ensures afterPut == v
    ensures afterClear == LoadFromDB(k) && c.cache == map[k := LoadFromDB(k)]
  {
    c.Put(k, v);
    afterPut := c.Get(k);
    c.Clear();
    afterClear := c.Get(k);
  }
}
