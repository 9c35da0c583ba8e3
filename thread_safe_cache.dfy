/** `ThreadSafeCacheWithLock`: a map with a size limit and hit, miss and
    eviction counters. Every public method runs under one lock and is
    modelled as one atomic step. When a new key arrives at a full cache,
    `evictLRU` removes whichever key the hash map's iterator yields first;
    the model leaves that victim unspecified: any present key may go. */
module LockedCache {
  import opened Optional

  /** The size the cache never exceeds: `maxSize`, but at least one entry,
      since a new key is still stored after evicting from an empty cache. */
  function SizeBound(maxSize: int): (b: nat)
    ensures b >= 1 && (maxSize >= 1 ==> b == maxSize)
  {
    if maxSize < 1 then 1 else maxSize
  }

  /** The entry a `HashMap.get` finds; `None` is `null`. */
  function Lookup<K, V>(m: map<K, V>, key: K): (r: Option<V>)
    ensures r.Some? <==> key in m
    ensures r.Some? ==> r.value == m[key]
  {
    if key in m then Some(m[key]) else None
  }

  lemma RemoveKeySize<K, V>(m: map<K, V>, key: K)
    requires key in m
    ensures |m - {key}| == |m| - 1
  {
    assert (m - {key}).Keys == m.Keys - {key};
  }

  lemma AddKeySize<K, V>(m: map<K, V>, key: K, value: V)
    requires key !in m
    ensures |m[key := value]| == |m| + 1
  {
    assert m[key := value].Keys == m.Keys + {key};
  }

  class ThreadSafeCache<K(==), V> {
    const maxSize: int
    var cache: map<K, V>
    var hitCount: nat
    var missCount: nat
    var evictionCount: nat

    ghost predicate Valid()
      reads this
    {
      |cache| <= SizeBound(maxSize)
    }

    constructor (maxSize: int)
      ensures Valid()
      ensures this.maxSize == maxSize && cache == map[]
      ensures hitCount == 0 && missCount == 0 && evictionCount == 0
    {
      this.maxSize := maxSize;
      cache := map[];
      hitCount, missCount, evictionCount := 0, 0, 0;
    }

    /** `put`: stores `value` under `key`. A new key arriving when
        `size() >= maxSize` first evicts one existing key. */
    method Put(key: K, value: V)
      requires Valid()
      modifies this
      ensures Valid()
      ensures key in cache && cache[key] == value
      ensures hitCount == old(hitCount) && missCount == old(missCount)
      // updating a present key, or inserting below the limit, evicts nothing
      ensures old(key in cache) || old(|cache|) < maxSize ==>
                cache == old(cache)[key := value] && evictionCount == old(evictionCount)
      ensures old(key in cache) ==> |cache| == old(|cache|)
      // a new key at the limit replaces exactly one present key
      ensures old(key !in cache) && old(|cache|) >= maxSize && old(|cache|) > 0 ==>
                && evictionCount == old(evictionCount) + 1
                && |cache| == old(|cache|)
                && exists victim :: victim in old(cache) && cache == (old(cache) - {victim})[key := value]
      ensures old(key !in cache) && old(|cache|) >= maxSize && old(cache) == map[] ==>
                cache == map[key := value] && evictionCount == old(evictionCount)
    {
      if |cache| >= maxSize && key !in cache {
        EvictLRU();
      }
      if key !in cache {
        AddKeySize(cache, key, value);
      }
      cache := cache[key := value];
    }

    /** `evictLRU`: removes some present key, when there is one, and counts it. */
    method EvictLRU()
      modifies this
      ensures old(cache) == map[] ==> cache == map[] && evictionCount == old(evictionCount)
      ensures old(cache) != map[] ==>
                && evictionCount == old(evictionCount) + 1
                && |cache| == old(|cache|) - 1
                && exists victim :: victim in old(cache) && cache == old(cache) - {victim}
      ensures hitCount == old(hitCount) && missCount == old(missCount)
    {
      if cache != map[] {
        var firstKey :| firstKey in cache;
        RemoveKeySize(cache, firstKey);
        cache := cache - {firstKey};
        evictionCount := evictionCount + 1;
      }
    }

    /** `get`: a hit when the key is present, a miss otherwise; the entries are unchanged. */
    method Get(key: K) returns (r: Option<V>)
      modifies this
      ensures r == Lookup(cache, key)
      ensures cache == old(cache) && evictionCount == old(evictionCount)
      ensures r.Some? ==> hitCount == old(hitCount) + 1 && missCount == old(missCount)
      ensures r.None? ==> missCount == old(missCount) + 1 && hitCount == old(hitCount)
    {
      if key in cache {
        r := Some(cache[key]);
        hitCount := hitCount + 1;
      } else {
        r := None;
        missCount := missCount + 1;
      }
    }

    /** `remove`: deletes `key` and returns what it mapped to. */
    method Remove(key: K) returns (r: Option<V>)
      requires Valid()
      modifies this
      ensures Valid()
      ensures r == Lookup(old(cache), key)
      ensures cache == old(cache) - {key}
      ensures hitCount == old(hitCount) && missCount == old(missCount) && evictionCount == old(evictionCount)
    {
      r := Lookup(cache, key);
      if key in cache {
        RemoveKeySize(cache, key);
      }
      cache := cache - {key};
    }

    method Size() returns (n: nat)
      ensures n == |cache|
    {
      n := |cache|;
    }

    /** `clear`: empties the cache; the statistics are kept. */
    method Clear()
      modifies this
      ensures Valid()
      ensures cache == map[]
      ensures hitCount == old(hitCount) && missCount == old(missCount) && evictionCount == old(evictionCount)
    {
      cache := map[];
    }

    /** `getSnapshot`: a copy of the entries. */
    method GetSnapshot() returns (snapshot: map<K, V>)
      ensures snapshot == cache
    {
      snapshot := cache;
    }
  }

  /** A `get` right after `put(k, v)` is a hit that returns `v`. */
  method PutThenGet<K(==), V>(c: ThreadSafeCache<K, V>, k: K, v: V) returns (r: Option<V>)
    requires c.Valid()
    modifies c
    ensures c.Valid()
    ensures r == Some(v)
    ensures c.hitCount == old(c.hitCount) + 1
  {
    c.Put(k, v);
    r := c.Get(k);
  }
}
