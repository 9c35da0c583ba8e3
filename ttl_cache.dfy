/** The expiring cache of `DaemonThreadCacheCleanerDemo`: each entry carries
    an absolute expiry time. `get` drops an expired entry lazily; a daemon
    thread sweeps all expired entries once a second. The wall clock is the
    explicit parameter `now` (milliseconds). */
module TtlCache {
  import opened Optional

  /** `CacheItem`: the data and the instant after which it is stale. */
  datatype CacheItem<V> = CacheItem(data: V, expireTime: int)

  /** `new CacheItem(value, ttlMillis)` created at time `now`. */
  function NewItem<V>(data: V, ttlMillis: int, now: int): (item: CacheItem<V>)
    ensures item.data == data && item.expireTime - now == ttlMillis
  {
    CacheItem(data, now + ttlMillis)
  }

  /** `isExpired`: strictly past the expiry time; an item is still live at its expiry instant. */
  predicate IsExpired<V>(item: CacheItem<V>, now: int)
  {
    now > item.expireTime
  }

  /** The entries a sweep at `now` keeps. */
  function LiveEntries<V>(cache: map<string, CacheItem<V>>, now: int): (live: map<string, CacheItem<V>>)
    ensures forall k :: k in live <==> k in cache && !IsExpired(cache[k], now)
    ensures forall k :: k in live ==> live[k] == cache[k]
  {
    map k | k in cache && !IsExpired(cache[k], now) :: cache[k]
  }

  /** The keys a sweep at `now` removes. */
  function ExpiredKeys<V>(cache: map<string, CacheItem<V>>, now: int): (gone: set<string>)
    ensures forall k :: k in gone <==> k in cache && IsExpired(cache[k], now)
  {
    set k | k in cache && IsExpired(cache[k], now)
  }

  /** Every entry is either kept or removed by a sweep, so the sizes add up. */
  lemma SweepPartition<V>(cache: map<string, CacheItem<V>>, now: int)
    ensures |LiveEntries(cache, now)| + |ExpiredKeys(cache, now)| == |cache|
  {
    var live := LiveEntries(cache, now);
    var gone := ExpiredKeys(cache, now);
    assert live.Keys == cache.Keys - gone;
    assert live.Keys !! gone;
    assert live.Keys + gone == cache.Keys;
  }

  class ExpiringCache<V> {
    var cache: map<string, CacheItem<V>>

    constructor ()
      ensures cache == map[]
    {
      cache := map[];
    }

    /** `put`: stores `value` expiring `ttlMillis` after `now`, replacing any earlier entry. */
    method Put(key: string, value: V, ttlMillis: int, now: int)
      modifies this
      ensures key in cache && cache[key].data == value && cache[key].expireTime == now + ttlMillis
      ensures cache == old(cache)[key := NewItem(value, ttlMillis, now)]
    {
      cache := cache[key := NewItem(value, ttlMillis, now)];
    }

    /** `get`: `null` for a missing key; `null` and removal of that one key
        for an expired entry; the data, with nothing changed, for a live one. */
    method Get(key: string, now: int) returns (r: Option<V>)
      modifies this
      ensures key !in old(cache) ==> r == None && cache == old(cache)
      ensures key in old(cache) && IsExpired(old(cache)[key], now) ==>
                r == None && cache == old(cache) - {key}
      ensures key in old(cache) && !IsExpired(old(cache)[key], now) ==>
                r == Some(old(cache)[key].data) && cache == old(cache)
    {
      if key !in cache {
        return None;
      }
      var item := cache[key];
      if IsExpired(item, now) {
        cache := cache - {key};
        return None;
      }
      r := Some(item.data);
    }

    method Size() returns (n: nat)
      ensures n == |cache|
    {
      n := |cache|;
    }

    /** One pass of the cleaner thread at time `now`: visits every key and
        removes the expired entries, then reports how many went. */
    method Sweep(now: int) returns (removed: nat)
      modifies this
      ensures cache == LiveEntries(old(cache), now)
      ensures removed == |ExpiredKeys(old(cache), now)|
      ensures removed == |old(cache)| - |cache|
    {
      var beforeSize := |cache|;
      var pending := cache.Keys;
      while pending != {}
        invariant pending <= old(cache).Keys
        invariant cache.Keys <= old(cache).Keys
        invariant forall k :: k in cache ==> cache[k] == old(cache)[k]
        invariant forall k :: k in old(cache) ==>
                    (k in cache <==> k in pending || !IsExpired(old(cache)[k], now))
        decreases pending
      {
        var key :| key in pending;
        if IsExpired(cache[key], now) {
          cache := cache - {key};
        }
        pending := pending - {key};
      }
      assert cache == LiveEntries(old(cache), now);
      SweepPartition(old(cache), now);
      var afterSize := |cache|;
      removed := beforeSize - afterSize;
    }
  }
}
