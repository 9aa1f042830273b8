/**
 The resolver's shared fields and its operations as they run when nothing interrupts them at their
 waits.  Each is proved to do what the corresponding steps of the machine do one after the other;
 what may happen at the waits between those steps is the machine's subject.
 */
module CacheStore {
  import opened Prelude
  import opened CacheMachine
  import opened CacheTheorems

  class WorkspaceTargetResolver {
    var cache: map<Key, Entry>
    var generation: nat
    var projectGenerations: map<Key, nat>
    const maxEntries: nat

    /** The fields are the machine's memory `m`, without its history. */
    ghost predicate Shows(m: Memory)
      reads this
    {
      cache == m.cache && generation == m.global && projectGenerations == m.gens
    }

    constructor (maxEntries: nat)
      ensures Shows(INIT.mem) && this.maxEntries == maxEntries
    {
      this.cache := map[];
      this.generation := 0;
      this.projectGenerations := map[];
      this.maxEntries := maxEntries;
    }

    /** `generation_for`, with no other operation between its two reads. */
    method GenerationFor(key: Key) returns (gen: Generation)
      ensures forall m: Memory :: Shows(m) ==> gen == Current(m, key)
    {
      gen := Generation(generation, if key in projectGenerations then projectGenerations[key] else 0);
    }

    /** `invalidate`, uninterrupted: bump the project's generation, then evict its entry. */
    method Invalidate(key: Key)
      modifies this`projectGenerations, this`cache
      ensures forall m: Memory :: old(Shows(m)) ==> Shows(EvictKey(BumpKey(m, key), key))
    {
      var next := if key in projectGenerations then projectGenerations[key] + 1 else 1;
      projectGenerations := projectGenerations[key := next];
      cache := cache - {key};
    }

    /** `invalidate_all`, uninterrupted: bump the global generation, forget the project generations, empty the cache. */
    method InvalidateAll()
      modifies this`generation, this`projectGenerations, this`cache
      ensures forall m: Memory :: old(Shows(m)) ==> Shows(EvictAll(ClearGens(BumpGlobal(m))))
    {
      generation := generation + 1;
      projectGenerations := map[];
      cache := map[];
    }

    /**
     `store_if_current`, uninterrupted: store the listing unless an invalidation came first, then remove the
     oldest entries until the cache fits.
     */
    method StoreIfCurrent(key: Key, listing: Listing, observed: Generation, now: nat)
      modifies this`cache
      ensures var entry := Entry(now, listing);
              if observed == Generation(generation, Get(projectGenerations, key))
              then Survivors(old(cache)[key := entry], maxEntries, cache.Keys) &&
                   forall m: Memory :: old(Shows(m)) ==> Shows(StoreEntry(m, key, entry, cache.Keys))
              else cache == old(cache)
    {
      var current := Generation(generation, Get(projectGenerations, key));
      if current != observed {
        return;
      }
      current := Generation(generation, Get(projectGenerations, key));
      if current != observed {
        return;
      }
      cache := cache[key := Entry(now, listing)];
      EvictOldest();
    }

    /** The eviction loop.  Which of several oldest entries goes first is not determined. */
    method EvictOldest()
      modifies this`cache
      ensures Survivors(old(cache), maxEntries, cache.Keys)
      ensures cache == Keep(old(cache), cache.Keys)
    {
      while |cache| > maxEntries
        invariant cache.Keys <= old(cache).Keys && cache == Keep(old(cache), cache.Keys)
        invariant |cache.Keys| >= Min(|old(cache).Keys|, maxEntries)
        invariant forall a, b :: a in cache.Keys && b in old(cache).Keys - cache.Keys ==>
                    old(cache)[b].loadedAt <= old(cache)[a].loadedAt
        decreases |cache|
      {
        ghost var someOldest := Oldest(cache, cache.Keys);
        var oldest :| oldest in cache && forall k :: k in cache ==> cache[oldest].loadedAt <= cache[k].loadedAt;
        assert |cache.Keys| == |cache|;
        assert (cache - {oldest}).Keys == cache.Keys - {oldest};
        cache := cache - {oldest};
        assert |cache.Keys| == |cache|;
      }
      assert |cache.Keys| == |cache|;
    }
  }
}
