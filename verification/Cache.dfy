/** The in-process TTL cache: one map updated in place and swept lazily. Every method is
    proved against the log of what has been done to it. */
module Cache {
  import opened Options
  import opened CacheLog

  class Service<K(==, !new), V> {
    var entries: map<K, Entry<V>>
    const ttl: int
    ghost var log: seq<Event<K, V>>
    ghost var clock: int     // the latest time any operation has read

    /** The map is what the log says remains. */
    ghost predicate Valid()
      reads this
    {
      && SweptBy(log, clock)
      && forall k :: if k in entries then Remaining(log, k) == Some(entries[k]) else Remaining(log, k).None?
    }

    /** The entry a Get of `k` must return at `now`, by the log alone. */
    ghost function Visible(k: K, now: int): Option<Entry<V>>
      reads this
    {
      var e := LastSet(log, k);
      if e.Some? && LiveAt(e.value, now) then e else None
    }

    constructor (ttlSeconds: int)
      ensures Valid() && entries == map[] && log == [] && ttl == ttlSeconds * 1_000_000_000
    {
      entries, log, clock := map[], [], 0;
      ttl := ttlSeconds * 1_000_000_000;
    }

    /** Visits the entries in no particular order and drops the expired ones. */
    method DeleteExpiredLocked(now: int)
      requires Valid() && clock <= now
      modifies this
      ensures Valid() && clock == now && log == old(log) + [Swept(now)]
      ensures entries == map k | k in old(entries) && LiveAt(old(entries)[k], now) :: old(entries)[k]
    {
      var todo := entries.Keys;
      ghost var was := entries;
      while todo != {}
        invariant todo <= entries.Keys <= was.Keys
        invariant forall k :: k in entries ==> entries[k] == was[k]
        invariant forall k :: k in was && k !in todo ==> (k in entries <==> LiveAt(was[k], now))
        invariant log == old(log) && clock == old(clock)
        decreases |todo|
      {
        var key :| key in todo;
        todo := todo - {key};
        if !(now < entries[key].expires) {
          entries := entries - {key};
        }
      }
      log := log + [Swept(now)];
      clock := now;
      assert log[..|log| - 1] == old(log);
    }

    /** A hit is exactly a key whose last deciding operation stored an entry still live. The
        sweep after an expired read happens at a later time `sweepTime`. */
    method Get(cacheKey: K, now: int, sweepTime: int) returns (hit: Option<Entry<V>>)
      requires Valid() && clock <= now <= sweepTime
      modifies this
      ensures Valid() && now <= clock <= sweepTime
      ensures hit == old(Visible(cacheKey, now))
      ensures log == old(log) || (hit.None? && log == old(log) + [Swept(clock)])
    {
      SweepsAreInvisible(log, cacheKey, now);
      if cacheKey !in entries {
        clock := now;
        return None;
      }
      var e := entries[cacheKey];
      if !(now < e.expires) {
        DeleteExpiredLocked(sweepTime);
        return None;
      }
      clock := now;
      return Some(e);
    }

    method Set(cacheKey: K, payload: V, sources: seq<string>, now: int)
      requires Valid() && clock <= now
      modifies this
      ensures Valid() && clock == now
      ensures log == old(log) + [Swept(now), Stored(cacheKey, Entry(payload, now, now + ttl, sources))]
    {
      SetWithMaxTTL(cacheKey, payload, sources, 0, now);
    }

    /** A positive cap shortens the configured lifetime and never lengthens it. */
    method SetWithMaxTTL(cacheKey: K, payload: V, sources: seq<string>, maxTTL: int, now: int)
      requires Valid() && clock <= now
      modifies this
      ensures Valid() && clock == now
      ensures var life := if 0 < maxTTL < ttl then maxTTL else ttl;
              log == old(log) + [Swept(now), Stored(cacheKey, Entry(payload, now, now + life, sources))]
    {
      var life := ttl;
      if maxTTL > 0 && life > maxTTL {
        life := maxTTL;
      }
      DeleteExpiredLocked(now);
      ghost var swept := log;
      var e := Entry(payload, now, now + life, sources);
      entries := entries[cacheKey := e];
      log := log + [Stored(cacheKey, e)];
      assert log[..|log| - 1] == swept;
      assert log == old(log) + [Swept(now), Stored(cacheKey, e)];
    }

    method Delete(cacheKey: K)
      requires Valid()
      modifies this
      ensures Valid() && clock == old(clock) && log == old(log) + [Removed(cacheKey)]
    {
      entries := entries - {cacheKey};
      log := log + [Removed(cacheKey)];
      assert log[..|log| - 1] == old(log);
    }

    /** True exactly when an entry remained; so always for a live key, and never when
        nothing was stored since the key was last removed. */
    method DeleteIfPresent(cacheKey: K) returns (removed: bool)
      requires Valid()
      modifies this
      ensures Valid() && clock == old(clock)
      ensures log == if removed then old(log) + [Removed(cacheKey)] else old(log)
      ensures removed <==> Remaining(old(log), cacheKey).Some?
      ensures old(Visible(cacheKey, clock)).Some? ==> removed
      ensures LastSet(old(log), cacheKey).None? ==> !removed
      ensures cacheKey !in entries
    {
      SweepsAreInvisible(log, cacheKey, clock);
      if cacheKey !in entries {
        return false;
      }
      Delete(cacheKey);
      return true;
    }

    method Clear()
      requires Valid()
      modifies this
      ensures Valid() && clock == old(clock) && log == old(log) + [Cleared] && entries == map[]
    {
      entries := map[];
      log := log + [Cleared];
      assert log[..|log| - 1] == old(log);
    }

    /** Lists each key that a Get would hit now, once, and nothing else. */
    method Keys(now: int) returns (keys: seq<K>)
      requires Valid() && clock <= now
      modifies this
      ensures Valid() && clock == now && log == old(log) + [Swept(now)]
      ensures forall k :: k in keys <==> old(Visible(k, now)).Some?
      ensures forall i, j :: 0 <= i < j < |keys| ==> keys[i] != keys[j]
    {
      forall k
        ensures Remaining(log, k).Some? && LiveAt(Remaining(log, k).value, now) <==> Visible(k, now).Some?
      {
        SweepsAreInvisible(log, k, now);
      }
      DeleteExpiredLocked(now);
      keys := [];
      var todo := entries.Keys;
      while todo != {}
        invariant todo <= entries.Keys
        invariant forall k :: k in keys <==> k in entries && k !in todo
        invariant forall i, j :: 0 <= i < j < |keys| ==> keys[i] != keys[j]
        decreases |todo|
      {
        var k :| k in todo;
        todo := todo - {k};
        keys := keys + [k];
      }
    }
  }
}
