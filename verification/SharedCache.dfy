/**
 The one Redis cache that feature flags, cron locks and the health check share.
 An entry is live strictly before its expiry.
 */
module SharedCache {
  import opened Wrappers

  datatype Value = Flag(enabled: bool) | Instant(at: nat)
  datatype Entry<T> = Entry(value: T, expiresAt: nat)

  predicate Live<T(!new)>(m: map<string, Entry<T>>, key: string, now: nat) {
    key in m && now < m[key].expiresAt
  }

  class Cache {
    var entries: map<string, Entry<Value>>

    constructor ()
      ensures entries == map[]
    {
      entries := map[];
    }

    method Get(key: string, now: nat) returns (v: Option<Value>)
      ensures v.Some? <==> Live(entries, key, now)
      ensures v.Some? ==> v.value == entries[key].value
    {
      if key in entries && now < entries[key].expiresAt {
        v := Some(entries[key].value);
      } else {
        v := None;
      }
    }

    method Set(key: string, value: Value, ttl: nat, now: nat)
      modifies this
      ensures entries == old(entries)[key := Entry(value, now + ttl)]
    {
      entries := entries[key := Entry(value, now + ttl)];
    }

    method Del(key: string)
      modifies this
      ensures entries == old(entries) - {key}
    {
      entries := entries - {key};
    }
  }

  // ---- namespaces ----

  const FLAG_PREFIX := "feature:"
  const LOCK_PREFIX := "lock:"

  function ToCacheKey(key: string): string { FLAG_PREFIX + key }

  function ToLockKey(key: string): string { LOCK_PREFIX + key }

  /** Distinct flags have distinct entries, and no flag's entry is a lock's or
      the health check's. */
  lemma FlagKeysAreTheirOwn(key: string, other: string)
    ensures ToCacheKey(key) == ToCacheKey(other) ==> key == other
    ensures ToCacheKey(key) != ToLockKey(other)
    ensures ToCacheKey(key) != "health-check"
  {
    assert ToCacheKey(key)[|FLAG_PREFIX|..] == key;
    assert ToCacheKey(other)[|FLAG_PREFIX|..] == other;
    assert ToCacheKey(key)[0] == 'f';
    assert ToLockKey(other)[0] == 'l';
  }

  /** Each job has its own lock entry, and no job's entry is the health check's. */
  lemma LockKeysAreTheirOwn(job: string, other: string)
    ensures ToLockKey(job) == ToLockKey(other) ==> job == other
    ensures ToLockKey(job) != "health-check"
  {
    assert ToLockKey(job)[|LOCK_PREFIX|..] == job;
    assert ToLockKey(other)[|LOCK_PREFIX|..] == other;
    assert ToLockKey(job)[0] == 'l';
  }

  /** The flag entries of the shared cache, by flag key. */
  ghost predicate Holds(entries: map<string, Entry<Value>>, flags: map<string, Entry<bool>>) {
    forall k :: HoldsFlag(entries, flags, k)
  }

  predicate HoldsFlag(entries: map<string, Entry<Value>>, flags: map<string, Entry<bool>>, k: string) {
    && (ToCacheKey(k) in entries <==> k in flags)
    && (k in flags ==> entries[ToCacheKey(k)] == Entry(Flag(flags[k].value), flags[k].expiresAt))
  }

  lemma HoldsAfterSet(entries: map<string, Entry<Value>>, flags: map<string, Entry<bool>>, key: string, enabled: bool, at: nat)
    requires Holds(entries, flags)
    ensures Holds(entries[ToCacheKey(key) := Entry(Flag(enabled), at)], flags[key := Entry(enabled, at)])
  {
    hide ToCacheKey;
    var entries', flags' := entries[ToCacheKey(key) := Entry(Flag(enabled), at)], flags[key := Entry(enabled, at)];
    forall k ensures HoldsFlag(entries', flags', k) {
      assert HoldsFlag(entries, flags, k);
      FlagKeysAreTheirOwn(key, k);
    }
  }

  lemma HoldsAfterDel(entries: map<string, Entry<Value>>, flags: map<string, Entry<bool>>, key: string)
    requires Holds(entries, flags)
    ensures Holds(entries - {ToCacheKey(key)}, flags - {key})
  {
    hide ToCacheKey;
    var entries', flags' := entries - {ToCacheKey(key)}, flags - {key};
    forall k ensures HoldsFlag(entries', flags', k) {
      assert HoldsFlag(entries, flags, k);
      FlagKeysAreTheirOwn(key, k);
    }
  }

  /** FeatureFlagCache: the flag-shaped view of the shared cache. Its writes touch
      one flag's entry and nothing else in the cache. */
  class FeatureFlagCache {
    const cache: Cache

    constructor (cache: Cache)
      ensures this.cache == cache
    {
      this.cache := cache;
    }

    method Get(key: string, now: nat, ghost flags: map<string, Entry<bool>>) returns (v: Option<bool>)
      requires Holds(cache.entries, flags)
      ensures v == if Live(flags, key, now) then Some(flags[key].value) else None
    {
      assert HoldsFlag(cache.entries, flags, key);
      var raw := cache.Get(ToCacheKey(key), now);
      v := match raw case Some(Flag(b)) => Some(b) case _ => None;
    }

    method Set(key: string, enabled: bool, ttlMs: nat, now: nat, ghost flags: map<string, Entry<bool>>)
      requires Holds(cache.entries, flags)
      modifies cache
      ensures Holds(cache.entries, flags[key := Entry(enabled, now + ttlMs)])
      ensures cache.entries == old(cache.entries)[ToCacheKey(key) := Entry(Flag(enabled), now + ttlMs)]
    {
      HoldsAfterSet(cache.entries, flags, key, enabled, now + ttlMs);
      cache.Set(ToCacheKey(key), Flag(enabled), ttlMs, now);
    }

    method Del(key: string, ghost flags: map<string, Entry<bool>>)
      requires Holds(cache.entries, flags)
      modifies cache
      ensures Holds(cache.entries, flags - {key})
      ensures cache.entries == old(cache.entries) - {ToCacheKey(key)}
    {
      HoldsAfterDel(cache.entries, flags, key);
      cache.Del(ToCacheKey(key));
    }
  }
}
