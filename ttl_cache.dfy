/** The time-to-live key/value cache (Redis) the OTP controller keeps its challenges in. Every key
    carries an absolute expiry time; the clock is explicit, so expiry is a visible transition
    (`Tick`) rather than something the store does behind the program's back. */
module TtlCache {
  import opened Wrappers

  datatype Entry = Entry(value: string, expiresAt: int)

  type Store = map<string, Entry>

  /** Every stored key is still live at time `now`. */
  ghost predicate AllLive(m: Store, now: int) {
    forall k :: k in m ==> now < m[k].expiresAt
  }

  // `Expire` and `Lookup` are the cache's primitives; their ensures only spell out what they
  // compute. What the cache promises is proved about them: `ExpireShrinks`, the `AllLive`
  // invariant of `Cache`, and the OTP lemmas built on both.

  /** The store as it is at time `now`: exactly the keys whose expiry is later than `now` remain. */
  function Expire(m: Store, now: int): (r: Store)
    ensures AllLive(r, now)
    ensures forall k :: k in r <==> k in m && now < m[k].expiresAt
    ensures forall k :: k in r ==> r[k] == m[k]
  {
    map k | k in m && now < m[k].expiresAt :: m[k]
  }

  /** `GET key` on a store whose keys are all live. */
  function Lookup(m: Store, key: string): (r: Option<string>)
    ensures r.Some? <==> key in m
    ensures r.Some? ==> r.value == m[key].value
  {
    if key in m then Some(m[key].value) else None
  }

  /** Letting time pass never brings a key back and never changes a surviving value. */
  lemma ExpireShrinks(m: Store, now: int, later: int)
    requires now <= later
    ensures Expire(Expire(m, now), later) == Expire(m, later)
    ensures Expire(m, later).Keys <= Expire(m, now).Keys
  {
  }

  class Cache {
    var entries: Store
    var now: int

    ghost predicate Valid()
      reads this
    {
      AllLive(entries, now)
    }

    constructor (start: int)
      ensures Valid() && entries == map[] && now == start
    {
      entries := map[];
      now := start;
    }

    /** `client.get(key)`: the value, or nothing once the key is deleted or has expired. */
    function Get(key: string): Option<string>
      reads this
    {
      Lookup(entries, key)
    }

    /** `client.set(key, value, { EX: ttl })`: (re)writes the value and re-arms the expiry. */
    method Set(key: string, value: string, ttl: nat)
      requires Valid() && ttl > 0
      modifies this
      ensures Valid() && now == old(now)
      ensures entries == old(entries)[key := Entry(value, now + ttl)]
    {
      entries := entries[key := Entry(value, now + ttl)];
    }

    /** `client.del(key)`. */
    method Del(key: string)
      requires Valid()
      modifies this
      ensures Valid() && now == old(now)
      ensures entries == old(entries) - {key}
    {
      entries := entries - {key};
    }

    /** The clock advances by `dt` seconds; keys whose time is up disappear. */
    method Tick(dt: nat)
      requires Valid()
      modifies this
      ensures Valid() && now == old(now) + dt
      ensures entries == Expire(old(entries), now)
    {
      now := now + dt;
      entries := Expire(entries, now);
    }
  }
}
