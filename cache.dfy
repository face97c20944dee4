/**
 * The authority cache: a key/value table whose entries carry the time they
 * were written, expired lazily on `get` against an optional standard TTL,
 * with hit and miss counters. The clock is a parameter `now` (milliseconds).
 */
module TtlCache {
  import opened Wrappers

  /** One stored value and the time it was written. */
  datatype Entry<V> = Entry(ts: int, val: V)

  class Cache<V> {
    /** `_stdTTL`: `None` when no TTL was given. */
    const stdTTL: Option<int>
    var data: map<string, Entry<V>>
    var hits: nat
    var misses: nat
    /** Every key ever passed to `Set`. */
    ghost var written: set<string>

    ghost predicate Valid()
      reads this
    {
      data.Keys == written
    }

    constructor (stdTTL: Option<int>)
      ensures Valid()
      ensures this.stdTTL == stdTTL && data == map[] && written == {}
      ensures hits == 0 && misses == 0
    {
      this.stdTTL := stdTTL;
      data := map[];
      hits := 0;
      misses := 0;
      written := {};
    }

    /**
     * An entry written at `ts` is served at `now` when there is no TTL, when
     * the TTL is 0 (falsy), or when less than the TTL has passed.
     */
    predicate Fresh(ts: int, now: int)
    {
      stdTTL.None? || stdTTL.value == 0 || now - ts < stdTTL.value
    }

    /** `stats`: the two counters. */
    function Stats(): (r: (nat, nat))
      reads this
      ensures r.0 == hits && r.1 == misses
    {
      (hits, misses)
    }

    /** `get(key)`: a fresh entry is a hit and returns its value; anything else is a miss. */
    method Get(key: string, now: int) returns (r: Option<V>)
      requires Valid()
      modifies this`hits, this`misses
      ensures Valid()
      ensures r.Some? <==> key in data && Fresh(data[key].ts, now)
      ensures r.Some? ==> r.value == data[key].val
      ensures r.Some? ==> hits == old(hits) + 1 && misses == old(misses)
      ensures r.None? ==> misses == old(misses) + 1 && hits == old(hits)
    {
      if key in data && Fresh(data[key].ts, now) {
        hits := hits + 1;
        return Some(data[key].val);
      }
      misses := misses + 1;
      return None;
    }

    /** `set(key, val)`: overwrite this key's value and timestamp; the counters do not move. */
    method Set(key: string, val: V, now: int)
      requires Valid()
      modifies this`data, this`written
      ensures Valid()
      ensures data == old(data)[key := Entry(now, val)]
      ensures written == old(written) + {key}
    {
      data := data[key := Entry(now, val)];
      written := written + {key};
    }

    /** `has(key)`: the key was set at some time, fresh or not; nothing is ever removed. */
    function Has(key: string): (r: bool)
      reads this
      requires Valid()
      ensures r <==> key in written
    {
      key in data
    }
  }

  /**
   * The standard-TTL scenario of the resolver's tests, as `fast-memoize` drives
   * the cache (a `get`, and a `set` after a miss): with a TTL of 1000, a
   * lookup at 0 misses, one at 500 hits, and one at 1100 misses again while
   * the key is still present.
   */
  method StandardTtlScenario() returns (missesAt500: nat, missesAt1100: nat, hitAt500: bool, presentAt1100: bool)
    ensures missesAt500 == 1 && hitAt500
    ensures missesAt1100 == 2 && presentAt1100
  {
    var c := new Cache<string>(Some(1000));
    var r := c.Get("custom://whatever", 0);
    c.Set("custom://whatever", "runner", 0);
    r := c.Get("custom://whatever", 500);
    hitAt500 := r == Some("runner");
    missesAt500 := c.misses;
    presentAt1100 := c.Has("custom://whatever");
    r := c.Get("custom://whatever", 1100);
    if r.None? {
      c.Set("custom://whatever", "runner", 1100);
    }
    missesAt1100 := c.misses;
  }

  /** After `set(k, v)` at time `t`, a `get(k)` is a hit exactly when the entry is fresh. */
  method SetThenGet<V>(c: Cache<V>, key: string, val: V, t: int, now: int) returns (r: Option<V>)
    requires c.Valid()
    modifies c`data, c`written, c`hits, c`misses
    ensures c.Valid()
    ensures (c.stdTTL.None? || c.stdTTL == Some(0)) ==> r == Some(val)
    ensures c.stdTTL.Some? && c.stdTTL.value != 0 && now - t >= c.stdTTL.value ==> r.None? && c.Has(key)
  {
    c.Set(key, val, t);
    r := c.Get(key, now);
  }
}
