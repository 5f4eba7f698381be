/**
 * The in-memory TTL cache (`get_cache` / `set_cache`, app_production.py:124-159,
 * the path taken without Redis) and its key (`cache_key`, 161-164).
 * Entries are `(value, expiry)` pairs; an expired entry is removed when it is read.
 */
module Cache {
  import opened Wrappers

  datatype Entry = Entry(value: string, expiry: int)

  /** What a read of `key` at time `now` returns from `entries`. */
  function Lookup(entries: map<string, Entry>, key: string, now: int): (r: Option<string>)
    ensures r.Some? <==> key in entries && now < entries[key].expiry
    ensures r.Some? ==> r.value == entries[key].value
  {
    if key in entries && now < entries[key].expiry then Some(entries[key].value) else None
  }

  /** The entries left after that read: an expired `key` is gone, all else stays. */
  function AfterLookup(entries: map<string, Entry>, key: string, now: int): (m: map<string, Entry>)
    ensures forall k :: k != key ==> (k in m <==> k in entries)
    ensures forall k :: k in m ==> k in entries && m[k] == entries[k]
    ensures key in m <==> Lookup(entries, key, now).Some?
  {
    if key in entries && now < entries[key].expiry then entries else entries - {key}
  }

  /** A value written with `ttl` at time `t` is read back until `t + ttl`, and not from then on. */
  lemma WriteThenRead(entries: map<string, Entry>, key: string, v: string, t: int, ttl: int, later: int)
    ensures Lookup(entries[key := Entry(v, t + ttl)], key, later) == if later < t + ttl then Some(v) else None
    ensures later >= t + ttl ==> key !in AfterLookup(entries[key := Entry(v, t + ttl)], key, later)
  {
  }

  /** A write touches its own key only. */
  lemma WriteLeavesOtherKeys(entries: map<string, Entry>, key: string, other: string, e: Entry, now: int)
    requires other != key
    ensures Lookup(entries[key := e], other, now) == Lookup(entries, other, now)
  {
  }

  /**
   * The key of a translation. The source hashes `f"{text}:{src}:{tgt}"` with
   * MD5; the model keeps the hashed string itself, so two calls share an
   * entry exactly when that string is the same.
   */
  function CacheKey(text: string, src: string, tgt: string): string {
    text + ":" + src + ":" + tgt
  }

  /** Index of the last ':' in `s`, or -1 when there is none. */
  function LastColon(s: string): (i: int)
    ensures -1 <= i < |s|
  {
    if s == [] then -1
    else if s[|s| - 1] == ':' then |s| - 1
    else LastColon(s[..|s| - 1])
  }

  lemma {:induction false} LastColonBeforeCode(prefix: string, code: string)
    requires ':' !in code
    ensures LastColon(prefix + ":" + code) == |prefix|
  {
    if code != [] {
      var s := prefix + ":" + code;
      assert s[..|s| - 1] == prefix + ":" + code[..|code| - 1];
      LastColonBeforeCode(prefix, code[..|code| - 1]);
    } else {
      assert (prefix + ":" + code)[..|prefix|] == prefix;
    }
  }

  /**
   * For language codes without ':' (all of the table's are two letters) the
   * key determines the text and both codes: the target code follows the last
   * ':', the source code the last ':' before it.
   */
  lemma CacheKeyInjective(t1: string, s1: string, g1: string, t2: string, s2: string, g2: string)
    requires ':' !in s1 && ':' !in g1 && ':' !in s2 && ':' !in g2
    requires CacheKey(t1, s1, g1) == CacheKey(t2, s2, g2)
    ensures t1 == t2 && s1 == s2 && g1 == g2
  {
    var k := CacheKey(t1, s1, g1);
    LastColonBeforeCode(t1 + ":" + s1, g1);
    LastColonBeforeCode(t2 + ":" + s2, g2);
    var i := LastColon(k);
    assert g1 == k[i + 1..] == g2;
    var rest := k[..i];
    assert rest == t1 + ":" + s1 == t2 + ":" + s2;
    LastColonBeforeCode(t1, s1);
    LastColonBeforeCode(t2, s2);
    var j := LastColon(rest);
    assert s1 == rest[j + 1..] == s2;
    assert t1 == rest[..j] == t2;
  }

  /**
   * `memory_cache` together with `CACHE_ENABLED` and `CACHE_TTL`.
   */
  class TtlCache {
    const enabled: bool
    const defaultTtl: int
    var entries: map<string, Entry>

    constructor (enabled: bool, defaultTtl: int)
      ensures this.enabled == enabled && this.defaultTtl == defaultTtl
      ensures entries == map[]
    {
      this.enabled := enabled;
      this.defaultTtl := defaultTtl;
      entries := map[];
    }

    /** What `Get(key, now)` would return, without its eviction. */
    function Peek(key: string, now: int): Option<string>
      reads this
    {
      if enabled then Lookup(entries, key, now) else None
    }

    /** `get_cache(key)` at time `now`. */
    method Get(key: string, now: int) returns (r: Option<string>)
      modifies this
      ensures r == old(Peek(key, now))
      ensures enabled ==> entries == AfterLookup(old(entries), key, now)
      ensures !enabled ==> entries == old(entries)
    {
      if !enabled {
        return None;
      }
      if key in entries {
        var e := entries[key];
        if now < e.expiry {
          return Some(e.value);
        }
        entries := entries - {key};
      }
      return None;
    }

    /** `set_cache(key, value, ttl)` at time `now`; `None` stands for the default TTL. */
    method Set(key: string, value: string, ttl: Option<int>, now: int)
      modifies this
      ensures enabled && ttl.None? ==> entries == old(entries)[key := Entry(value, now + defaultTtl)]
      ensures enabled && ttl.Some? ==> entries == old(entries)[key := Entry(value, now + ttl.value)]
      ensures !enabled ==> entries == old(entries)
    {
      if !enabled {
        return;
      }
      var seconds := ttl.GetOr(defaultTtl);
      entries := entries[key := Entry(value, now + seconds)];
    }
  }
}
