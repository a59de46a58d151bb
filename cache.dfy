/** The TTL key-value cache behind `Cache::store($driver)`. Time is a whole
    number of minutes; an entry is present while the current minute is before
    its expiry. */
module Cache {

  datatype Entry = Entry(value: int, expiry: int)

  type Entries = map<string, Entry>

  predicate Present(m: Entries, key: string, now: int) {
    key in m && now < m[key].expiry
  }

  /** `getDateTimeMinutesFromNow($minutesToAdd)` on the model's clock. */
  function MinutesFromNow(now: int, minutesToAdd: int): int {
    now + minutesToAdd
  }

  /** One cache store, shared by every handler that reports through it. */
  class Store {
    var entries: Entries

    constructor (initial: Entries)
      ensures entries == initial
    {
      entries := initial;
    }

    /** `has($key)`: an expired entry counts as missing. */
    method Has(key: string, now: int) returns (present: bool)
      ensures present <==> key in entries && now < entries[key].expiry
    {
      present := key in entries && now < entries[key].expiry;
    }

    /** `get($key, $default)`. */
    method Get(key: string, default: int, now: int) returns (value: int)
      ensures Present(entries, key, now) ==> value == entries[key].value
      ensures !Present(entries, key, now) ==> value == default
    {
      value := if Present(entries, key, now) then entries[key].value else default;
    }

    /** `put($key, $value, $expiresAt)`: overwrites the key and no other. */
    method Put(key: string, value: int, expiresAt: int)
      modifies this
      ensures entries == old(entries)[key := Entry(value, expiresAt)]
    {
      entries := entries[key := Entry(value, expiresAt)];
    }

    /** `increment($key)` of a present key: one more, same expiry. */
    method Increment(key: string, now: int)
      requires Present(entries, key, now)
      modifies this
      ensures entries == old(entries)[key := Entry(old(entries)[key].value + 1, old(entries)[key].expiry)]
    {
      entries := entries[key := Entry(entries[key].value + 1, entries[key].expiry)];
    }
  }
}
