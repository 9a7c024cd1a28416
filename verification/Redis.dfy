/** The part of Redis the services use: string keys with an optional expiry, one clock in whole seconds. */
module RedisStore {
  import opened Prelude

  /** The keys, by what they are formatted from. */
  datatype Name =
    | RateKey(who: string, path: string, start: int)
    | CodeKey(phone: string)
    | AttemptsKey(phone: string)
    | CooldownKey(phone: string)
    | WindowKey(phone: string, window: int)

  /** Digest stands for the salted hash of a one-time code, taken to be injective. */
  datatype Value = Counter(n: int) | Digest(phone: string, code: string) | Flag

  datatype Entry = Entry(value: Value, expiresAt: Option<int>)

  predicate IsLive(e: Entry, now: int) {
    e.expiresAt.Some? ==> now < e.expiresAt.value
  }

  class Redis {
    var now: int
    var entries: map<Name, Entry>

    predicate Has(name: Name)
      reads this
    {
      name in entries && IsLive(entries[name], now)
    }

    constructor (start: int)
      ensures now == start && entries == map[]
    {
      now := start;
      entries := map[];
    }

    method Pass(seconds: nat)
      modifies this`now
      ensures now == old(now) + seconds
    {
      now := now + seconds;
    }

    method Exists(name: Name) returns (found: bool)
      ensures found <==> Has(name)
    {
      found := name in entries && IsLive(entries[name], now);
    }

    method Get(name: Name) returns (r: Option<Value>)
      ensures r == if Has(name) then Some(entries[name].value) else None
    {
      if name in entries && IsLive(entries[name], now) {
        r := Some(entries[name].value);
      } else {
        r := None;
      }
    }

    /** -2 for a missing key, -1 for one without expiry. */
    method Ttl(name: Name) returns (seconds: int)
      ensures seconds == if !Has(name) then -2
                         else if entries[name].expiresAt.None? then -1
                         else entries[name].expiresAt.value - now
    {
      if name !in entries || !IsLive(entries[name], now) {
        return -2;
      }
      if entries[name].expiresAt.None? {
        return -1;
      }
      return entries[name].expiresAt.value - now;
    }

    /** A missing key counts from 0 and gets no expiry; an existing one keeps its own. */
    method Incr(name: Name) returns (n: int)
      requires Has(name) ==> entries[name].value.Counter?
      modifies this`entries
      ensures n == if old(Has(name)) then old(entries)[name].value.n + 1 else 1
      ensures entries == old(entries)[name :=
              Entry(Counter(n), if old(Has(name)) then old(entries)[name].expiresAt else None)]
    {
      if name in entries && IsLive(entries[name], now) {
        n := entries[name].value.n + 1;
        entries := entries[name := Entry(Counter(n), entries[name].expiresAt)];
      } else {
        n := 1;
        entries := entries[name := Entry(Counter(n), None)];
      }
    }

    method Expire(name: Name, seconds: int)
      requires seconds > 0
      modifies this`entries
      ensures entries == if old(Has(name))
              then old(entries)[name := old(entries)[name].(expiresAt := Some(now + seconds))] else old(entries)
    {
      if name in entries && IsLive(entries[name], now) {
        entries := entries[name := entries[name].(expiresAt := Some(now + seconds))];
      }
    }

    /** SET with an expiry, which Redis requires to be positive. */
    method SetEx(name: Name, value: Value, seconds: int)
      requires seconds > 0
      modifies this`entries
      ensures entries == old(entries)[name := Entry(value, Some(now + seconds))]
    {
      entries := entries[name := Entry(value, Some(now + seconds))];
    }

    method Delete(name: Name)
      modifies this`entries
      ensures entries == old(entries) - {name}
    {
      entries := entries - {name};
    }
  }
}
