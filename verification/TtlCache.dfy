/** A cache of keys with expiry times, and the clock that expires them. */
module TtlCache {
  import opened Wrappers

  datatype Entry<V> = Entry(value: V, expires: Option<int>)

  datatype State<V> = State(entries: map<string, Entry<V>>, now: int)

  /** An entry is there until its expiry time, and for ever if it has none. */
  predicate Live<V>(s: State<V>, key: string) {
    key in s.entries && (s.entries[key].expires.Some? ==> s.now < s.entries[key].expires.value)
  }

  function Lookup<V>(s: State<V>, key: string): Option<V> {
    if Live(s, key) then Some(s.entries[key].value) else None
  }

  function Put<V>(s: State<V>, key: string, value: V, timeout: Option<nat>): State<V> {
    var expires := if timeout.None? then None else Some(s.now + timeout.value);
    s.(entries := s.entries[key := Entry(value, expires)])
  }

  /** Overwriting the value keeps the expiry. */
  function Bump(s: State<int>, key: string): State<int>
    requires Live(s, key)
  {
    s.(entries := s.entries[key := s.entries[key].(value := s.entries[key].value + 1)])
  }

  function Drop<V>(s: State<V>, key: string): State<V> {
    s.(entries := s.entries - {key})
  }

  function Wait<V>(s: State<V>, d: nat): State<V> {
    s.(now := s.now + d)
  }

  class Cache<V> {
    var entries: map<string, Entry<V>>
    var now: int

    function View(): State<V>
      reads this
    {
      State(entries, now)
    }

    constructor (now: int)
      ensures View() == State(map[], now)
    {
      entries := map[];
      this.now := now;
    }

    method Get(key: string) returns (r: Option<V>)
      ensures r == Lookup(View(), key)
    {
      if key in entries && (entries[key].expires.None? || now < entries[key].expires.value) {
        return Some(entries[key].value);
      }
      return None;
    }

    method Set(key: string, value: V, timeout: Option<nat>)
      modifies this
      ensures View() == Put(old(View()), key, value, timeout)
    {
      entries := entries[key := Entry(value, if timeout.None? then None else Some(now + timeout.value))];
    }

    /** Sets the key unless it is there, in one step. */
    method Add(key: string, value: V, timeout: Option<nat>) returns (added: bool)
      modifies this
      ensures added == !Live(old(View()), key)
      ensures View() == if added then Put(old(View()), key, value, timeout) else old(View())
    {
      var there := Get(key);
      added := there.None?;
      if added {
        Set(key, value, timeout);
      }
    }

    method Delete(key: string)
      modifies this
      ensures View() == Drop(old(View()), key)
    {
      entries := entries - {key};
    }

    /** Time passing between two cache operations. */
    method Sleep(d: nat)
      modifies this
      ensures View() == Wait(old(View()), d)
    {
      now := now + d;
    }
  }

  /** Increments a counter in one step; a missing key is an error. */
  method Incr(cache: Cache<int>, key: string) returns (r: Option<int>)
    modifies cache
    ensures r.Some? == Live(old(cache.View()), key)
    ensures r.Some? ==> cache.View() == Bump(old(cache.View()), key) && r == Lookup(cache.View(), key)
    ensures r.None? ==> cache.View() == old(cache.View())
  {
    var there := cache.Get(key);
    if there.None? {
      return None;
    }
    cache.entries := cache.entries[key := cache.entries[key].(value := there.value + 1)];
    return Some(there.value + 1);
  }

  /** A value that was set is found until its timeout has passed, and for ever without one; other keys are as before. */
  lemma PutIsFound<V>(s: State<V>, key: string, value: V, timeout: Option<nat>, d: nat, other: string)
    ensures Lookup(Wait(Put(s, key, value, timeout), d), key)
            == if timeout.None? || d < timeout.value then Some(value) else None
    ensures other != key ==> Lookup(Wait(Put(s, key, value, timeout), d), other) == Lookup(Wait(s, d), other)
  {
  }

  /** Incrementing adds one and moves no expiry; other keys are as before. */
  lemma BumpIsFound(s: State<int>, key: string, d: nat, other: string)
    requires Live(s, key)
    ensures var before, after := Lookup(Wait(s, d), key), Lookup(Wait(Bump(s, key), d), key);
            if before.None? then after.None? else after == Some(before.value + 1)
    ensures other != key ==> Lookup(Wait(Bump(s, key), d), other) == Lookup(Wait(s, d), other)
  {
  }

  /** A deleted key is not found; other keys are as before. */
  lemma DropIsGone<V>(s: State<V>, key: string, d: nat, other: string)
    ensures Lookup(Wait(Drop(s, key), d), key).None?
    ensures other != key ==> Lookup(Wait(Drop(s, key), d), other) == Lookup(Wait(s, d), other)
  {
  }
}
