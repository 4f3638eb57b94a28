/** The part of a Redis-like key-value store that the services rely on: values with an optional
    expiry instant, counters, and prefix deletion through a cursor scan. */
module Redis {
  import opened Common

  /** A stored value; `expiry` is the first instant (in ms) at which the key is gone. */
  datatype Entry<+V> = Entry(value: V, expiry: Option<int>)

  /** What a store holds under one key. An expired entry is as good as an absent one. */
  type Slot<+V> = Option<Entry<V>>

  predicate Live<V>(slot: Slot<V>, now: int) {
    slot.Some? && (slot.value.expiry.Some? ==> now < slot.value.expiry.value)
  }

  /** INCR: counts up and keeps the expiry, or creates the key at 1 with no expiry. */
  function Incr(slot: Slot<nat>, now: int): (r: Slot<nat>)
    ensures r.Some?
  {
    if Live(slot, now)
    then Some(slot.value.(value := slot.value.value + 1))
    else Some(Entry(1, None))
  }

  /** PTTL: -2 for a missing key, -1 for a key that never expires, else the time left. */
  function Pttl<V>(slot: Slot<V>, now: int): int {
    if !Live(slot, now) then -2
    else match slot.value.expiry
      case None => -1
      case Some(e) => e - now
  }

  /** PEXPIRE: nothing on a missing key; a non-positive time to live deletes the key. */
  function Pexpire<V>(slot: Slot<V>, now: int, ms: int): Slot<V> {
    if !Live(slot, now) then slot
    else if ms <= 0 then None
    else Some(slot.value.(expiry := Some(now + ms)))
  }

  /** The slot a store map has under a key. */
  function At<V>(store: map<string, Entry<V>>, key: string): Slot<V> {
    if key in store then Some(store[key]) else None
  }

  /** The store with one slot overwritten. */
  function Put<V>(store: map<string, Entry<V>>, key: string, slot: Slot<V>): map<string, Entry<V>> {
    match slot
    case None => store - {key}
    case Some(e) => store[key := e]
  }

  /** The store without the keys that start with `prefix`. */
  function WithoutPrefix<V>(store: map<string, Entry<V>>, prefix: string): map<string, Entry<V>> {
    map k | k in store && !(prefix <= k) :: store[k]
  }

  /** All keys of a list of scan batches, in order. */
  function Flatten(pages: seq<seq<string>>): (keys: seq<string>)
    ensures forall k :: k in keys <==> exists i :: 0 <= i < |pages| && k in pages[i]
  {
    if pages == [] then [] else
      assert pages == pages[..|pages| - 1] + [pages[|pages| - 1]];
      Flatten(pages[..|pages| - 1]) + pages[|pages| - 1]
  }

  /** What SCAN with a `prefix*` match promises about the batches it hands out while nothing is
      written: every key comes from the match, and every matching key comes at least once. */
  ghost predicate ScanAnswers<V>(store: map<string, Entry<V>>, prefix: string, pages: seq<seq<string>>) {
    && |pages| > 0
    && (forall i, k :: 0 <= i < |pages| && k in pages[i] ==> prefix <= k)
    && (forall k :: k in store && prefix <= k ==> exists i :: 0 <= i < |pages| && k in pages[i])
  }

  /** The cache service over one store. `now` is the clock the expiries are measured on. */
  class RedisService<V> {
    var store: map<string, Entry<V>>
    var now: int

    constructor (start: int)
      ensures store == map[] && now == start
    {
      store, now := map[], start;
    }

    /** Time passes between calls. */
    method Elapse(ms: nat)
      modifies `now
      ensures now == old(now) + ms
    {
      now := now + ms;
    }

    /** A miss and an expired entry both answer None. */
    method Get(key: string) returns (r: Option<V>)
      ensures Live(At(store, key), now) ==> r == Some(store[key].value)
      ensures !Live(At(store, key), now) ==> r == None
    {
      if key in store && (store[key].expiry.None? || now < store[key].expiry.value) {
        r := Some(store[key].value);
      } else {
        r := None;
      }
    }

    /** A time to live of zero counts as none given. */
    method Set(key: string, value: V, ttlSeconds: nat)
      modifies `store
      ensures store == old(store)[key := Entry(value, if ttlSeconds == 0 then None else Some(now + ttlSeconds * 1000))]
    {
      if ttlSeconds != 0 {
        store := store[key := Entry(value, Some(now + ttlSeconds * 1000))];
      } else {
        store := store[key := Entry(value, None)];
      }
    }

    method Del(keys: seq<string>)
      modifies `store
      ensures store == old(store) - (set k | k in keys)
    {
      if |keys| == 0 {
        assert store - (set k | k in keys) == store;
        return;
      }
      store := store - (set k | k in keys);
    }

    /** Follows the cursor from 0 until the server answers 0 again. `pages` are the server's answers:
        batch `i` is what cursor `i` yields, and the last batch comes with cursor 0. */
    method KeysByPrefix(prefix: string, pages: seq<seq<string>>) returns (keys: seq<string>)
      requires |pages| > 0
      ensures keys == Flatten(pages)
    {
      keys := [];
      var cursor, more := 0, true;
      ghost var done := 0;
      while more
        invariant 0 <= done <= |pages|
        invariant more ==> cursor == done < |pages|
        invariant !more ==> done == |pages|
        invariant keys == Flatten(pages[..done])
        decreases |pages| - done
      {
        assert pages[..done + 1][..done] == pages[..done];
        var nextCursor := if cursor + 1 == |pages| then 0 else cursor + 1;
        keys := keys + pages[cursor];
        cursor := nextCursor;
        done := done + 1;
        more := cursor != 0;
      }
      assert pages[..done] == pages;
    }

    /** Deletes exactly the keys under the prefix, however the scan cuts and repeats its batches. */
    method DelByPrefix(prefix: string, pages: seq<seq<string>>)
      requires ScanAnswers(store, prefix, pages)
      modifies `store
      ensures store == WithoutPrefix(old(store), prefix)
    {
      var keys := KeysByPrefix(prefix, pages);
      forall k | k in store
        ensures k in keys <==> prefix <= k
      {
        if prefix <= k {
          var i :| 0 <= i < |pages| && k in pages[i];
        }
      }
      ghost var before := store;
      if |keys| > 0 {
        Del(keys);
      } else {
        assert forall k :: k in store ==> k !in keys;
      }
      assert store.Keys == WithoutPrefix(before, prefix).Keys;
    }
  }

  /** The counter commands of one store, and the clock that runs between them. */
  class CounterBackend {
    var counters: map<string, Entry<nat>>
    var now: int

    constructor (start: int)
      ensures counters == map[] && now == start
    {
      counters, now := map[], start;
    }

    /** The network round trip before a command. */
    method Elapse(ms: nat)
      modifies `now
      ensures now == old(now) + ms
    {
      now := now + ms;
    }

    method IncrKey(key: string) returns (total: nat)
      modifies `counters
      ensures At(counters, key) == Incr(old(At(counters, key)), now)
      ensures old(Live(At(counters, key), now)) ==>
                counters[key] == Entry(old(counters)[key].value + 1, old(counters)[key].expiry)
      ensures !old(Live(At(counters, key), now)) ==> counters[key] == Entry(1, None)
      ensures total == counters[key].value
      ensures forall k :: k != key ==> At(counters, k) == old(At(counters, k))
    {
      counters := Put(counters, key, Incr(At(counters, key), now));
      total := counters[key].value;
    }

    method PttlKey(key: string) returns (ms: int)
      ensures ms == Pttl(At(counters, key), now)
      ensures !Live(At(counters, key), now) ==> ms == -2
      ensures Live(At(counters, key), now) && counters[key].expiry.None? ==> ms == -1
      ensures Live(At(counters, key), now) && counters[key].expiry.Some? ==>
                ms == counters[key].expiry.value - now && ms > 0
    {
      if key !in counters {
        return -2;
      }
      match counters[key].expiry
      case None => ms := -1;
      case Some(e) => ms := if now < e then e - now else -2;
    }

    method PexpireKey(key: string, ms: int)
      modifies `counters
      ensures At(counters, key) == Pexpire(old(At(counters, key)), now, ms)
      ensures !old(Live(At(counters, key), now)) ==> At(counters, key) == old(At(counters, key))
      ensures old(Live(At(counters, key), now)) && ms > 0 ==>
                At(counters, key) == Some(Entry(old(counters)[key].value, Some(now + ms)))
      ensures old(Live(At(counters, key), now)) && ms <= 0 ==> key !in counters
      ensures forall k :: k != key ==> At(counters, k) == old(At(counters, k))
    {
      counters := Put(counters, key, Pexpire(At(counters, key), now, ms));
    }

    method PsetOne(key: string, ttlMs: int)
      modifies `counters
      ensures At(counters, key) == Some(Entry(1, Some(now + ttlMs)))
      ensures forall k :: k != key ==> At(counters, k) == old(At(counters, k))
    {
      counters := counters[key := Entry(1, Some(now + ttlMs))];
    }
  }
}
