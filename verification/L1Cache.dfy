/** The in-memory LRU cache with a byte budget. */
module L1Cache {
  import opened Options
  import opened OrderedMaps

  datatype Slot<V> = Slot(value: V, time: int, size: nat)

  type Slots<V> = seq<(string, Slot<V>)>

  datatype L1<V> = L1(
    maxEntries: int, maxBytes: nat, ttl: int,
    slots: Slots<V>, bytes: int, hits: nat, misses: nat, evictions: nat)

  function Fresh<V>(maxEntries: int, maxBytes: nat, ttl: int): L1<V> {
    L1(maxEntries, maxBytes, ttl, [], 0, 0, 0, 0)
  }

  function Sum<V>(slots: Slots<V>): nat {
    if slots == [] then 0 else slots[0].1.size + Sum(slots[1..])
  }

  // ---- get ----

  function Lookup<V>(c: L1<V>, key: string, now: int): Option<V> {
    match Find(c.slots, key)
    case None => None
    case Some(slot) => if now - slot.time > c.ttl then None else Some(slot.value)
  }

  function AfterGet<V>(c: L1<V>, key: string, now: int): L1<V> {
    match Find(c.slots, key)
    case None => c.(misses := c.misses + 1)
    case Some(slot) =>
      if now - slot.time > c.ttl
      then c.(slots := Without(c.slots, key), bytes := c.bytes - slot.size, evictions := c.evictions + 1,
              misses := c.misses + 1)
      else c.(slots := Without(c.slots, key) + [(key, slot)], hits := c.hits + 1)
  }

  // ---- put ----

  function Invalidated<V>(c: L1<V>, key: string): L1<V> {
    match Find(c.slots, key)
    case None => c
    case Some(slot) => c.(slots := Without(c.slots, key), bytes := c.bytes - slot.size)
  }

  predicate Crowded<V>(c: L1<V>, size: nat) {
    |c.slots| >= c.maxEntries || c.bytes + size > c.maxBytes
  }

  function Evicted<V>(c: L1<V>, size: nat): L1<V>
    decreases |c.slots|
  {
    if Crowded(c, size) && c.slots != []
    then Evicted(c.(slots := c.slots[1..], bytes := c.bytes - c.slots[0].1.size, evictions := c.evictions + 1), size)
    else c
  }

  function AfterPut<V>(c: L1<V>, key: string, value: V, size: nat, now: int): L1<V> {
    var room := Evicted(Invalidated(c, key), size);
    room.(slots := room.slots + [(key, Slot(value, now, size))], bytes := room.bytes + size)
  }

  // ---- invalidation by prefix ----

  function DropPrefix<V>(slots: Slots<V>, prefix: string): Slots<V> {
    if slots == [] then []
    else if prefix <= slots[0].0 then DropPrefix(slots[1..], prefix)
    else [slots[0]] + DropPrefix(slots[1..], prefix)
  }

  function WithoutPrefix<V>(c: L1<V>, prefix: string): L1<V> {
    c.(slots := DropPrefix(c.slots, prefix), bytes := c.bytes - Sum(c.slots) + Sum(DropPrefix(c.slots, prefix)))
  }

  // ---- the books and the budget ----

  predicate Booked<V>(c: L1<V>) {
    Unique(c.slots) && c.bytes == Sum(c.slots)
  }

  predicate WithinBudget<V>(c: L1<V>) {
    c.bytes <= c.maxBytes || |c.slots| == 1
  }

  lemma {:induction false} SumAppend<V>(slots: Slots<V>, entry: (string, Slot<V>))
    ensures Sum(slots + [entry]) == Sum(slots) + entry.1.size
  {
    if slots == [] {
      assert slots + [entry] == [entry];
    } else {
      assert (slots + [entry])[1..] == slots[1..] + [entry];
      SumAppend(slots[1..], entry);
    }
  }

  lemma {:induction false} SumWithout<V>(slots: Slots<V>, key: string)
    ensures Sum(Without(slots, key)) == Sum(slots) - if Find(slots, key).Some? then Find(slots, key).value.size else 0
  {
    if slots != [] && slots[0].0 != key {
      SumWithout(slots[1..], key);
    }
  }

  lemma {:induction false} GetBooked<V>(c: L1<V>, key: string, now: int)
    requires Booked(c) && WithinBudget(c)
    ensures Booked(AfterGet(c, key, now)) && WithinBudget(AfterGet(c, key, now))
  {
    WithoutEntries(c.slots, key);
    SumWithout(c.slots, key);
    FindEntry(c.slots, key);
    if Find(c.slots, key).Some? {
      AppendUnique(Without(c.slots, key), key, Find(c.slots, key).value);
      SumAppend(Without(c.slots, key), (key, Find(c.slots, key).value));
    }
  }

  lemma {:induction false} InvalidateBooked<V>(c: L1<V>, key: string)
    requires Booked(c)
    ensures Booked(Invalidated(c, key)) && !Has(Invalidated(c, key).slots, key)
    ensures WithinBudget(c) ==> WithinBudget(Invalidated(c, key))
    ensures |Invalidated(c, key).slots| <= |c.slots|
    ensures forall e :: e in Invalidated(c, key).slots ==> e in c.slots
  {
    WithoutEntries(c.slots, key);
    SumWithout(c.slots, key);
    FindEntry(c.slots, key);
  }

  predicate Fits<V>(c: L1<V>, kept: Slots<V>, size: nat) {
    |kept| < c.maxEntries && Sum(kept) + size <= c.maxBytes
  }

  lemma {:induction false} Tails<T>(s: seq<T>, j: nat)
    requires 0 < |s| && j < |s|
    ensures s[1..][j..] == s[j + 1..]
  {
  }

  /** The shortest least-recently-used prefix whose removal makes room is evicted, everything if nothing makes room. */
  lemma {:induction false} EvictsShortestPrefix<V>(c: L1<V>, size: nat)
    requires c.bytes == Sum(c.slots)
    ensures var c' := Evicted(c, size); var k := |c.slots| - |c'.slots|;
      && 0 <= k && c'.slots == c.slots[k..] && c'.evictions == c.evictions + k
      && (c'.slots == [] || Fits(c, c'.slots, size))
      && (forall j :: 0 <= j < k ==> !Fits(c, c.slots[j..], size))
    decreases |c.slots|
  {
    assert c.slots[0..] == c.slots;
    if Crowded(c, size) && c.slots != [] {
      var next := c.(slots := c.slots[1..], bytes := c.bytes - c.slots[0].1.size, evictions := c.evictions + 1);
      EvictsShortestPrefix(next, size);
      var k := |c.slots| - |Evicted(next, size).slots|;
      Tails(c.slots, k - 1);
      forall j | 0 <= j < k ensures !Fits(c, c.slots[j..], size) {
        if j > 0 {
          Tails(c.slots, j - 1);
          assert !Fits(next, next.slots[j - 1..], size);
        }
      }
    }
  }

  lemma {:induction false} EvictedBooked<V>(c: L1<V>, size: nat)
    requires Booked(c)
    ensures Booked(Evicted(c, size)) && |Evicted(c, size).slots| <= |c.slots|
    ensures Evicted(c, size).slots == [] || !Crowded(Evicted(c, size), size)
    ensures forall e :: e in Evicted(c, size).slots ==> e in c.slots
    ensures Evicted(c, size).maxBytes == c.maxBytes && Evicted(c, size).maxEntries == c.maxEntries
            && Evicted(c, size).ttl == c.ttl
    decreases |c.slots|
  {
    if Crowded(c, size) && c.slots != [] {
      EvictedBooked(c.(slots := c.slots[1..], bytes := c.bytes - c.slots[0].1.size, evictions := c.evictions + 1),
                    size);
    }
  }

  /** After a put the recorded bytes are the sum of the entry sizes, within the budget unless the new entry is
      alone, and the number of entries is within its maximum unless the new entry is alone. */
  lemma {:induction false} PutBooked<V>(c: L1<V>, key: string, value: V, size: nat, now: int)
    requires Booked(c)
    ensures var c' := AfterPut(c, key, value, size, now);
      && Booked(c') && WithinBudget(c') && (|c'.slots| <= c.maxEntries || |c'.slots| == 1)
      && Find(c'.slots, key) == Some(Slot(value, now, size))
      && (forall e :: e in c'.slots ==> e in c.slots || e == (key, Slot(value, now, size)))
      && (forall e :: e in c'.slots && e.0 == key ==> e == (key, Slot(value, now, size)))
  {
    InvalidateBooked(c, key);
    var inv := Invalidated(c, key);
    EvictedBooked(inv, size);
    var room := Evicted(inv, size);
    var entry := (key, Slot(value, now, size));
    forall i | 0 <= i < |room.slots| ensures room.slots[i].0 != key {
      assert room.slots[i] in inv.slots;
      var j :| 0 <= j < |inv.slots| && inv.slots[j] == room.slots[i];
    }
    AppendUnique(room.slots, key, entry.1);
    SumAppend(room.slots, entry);
    FindAt(room.slots + [entry], |room.slots|);
  }

  lemma {:induction false} DropPrefixEntries<V>(slots: Slots<V>, prefix: string)
    requires Unique(slots)
    ensures Unique(DropPrefix(slots, prefix)) && |DropPrefix(slots, prefix)| <= |slots|
    ensures Sum(DropPrefix(slots, prefix)) <= Sum(slots)
    ensures forall e :: e in DropPrefix(slots, prefix) ==> e in slots && !(prefix <= e.0)
    ensures forall e :: e in slots && !(prefix <= e.0) ==> e in DropPrefix(slots, prefix)
  {
    if slots != [] {
      DropPrefixEntries(slots[1..], prefix);
      assert slots == [slots[0]] + slots[1..];
      forall e | e in DropPrefix(slots[1..], prefix) ensures e.0 != slots[0].0 {
        assert e in slots[1..];
        var i :| 0 <= i < |slots[1..]| && slots[1..][i] == e;
        assert slots[i + 1] == e;
      }
    }
  }

  lemma {:induction false} PrefixBooked<V>(c: L1<V>, prefix: string)
    requires Booked(c) && WithinBudget(c)
    ensures Booked(WithoutPrefix(c, prefix)) && WithinBudget(WithoutPrefix(c, prefix))
  {
    DropPrefixEntries(c.slots, prefix);
    assert |DropPrefix(c.slots, prefix)| == 0 ==> Sum(DropPrefix(c.slots, prefix)) == 0;
  }

  /** The entries whose key does not start with `prefix`, and the bytes of the others. */
  method KeepOthers<V>(slots: Slots<V>, prefix: string) returns (kept: Slots<V>, freed: int)
    ensures kept == DropPrefix(slots, prefix) && freed == Sum(slots) - Sum(kept)
  {
    kept, freed := [], 0;
    var i := 0;
    while i < |slots|
      invariant 0 <= i <= |slots|
      invariant kept + DropPrefix(slots[i..], prefix) == DropPrefix(slots, prefix)
      invariant freed + Sum(slots[i..]) - Sum(DropPrefix(slots[i..], prefix))
                == Sum(slots) - Sum(DropPrefix(slots, prefix))
    {
      Tail(slots, i, prefix);
      if prefix <= slots[i].0 {
        freed := freed + slots[i].1.size;
      } else {
        kept := kept + [slots[i]];
      }
      i := i + 1;
    }
  }

  lemma {:induction false} Tail<V>(slots: Slots<V>, i: nat, prefix: string)
    requires i < |slots|
    ensures Sum(slots[i..]) == slots[i].1.size + Sum(slots[i + 1..])
    ensures DropPrefix(slots[i..], prefix) ==
            (if prefix <= slots[i].0 then [] else [slots[i]]) + DropPrefix(slots[i + 1..], prefix)
    ensures Sum(DropPrefix(slots[i..], prefix)) ==
            (if prefix <= slots[i].0 then 0 else slots[i].1.size) + Sum(DropPrefix(slots[i + 1..], prefix))
  {
    assert slots[i..][1..] == slots[i + 1..];
    var rest := DropPrefix(slots[i + 1..], prefix);
    assert ([slots[i]] + rest)[1..] == rest;
  }

  class L1MemoryCache<V> {
    const maxEntries: int
    const maxBytes: nat
    const ttl: int
    var slots: Slots<V>
    var bytes: int
    var hits: nat
    var misses: nat
    var evictions: nat

    ghost function Snapshot(): L1<V>
      reads this
    {
      L1(maxEntries, maxBytes, ttl, slots, bytes, hits, misses, evictions)
    }

    ghost predicate Valid()
      reads this
    {
      Booked(Snapshot()) && WithinBudget(Snapshot())
    }

    constructor (maxEntries: int, maxBytes: nat, ttl: int)
      ensures Valid() && Snapshot() == Fresh(maxEntries, maxBytes, ttl)
    {
      this.maxEntries, this.maxBytes, this.ttl := maxEntries, maxBytes, ttl;
      slots, bytes, hits, misses, evictions := [], 0, 0, 0, 0;
    }

    method Get(key: string, now: int) returns (value: Option<V>)
      requires Valid()
      modifies this
      ensures Valid()
      ensures value == Lookup(old(Snapshot()), key, now) && Snapshot() == AfterGet(old(Snapshot()), key, now)
      ensures value.Some? ==> slots != [] && slots[|slots| - 1].0 == key
    {
      GetBooked(Snapshot(), key, now);
      var found, rest := Take(slots, key);
      if found.None? {
        misses := misses + 1;
        return None;
      }
      if now - found.value.time > ttl {
        slots := rest;
        bytes := bytes - found.value.size;
        evictions := evictions + 1;
        misses := misses + 1;
        return None;
      }
      slots := rest + [(key, found.value)];
      hits := hits + 1;
      value := Some(found.value.value);
    }

    method Put(key: string, value: V, size: nat, now: int)
      requires Valid()
      modifies this
      ensures Valid() && Snapshot() == AfterPut(old(Snapshot()), key, value, size, now)
    {
      PutBooked(Snapshot(), key, value, size, now);
      Invalidate(key);
      MakeRoom(size);
      slots := slots + [(key, Slot(value, now, size))];
      bytes := bytes + size;
    }

    /** Drops the least recently used entries until the new one fits. */
    method MakeRoom(size: nat)
      modifies this
      ensures Snapshot() == Evicted(old(Snapshot()), size)
    {
      ghost var goal := Evicted(Snapshot(), size);
      while (|slots| >= maxEntries || bytes + size > maxBytes) && slots != []
        invariant Evicted(Snapshot(), size) == goal
        decreases |slots|
      {
        bytes := bytes - slots[0].1.size;
        slots := slots[1..];
        evictions := evictions + 1;
      }
    }

    method Invalidate(key: string)
      requires Valid()
      modifies this
      ensures Valid() && Snapshot() == Invalidated(old(Snapshot()), key)
    {
      InvalidateBooked(Snapshot(), key);
      var found, rest := Take(slots, key);
      if found.Some? {
        bytes := bytes - found.value.size;
        slots := rest;
      }
    }

    method InvalidatePrefix(prefix: string)
      requires Valid()
      modifies this
      ensures Valid() && Snapshot() == WithoutPrefix(old(Snapshot()), prefix)
    {
      PrefixBooked(Snapshot(), prefix);
      var kept, freed := KeepOthers(slots, prefix);
      slots := kept;
      bytes := bytes - freed;
    }
  }
}
