/** Runs of the memory cache: what is held, in which order, what a get answers and what the counters count, read off
    the events. */
module L1CacheUse {
  import opened Options
  import opened OrderedMaps
  import opened L1Cache

  datatype Event<V> =
    | Gets(key: string, now: int)
    | Puts(key: string, value: V, size: nat, now: int)
    | Invalidates(key: string)
    | InvalidatesPrefix(prefix: string)

  datatype Limits = Limits(maxEntries: int, maxBytes: nat, ttl: int)

  function Next<V>(c: L1<V>, e: Event<V>): L1<V> {
    match e
    case Gets(key, now) => AfterGet(c, key, now)
    case Puts(key, value, size, now) => AfterPut(c, key, value, size, now)
    case Invalidates(key) => Invalidated(c, key)
    case InvalidatesPrefix(prefix) => WithoutPrefix(c, prefix)
  }

  function Run<V>(l: Limits, events: seq<Event<V>>): L1<V> {
    if events == [] then Fresh(l.maxEntries, l.maxBytes, l.ttl)
    else Next(Run(l, events[..|events| - 1]), events[|events| - 1])
  }

  // ---- the history ----

  predicate Answers<V>(c: L1<V>, e: Event<V>) {
    e.Gets? && Lookup(c, e.key, e.now).Some?
  }

  predicate Uses<V>(c: L1<V>, e: Event<V>, key: string) {
    (e.Puts? && e.key == key) || (Answers(c, e) && e.key == key)
  }

  /** When the key was last put or answered, as a place in the history. */
  function LastUse<V>(l: Limits, events: seq<Event<V>>, key: string): int {
    if events == [] then -1
    else
      var before, last := events[..|events| - 1], events[|events| - 1];
      if Uses(Run(l, before), last, key) then |before| else LastUse(l, before, key)
  }

  function LastPut<V>(events: seq<Event<V>>, key: string): Option<Slot<V>> {
    if events == [] then None
    else
      var last := events[|events| - 1];
      if last.Puts? && last.key == key then Some(Slot(last.value, last.now, last.size))
      else LastPut(events[..|events| - 1], key)
  }

  function UseRank<V>(l: Limits, events: seq<Event<V>>): string -> int {
    key => LastUse(l, events, key)
  }

  lemma {:induction false} LastUseBound<V>(l: Limits, events: seq<Event<V>>, key: string)
    ensures -1 <= LastUse(l, events, key) < |events|
  {
    if events != [] {
      LastUseBound(l, events[..|events| - 1], key);
    }
  }

  // ---- the invariant ----

  ghost predicate Current<V>(l: Limits, events: seq<Event<V>>, c: L1<V>) {
    && Booked(c) && c.maxEntries == l.maxEntries && c.maxBytes == l.maxBytes && c.ttl == l.ttl
    && Ranked(c.slots, UseRank(l, events))
    && (forall e :: e in c.slots ==> LastPut(events, e.0) == Some(e.1))
  }

  /** Entries that an event leaves alone keep their place and their record. */
  lemma {:induction false} Untouched<V>(l: Limits, events: seq<Event<V>>, e: Event<V>, slots: Slots<V>)
    requires Ranked(slots, UseRank(l, events)) && (forall x :: x in slots ==> LastPut(events, x.0) == Some(x.1))
    requires forall x :: x in slots ==> !Uses(Run(l, events), e, x.0)
    ensures Ranked(slots, UseRank(l, events + [e]))
    ensures forall x :: x in slots ==> LastPut(events + [e], x.0) == Some(x.1)
    ensures forall i :: 0 <= i < |slots| ==> UseRank(l, events + [e])(slots[i].0) < |events|
  {
    assert (events + [e])[..|events|] == events;
    forall i | 0 <= i < |slots|
      ensures UseRank(l, events + [e])(slots[i].0) == UseRank(l, events)(slots[i].0) < |events|
    {
      assert slots[i] in slots;
      LastUseBound(l, events, slots[i].0);
    }
    SameRanks(slots, UseRank(l, events), UseRank(l, events + [e]));
  }

  lemma {:induction false} NotHeld<V>(slots: Slots<V>, key: string)
    requires !Has(slots, key)
    ensures forall x :: x in slots ==> x.0 != key
  {
    EntriesMissing(slots, key);
  }

  /** The entry that was used comes last. */
  lemma {:induction false} UsedComesLast<V>(l: Limits, events: seq<Event<V>>, e: Event<V>, slots: Slots<V>,
                                              slot: Slot<V>)
    requires (e.Puts? && slot == Slot(e.value, e.now, e.size))
             || (Answers(Run(l, events), e) && LastPut(events, e.key) == Some(slot))
    requires Ranked(slots, UseRank(l, events)) && (forall x :: x in slots ==> LastPut(events, x.0) == Some(x.1))
    requires !Has(slots, e.key)
    ensures Ranked(slots + [(e.key, slot)], UseRank(l, events + [e]))
    ensures forall x :: x in slots + [(e.key, slot)] ==> LastPut(events + [e], x.0) == Some(x.1)
  {
    NotHeld(slots, e.key);
    Untouched(l, events, e, slots);
    assert (events + [e])[..|events|] == events;
    AppendRanked(slots, UseRank(l, events + [e]), e.key, slot);
  }

  lemma {:induction false} GetCurrent<V>(l: Limits, events: seq<Event<V>>, c: L1<V>, e: Event<V>)
    requires Current(l, events, c) && c == Run(l, events) && WithinBudget(c) && e.Gets?
    ensures Current(l, events + [e], Next(c, e))
  {
    var rest := Without(c.slots, e.key);
    GetBooked(c, e.key, e.now);
    WithoutEntries(c.slots, e.key);
    WithoutRanked(c.slots, UseRank(l, events), e.key);
    FindEntry(c.slots, e.key);
    NotHeld(rest, e.key);
    if Find(c.slots, e.key).None? {
      NotHeld(c.slots, e.key);
      Untouched(l, events, e, c.slots);
    } else if Answers(c, e) {
      UsedComesLast(l, events, e, rest, Find(c.slots, e.key).value);
    } else {
      Untouched(l, events, e, rest);
    }
  }

  lemma {:induction false} PutCurrent<V>(l: Limits, events: seq<Event<V>>, c: L1<V>, e: Event<V>)
    requires Current(l, events, c) && c == Run(l, events) && e.Puts?
    ensures Current(l, events + [e], Next(c, e))
  {
    PutBooked(c, e.key, e.value, e.size, e.now);
    InvalidateBooked(c, e.key);
    EvictedBooked(Invalidated(c, e.key), e.size);
    var k := Dropped(c, e);
    PutSlots(c, e);
    WithoutEntries(c.slots, e.key);
    WithoutRanked(c.slots, UseRank(l, events), e.key);
    var rest := Without(c.slots, e.key);
    SuffixRanked(rest, UseRank(l, events), k);
    SuffixEntries(rest, k, e.key);
    assert forall x :: x in rest[k..] ==> x in rest;
    UsedComesLast(l, events, e, rest[k..], Slot(e.value, e.now, e.size));
  }

  /** How many entries a put evicts. */
  function Dropped<V>(c: L1<V>, e: Event<V>): int
    requires e.Puts?
  {
    |Without(c.slots, e.key)| - |Evicted(Invalidated(c, e.key), e.size).slots|
  }

  /** A put takes the old entry out, evicts entries from the front and appends. */
  lemma {:induction false} PutSlots<V>(c: L1<V>, e: Event<V>)
    requires Booked(c) && e.Puts?
    ensures var rest, k := Without(c.slots, e.key), Dropped(c, e);
      && 0 <= k <= |rest| && Next(c, e).slots == rest[k..] + [(e.key, Slot(e.value, e.now, e.size))]
      && (forall j :: 0 <= j < |rest| ==> (k <= j <==> Fits(c, rest[j..], e.size)))
      && Next(c, e).evictions == c.evictions + k
  {
    var rest := Without(c.slots, e.key);
    var inv := Invalidated(c, e.key);
    InvalidateBooked(c, e.key);
    FindEntry(c.slots, e.key);
    if Find(c.slots, e.key).None? {
      NotHeld(c.slots, e.key);
      assert forall j :: 0 <= j < |c.slots| ==> c.slots[j] in c.slots;
      WithoutMissing(c.slots, e.key);
    }
    assert inv.slots == rest;
    EvictsShortestPrefix(inv, e.size);
    LaterFit(c, rest, Dropped(c, e), e.size);
  }

  lemma {:induction false} LaterFit<V>(c: L1<V>, slots: Slots<V>, k: nat, size: nat)
    requires k <= |slots| && (k < |slots| ==> Fits(c, slots[k..], size))
    ensures forall j :: k <= j < |slots| ==> Fits(c, slots[j..], size)
  {
    forall j | k <= j < |slots| ensures Fits(c, slots[j..], size) {
      assert slots[j..] == slots[k..][j - k..];
      SuffixFits(c, slots[k..], j - k, size);
    }
  }

  lemma {:induction false} SuffixFits<V>(c: L1<V>, slots: Slots<V>, n: nat, size: nat)
    requires Fits(c, slots, size) && n <= |slots|
    ensures Fits(c, slots[n..], size)
  {
    SumFrom(slots, n);
  }

  lemma {:induction false} SumFrom<V>(slots: Slots<V>, n: nat)
    requires n <= |slots|
    ensures Sum(slots[n..]) <= Sum(slots)
  {
    if n > 0 {
      SumFrom(slots[1..], n - 1);
      assert slots[1..][n - 1..] == slots[n..];
    } else {
      assert slots[0..] == slots;
    }
  }

  lemma {:induction false} DropPrefixRanked<V>(slots: Slots<V>, prefix: string, rank: string -> int)
    requires Unique(slots) && Ranked(slots, rank)
    ensures Ranked(DropPrefix(slots, prefix), rank)
  {
    if slots != [] {
      assert slots == [slots[0]] + slots[1..];
      SuffixRanked(slots, rank, 1);
      UniqueTail(slots[0], slots[1..]);
      DropPrefixRanked(slots[1..], prefix, rank);
      DropPrefixEntries(slots[1..], prefix);
      FewerRanked(slots, DropPrefix(slots[1..], prefix), rank);
    }
  }

  lemma {:induction false} DropCurrent<V>(l: Limits, events: seq<Event<V>>, c: L1<V>, e: Event<V>)
    requires Current(l, events, c) && c == Run(l, events) && WithinBudget(c) && (e.Invalidates? || e.InvalidatesPrefix?)
    ensures Current(l, events + [e], Next(c, e))
  {
    if e.Invalidates? {
      InvalidateBooked(c, e.key);
      WithoutEntries(c.slots, e.key);
      WithoutRanked(c.slots, UseRank(l, events), e.key);
    } else {
      PrefixBooked(c, e.prefix);
      DropPrefixEntries(c.slots, e.prefix);
      DropPrefixRanked(c.slots, e.prefix, UseRank(l, events));
    }
    Untouched(l, events, e, Next(c, e).slots);
  }

  lemma {:induction false} RunCurrent<V>(l: Limits, events: seq<Event<V>>)
    ensures Current(l, events, Run(l, events)) && WithinBudget(Run(l, events))
  {
    if events != [] {
      var before, e := events[..|events| - 1], events[|events| - 1];
      var c := Run(l, before);
      RunCurrent(l, before);
      assert events == before + [e];
      match e {
        case Gets(key, now) =>
          GetCurrent(l, before, c, e);
          GetBooked(c, key, now);
        case Puts(key, value, size, now) =>
          PutCurrent(l, before, c, e);
          PutBooked(c, key, value, size, now);
        case Invalidates(key) =>
          DropCurrent(l, before, c, e);
          InvalidateBooked(c, key);
        case InvalidatesPrefix(prefix) =>
          DropCurrent(l, before, c, e);
          PrefixBooked(c, prefix);
      }
    }
  }

  // ---- order of use ----

  /** The entries stand in the order in which they were last put or answered. */
  lemma {:induction false} SlotsInOrderOfUse<V>(l: Limits, events: seq<Event<V>>, i: nat, j: nat)
    requires i < j < |Run(l, events).slots|
    ensures var slots := Run(l, events).slots; LastUse(l, events, slots[i].0) < LastUse(l, events, slots[j].0)
  {
    RunCurrent(l, events);
    var slots, rank := Run(l, events).slots, UseRank(l, events);
    assert rank(slots[i].0) < rank(slots[j].0);
  }

  predicate Held<V>(c: L1<V>, key: string) {
    Has(c.slots, key)
  }

  /** Whatever a put evicts was last used before everything that stays. */
  lemma {:induction false} EvictedIsLeastRecent<V>(l: Limits, events: seq<Event<V>>, e: Event<V>, gone: string,
                                                    kept: string)
    requires e.Puts? && gone != e.key && kept != e.key
    requires Held(Run(l, events), gone) && !Held(Run(l, events + [e]), gone)
    requires Held(Run(l, events), kept) && Held(Run(l, events + [e]), kept)
    ensures LastUse(l, events, gone) < LastUse(l, events, kept)
  {
    var c, rank := Run(l, events), UseRank(l, events);
    assert (events + [e])[..|events|] == events;
    RunCurrent(l, events);
    PutSlots(c, e);
    var rest, k := Without(c.slots, e.key), Dropped(c, e);
    WithoutEntries(c.slots, e.key);
    WithoutRanked(c.slots, rank, e.key);
    HeldElsewhere(c.slots, e.key, gone);
    HeldElsewhere(c.slots, e.key, kept);
    SuffixEntries(rest, k, gone);
    SuffixEntries(rest, k, kept);
    HasAppend(rest[k..], e.key, Slot(e.value, e.now, e.size), gone);
    HasAppend(rest[k..], e.key, Slot(e.value, e.now, e.size), kept);
    var i :| 0 <= i < |rest| && rest[i].0 == gone;
    var j :| k <= j < |rest| && rest[j].0 == kept;
    assert rank(rest[i].0) < rank(rest[j].0);
  }

  lemma {:induction false} HeldElsewhere<V>(slots: Slots<V>, key: string, other: string)
    requires Unique(slots) && other != key
    ensures Has(Without(slots, key), other) <==> Has(slots, other)
  {
    WithoutEntries(slots, key);
    EntriesMissing(slots, other);
    EntriesMissing(Without(slots, key), other);
  }

  lemma {:induction false} HasAppend<V>(slots: Slots<V>, key: string, slot: Slot<V>, other: string)
    ensures Has(slots + [(key, slot)], other) <==> Has(slots, other) || other == key
  {
    EntriesMissing(slots, other);
    EntriesMissing(slots + [(key, slot)], other);
  }

  // ---- what is held ----

  /** A put holds its key and, of the others, exactly those that fit beside it together with everything used later. */
  lemma {:induction false} PutHolds<V>(l: Limits, events: seq<Event<V>>, e: Event<V>, i: nat)
    requires e.Puts?
    ensures var c, c' := Run(l, events), Run(l, events + [e]); var rest := Without(c.slots, e.key);
      && Held(c', e.key)
      && (i < |rest| ==> (Held(c', rest[i].0) <==> Fits(c, rest[i..], e.size)))
  {
    var c, c' := Run(l, events), Run(l, events + [e]);
    assert (events + [e])[..|events|] == events;
    RunCurrent(l, events);
    PutSlots(c, e);
    var rest, k := Without(c.slots, e.key), Dropped(c, e);
    var slot := Slot(e.value, e.now, e.size);
    WithoutEntries(c.slots, e.key);
    HasAppend(rest[k..], e.key, slot, e.key);
    if i < |rest| {
      HasAppend(rest[k..], e.key, slot, rest[i].0);
      SuffixEntries(rest, k, rest[i].0);
      assert rest[i] in rest;
    }
  }

  /** Nothing else leaves the cache but an expired entry that is asked for and what is invalidated. */
  lemma {:induction false} OthersStay<V>(l: Limits, events: seq<Event<V>>, e: Event<V>, key: string)
    requires !e.Puts?
    ensures var c, c' := Run(l, events), Run(l, events + [e]);
      Held(c', key) <==>
        && Held(c, key)
        && (match e
            case Gets(k, _) => k == key ==> Answers(c, e)
            case Invalidates(k) => k != key
            case InvalidatesPrefix(prefix) => !(prefix <= key))
  {
    var c := Run(l, events);
    assert (events + [e])[..|events|] == events;
    RunCurrent(l, events);
    match e
    case Gets(k, now) => GetHolds(c, k, now, key);
    case Invalidates(k) => InvalidateHolds(c, k, key);
    case InvalidatesPrefix(prefix) => PrefixHolds(c, prefix, key);
  }

  lemma {:induction false} GetHolds<V>(c: L1<V>, k: string, now: int, key: string)
    requires Booked(c)
    ensures Held(AfterGet(c, k, now), key) <==> Held(c, key) && (k == key ==> Lookup(c, k, now).Some?)
  {
    FindEntry(c.slots, k);
    WithoutEntries(c.slots, k);
    if key != k {
      HeldElsewhere(c.slots, k, key);
    }
    if Find(c.slots, k).Some? {
      HasAppend(Without(c.slots, k), k, Find(c.slots, k).value, key);
    }
  }

  lemma {:induction false} InvalidateHolds<V>(c: L1<V>, k: string, key: string)
    requires Booked(c)
    ensures Held(Invalidated(c, k), key) <==> Held(c, key) && k != key
  {
    InvalidateBooked(c, k);
    FindEntry(c.slots, k);
    if key != k {
      HeldElsewhere(c.slots, k, key);
    }
  }

  lemma {:induction false} PrefixHolds<V>(c: L1<V>, prefix: string, key: string)
    requires Booked(c)
    ensures Held(WithoutPrefix(c, prefix), key) <==> Held(c, key) && !(prefix <= key)
  {
    DropPrefixEntries(c.slots, prefix);
    EntriesMissing(c.slots, key);
    EntriesMissing(DropPrefix(c.slots, prefix), key);
  }

  /** A get answers a key exactly when it is held and its last put is at most the time to live ago, and then with the
      value put. */
  lemma {:induction false} GetAnswers<V>(l: Limits, events: seq<Event<V>>, key: string, now: int)
    ensures var c, put := Run(l, events), LastPut(events, key);
      && (Held(c, key) ==> put.Some?)
      && Lookup(c, key, now) ==
         (if Held(c, key) && now <= put.value.time + l.ttl then Some(put.value.value) else None)
  {
    RunCurrent(l, events);
    FindEntry(Run(l, events).slots, key);
  }

  // ---- the counters ----

  function CountAnswered<V>(l: Limits, events: seq<Event<V>>, answered: bool): nat {
    if events == [] then 0
    else
      var before, last := events[..|events| - 1], events[|events| - 1];
      CountAnswered(l, before, answered) +
      if last.Gets? && (answered <==> Answers(Run(l, before), last)) then 1 else 0
  }

  /** Every get is a hit or a miss, as it was answered or not. */
  lemma {:induction false} GetsAreCounted<V>(l: Limits, events: seq<Event<V>>)
    ensures Run(l, events).hits == CountAnswered(l, events, true)
    ensures Run(l, events).misses == CountAnswered(l, events, false)
  {
    if events != [] {
      var before, e := events[..|events| - 1], events[|events| - 1];
      GetsAreCounted(l, before);
      if e.Puts? {
        EvictionCounts(Invalidated(Run(l, before), e.key), e.size);
      }
    }
  }

  lemma {:induction false} EvictionCounts<V>(c: L1<V>, size: nat)
    ensures Evicted(c, size).hits == c.hits && Evicted(c, size).misses == c.misses
    decreases |c.slots|
  {
    if Crowded(c, size) && c.slots != [] {
      EvictionCounts(c.(slots := c.slots[1..], bytes := c.bytes - c.slots[0].1.size, evictions := c.evictions + 1),
                     size);
    }
  }

  /** Evictions are counted: one for every entry that makes room and one for every expired entry that is asked for. */
  lemma {:induction false} EvictionsAreCounted<V>(l: Limits, events: seq<Event<V>>, e: Event<V>)
    ensures var c, c' := Run(l, events), Run(l, events + [e]);
      c'.evictions == c.evictions +
        match e
        case Puts(key, _, _, _) => |c.slots| + 1 - |c'.slots| - (if Held(c, key) then 1 else 0)
        case Gets(key, _) => if Held(c, key) && !Answers(c, e) then 1 else 0
        case _ => 0
  {
    var c := Run(l, events);
    assert (events + [e])[..|events|] == events;
    RunCurrent(l, events);
    match e
    case Puts(key, _, _, _) =>
      PutSlots(c, e);
      WithoutEntries(c.slots, key);
    case Gets(key, _) => FindEntry(c.slots, key);
    case _ =>
  }
}
