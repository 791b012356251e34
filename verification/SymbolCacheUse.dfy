/** Runs of the query cache: what is held, in which order, what a lookup answers and what the counters count, read off
    the events. */
module SymbolCacheUse {
  import opened Options
  import opened Decimal
  import opened OrderedMaps
  import opened Strings
  import opened SymbolCache
  import opened SymbolCacheRuns

  // ---- the history ----

  /** The key of the query that the event stores or fetches. */
  function KeyOf(w: World, e: Event): Option<string> {
    if (e.Store? || e.Fetch?) && e.q < |w.queries| then Some(w.queries[e.q].key) else None
  }

  predicate Answers(w: World, e: Event) {
    e.Fetch? && e.q < |w.queries| && Lookup(w.cache, w.gens, w.queries[e.q].key, e.now).Some?
  }

  predicate Uses(w: World, e: Event, key: string) {
    KeyOf(w, e) == Some(key) && (e.Store? || Answers(w, e))
  }

  /** When the key was last stored or answered, as a place in the history. */
  function LastUse(maxEntries: int, ttl: int, events: seq<Event>, key: string): int {
    if events == [] then -1
    else
      var before, last := events[..|events| - 1], events[|events| - 1];
      if Uses(Run(maxEntries, ttl, before), last, key) then |before| else LastUse(maxEntries, ttl, before, key)
  }

  /** What was last stored under the key, and when. */
  function LastStore(maxEntries: int, ttl: int, events: seq<Event>, key: string): Option<Entry<seq<nat>>> {
    if events == [] then None
    else
      var before, last := events[..|events| - 1], events[|events| - 1];
      var w := Run(maxEntries, ttl, before);
      if last.Store? && KeyOf(w, last) == Some(key) then Some(Entry(w.queries[last.q].ran, last.now))
      else LastStore(maxEntries, ttl, before, key)
  }

  function UseRank(maxEntries: int, ttl: int, events: seq<Event>): string -> int {
    key => LastUse(maxEntries, ttl, events, key)
  }

  lemma {:induction false} LastUseBound(maxEntries: int, ttl: int, events: seq<Event>, key: string)
    ensures -1 <= LastUse(maxEntries, ttl, events, key) < |events|
  {
    if events != [] {
      LastUseBound(maxEntries, ttl, events[..|events| - 1], key);
    }
  }

  // ---- the invariant ----

  type Entries = seq<(string, Entry<seq<nat>>)>

  ghost predicate Recorded(maxEntries: int, ttl: int, events: seq<Event>, entries: Entries) {
    && Unique(entries) && Ranked(entries, UseRank(maxEntries, ttl, events))
    && (forall e :: e in entries ==> LastStore(maxEntries, ttl, events, e.0) == Some(e.1))
  }

  lemma {:induction false} Untouched(maxEntries: int, ttl: int, events: seq<Event>, e: Event, entries: Entries)
    requires Recorded(maxEntries, ttl, events, entries)
    requires forall x :: x in entries ==> !Uses(Run(maxEntries, ttl, events), e, x.0)
    ensures Recorded(maxEntries, ttl, events + [e], entries)
    ensures forall i :: 0 <= i < |entries| ==> UseRank(maxEntries, ttl, events + [e])(entries[i].0) < |events|
  {
    var rank, rank' := UseRank(maxEntries, ttl, events), UseRank(maxEntries, ttl, events + [e]);
    assert (events + [e])[..|events|] == events;
    forall i | 0 <= i < |entries| ensures rank'(entries[i].0) == rank(entries[i].0) < |events| {
      assert entries[i] in entries;
      LastUseBound(maxEntries, ttl, events, entries[i].0);
    }
    SameRanks(entries, rank, rank');
  }

  /** The entry that was used comes last. */
  lemma {:induction false} UsedComesLast(
    maxEntries: int, ttl: int, events: seq<Event>, e: Event, entries: Entries, key: string, entry: Entry<seq<nat>>)
    requires Recorded(maxEntries, ttl, events, entries) && !Has(entries, key)
    requires KeyOf(Run(maxEntries, ttl, events), e) == Some(key)
    requires var w := Run(maxEntries, ttl, events);
      || (e.Store? && entry == Entry(w.queries[e.q].ran, e.now))
      || (Answers(w, e) && LastStore(maxEntries, ttl, events, key) == Some(entry))
    ensures Recorded(maxEntries, ttl, events + [e], entries + [(key, entry)])
  {
    EntriesMissing(entries, key);
    Untouched(maxEntries, ttl, events, e, entries);
    assert (events + [e])[..|events|] == events;
    AppendRanked(entries, UseRank(maxEntries, ttl, events + [e]), key, entry);
    AppendUnique(entries, key, entry);
  }

  /** What a store leaves: the others that were used last, as many as there is room for, and the new entry. */
  function Kept(c: Cache<seq<nat>>, key: string): Entries
    requires c.maxEntries >= 1
  {
    Youngest(Without(c.entries, key), c.maxEntries - 1)
  }

  lemma {:induction false} StoreRecorded(maxEntries: int, ttl: int, events: seq<Event>, e: Event)
    requires var w := Run(maxEntries, ttl, events);
      Recorded(maxEntries, ttl, events, w.cache.entries) && e.Store? && e.q < |w.queries|
    ensures Recorded(maxEntries, ttl, events + [e], Next(Run(maxEntries, ttl, events), e).cache.entries)
  {
    var w := Run(maxEntries, ttl, events);
    var c, key, rank := w.cache, w.queries[e.q].key, UseRank(maxEntries, ttl, events);
    if c.maxEntries >= 1 {
      var rest := Without(c.entries, key);
      var n := |rest| - |Kept(c, key)|;
      WithoutEntries(c.entries, key);
      WithoutRanked(c.entries, rank, key);
      assert rest[0..] == rest;
      assert Kept(c, key) == rest[n..];
      SuffixRanked(rest, rank, n);
      SuffixEntries(rest, n, key);
      assert forall x :: x in rest[n..] ==> x in rest;
      UsedComesLast(maxEntries, ttl, events, e, rest[n..], key, Entry(w.queries[e.q].ran, e.now));
    }
  }

  lemma {:induction false} FetchRecorded(maxEntries: int, ttl: int, events: seq<Event>, e: Event)
    requires var w := Run(maxEntries, ttl, events);
      Recorded(maxEntries, ttl, events, w.cache.entries) && e.Fetch? && e.q < |w.queries|
    ensures Recorded(maxEntries, ttl, events + [e], Next(Run(maxEntries, ttl, events), e).cache.entries)
  {
    var w := Run(maxEntries, ttl, events);
    var m, key, rank := w.cache.entries, w.queries[e.q].key, UseRank(maxEntries, ttl, events);
    var rest := Without(m, key);
    WithoutEntries(m, key);
    WithoutRanked(m, rank, key);
    FindEntry(m, key);
    EntriesMissing(m, key);
    EntriesMissing(rest, key);
    if Find(m, key).None? {
      Untouched(maxEntries, ttl, events, e, m);
    } else if Answers(w, e) {
      UsedComesLast(maxEntries, ttl, events, e, rest, key, Find(m, key).value);
    } else {
      Untouched(maxEntries, ttl, events, e, rest);
    }
  }

  lemma {:induction false} DropRanked(entries: Entries, path: string, rank: string -> int)
    requires Unique(entries) && Ranked(entries, rank)
    ensures Ranked(Drop(entries, path), rank)
  {
    if entries != [] {
      assert entries == [entries[0]] + entries[1..];
      SuffixRanked(entries, rank, 1);
      UniqueTail(entries[0], entries[1..]);
      DropRanked(entries[1..], path, rank);
      DropKeeps(entries[1..], path);
      FewerRanked(entries, Drop(entries[1..], path), rank);
    }
  }

  lemma {:induction false} RunRecorded(maxEntries: int, ttl: int, events: seq<Event>)
    ensures Recorded(maxEntries, ttl, events, Run(maxEntries, ttl, events).cache.entries)
    ensures Run(maxEntries, ttl, events).cache.maxEntries == maxEntries && Run(maxEntries, ttl, events).cache.ttl == ttl
  {
    if events != [] {
      var before, e := events[..|events| - 1], events[|events| - 1];
      var w := Run(maxEntries, ttl, before);
      RunRecorded(maxEntries, ttl, before);
      assert events == before + [e];
      if e.Store? && e.q < |w.queries| {
        StoreRecorded(maxEntries, ttl, before, e);
      } else if e.Fetch? && e.q < |w.queries| {
        FetchRecorded(maxEntries, ttl, before, e);
      } else {
        if e.InvalidateFile? {
          DropKeeps(w.cache.entries, e.path);
          DropRanked(w.cache.entries, e.path, UseRank(maxEntries, ttl, before));
        }
        Untouched(maxEntries, ttl, before, e, Next(w, e).cache.entries);
      }
    }
  }

  // ---- order of use ----

  predicate Held(w: World, key: string) {
    Has(w.cache.entries, key)
  }

  /** The entries stand in the order in which they were last stored or answered. */
  lemma {:induction false} EntriesInOrderOfUse(maxEntries: int, ttl: int, events: seq<Event>, i: nat, j: nat)
    requires i < j < |Run(maxEntries, ttl, events).cache.entries|
    ensures var m := Run(maxEntries, ttl, events).cache.entries;
      LastUse(maxEntries, ttl, events, m[i].0) < LastUse(maxEntries, ttl, events, m[j].0)
  {
    RunRecorded(maxEntries, ttl, events);
    var m, rank := Run(maxEntries, ttl, events).cache.entries, UseRank(maxEntries, ttl, events);
    assert rank(m[i].0) < rank(m[j].0);
  }

  lemma {:induction false} HeldElsewhere(m: Entries, key: string, other: string)
    requires Unique(m) && other != key
    ensures Has(Without(m, key), other) <==> Has(m, other)
  {
    WithoutEntries(m, key);
    EntriesMissing(m, other);
    EntriesMissing(Without(m, key), other);
  }

  lemma {:induction false} HasAppend(m: Entries, key: string, entry: Entry<seq<nat>>, other: string)
    ensures Has(m + [(key, entry)], other) <==> Has(m, other) || other == key
  {
    EntriesMissing(m, other);
    EntriesMissing(m + [(key, entry)], other);
  }

  // ---- what is held ----

  /** A store holds its key and, of the others, those used last, as many as there is room for; with room for none it
      fails and leaves nothing. */
  lemma {:induction false} StoreHolds(maxEntries: int, ttl: int, events: seq<Event>, e: Event, i: nat)
    requires var w := Run(maxEntries, ttl, events);
      e.Store? && e.q < |w.queries|
    ensures var w, w' := Run(maxEntries, ttl, events), Run(maxEntries, ttl, events + [e]);
      var key := w.queries[e.q].key; var rest := Without(w.cache.entries, key);
      if maxEntries < 1 then w'.cache.entries == []
      else Held(w', key) && (i < |rest| ==> (Held(w', rest[i].0) <==> |rest| - i < maxEntries))
  {
    var w := Run(maxEntries, ttl, events);
    assert (events + [e])[..|events|] == events;
    RunRecorded(maxEntries, ttl, events);
    if maxEntries >= 1 {
      var key := w.queries[e.q].key;
      var rest := Without(w.cache.entries, key);
      var n := |rest| - |Kept(w.cache, key)|;
      WithoutEntries(w.cache.entries, key);
      assert rest[0..] == rest;
      assert Kept(w.cache, key) == rest[n..];
      HasAppend(rest[n..], key, Entry(w.queries[e.q].ran, e.now), key);
      if i < |rest| {
        SuffixEntries(rest, n, rest[i].0);
        HasAppend(rest[n..], key, Entry(w.queries[e.q].ran, e.now), rest[i].0);
        assert rest[i] in rest;
      }
    }
  }

  lemma {:induction false} NoLastOccurrence(s: string, pattern: string, i: nat)
    ensures LastFrom(s, pattern, i).Some? <==> exists j: nat :: j <= i && OccursAt(s, pattern, j)
  {
    if i > 0 && !OccursAt(s, pattern, i) {
      NoLastOccurrence(s, pattern, i - 1);
    }
  }

  lemma {:induction false} DropHolds(entries: Entries, path: string)
    ensures forall e :: e in Drop(entries, path) <==> e in entries && !Contains(e.0, path)
  {
    if entries != [] {
      assert entries == [entries[0]] + entries[1..];
      DropHolds(entries[1..], path);
      NoLastOccurrence(entries[0].0, path, |entries[0].0|);
      assert Contains(entries[0].0, path) <==> LastOccurrence(entries[0].0, path).Some?;
      forall e ensures e in Drop(entries, path) <==> e in entries && !Contains(e.0, path) {
        assert e in entries <==> e == entries[0] || e in entries[1..];
      }
    }
  }

  /** Nothing else leaves the cache but an entry that is asked for and not answered, and what is invalidated. */
  lemma {:induction false} OthersStay(maxEntries: int, ttl: int, events: seq<Event>, e: Event, key: string)
    requires !e.Store?
    ensures var w, w' := Run(maxEntries, ttl, events), Run(maxEntries, ttl, events + [e]);
      Held(w', key) <==>
        && Held(w, key)
        && (match e
            case Fetch(_, _) => KeyOf(w, e) == Some(key) ==> Answers(w, e)
            case InvalidateFile(path) => !Contains(key, path)
            case Clear => false
            case _ => true)
  {
    var w := Run(maxEntries, ttl, events);
    assert (events + [e])[..|events|] == events;
    RunRecorded(maxEntries, ttl, events);
    match e
    case Fetch(q, now) => if q < |w.queries| { FetchHolds(w, q, now, key); }
    case InvalidateFile(path) =>
      DropHolds(w.cache.entries, path);
      EntriesMissing(w.cache.entries, key);
      EntriesMissing(Drop(w.cache.entries, path), key);
    case _ =>
  }

  lemma {:induction false} FetchHolds(w: World, q: nat, now: int, key: string)
    requires Unique(w.cache.entries) && q < |w.queries|
    ensures Held(Next(w, Fetch(q, now)), key) <==>
              Held(w, key) && (w.queries[q].key == key ==> Answers(w, Fetch(q, now)))
  {
    var m, k := w.cache.entries, w.queries[q].key;
    FindEntry(m, k);
    WithoutEntries(m, k);
    if key != k {
      HeldElsewhere(m, k, key);
    }
    if Find(m, k).Some? {
      HasAppend(Without(m, k), k, Find(m, k).value, key);
    }
  }

  /** A lookup answers a query exactly when its key is held, its project is still at the generation in the key, and the
      last store is at most the time to live ago, and then with what was stored. */
  lemma {:induction false} FetchAnswers(maxEntries: int, ttl: int, events: seq<Event>, q: nat, now: int,
                                        token: string, generation: nat)
    requires q < |Run(maxEntries, ttl, events).queries|
    requires Carries(Run(maxEntries, ttl, events).queries[q].key, token, generation)
    ensures var w := Run(maxEntries, ttl, events); var key := w.queries[q].key;
      var stored := LastStore(maxEntries, ttl, events, key);
      && (Held(w, key) ==> stored.Some?)
      && Lookup(w.cache, w.gens, key, now) ==
         (if Held(w, key) && Generation(w.gens, token) == generation && now <= stored.value.created + ttl
          then Some(stored.value.value) else None)
  {
    RunRecorded(maxEntries, ttl, events);
    var w := Run(maxEntries, ttl, events);
    FindEntry(w.cache.entries, w.queries[q].key);
  }

  // ---- keys that nothing in this program builds ----

  predicate SpecIs(spec: string, token: string, digits: string) {
    ',' !in token && digits != "" && AllDigits(digits) && spec == token + "," + digits
  }

  /** A key whose last marker is followed by a token, a comma and digits is outdated exactly when the token's generation
      is another. */
  lemma {:induction false} ReadableKeyOutdatedIff(gens: map<string, nat>, base: string, token: string, digits: string)
    requires ',' !in token && digits != "" && AllDigits(digits)
    requires forall j: nat :: j > |base| ==> !OccursAt(base + MARKER + (token + "," + digits), MARKER, j)
    ensures Outdated(gens, base + MARKER + (token + "," + digits)) <==> Value(digits) != Generation(gens, token)
  {
    var spec := token + "," + digits;
    LastMarkerFound(base, spec);
    IndexOfFirst(token, ',', digits);
    assert spec == token + [','] + digits;
    assert spec[..|token|] == token && spec[|token| + 1..] == digits;
  }

  lemma {:induction false} LastMarkerFound(base: string, spec: string)
    requires forall j: nat :: j > |base| ==> !OccursAt(base + MARKER + spec, MARKER, j)
    ensures GenerationSpec(base + MARKER + spec) == Some(spec)
  {
    var key := base + MARKER + spec;
    assert OccursAt(key, MARKER, |base|);
    LastFromAbove(key, MARKER, |key|, |base|);
    assert key[|base| + |MARKER|..] == spec;
  }

  /** A key with a marker whose last one is followed by anything else is outdated, and one without a marker never. */
  lemma {:induction false} OtherKeysOutdated(gens: map<string, nat>, base: string, spec: string)
    requires forall j: nat :: j > |base| ==> !OccursAt(base + MARKER + spec, MARKER, j)
    requires forall token, digits :: !SpecIs(spec, token, digits)
    ensures Outdated(gens, base + MARKER + spec)
  {
    LastMarkerFound(base, spec);
    ReadSpecIs(spec);
  }

  lemma {:induction false} ReadSpecIs(spec: string)
    ensures ParseSpec(spec).Some? ==> exists token, digits :: SpecIs(spec, token, digits)
  {
    if ParseSpec(spec).Some? {
      var i := IndexOf(spec, ',').value;
      IndexOfIs(spec, ',');
      assert spec == spec[..i] + "," + spec[i + 1..];
      assert SpecIs(spec, spec[..i], spec[i + 1..]);
    }
  }

  lemma {:induction false} IndexOfIs(s: string, c: char)
    ensures IndexOf(s, c).Some? ==> IndexOf(s, c).value < |s| && s[IndexOf(s, c).value] == c
                                    && c !in s[..IndexOf(s, c).value]
  {
    if s != "" && s[0] != c {
      IndexOfIs(s[1..], c);
      if IndexOf(s[1..], c).Some? {
        var i := IndexOf(s[1..], c).value;
        assert s[..i + 1] == [s[0]] + s[1..][..i];
      }
    }
  }

  lemma {:induction false} UnmarkedKeyStays(gens: map<string, nat>, key: string)
    requires !Contains(key, MARKER)
    ensures !Outdated(gens, key)
  {
    NoLastOccurrence(key, MARKER, |key|);
  }

  // ---- generations and counters ----

  function Invalidations(events: seq<Event>, token: string): nat {
    if events == [] then 0
    else Invalidations(events[..|events| - 1], token) + if events[|events| - 1] == Invalidate(token) then 1 else 0
  }

  /** A project's generation is the number of its invalidations. */
  lemma {:induction false} GenerationCountsInvalidations(maxEntries: int, ttl: int, events: seq<Event>, token: string)
    ensures Generation(Run(maxEntries, ttl, events).gens, token) == Invalidations(events, token)
  {
    if events != [] {
      GenerationCountsInvalidations(maxEntries, ttl, events[..|events| - 1], token);
    }
  }

  function CountFetches(maxEntries: int, ttl: int, events: seq<Event>, answered: bool): nat {
    if events == [] then 0
    else
      var before, last := events[..|events| - 1], events[|events| - 1];
      var w := Run(maxEntries, ttl, before);
      CountFetches(maxEntries, ttl, before, answered) +
      if last.Fetch? && last.q < |w.queries| && (answered <==> Answers(w, last)) then 1 else 0
  }

  /** Every lookup is a hit or a miss, as it was answered or not. */
  lemma {:induction false} FetchesAreCounted(maxEntries: int, ttl: int, events: seq<Event>)
    ensures Run(maxEntries, ttl, events).cache.hits == CountFetches(maxEntries, ttl, events, true)
    ensures Run(maxEntries, ttl, events).cache.misses == CountFetches(maxEntries, ttl, events, false)
  {
    if events != [] {
      var before := events[..|events| - 1];
      FetchesAreCounted(maxEntries, ttl, before);
      OneMoreFetch(Run(maxEntries, ttl, before), events[|events| - 1]);
    }
  }

  lemma {:induction false} OneMoreFetch(w: World, e: Event)
    ensures var asks := e.Fetch? && e.q < |w.queries|;
      && Next(w, e).cache.hits == w.cache.hits + (if asks && Answers(w, e) then 1 else 0)
      && Next(w, e).cache.misses == w.cache.misses + (if asks && !Answers(w, e) then 1 else 0)
  {
  }
}
