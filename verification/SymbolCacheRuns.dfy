/** Interleavings of key building, query execution, invalidation, storing and lookup. */
module SymbolCacheRuns {
  import opened Options
  import opened OrderedMaps
  import opened SymbolCache

  /** A query under way: the key it built and the generations of its project it ran in so far. */
  datatype Query = Query(key: string, token: string, ran: seq<nat>)

  datatype Hit = Hit(generation: nat, ran: seq<nat>)

  datatype World = World(gens: map<string, nat>, cache: Cache<seq<nat>>, queries: seq<Query>, hits: seq<Hit>)

  /** `token` is the hash of a canonical project root; distinct roots may share one. */
  datatype Event =
    | Build(operation: string, root: string, parts: seq<string>, token: string)
    | Work(q: nat)                  // the query looks at the project
    | Store(q: nat, now: int)       // put of what was computed, under the key built at the start
    | Fetch(q: nat, now: int)       // get with a key built earlier
    | Invalidate(token: string)
    | InvalidateFile(path: string)
    | Clear

  function Next(w: World, e: Event): World {
    match e
    case Build(operation, root, parts, token) =>
      if !CleanToken(token) then w
      else
        var key := MakeKey(operation, root, parts, token, Generation(w.gens, token));
        w.(queries := w.queries + [Query(key, token, [])])
    case Work(q) =>
      if q >= |w.queries| then w
      else
        var query := w.queries[q];
        w.(queries := w.queries[q := query.(ran := query.ran + [Generation(w.gens, query.token)])])
    case Store(q, now) =>
      if q >= |w.queries| then w else w.(cache := AfterPut(w.cache, w.queries[q].key, w.queries[q].ran, now))
    case Fetch(q, now) =>
      if q >= |w.queries| then w
      else
        var key := w.queries[q].key;
        var found := Lookup(w.cache, w.gens, key, now);
        w.(cache := AfterGet(w.cache, w.gens, key, now),
           hits := if found.None? then w.hits else w.hits + [Hit(Generation(w.gens, w.queries[q].token), found.value)])
    case Invalidate(token) => w.(gens := w.gens[token := Generation(w.gens, token) + 1])
    case InvalidateFile(path) => w.(cache := w.cache.(entries := Drop(w.cache.entries, path)))
    case Clear => w.(cache := w.cache.(entries := []))
  }

  function Run(maxEntries: int, ttl: int, events: seq<Event>): World {
    if events == [] then World(map[], Cache(maxEntries, ttl, [], 0, 0), [], [])
    else Next(Run(maxEntries, ttl, events[..|events| - 1]), events[|events| - 1])
  }

  /** The generation a well-built key carries. */
  ghost predicate Carries(key: string, token: string, generation: nat) {
    GenerationSpec(key).Some? && ParseSpec(GenerationSpec(key).value) == Some((token, generation))
  }

  predicate Within(ran: seq<nat>, low: nat, high: nat) {
    forall i :: 0 <= i < |ran| ==> low <= ran[i] <= high
  }

  predicate Since(gens: map<string, nat>, ran: seq<nat>, token: string, generation: nat) {
    generation <= Generation(gens, token) && Within(ran, generation, Generation(gens, token))
  }

  /** The work recorded under a key happened no earlier than the generation in the key. */
  ghost predicate Backed(gens: map<string, nat>, key: string, ran: seq<nat>) {
    exists token, generation :: Carries(key, token, generation) && Since(gens, ran, token, generation)
  }

  ghost predicate Inv(w: World) {
    && Unique(w.cache.entries)
    && (forall i :: 0 <= i < |w.cache.entries| ==> Backed(w.gens, w.cache.entries[i].0, w.cache.entries[i].1.value))
    && (forall q :: 0 <= q < |w.queries| ==>
          && Backed(w.gens, w.queries[q].key, w.queries[q].ran)
          && ParseSpec(GenerationSpec(w.queries[q].key).value).value.0 == w.queries[q].token)
    && (forall i, j :: 0 <= i < |w.hits| && 0 <= j < |w.hits[i].ran| ==> w.hits[i].ran[j] == w.hits[i].generation)
  }

  lemma {:induction false} BackedGrows(gens: map<string, nat>, gens': map<string, nat>, key: string, ran: seq<nat>)
    requires Backed(gens, key, ran) && (forall token :: Generation(gens, token) <= Generation(gens', token))
    ensures Backed(gens', key, ran)
  {
    var token, generation :| Carries(key, token, generation) && Since(gens, ran, token, generation);
    assert Since(gens', ran, token, generation);
  }

  lemma {:induction false} FetchedIsCurrent(w: World, q: nat, now: int)
    requires Inv(w) && q < |w.queries|
    ensures var found := Lookup(w.cache, w.gens, w.queries[q].key, now);
      found.Some? ==>
        Within(found.value, Generation(w.gens, w.queries[q].token), Generation(w.gens, w.queries[q].token))
  {
    var key := w.queries[q].key;
    FindEntry(w.cache.entries, key);
    if Lookup(w.cache, w.gens, key, now).Some? {
      var entry := (key, Find(w.cache.entries, key).value);
      var i :| 0 <= i < |w.cache.entries| && w.cache.entries[i] == entry;
      assert Backed(w.gens, w.cache.entries[i].0, w.cache.entries[i].1.value);
    }
  }

  lemma {:induction false} KeptEntries(before: seq<(string, Entry<seq<nat>>)>, after: seq<(string, Entry<seq<nat>>)>,
                                       gens: map<string, nat>)
    requires forall i :: 0 <= i < |before| ==> Backed(gens, before[i].0, before[i].1.value)
    requires forall e :: e in after ==> e in before
    ensures forall i :: 0 <= i < |after| ==> Backed(gens, after[i].0, after[i].1.value)
  {
    forall i | 0 <= i < |after| ensures Backed(gens, after[i].0, after[i].1.value) {
      assert after[i] in before;
      var j :| 0 <= j < |before| && before[j] == after[i];
    }
  }

  lemma {:induction false} DropKeeps<V>(entries: seq<(string, Entry<V>)>, path: string)
    requires Unique(entries)
    ensures Unique(Drop(entries, path)) && |Drop(entries, path)| <= |entries|
    ensures forall e :: e in Drop(entries, path) ==> e in entries
  {
    if entries != [] {
      DropKeeps(entries[1..], path);
      forall e | e in Drop(entries[1..], path) ensures e.0 != entries[0].0 {
        assert e in entries[1..];
        var i :| 0 <= i < |entries[1..]| && entries[1..][i] == e;
        assert entries[i + 1] == e;
      }
    }
  }

  lemma {:induction false} YoungestUnique<V>(m: seq<(string, V)>, n: nat, key: string, value: V)
    requires Unique(m) && !Has(m, key)
    ensures Unique(Youngest(m, n) + [(key, value)])
    ensures forall e :: e in Youngest(m, n) ==> e in m
  {
    assert forall i :: 0 <= i < |m| ==> m[i].0 != key;
  }

  lemma {:induction false} StoredBacked(kept: seq<(string, Entry<seq<nat>>)>, stored: (string, Entry<seq<nat>>),
                                        gens: map<string, nat>)
    requires forall i :: 0 <= i < |kept| ==> Backed(gens, kept[i].0, kept[i].1.value)
    requires Backed(gens, stored.0, stored.1.value)
    ensures var all := kept + [stored]; forall i :: 0 <= i < |all| ==> Backed(gens, all[i].0, all[i].1.value)
  {
  }

  /** What a store leaves in the cache. */
  lemma {:induction false} StoredEntries(w: World, q: nat, now: int)
    requires Inv(w) && q < |w.queries|
    ensures var entries := AfterPut(w.cache, w.queries[q].key, w.queries[q].ran, now).entries;
      Unique(entries) && forall i :: 0 <= i < |entries| ==> Backed(w.gens, entries[i].0, entries[i].1.value)
  {
    var c, key := w.cache, w.queries[q].key;
    var rest := Without(c.entries, key);
    WithoutEntries(c.entries, key);
    if c.maxEntries >= 1 {
      var entry := Entry(w.queries[q].ran, now);
      var kept := Youngest(rest, c.maxEntries - 1);
      YoungestUnique(rest, c.maxEntries - 1, key, entry);
      KeptEntries(c.entries, rest, w.gens);
      KeptEntries(rest, kept, w.gens);
      StoredBacked(kept, (key, entry), w.gens);
    }
  }

  lemma {:induction false} StoreInv(w: World, q: nat, now: int)
    requires Inv(w) && q < |w.queries|
    ensures Inv(Next(w, Store(q, now)))
  {
    StoredEntries(w, q, now);
  }

  lemma {:induction false} FetchEntries(w: World, key: string, now: int)
    requires Inv(w)
    ensures var c' := AfterGet(w.cache, w.gens, key, now);
      && Unique(c'.entries)
      && (forall e :: e in c'.entries ==> e in w.cache.entries)
      && |c'.entries| <= |w.cache.entries|
  {
    var m := w.cache.entries;
    WithoutEntries(m, key);
    FindEntry(m, key);
    if Find(m, key).Some? {
      var rest, entry := Without(m, key), (key, Find(m, key).value);
      AppendUnique(rest, key, entry.1);
      assert forall e :: e in rest + [entry] ==> e in m;
    }
  }

  lemma {:induction false} FetchInv(w: World, q: nat, now: int)
    requires Inv(w) && q < |w.queries|
    ensures Inv(Next(w, Fetch(q, now)))
  {
    FetchEntries(w, w.queries[q].key, now);
    FetchedIsCurrent(w, q, now);
    KeptEntries(w.cache.entries, AfterGet(w.cache, w.gens, w.queries[q].key, now).entries, w.gens);
  }

  lemma {:induction false} NextInv(w: World, e: Event)
    requires Inv(w)
    ensures Inv(Next(w, e))
  {
    match e {
      case Build(operation, root, parts, token) =>
        if CleanToken(token) {
          var generation := Generation(w.gens, token);
          var key := MakeKey(operation, root, parts, token, generation);
          GenerationRecovered(operation, root, parts, token, generation);
          assert Carries(key, token, generation) && Since(w.gens, [], token, generation);
          assert Backed(w.gens, key, []);
        }
      case Work(q) =>
        if q < |w.queries| {
          var query := w.queries[q];
          var token, generation :| Carries(query.key, token, generation) && Since(w.gens, query.ran, token, generation);
          WorkGenerations(w, q, token, generation);
        }
      case Store(q, now) => if q < |w.queries| { StoreInv(w, q, now); }
      case Fetch(q, now) => if q < |w.queries| { FetchInv(w, q, now); }
      case Invalidate(token) =>
        var gens' := Next(w, e).gens;
        forall key, ran | Backed(w.gens, key, ran) ensures Backed(gens', key, ran) {
          BackedGrows(w.gens, gens', key, ran);
        }
      case InvalidateFile(path) =>
        DropKeeps(w.cache.entries, path);
        KeptEntries(w.cache.entries, Drop(w.cache.entries, path), w.gens);
      case Clear =>
    }
  }

  /** A query built at a generation never finds its project at an earlier one. */
  lemma {:induction false} WorkGenerations(w: World, q: nat, token: string, generation: nat)
    requires Inv(w) && q < |w.queries|
    requires Carries(w.queries[q].key, token, generation) && Since(w.gens, w.queries[q].ran, token, generation)
    ensures Inv(Next(w, Work(q)))
  {
    var ran' := w.queries[q].ran + [Generation(w.gens, token)];
    assert Since(w.gens, ran', token, generation);
    assert Backed(w.gens, w.queries[q].key, ran');
  }

  lemma {:induction false} RunInv(maxEntries: int, ttl: int, events: seq<Event>)
    ensures Inv(Run(maxEntries, ttl, events))
  {
    if events != [] {
      RunInv(maxEntries, ttl, events[..|events| - 1]);
      NextInv(Run(maxEntries, ttl, events[..|events| - 1]), events[|events| - 1]);
    }
  }

  /** Every hit of every interleaving returns a value whose whole computation ran in the generation its project
      had when it was returned. */
  lemma {:induction false} HitsAreCurrent(maxEntries: int, ttl: int, events: seq<Event>, h: nat)
    requires h < |Run(maxEntries, ttl, events).hits|
    ensures var hit := Run(maxEntries, ttl, events).hits[h];
      forall j :: 0 <= j < |hit.ran| ==> hit.ran[j] == hit.generation
  {
    RunInv(maxEntries, ttl, events);
  }

  lemma {:induction false} NextBounded(w: World, e: Event)
    requires Inv(w) && w.cache.maxEntries >= 1 && |w.cache.entries| <= w.cache.maxEntries
    ensures |Next(w, e).cache.entries| <= w.cache.maxEntries == Next(w, e).cache.maxEntries
  {
    match e {
      case Store(q, now) => if q < |w.queries| { WithoutEntries(w.cache.entries, w.queries[q].key); }
      case Fetch(q, now) => if q < |w.queries| { FetchEntries(w, w.queries[q].key, now); }
      case InvalidateFile(path) => DropKeeps(w.cache.entries, path);
      case _ =>
    }
  }

  /** The cache never holds more than its maximum, if that is at least one. */
  lemma {:induction false} NeverOverfull(maxEntries: int, ttl: int, events: seq<Event>)
    requires maxEntries >= 1
    ensures |Run(maxEntries, ttl, events).cache.entries| <= maxEntries == Run(maxEntries, ttl, events).cache.maxEntries
  {
    if events != [] {
      var before := Run(maxEntries, ttl, events[..|events| - 1]);
      NeverOverfull(maxEntries, ttl, events[..|events| - 1]);
      RunInv(maxEntries, ttl, events[..|events| - 1]);
      NextBounded(before, events[|events| - 1]);
    }
  }
}
