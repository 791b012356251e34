/** The query cache whose keys carry the project's generation. */
module SymbolCache {
  import opened Options
  import opened Decimal
  import opened OrderedMaps
  import opened Strings

  const MARKER: string := ":__v8g__="

  function Generation(gens: map<string, nat>, token: string): nat {
    if token in gens then gens[token] else 0
  }

  /** `token` is the hash of the canonical root. */
  function MakeKey(operation: string, root: string, parts: seq<string>, token: string, generation: nat): string {
    Join(":", [operation, root] + parts) + MARKER + (token + "," + Numeral(generation))
  }

  /** The last occurrence of `pattern` at or before `i`. */
  function LastFrom(s: string, pattern: string, i: nat): (at: Option<nat>)
    ensures at.Some? ==> OccursAt(s, pattern, at.value)
  {
    if OccursAt(s, pattern, i) then Some(i) else if i == 0 then None else LastFrom(s, pattern, i - 1)
  }

  function LastOccurrence(s: string, pattern: string): (at: Option<nat>)
    ensures at.Some? ==> OccursAt(s, pattern, at.value)
  {
    LastFrom(s, pattern, |s|)
  }

  function IndexOf(s: string, c: char): (at: Option<nat>)
    ensures at.Some? ==> at.value < |s|
  {
    if s == [] then None
    else if s[0] == c then Some(0)
    else match IndexOf(s[1..], c)
         case None => None
         case Some(i) => Some(i + 1)
  }

  /** What follows the last marker. */
  function GenerationSpec(key: string): Option<string> {
    match LastOccurrence(key, MARKER)
    case None => None
    case Some(i) => Some(key[i + |MARKER|..])
  }

  /** The token and generation a specification names; None where the code raises ValueError. */
  function ParseSpec(spec: string): Option<(string, nat)> {
    match IndexOf(spec, ',')
    case None => None
    case Some(i) =>
      if spec[i + 1..] != "" && AllDigits(spec[i + 1..])
      then Some((spec[..i], Value(spec[i + 1..])))
      else None
  }

  predicate CleanToken(token: string) {
    ':' !in token && ',' !in token
  }

  lemma {:induction false} LastFromAbove(s: string, pattern: string, i: nat, at: nat)
    requires OccursAt(s, pattern, at) && at <= i
    requires forall j :: at < j <= i ==> !OccursAt(s, pattern, j)
    ensures LastFrom(s, pattern, i) == Some(at)
  {
    if i > at {
      LastFromAbove(s, pattern, i - 1, at);
    }
  }

  lemma {:induction false} IndexOfFirst(s: string, c: char, rest: string)
    requires c !in s
    ensures IndexOf(s + [c] + rest, c) == Some(|s|)
  {
    var all := s + [c] + rest;
    if s != [] {
      assert s[0] in s;
      IndexOfFirst(s[1..], c, rest);
      assert all[1..] == s[1..] + [c] + rest;
    }
  }

  /** The generation is read back from a key exactly, even when operation, root or parts contain the marker. */
  lemma {:induction false} GenerationRecovered(operation: string, root: string, parts: seq<string>, token: string,
                                              generation: nat)
    requires CleanToken(token)
    ensures var key := MakeKey(operation, root, parts, token, generation);
      && GenerationSpec(key) == Some(token + "," + Numeral(generation))
      && ParseSpec(GenerationSpec(key).value) == Some((token, generation))
  {
    var base, spec := Join(":", [operation, root] + parts), token + "," + Numeral(generation);
    var key := MakeKey(operation, root, parts, token, generation);
    NumeralValue(generation);
    assert key == base + MARKER + spec;
    assert OccursAt(key, MARKER, |base|);
    forall j | |base| < j <= |key| ensures !OccursAt(key, MARKER, j) {
      NoLaterMarker(base, spec, j);
    }
    LastFromAbove(key, MARKER, |key|, |base|);
    assert key[|base| + |MARKER|..] == spec;
    assert spec == token + [','] + Numeral(generation);
    IndexOfFirst(token, ',', Numeral(generation));
    assert spec[|token| + 1..] == Numeral(generation) && spec[..|token|] == token;
  }

  lemma {:induction false} NoLaterMarker(base: string, spec: string, j: nat)
    requires |base| < j && (forall i :: 0 <= i < |spec| ==> spec[i] != ':')
    ensures !OccursAt(base + MARKER + spec, MARKER, j)
  {
    var key := base + MARKER + spec;
    if j + |MARKER| <= |key| {
      assert key[j..j + |MARKER|][0] == key[j];
      assert key[j] == if j < |base| + |MARKER| then MARKER[j - |base|] else spec[j - |base| - |MARKER|];
    }
  }

  // ---- the cache as a value ----

  datatype Entry<V> = Entry(value: V, created: int)

  datatype Cache<V> = Cache(maxEntries: int, ttl: int, entries: seq<(string, Entry<V>)>, hits: nat, misses: nat)

  /** The key carries a generation that is unreadable or no longer current. */
  predicate Outdated(gens: map<string, nat>, key: string) {
    var spec := GenerationSpec(key);
    spec.Some? &&
    (ParseSpec(spec.value).None? || ParseSpec(spec.value).value.1 != Generation(gens, ParseSpec(spec.value).value.0))
  }

  function Lookup<V>(c: Cache<V>, gens: map<string, nat>, key: string, now: int): Option<V> {
    match Find(c.entries, key)
    case None => None
    case Some(entry) => if Outdated(gens, key) || now - entry.created > c.ttl then None else Some(entry.value)
  }

  /** A hit moves the entry to the end; an outdated or expired entry is dropped. */
  function AfterGet<V>(c: Cache<V>, gens: map<string, nat>, key: string, now: int): Cache<V> {
    match Find(c.entries, key)
    case None => c.(misses := c.misses + 1)
    case Some(entry) =>
      if Lookup(c, gens, key, now).None? then c.(entries := Without(c.entries, key), misses := c.misses + 1)
      else c.(entries := Without(c.entries, key) + [(key, entry)], hits := c.hits + 1)
  }

  function Youngest<T>(s: seq<T>, n: nat): seq<T> {
    if |s| <= n then s else s[|s| - n..]
  }

  /** The least recently used entries make room; with room for none the code fails after emptying the cache. */
  function AfterPut<V>(c: Cache<V>, key: string, value: V, now: int): Cache<V> {
    if c.maxEntries < 1 then c.(entries := [])
    else c.(entries := Youngest(Without(c.entries, key), c.maxEntries - 1) + [(key, Entry(value, now))])
  }

  /** Entries whose key contains `path` are dropped. */
  function Drop<V>(entries: seq<(string, Entry<V>)>, path: string): seq<(string, Entry<V>)> {
    if entries == [] then []
    else if LastOccurrence(entries[0].0, path).Some? then Drop(entries[1..], path)
    else [entries[0]] + Drop(entries[1..], path)
  }

  class GenerationTable {
    var gens: map<string, nat>

    constructor ()
      ensures gens == map[]
    {
      gens := map[];
    }

    method Bump(token: string) returns (generation: nat)
      modifies this
      ensures generation == Generation(old(gens), token) + 1 && gens == old(gens)[token := generation]
    {
      generation := Generation(gens, token) + 1;
      gens := gens[token := generation];
    }
  }

  class QueryCache<V> {
    const maxEntries: int
    const ttl: int
    var entries: seq<(string, Entry<V>)>
    var hits: nat
    var misses: nat

    ghost function Snapshot(): Cache<V>
      reads this
    {
      Cache(maxEntries, ttl, entries, hits, misses)
    }

    constructor (maxEntries: int, ttl: int)
      ensures Snapshot() == Cache(maxEntries, ttl, [], 0, 0)
    {
      this.maxEntries, this.ttl := maxEntries, ttl;
      entries, hits, misses := [], 0, 0;
    }

    method Get(table: GenerationTable, key: string, now: int) returns (value: Option<V>)
      modifies this
      ensures value == Lookup(old(Snapshot()), table.gens, key, now)
      ensures Snapshot() == AfterGet(old(Snapshot()), table.gens, key, now)
    {
      var found, rest := Take(entries, key);
      if found.None? {
        misses := misses + 1;
        return None;
      }
      var spec := GenerationSpec(key);
      if spec.Some? {
        var parsed := ParseSpec(spec.value);
        if parsed.None? || parsed.value.1 != Generation(table.gens, parsed.value.0) {
          entries := rest;
          misses := misses + 1;
          return None;
        }
      }
      if now - found.value.created > ttl {
        entries := rest;
        misses := misses + 1;
        return None;
      }
      entries := rest + [(key, found.value)];
      hits := hits + 1;
      value := Some(found.value.value);
    }

    method Put(key: string, value: V, now: int) returns (ok: bool)
      modifies this
      ensures ok == (maxEntries >= 1)
      ensures Snapshot() == AfterPut(old(Snapshot()), key, value, now)
    {
      var found, rest := Take(entries, key);
      entries := rest;
      while |entries| >= maxEntries
        invariant entries == Youngest(rest, |entries|) && |entries| <= |rest|
        invariant |rest| >= maxEntries - 1 ==> |entries| >= maxEntries - 1
        invariant |rest| < maxEntries ==> entries == rest
        invariant hits == old(hits) && misses == old(misses)
        decreases |entries|
      {
        if entries == [] {
          return false;
        }
        entries := entries[1..];
      }
      entries := entries + [(key, Entry(value, now))];
      ok := true;
    }

    method InvalidateFile(path: string)
      modifies this`entries
      ensures entries == Drop(old(entries), path)
    {
      var kept := [];
      var i := 0;
      while i < |entries|
        invariant 0 <= i <= |entries| && entries == old(entries)
        invariant kept + Drop(entries[i..], path) == Drop(entries, path)
      {
        if LastOccurrence(entries[i].0, path).None? {
          kept := kept + [entries[i]];
        }
        i := i + 1;
      }
      entries := kept;
    }

    method Clear()
      modifies this`entries
      ensures entries == []
    {
      entries := [];
    }
  }
}
