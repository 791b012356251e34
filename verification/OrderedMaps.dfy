/** Insertion-ordered dictionaries as sequences of entries with distinct keys, oldest first. */
module OrderedMaps {
  import opened Options

  predicate Unique<K(==), V>(m: seq<(K, V)>) {
    forall i, j :: 0 <= i < j < |m| ==> m[i].0 != m[j].0
  }

  predicate Has<K(==), V>(m: seq<(K, V)>, key: K) {
    exists i :: 0 <= i < |m| && m[i].0 == key
  }

  function Find<K(==), V>(m: seq<(K, V)>, key: K): Option<V> {
    if m == [] then None else if m[0].0 == key then Some(m[0].1) else Find(m[1..], key)
  }

  function Without<K(==), V>(m: seq<(K, V)>, key: K): seq<(K, V)> {
    if m == [] then [] else if m[0].0 == key then m[1..] else [m[0]] + Without(m[1..], key)
  }

  lemma {:induction false} FindEntry<K, V>(m: seq<(K, V)>, key: K)
    ensures Has(m, key) <==> Find(m, key).Some?
    ensures Find(m, key).Some? ==> (key, Find(m, key).value) in m
  {
    if m != [] && m[0].0 != key {
      FindEntry(m[1..], key);
      if Has(m, key) {
        var i :| 0 <= i < |m| && m[i].0 == key;
        assert m[1..][i - 1].0 == key;
      }
      if Has(m[1..], key) {
        var i :| 0 <= i < |m[1..]| && m[1..][i].0 == key;
        assert m[i + 1].0 == key;
      }
    }
  }

  lemma {:induction false} FindAt<K, V>(m: seq<(K, V)>, i: nat)
    requires Unique(m) && i < |m|
    ensures Find(m, m[i].0) == Some(m[i].1)
  {
    if i > 0 {
      FindAt(m[1..], i - 1);
    }
  }

  lemma {:induction false} HasCons<K, V>(first: (K, V), rest: seq<(K, V)>, key: K)
    ensures Has([first] + rest, key) <==> first.0 == key || Has(rest, key)
  {
    var m := [first] + rest;
    if Has(m, key) && first.0 != key {
      var i :| 0 <= i < |m| && m[i].0 == key;
      assert rest[i - 1].0 == key;
    }
    if first.0 == key {
      assert m[0].0 == key;
    } else if Has(rest, key) {
      var i :| 0 <= i < |rest| && rest[i].0 == key;
      assert m[i + 1].0 == key;
    }
  }

  lemma {:induction false} UniqueTail<K, V>(first: (K, V), rest: seq<(K, V)>)
    requires Unique([first] + rest)
    ensures Unique(rest) && !Has(rest, first.0)
  {
    var m := [first] + rest;
    forall i, j | 0 <= i < j < |rest| ensures rest[i].0 != rest[j].0 {
      assert m[i + 1].0 != m[j + 1].0;
    }
    forall j | 0 <= j < |rest| ensures rest[j].0 != first.0 {
      assert m[0].0 != m[j + 1].0;
    }
  }

  lemma {:induction false} UniqueCons<K, V>(first: (K, V), rest: seq<(K, V)>)
    requires Unique(rest) && !Has(rest, first.0)
    ensures Unique([first] + rest)
  {
    var m := [first] + rest;
    forall i, j | 0 <= i < j < |m| ensures m[i].0 != m[j].0 {
      if i > 0 {
        assert rest[i - 1].0 != rest[j - 1].0;
      } else {
        assert rest[j - 1].0 != first.0;
      }
    }
  }

  lemma {:induction false} EntriesMissing<K, V>(m: seq<(K, V)>, key: K)
    ensures !Has(m, key) <==> forall e :: e in m ==> e.0 != key
  {
    if !Has(m, key) {
      forall e | e in m ensures e.0 != key {
        var i :| 0 <= i < |m| && m[i] == e;
      }
    }
  }

  lemma {:induction false} WithoutEntries<K, V>(m: seq<(K, V)>, key: K)
    requires Unique(m)
    ensures Unique(Without(m, key)) && !Has(Without(m, key), key)
    ensures forall e :: e in Without(m, key) ==> e in m && e.0 != key
    ensures forall e :: e in m && e.0 != key ==> e in Without(m, key)
    ensures |Without(m, key)| == |m| - (if Has(m, key) then 1 else 0)
  {
    if m != [] {
      var first, rest := m[0], m[1..];
      assert m == [first] + rest;
      HasCons(first, rest, key);
      UniqueTail(first, rest);
      EntriesMissing(rest, first.0);
      if first.0 != key {
        WithoutEntries(rest, key);
        var rest' := Without(rest, key);
        EntriesMissing(rest', first.0);
        UniqueCons(first, rest');
        HasCons(first, rest', key);
      }
    }
  }

  /** Where an entry is removed in place. */
  lemma {:induction false} WithoutAt<K, V>(m: seq<(K, V)>, key: K, i: nat)
    requires i < |m| && m[i].0 == key && (forall j :: 0 <= j < i ==> m[j].0 != key)
    ensures Without(m, key) == m[..i] + m[i + 1..] && Find(m, key) == Some(m[i].1)
  {
    if i > 0 {
      assert forall j :: 0 <= j < i - 1 ==> m[1..][j].0 != key;
      WithoutAt(m[1..], key, i - 1);
      assert m[..i] + m[i + 1..] == [m[0]] + (m[1..][..i - 1] + m[1..][i..]);
    } else {
      assert m[..0] + m[1..] == m[1..];
    }
  }

  lemma {:induction false} WithoutMissing<K, V>(m: seq<(K, V)>, key: K)
    requires forall j :: 0 <= j < |m| ==> m[j].0 != key
    ensures Without(m, key) == m && Find(m, key) == None
  {
    if m != [] {
      WithoutMissing(m[1..], key);
    }
  }

  lemma {:induction false} AppendUnique<K, V>(m: seq<(K, V)>, key: K, value: V)
    requires Unique(m) && !Has(m, key)
    ensures Unique(m + [(key, value)])
  {
    assert forall i :: 0 <= i < |m| ==> m[i].0 != key;
  }

  lemma {:induction false} SuffixEntries<K, V>(m: seq<(K, V)>, n: nat, key: K)
    requires Unique(m) && n <= |m|
    ensures Unique(m[n..])
    ensures Has(m[n..], key) <==> exists i :: n <= i < |m| && m[i].0 == key
  {
    var s := m[n..];
    assert forall i :: 0 <= i < |s| ==> s[i] == m[n + i];
    assert forall i :: n <= i < |m| ==> m[i] == s[i - n];
    if Has(s, key) {
      var i :| 0 <= i < |s| && s[i].0 == key;
      assert m[n + i].0 == key;
    }
    if i :| n <= i < |m| && m[i].0 == key {
      assert s[i - n].0 == key;
    }
  }

  // ---- order by a rank ----

  /** The entries stand in the order of the ranks of their keys. */
  ghost predicate Ranked<K, V>(m: seq<(K, V)>, rank: K -> int) {
    forall i, j :: 0 <= i < j < |m| ==> rank(m[i].0) < rank(m[j].0)
  }

  lemma {:induction false} SuffixRanked<K, V>(m: seq<(K, V)>, rank: K -> int, n: nat)
    requires Ranked(m, rank) && n <= |m|
    ensures Ranked(m[n..], rank)
  {
  }

  lemma {:induction false} FirstRank<K, V>(m: seq<(K, V)>, rank: K -> int, e: (K, V))
    requires m != [] && Ranked(m, rank) && e in m[1..]
    ensures rank(m[0].0) < rank(e.0)
  {
    var j :| 0 <= j < |m[1..]| && m[1..][j] == e;
    assert m[j + 1] == e;
  }

  lemma {:induction false} ConsRanked<K, V>(first: (K, V), kept: seq<(K, V)>, rank: K -> int)
    requires Ranked(kept, rank) && forall i :: 0 <= i < |kept| ==> rank(first.0) < rank(kept[i].0)
    ensures Ranked([first] + kept, rank)
  {
  }

  /** What is left of the entries after the first still ranks above it. */
  lemma {:induction false} FewerRanked<K, V>(m: seq<(K, V)>, kept: seq<(K, V)>, rank: K -> int)
    requires m != [] && Ranked(m, rank) && Ranked(kept, rank) && forall e :: e in kept ==> e in m[1..]
    ensures Ranked([m[0]] + kept, rank)
  {
    forall i | 0 <= i < |kept| ensures rank(m[0].0) < rank(kept[i].0) {
      FirstRank(m, rank, kept[i]);
    }
    ConsRanked(m[0], kept, rank);
  }

  lemma {:induction false} WithoutRanked<K, V>(m: seq<(K, V)>, rank: K -> int, key: K)
    requires Ranked(m, rank)
    ensures Ranked(Without(m, key), rank)
  {
    if i :| 0 <= i < |m| && m[i].0 == key && (forall j :: 0 <= j < i ==> m[j].0 != key) {
      WithoutAt(m, key, i);
    } else {
      FirstOrNone(m, key);
      WithoutMissing(m, key);
    }
  }

  lemma {:induction false} FirstOrNone<K, V>(m: seq<(K, V)>, key: K)
    ensures (forall j :: 0 <= j < |m| ==> m[j].0 != key)
            || exists i :: 0 <= i < |m| && m[i].0 == key && forall j :: 0 <= j < i ==> m[j].0 != key
  {
    if m != [] {
      var last := |m| - 1;
      FirstOrNone(m[..last], key);
      if i :| 0 <= i < last && m[..last][i].0 == key && forall j :: 0 <= j < i ==> m[..last][j].0 != key {
        assert m[i].0 == key && forall j :: 0 <= j < i ==> m[j].0 == m[..last][j].0;
      } else {
        assert forall j :: 0 <= j < last ==> m[j].0 == m[..last][j].0;
      }
    }
  }

  lemma {:induction false} AppendRanked<K, V>(m: seq<(K, V)>, rank: K -> int, key: K, value: V)
    requires Ranked(m, rank) && forall i :: 0 <= i < |m| ==> rank(m[i].0) < rank(key)
    ensures Ranked(m + [(key, value)], rank)
  {
  }

  lemma {:induction false} SameRanks<K, V>(m: seq<(K, V)>, rank: K -> int, rank': K -> int)
    requires Ranked(m, rank) && forall i :: 0 <= i < |m| ==> rank'(m[i].0) == rank(m[i].0)
    ensures Ranked(m, rank')
  {
  }

  /** Looks an entry up and takes it out. */
  method Take<K(==), V>(m: seq<(K, V)>, key: K) returns (found: Option<V>, rest: seq<(K, V)>)
    ensures found == Find(m, key) && rest == Without(m, key)
  {
    var i := 0;
    while i < |m| && m[i].0 != key
      invariant 0 <= i <= |m| && forall j :: 0 <= j < i ==> m[j].0 != key
    {
      i := i + 1;
    }
    if i < |m| {
      WithoutAt(m, key, i);
      found, rest := Some(m[i].1), m[..i] + m[i + 1..];
    } else {
      WithoutMissing(m, key);
      found, rest := None, m;
    }
  }
}
