/** What the parts of the two-tier cache do that no answer of a get shows at once: patterns, clean-ups, deletions of
    what has expired, and the counts of hits. */
module TieredCacheUse {
  import opened TieredCache
  import opened TieredCacheRuns

  // ---- patterns ----

  /** `s` parts at `i` into texts that are like the two patterns. */
  predicate PartsAt(a: string, b: string, s: string, i: nat) {
    i <= |s| && Like(a, s[..i]) && Like(b, s[i..])
  }

  ghost predicate Parts(a: string, b: string, s: string) {
    exists i: nat :: PartsAt(a, b, s, i)
  }

  lemma {:induction false} PartsFurther(a: string, b: string, s: string, c: string)
    requires s != "" && Parts(a, b, s[1..])
    requires forall t :: Like(a, t) ==> Like(c, [s[0]] + t)
    ensures Parts(c, b, s)
  {
    var i: nat :| PartsAt(a, b, s[1..], i);
    var k := i + 1;
    assert s[..k] == [s[0]] + s[1..][..i] && s[k..] == s[1..][i..];
    assert PartsAt(c, b, s, k);
  }

  lemma {:induction false} LikeParts(a: string, b: string, s: string)
    requires Like(a + b, s)
    ensures Parts(a, b, s)
    decreases |a| + |s|
  {
    var all := a + b;
    if a == "" {
      assert all == b && s[..0] == "" && s[0..] == s;
      assert PartsAt(a, b, s, 0);
    } else {
      assert all[1..] == a[1..] + b;
      if a[0] == '%' && Like(all[1..], s) {
        LikeParts(a[1..], b, s);
        var i: nat :| PartsAt(a[1..], b, s, i);
        assert PartsAt(a, b, s, i);
      } else if a[0] == '%' {
        LikeParts(a, b, s[1..]);
        forall t | Like(a, t) ensures Like(a, [s[0]] + t) {
          assert ([s[0]] + t)[1..] == t;
        }
        PartsFurther(a, b, s, a);
      } else {
        LikeParts(a[1..], b, s[1..]);
        forall t | Like(a[1..], t) ensures Like(a, [s[0]] + t) {
          assert ([s[0]] + t)[1..] == t;
        }
        PartsFurther(a[1..], b, s, a);
      }
    }
  }

  lemma {:induction false} PartsLike(a: string, b: string, s: string, i: nat)
    requires PartsAt(a, b, s, i)
    ensures Like(a + b, s)
    decreases |a| + |s|
  {
    var all := a + b;
    if a == "" {
      assert all == b && s[i..] == s;
    } else {
      assert all[1..] == a[1..] + b;
      if a[0] == '%' && Like(a[1..], s[..i]) {
        PartsLike(a[1..], b, s, i);
      } else {
        var k := i - 1;
        assert s[..i][1..] == s[1..][..k] && s[i..] == s[1..][k..];
        PartsLike(if a[0] == '%' then a else a[1..], b, s[1..], k);
      }
    }
  }

  /** Two patterns in a row are like a text that parts into texts like each of them. */
  lemma {:induction false} LikeConcatIff(a: string, b: string, s: string)
    ensures Like(a + b, s) <==> Parts(a, b, s)
  {
    if Like(a + b, s) {
      LikeParts(a, b, s);
    }
    if Parts(a, b, s) {
      var i: nat :| PartsAt(a, b, s, i);
      PartsLike(a, b, s, i);
    }
  }

  /** The same character, or the same ASCII letter in the other case. */
  predicate SameLetter(c: char, d: char) {
    || c == d
    || ('A' <= c <= 'Z' && d as int == c as int + 32)
    || ('a' <= c <= 'z' && d as int == c as int - 32)
  }

  /** A character that is no wildcard is like itself and its other case, an underscore like any one character. */
  lemma {:induction false} OneCharacterIs(c: char, s: string)
    requires c != '%'
    ensures Like([c], s) <==> |s| == 1 && (c == '_' || SameLetter(c, s[0]))
  {
    assert [c][1..] == "";
  }

  /** A text that differs from the prefix of `s` at most in the case of its letters. */
  predicate StartsLike(prefix: string, s: string) {
    |prefix| <= |s| && forall i :: 0 <= i < |prefix| ==> SameLetter(prefix[i], s[i])
  }

  /** Deleting by a prefix without wildcards deletes exactly the rows whose key starts with it, in either case of the
      letters. */
  lemma {:induction false} PlainPrefixIff(prefix: string, s: string)
    requires '%' !in prefix && '_' !in prefix
    ensures Like(prefix + "%", s) <==> StartsLike(prefix, s)
  {
    var pattern := prefix + "%";
    if prefix == "" {
      assert pattern == "%";
      AnythingLikePercent(s);
    } else {
      assert pattern[1..] == prefix[1..] + "%" && pattern[0] == prefix[0] && prefix[0] in prefix;
      if s != "" {
        PlainPrefixIff(prefix[1..], s[1..]);
        StartsLikeStep(prefix, s);
      }
    }
  }

  lemma {:induction false} StartsLikeStep(prefix: string, s: string)
    requires prefix != "" && s != ""
    ensures StartsLike(prefix, s) <==> SameLetter(prefix[0], s[0]) && StartsLike(prefix[1..], s[1..])
  {
    if SameLetter(prefix[0], s[0]) && StartsLike(prefix[1..], s[1..]) {
      forall i | 0 <= i < |prefix| ensures SameLetter(prefix[i], s[i]) {
        if i > 0 {
          var j := i - 1;
          assert SameLetter(prefix[1..][j], s[1..][j]);
        }
      }
    }
    if StartsLike(prefix, s) {
      forall j | 0 <= j < |prefix[1..]| ensures SameLetter(prefix[1..][j], s[1..][j]) {
        var i := j + 1;
        assert SameLetter(prefix[i], s[i]);
      }
    }
  }

  // ---- clean-ups and expired rows ----

  predicate InTime<V>(row: Row<V>, now: int) {
    now - row.created <= row.ttl
  }

  /** A clean-up leaves only rows that are in time, and no get from then on can tell that it took place. */
  lemma {:induction false} CleanUpIsUnseen<V>(cfg: Config, events: seq<Event<V>>, now: int)
    ensures var t, t' := Run(cfg, events).t, Run(cfg, events + [CleansUp(now)]).t;
      && t'.l1 == t.l1
      && (forall key, at :: at >= now ==> FromDisk(t', key, at) == FromDisk(t, key, at))
      && (t'.l2.Some? ==> forall key :: key in t'.l2.value ==> InTime(t'.l2.value[key], now))
  {
    RunStep(cfg, events, CleansUp(now));
  }

  /** A look on disk deletes the row it finds expired, and nothing else. */
  lemma {:induction false} ExpiredRowIsDeleted<V>(cfg: Config, events: seq<Event<V>>, i: nat, q: Query, now: int)
    requires cfg.l2Enabled && i < |Run(cfg, events).calls| && Run(cfg, events).calls[i] == DiskLook(q)
    ensures var t, t', key := Run(cfg, events).t, Run(cfg, events + [Continues(i, now)]).t, MakeKey(cfg, q);
      && t'.l1 == t.l1 && t.l2.Some? && t'.l2.Some?
      && (forall k :: k in t'.l2.value <==> k in t.l2.value && (k == key ==> InTime(t.l2.value[k], now)))
      && (forall k :: k in t'.l2.value ==> t'.l2.value[k] == t.l2.value[k])
  {
    RunStep(cfg, events, Continues(i, now));
    TiersPresent(cfg, events);
  }

  // ---- counts ----

  /** How many looks in memory since the last restart found a value. */
  function MemoryHits<V>(cfg: Config, events: seq<Event<V>>): nat {
    if events == [] then 0
    else
      var before, e := events[..|events| - 1], events[|events| - 1];
      match e
      case Restarts => 0
      case Looks(q, now) =>
        MemoryHits(cfg, before) + if FromMemory(Run(cfg, before).t, MakeKey(cfg, q), now).Some? then 1 else 0
      case _ => MemoryHits(cfg, before)
  }

  /** How many looks on disk since then did. */
  function DiskHits<V>(cfg: Config, events: seq<Event<V>>): nat {
    if events == [] then 0
    else
      var before, e := events[..|events| - 1], events[|events| - 1];
      if e.Restarts? then 0
      else
        var call := Runs(Run(cfg, before), e);
        DiskHits(cfg, before)
        + if call.DiskLook? && FromDisk(Run(cfg, before).t, MakeKey(cfg, call.q), e.now).Some? then 1 else 0
  }

  /** In every interleaving the two counters say how many looks found a value in their tier since the last restart. */
  lemma {:induction false} HitsAreCounted<V>(cfg: Config, events: seq<Event<V>>)
    ensures Run(cfg, events).t.l1Hits == MemoryHits(cfg, events) && Run(cfg, events).t.l2Hits == DiskHits(cfg, events)
  {
    if events != [] {
      var before, e := events[..|events| - 1], events[|events| - 1];
      HitsAreCounted(cfg, before);
      OneMoreHit(cfg, Run(cfg, before), e);
    }
  }

  lemma {:induction false} OneMoreHit<V>(cfg: Config, w: World<V>, e: Event<V>)
    ensures var t, t', call := w.t, Next(cfg, w, e).t, Runs(w, e);
      && (e.Restarts? ==> t'.l1Hits == 0 && t'.l2Hits == 0)
      && (!e.Restarts? ==>
            && t'.l1Hits ==
               t.l1Hits + (if e.Looks? && FromMemory(t, MakeKey(cfg, e.q), e.now).Some? then 1 else 0)
            && t'.l2Hits ==
               t.l2Hits + (if call.DiskLook? && FromDisk(t, MakeKey(cfg, call.q), e.now).Some? then 1 else 0))
  {
  }

  // ---- a call that nothing interrupts ----

  function GetSections<V>(q: Query, n: nat, at: Readings): seq<Event<V>> {
    [Looks(q, at.memory)] + [Continues(n, at.disk)] + [Continues(n, at.promotion)]
  }

  lemma {:induction false} RunThree<V>(cfg: Config, events: seq<Event<V>>, a: Event<V>, b: Event<V>, c: Event<V>)
    ensures Run(cfg, events + ([a] + [b] + [c])) == Next(cfg, Next(cfg, Next(cfg, Run(cfg, events), a), b), c)
  {
    var first, second := events + [a], events + [a] + [b];
    assert events + ([a] + [b] + [c]) == second + [c];
    RunStep(cfg, second, c);
    RunStep(cfg, first, b);
    RunStep(cfg, events, a);
  }

  lemma {:induction false} SectionsOfGet<V>(cfg: Config, w: World<V>, q: Query, at: Readings)
    ensures var n := |w.calls|;
      var w' := Next(cfg, Next(cfg, Next(cfg, w, Looks(q, at.memory)), Continues(n, at.disk)),
                     Continues(n, at.promotion));
      w'.t == TiersAfterGet(w.t, MakeKey(cfg, q), at) && |w'.calls| == n + 1 && w'.calls[n] == Finished
  {
  }

  /** The sections of a get, with nothing between them, leave the tiers as the whole get does, and it is finished. */
  lemma {:induction false} GetIsItsSections<V>(cfg: Config, events: seq<Event<V>>, q: Query, at: Readings)
    ensures var w := Run(cfg, events); var w' := Run(cfg, events + GetSections(q, |w.calls|, at));
      && w'.t == TiersAfterGet(w.t, MakeKey(cfg, q), at)
      && |w'.calls| == |w.calls| + 1 && w'.calls[|w.calls|] == Finished
  {
    var w := Run(cfg, events);
    RunThree(cfg, events, Looks(q, at.memory), Continues(|w.calls|, at.disk), Continues(|w.calls|, at.promotion));
    SectionsOfGet(cfg, w, q, at);
  }
}
