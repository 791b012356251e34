/** The overlaps of two calls on one query after which the two-tier cache no longer answers the last put, and the
    exact condition under which it always does. */
module TieredCacheRaces {
  import opened Options
  import opened TieredCache
  import opened TieredCacheRuns
  import opened TieredCacheOverlaps

  lemma {:induction false} LastOnDiskStep<V>(cfg: Config, events: seq<Event<V>>, event: Event<V>, q: Query)
    ensures LastOnDisk(cfg, events + [event], q) ==
            DiskRecord(cfg, Run(cfg, events), event, q, LastOnDisk(cfg, events, q))
  {
    assert (events + [event])[..|events|] == events;
  }

  // ---- a write between the look on disk and the promotion of a get ----

  /** A whole write by the call `n` that falls into the gap of a get. */
  function Gap<V>(start: Event<V>, n: nat, at: int): seq<Event<V>> {
    [start, Continues(n, at)]
  }

  lemma {:induction false} GapWrites<V>(cfg: Config, looked: seq<Event<V>>, start: Event<V>, at: int, q: Query,
                                        value: V)
    requires start.Puts? || start.Invalidates?
    ensures var between := Gap(start, |Run(cfg, looked).calls|, at);
      Undisturbed(cfg, looked, between, q, value) <==>
        if start.Puts? then start.q == q ==> start.value == Some(value)
        else !Covers(cfg, start.project, start.tool, start.key, q)
  {
    var c: Event<V> := Continues(|Run(cfg, looked).calls|, at);
    assert [start] + [c] == Gap(start, |Run(cfg, looked).calls|, at);
    StartedCall(cfg, looked, start, at);
    UndisturbedStart(cfg, looked, start, q, value);
    UndisturbedStep(cfg, looked, [start], c, q, value);
  }

  lemma {:induction false} UndisturbedStart<V>(cfg: Config, pre: seq<Event<V>>, start: Event<V>, q: Query, value: V)
    requires !start.Continues?
    ensures Undisturbed(cfg, pre, [start], q, value)
  {
    assert [start][..0] == [];
  }

  /** What the call that a write starts has left to do. */
  lemma {:induction false} StartedCall<V>(cfg: Config, looked: seq<Event<V>>, start: Event<V>, at: int)
    requires start.Puts? || start.Invalidates?
    ensures Runs(Run(cfg, looked + [start]), Continues(|Run(cfg, looked).calls|, at)) == DiskSection(start)
  {
    RunStep(cfg, looked, start);
  }

  lemma {:induction false} UndisturbedStep<V>(cfg: Config, pre: seq<Event<V>>, before: seq<Event<V>>, last: Event<V>,
                                              q: Query, value: V)
    ensures var call := Runs(Run(cfg, pre + before), last);
      Undisturbed(cfg, pre, before + [last], q, value) <==>
        if PutOf(call, q) then call.stored == Some(value)
        else !InvalidationOf(cfg, call, q) && Undisturbed(cfg, pre, before, q, value)
  {
    assert (before + [last])[..|before|] == before;
  }

  /** An invalidation between a get's look on disk and its promotion is undone by the promotion: the old value is
      found in memory although nothing was put since. */
  lemma {:induction false} PromotionOutlivesInvalidation<V>(
    cfg: Config, events: seq<Event<V>>, i: nat, q: Query, value: V, at: int, now: int)
    requires GoodDigest(cfg.digest) && AllNamesOk(events) && WellNamed(q)
    requires cfg.l1Enabled && cfg.l2Enabled && now - at <= cfg.l1Ttl
    requires i < |Run(cfg, events).calls| && Run(cfg, events).calls[i] == DiskLook(q)
    requires FromDisk(Run(cfg, events).t, MakeKey(cfg, q), at) == Some(value)
    ensures var looked := events + [Continues(i, at)];
      var between := Gap(Invalidates(q.project, "", ""), |Run(cfg, looked).calls|, at);
      var all := looked + between + [Continues(i, at)];
      && FromMemory(Run(cfg, all).t, MakeKey(cfg, q), now) == Some(value)
      && !Carries(LastPut(cfg, all, q), value)
  {
    var looked := events + [Continues(i, at)];
    var between: seq<Event<V>> := Gap(Invalidates(q.project, "", ""), |Run(cfg, looked).calls|, at);
    RunStep(cfg, events, Continues(i, at));
    GapWrites(cfg, looked, Invalidates(q.project, "", ""), at, q, value);
    PromotionIsLastPutIff(cfg, events, i, at, between, at, q, value, now);
  }

  /** A put between a get's look on disk and its promotion is overwritten in memory by the old value. */
  lemma {:induction false} PromotionOutlivesPut<V>(
    cfg: Config, events: seq<Event<V>>, i: nat, q: Query, value: V, other: Option<V>, ttl: int, at: int, now: int)
    requires GoodDigest(cfg.digest) && AllNamesOk(events) && WellNamed(q) && other != Some(value)
    requires cfg.l1Enabled && cfg.l2Enabled && now - at <= cfg.l1Ttl
    requires i < |Run(cfg, events).calls| && Run(cfg, events).calls[i] == DiskLook(q)
    requires FromDisk(Run(cfg, events).t, MakeKey(cfg, q), at) == Some(value)
    ensures var looked := events + [Continues(i, at)];
      var between := Gap(Puts(q, other, ttl, 0, at), |Run(cfg, looked).calls|, at);
      var all := looked + between + [Continues(i, at)];
      && FromMemory(Run(cfg, all).t, MakeKey(cfg, q), now) == Some(value)
      && !Carries(LastPut(cfg, all, q), value)
  {
    var looked := events + [Continues(i, at)];
    var between := Gap(Puts(q, other, ttl, 0, at), |Run(cfg, looked).calls|, at);
    RunStep(cfg, events, Continues(i, at));
    GapWrites(cfg, looked, Puts(q, other, ttl, 0, at), at, q, value);
    PromotionIsLastPutIff(cfg, events, i, at, between, at, q, value, now);
  }

  // ---- two writes whose sections cross ----

  lemma {:induction false} DiskSectionKeepsMemory<V>(cfg: Config, w: World<V>, i: nat, now: int)
    requires i < |w.calls| && (w.calls[i].DiskPut? || w.calls[i].DiskInvalidation?)
    ensures var w' := Next(cfg, w, Continues(i, now));
      w'.t.l1 == w.t.l1 && w'.calls == w.calls[i := Finished]
  {
  }

  /** Two writes that start one after the other and end in the given order; the second is a put. */
  function Crossing<V>(first: Event<V>, second: Event<V>, n: nat, crossed: bool, at: int): seq<Event<V>> {
    [first, second, Continues(if crossed then n + 1 else n, at), Continues(if crossed then n else n + 1, at)]
  }

  predicate WriteOf<V>(cfg: Config, start: Event<V>, q: Query) {
    (start.Puts? && start.q == q) || (start.Invalidates? && Covers(cfg, start.project, start.tool, start.key, q))
  }

  function DiskSection<V>(start: Event<V>): Call<V>
    requires start.Puts? || start.Invalidates?
  {
    if start.Puts? then DiskPut(start.q, start.value, start.ttl)
    else DiskInvalidation(start.project, start.tool, start.key)
  }

  lemma {:induction false} TwoStarts<V>(cfg: Config, events: seq<Event<V>>, first: Event<V>, second: Event<V>)
    requires (first.Puts? || first.Invalidates?) && second.Puts?
    ensures var calls := Run(cfg, events + [first] + [second]).calls; var n := |Run(cfg, events).calls|;
      |calls| == n + 2 && calls[n] == DiskSection(first) && calls[n + 1] == DiskSection(second)
  {
    RunStep(cfg, events, first);
    RunStep(cfg, events + [first], second);
  }

  /** What the disk section of a write of `q` leaves there. */
  function Left<V>(cfg: Config, start: Event<V>, at: int, q: Query): Option<Record<V>> {
    if start.Puts? then Some(Record(q, start.value, at, Lifetime(cfg, start.ttl), 0)) else None
  }

  lemma {:induction false} SectionLeaves<V>(cfg: Config, w: World<V>, event: Event<V>, start: Event<V>, q: Query,
                                            before: Option<Record<V>>)
    requires event.Continues? && event.call < |w.calls| && WriteOf(cfg, start, q)
    requires w.calls[event.call] == DiskSection(start)
    ensures DiskRecord(cfg, w, event, q, before) == Left(cfg, start, event.now, q)
  {
  }

  /** After two crossing writes memory holds what the second put, and the disk what the write that ended last left. */
  lemma {:induction false} CrossingWrites<V>(
    cfg: Config, events: seq<Event<V>>, first: Event<V>, second: Event<V>, crossed: bool, at: int, q: Query, now: int)
    requires AllNamesOk(events) && NamesOk(first) && cfg.l1Enabled && now - at <= cfg.l1Ttl
    requires second.Puts? && second.q == q && second.now == at && WellNamed(q) && WriteOf(cfg, first, q)
    ensures var all := events + Crossing(first, second, |Run(cfg, events).calls|, crossed, at);
      && FromMemory(Run(cfg, all).t, MakeKey(cfg, q), now) == second.value
      && LastOnDisk(cfg, all, q) == Left(cfg, if crossed then first else second, at, q)
  {
    var n := |Run(cfg, events).calls|;
    var c, d: Event<V> := Continues(if crossed then n + 1 else n, at), Continues(if crossed then n else n + 1, at);
    var e2 := events + [first] + [second];
    assert events + Crossing(first, second, n, crossed, at) == e2 + [c] + [d];
    TwoStarts(cfg, events, first, second);
    SecondPutIsFound(cfg, events + [first], second, now);
    TwoDiskSections(cfg, e2, c, d, q);
    var w, one := Run(cfg, e2), LastOnDisk(cfg, e2, q);
    SectionLeaves(cfg, w, d, if crossed then first else second, q, DiskRecord(cfg, w, c, q, one));
  }

  /** Two disk sections of different calls: memory stays, and the second of them decides what is last. */
  lemma {:induction false} TwoDiskSections<V>(cfg: Config, events: seq<Event<V>>, c: Event<V>, d: Event<V>, q: Query)
    requires c.Continues? && d.Continues? && c.call != d.call
    requires var calls := Run(cfg, events).calls;
      && c.call < |calls| && (calls[c.call].DiskPut? || calls[c.call].DiskInvalidation?)
      && d.call < |calls| && (calls[d.call].DiskPut? || calls[d.call].DiskInvalidation?)
    ensures var w, all := Run(cfg, events), events + [c] + [d];
      && Run(cfg, all).t.l1 == w.t.l1
      && LastOnDisk(cfg, all, q) == DiskRecord(cfg, w, d, q, DiskRecord(cfg, w, c, q, LastOnDisk(cfg, events, q)))
  {
    RunStep(cfg, events, c);
    RunStep(cfg, events + [c], d);
    DiskSectionKeepsMemory(cfg, Run(cfg, events), c.call, c.now);
    DiskSectionKeepsMemory(cfg, Run(cfg, events + [c]), d.call, d.now);
    LastOnDiskStep(cfg, events, c, q);
    LastOnDiskStep(cfg, events + [c], d, q);
  }

  lemma {:induction false} SecondPutIsFound<V>(cfg: Config, events: seq<Event<V>>, put: Event<V>, now: int)
    requires AllNamesOk(events) && cfg.l1Enabled && put.Puts? && now - put.now <= cfg.l1Ttl
    ensures FromMemory(Run(cfg, events + [put]).t, MakeKey(cfg, put.q), now) == put.value
  {
    RunFaithful(cfg, events);
    TiersPresent(cfg, events);
    RunStep(cfg, events, put);
    StoredIsFound(Run(cfg, events).t.l1.value, MakeKey(cfg, put.q), put.value, put.size, put.now, now);
  }

  /** Two overlapping puts of one query leave the same value in both tiers exactly when they write the tiers in the
      same order, or write the same value. */
  lemma {:induction false} OverlappingPutsAgreeIff<V>(
    cfg: Config, events: seq<Event<V>>, q: Query, a: Option<V>, b: Option<V>, crossed: bool, at: int, now: int)
    requires AllNamesOk(events) && WellNamed(q) && cfg.l1Enabled && now - at <= cfg.l1Ttl
    ensures var all := events + Crossing(Puts(q, a, 0, 0, at), Puts(q, b, 0, 0, at), |Run(cfg, events).calls|,
                                         crossed, at);
      LastOnDisk(cfg, all, q).Some?
      && (FromMemory(Run(cfg, all).t, MakeKey(cfg, q), now) == LastOnDisk(cfg, all, q).value.value
          <==> !crossed || a == b)
  {
    CrossingWrites(cfg, events, Puts(q, a, 0, 0, at), Puts(q, b, 0, 0, at), crossed, at, q, now);
  }

  // ---- the exact condition ----

  /** Whenever no put of the query is half done, a hit is the last put, in every run that overlaps calls on the query
      only as `d` permits. */
  ghost predicate AlwaysLastPut<V(!new)>(cfg: Config, d: Overlap) {
    forall events: seq<Event<V>>, q, memoryAt, diskAt ::
      AllNamesOk(events) && WellNamed(q) && Respects(cfg, d, events, q) && NoHalfPut(Run(cfg, events).calls, q)
      ==> IsLastPut(cfg, events, q, memoryAt, diskAt)
  }

  lemma {:induction false} Refuted<V(!new)>(cfg: Config, d: Overlap, events: seq<Event<V>>, q: Query, memoryAt: int)
    requires AllNamesOk(events) && WellNamed(q) && Respects(cfg, d, events, q)
    requires NoHalfPut(Run(cfg, events).calls, q)
    requires var found := FromMemory(Run(cfg, events).t, MakeKey(cfg, q), memoryAt);
      found.Some? && !Carries(LastPut(cfg, events, q), found.value)
    ensures !AlwaysLastPut<V>(cfg, d)
  {
    assert !IsLastPut(cfg, events, q, memoryAt, memoryAt);
  }

  lemma {:induction false} RespectsStep<V>(cfg: Config, d: Overlap, events: seq<Event<V>>, event: Event<V>, q: Query)
    requires Respects(cfg, d, events, q) && Allowed(cfg, d, Run(cfg, events).calls, event, q)
    ensures Respects(cfg, d, events + [event], q)
  {
    assert (events + [event])[..|events|] == events;
  }

  function AnyQuery(): Query {
    Query("p", "t", "{}")
  }

  /** A value on disk only, and a get of it that has looked in memory. */
  function Before<V>(q: Query, value: V): seq<Event<V>> {
    [Puts(q, Some(value), 1, 0, 0), Continues(0, 0), Restarts, Looks(q, 0)]
  }

  lemma {:induction false} LookIsPending<V>(cfg: Config, d: Overlap, q: Query, value: V)
    requires WellNamed(q) && cfg.l2Enabled
    ensures var events := Before(q, value);
      && AllNamesOk(events) && Respects(cfg, d, events, q) && Run(cfg, events).calls == [DiskLook(q)]
      && FromDisk(Run(cfg, events).t, MakeKey(cfg, q), 0) == Some(value)
  {
    var a, b: Event<V> := Puts(q, Some(value), 1, 0, 0), Continues(0, 0);
    var e0: seq<Event<V>> := [];
    var e1, e2, e3 := e0 + [a], e0 + [a] + [b], e0 + [a] + [b] + [Restarts];
    RunStep(cfg, e0, a);
    RunStep(cfg, e1, b);
    RunStep(cfg, e2, Restarts);
    RunStep(cfg, e3, Looks(q, 0));
    RespectsStep(cfg, d, e0, a, q);
    RespectsStep(cfg, d, e1, b, q);
    RespectsStep(cfg, d, e2, Restarts, q);
    RespectsStep(cfg, d, e3, Looks(q, 0), q);
    assert Before(q, value) == e3 + [Looks(q, 0)];
    assert Run(cfg, e0) == Begin(cfg);
    assert Run(cfg, e3).calls == [] && FromMemory(Run(cfg, e3).t, MakeKey(cfg, q), 0) == None;
  }

  lemma {:induction false} RespectsSection<V>(cfg: Config, d: Overlap, events: seq<Event<V>>, i: nat, at: int, q: Query)
    requires Respects(cfg, d, events, q) && AllNamesOk(events)
    ensures var all := events + [Continues(i, at)]; Respects(cfg, d, all, q) && AllNamesOk(all)
  {
    RespectsStep(cfg, d, events, Continues(i, at), q);
  }

  predicate InvalidationStarts<V>(start: Event<V>, q: Query) {
    start.Invalidates? && start.key == "" && start.tool == "" && start.project == q.project
  }

  lemma {:induction false} GapRun<V>(cfg: Config, d: Overlap, events: seq<Event<V>>, q: Query, start: Event<V>)
    requires AllNamesOk(events) && Respects(cfg, d, events, q) && NamesOk(start) && |Run(cfg, events).calls| == 1
    requires Allowed(cfg, d, Run(cfg, events).calls, start, q)
    requires (start.Puts? && start.q == q) || InvalidationStarts(start, q)
    requires Run(cfg, events).calls[0].Promotion? && Run(cfg, events).calls[0].q == q
    ensures var all := events + Gap(start, 1, 0) + [Continues(0, 0)];
      AllNamesOk(all) && Respects(cfg, d, all, q) && NoHalfPut(Run(cfg, all).calls, q)
  {
    var e1 := events + [start];
    var e2 := e1 + [Continues(1, 0)];
    RunStep(cfg, events, start);
    RunStep(cfg, e1, Continues(1, 0));
    RunStep(cfg, e2, Continues(0, 0));
    RespectsStep(cfg, d, events, start, q);
    RespectsSection(cfg, d, e1, 1, 0, q);
    RespectsSection(cfg, d, e2, 0, 0, q);
    assert events + Gap(start, 1, 0) == e2;
  }

  /** A write in the gap of the pending get, when `d` lets it start. */
  lemma {:induction false} GapRefutes<V(!new)>(cfg: Config, d: Overlap, q: Query, value: V, start: Event<V>)
    requires GoodDigest(cfg.digest) && WellNamed(q) && cfg.l1Enabled && cfg.l2Enabled && NamesOk(start)
    requires (start.Puts? && start.q == q && start.value != Some(value) && d.getPut)
             || (InvalidationStarts(start, q) && d.getInvalidate)
    ensures !AlwaysLastPut<V>(cfg, d)
  {
    var events := Before(q, value);
    LookIsPending(cfg, d, q, value);
    var looked, between := events + [Continues(0, 0)], Gap(start, 1, 0);
    RunStep(cfg, events, Continues(0, 0));
    RespectsSection(cfg, d, events, 0, 0, q);
    GapRun(cfg, d, looked, q, start);
    GapWrites(cfg, looked, start, 0, q, value);
    PromotionIsLastPutIff(cfg, events, 0, 0, between, 0, q, value, cfg.l1Ttl);
    Refuted(cfg, d, looked + between + [Continues(0, 0)], q, cfg.l1Ttl);
  }

  lemma {:induction false} CrossingRun<V>(cfg: Config, d: Overlap, q: Query, first: Event<V>, second: Event<V>)
    requires WellNamed(q) && NamesOk(first) && second.Puts? && second.q == q
    requires (first.Puts? && first.q == q && d.putPut) || (InvalidationStarts(first, q) && d.putInvalidate)
    ensures var all := Crossing(first, second, 0, true, 0);
      AllNamesOk(all) && Respects(cfg, d, all, q) && NoHalfPut(Run(cfg, all).calls, q)
  {
    var e0: seq<Event<V>> := [];
    var e1, e2, e3 := e0 + [first], e0 + [first] + [second], e0 + [first] + [second] + [Continues(1, 0)];
    RunStep(cfg, e0, first);
    RunStep(cfg, e1, second);
    RunStep(cfg, e2, Continues(1, 0));
    RunStep(cfg, e3, Continues(0, 0));
    RespectsStep(cfg, d, e0, first, q);
    RespectsStep(cfg, d, e1, second, q);
    RespectsSection(cfg, d, e2, 1, 0, q);
    RespectsSection(cfg, d, e3, 0, 0, q);
    assert e3 + [Continues(0, 0)] == Crossing(first, second, 0, true, 0);
  }

  /** Two crossing writes, when `d` lets the second start. */
  lemma {:induction false} CrossingRefutes<V(!new)>(cfg: Config, d: Overlap, q: Query, first: Event<V>, value: V)
    requires GoodDigest(cfg.digest) && WellNamed(q) && cfg.l1Enabled && cfg.l2Enabled && NamesOk(first)
    requires (first.Puts? && first.q == q && first.value != Some(value) && d.putPut)
             || (InvalidationStarts(first, q) && d.putInvalidate)
    ensures !AlwaysLastPut<V>(cfg, d)
  {
    var second := Puts(q, Some(value), 0, 0, 0);
    CrossingRun(cfg, d, q, first, second);
    CrossingAnswer(cfg, first, second, q);
    Refuted(cfg, d, Crossing(first, second, 0, true, 0), q, cfg.l1Ttl);
  }

  /** What crossing writes leave when the run starts with them. */
  lemma {:induction false} CrossingAnswer<V>(cfg: Config, first: Event<V>, second: Event<V>, q: Query)
    requires cfg.l1Enabled && cfg.l2Enabled && NamesOk(first)
    requires second.Puts? && second.q == q && second.now == 0 && WellNamed(q) && second.value.Some?
    requires (first.Puts? && first.q == q && first.value != second.value)
             || InvalidationStarts(first, q)
    ensures var all := Crossing(first, second, 0, true, 0);
      FromMemory(Run(cfg, all).t, MakeKey(cfg, q), cfg.l1Ttl) == second.value
      && !Carries(LastPut(cfg, all, q), second.value.value)
  {
    var e0: seq<Event<V>> := [];
    CrossingWrites(cfg, e0, first, second, true, 0, q, cfg.l1Ttl);
    assert e0 + Crossing(first, second, |Run(cfg, e0).calls|, true, 0) == Crossing(first, second, 0, true, 0);
  }

  lemma {:induction false} OneTierIsEnough<V(!new)>(cfg: Config, d: Overlap)
    requires GoodDigest(cfg.digest) && (!cfg.l1Enabled || !cfg.l2Enabled)
    ensures AlwaysLastPut<V>(cfg, d)
  {
    forall events: seq<Event<V>>, q, memoryAt, diskAt | AllNamesOk(events) && WellNamed(q)
      ensures IsLastPut(cfg, events, q, memoryAt, diskAt)
    {
      TiersPresent(cfg, events);
      HitsAreLastWrites(cfg, events, q, memoryAt);
      HitsAreLastWrites(cfg, events, q, diskAt);
    }
  }

  /** Over all runs hits are last puts exactly when one of the tiers is switched off or no two calls on one query
      overlap of which one is a put or invalidation and the other a get or put. `a` and `b` are any two values. */
  lemma {:induction false} AlwaysLastPutIff<V(!new)>(cfg: Config, d: Overlap, a: V, b: V)
    requires GoodDigest(cfg.digest) && a != b
    ensures AlwaysLastPut<V>(cfg, d) <==> !cfg.l1Enabled || !cfg.l2Enabled || !d.Any()
  {
    var q := AnyQuery();
    if !cfg.l1Enabled || !cfg.l2Enabled {
      OneTierIsEnough<V>(cfg, d);
    } else if !d.Any() {
      assert d == NONE;
      forall events: seq<Event<V>>, q, memoryAt, diskAt |
        AllNamesOk(events) && WellNamed(q) && Respects(cfg, d, events, q) && NoHalfPut(Run(cfg, events).calls, q)
        ensures IsLastPut(cfg, events, q, memoryAt, diskAt)
      {
        HitsAreLastPuts(cfg, events, q, memoryAt, diskAt);
      }
    } else if d.putPut {
      CrossingRefutes(cfg, d, q, Puts(q, Some(b), 0, 0, 0), a);
    } else if d.putInvalidate {
      CrossingRefutes(cfg, d, q, Invalidates(q.project, "", ""), a);
    } else if d.getPut {
      GapRefutes(cfg, d, q, a, Puts(q, Some(b), 0, 0, 0));
    } else {
      GapRefutes(cfg, d, q, a, Invalidates(q.project, "", ""));
    }
  }
}
