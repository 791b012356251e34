/** When a get of the two-tier cache answers the last put, although no lock spans both tiers: which calls on one
    query may overlap, and what happens when others do. */
module TieredCacheOverlaps {
  import opened Options
  import opened TieredCache
  import opened TieredCacheRuns
  import L1Cache

  // ---- calls on one query ----

  predicate GetOf<V>(call: Call<V>, q: Query) {
    (call.DiskLook? || call.Promotion?) && call.q == q
  }

  predicate PutOf<V>(call: Call<V>, q: Query) {
    call.DiskPut? && call.q == q
  }

  predicate InvalidationOf<V>(cfg: Config, call: Call<V>, q: Query) {
    call.DiskInvalidation? && Covers(cfg, call.project, call.tool, call.key, q)
  }

  predicate Elsewhere<V>(cfg: Config, call: Call<V>, q: Query) {
    !GetOf(call, q) && !PutOf(call, q) && !InvalidationOf(cfg, call, q)
  }

  /** Which kinds of calls on one query may overlap; gets may overlap gets and invalidations invalidations. */
  datatype Overlap = Overlap(putPut: bool, putInvalidate: bool, getPut: bool, getInvalidate: bool) {
    predicate Any() {
      putPut || putInvalidate || getPut || getInvalidate
    }
  }

  const NONE: Overlap := Overlap(false, false, false, false)

  /** The event starts a call on `q` that must not overlap this one. */
  predicate Clashes<V>(cfg: Config, d: Overlap, call: Call<V>, event: Event<V>, q: Query) {
    match event
    case Looks(r, _) =>
      r == q && ((PutOf(call, q) && !d.getPut) || (InvalidationOf(cfg, call, q) && !d.getInvalidate))
    case Puts(r, _, _, _, _) =>
      r == q && ((GetOf(call, q) && !d.getPut) || (PutOf(call, q) && !d.putPut)
                 || (InvalidationOf(cfg, call, q) && !d.putInvalidate))
    case Invalidates(project, tool, key) =>
      Covers(cfg, project, tool, key, q)
      && ((GetOf(call, q) && !d.getInvalidate) || (PutOf(call, q) && !d.putInvalidate))
    case _ => false
  }

  predicate Allowed<V>(cfg: Config, d: Overlap, calls: seq<Call<V>>, event: Event<V>, q: Query) {
    forall i :: 0 <= i < |calls| ==> !Clashes(cfg, d, calls[i], event, q)
  }

  predicate Respects<V>(cfg: Config, d: Overlap, events: seq<Event<V>>, q: Query) {
    events == [] ||
    var before, last := events[..|events| - 1], events[|events| - 1];
    Respects(cfg, d, before, q) && Allowed(cfg, d, Run(cfg, before).calls, last, q)
  }

  /** No put of `q` stands between its two sections. */
  predicate NoHalfPut<V>(calls: seq<Call<V>>, q: Query) {
    forall i :: 0 <= i < |calls| ==> !PutOf(calls[i], q)
  }

  /** The last put of `q` not invalidated since: the order of puts is that of their last sections. */
  function LastPut<V>(cfg: Config, events: seq<Event<V>>, q: Query): Option<Record<V>> {
    if cfg.l2Enabled then LastOnDisk(cfg, events, q) else LastInMemory(cfg, events, q)
  }

  // ---- calls that do not overlap keep the tiers in step ----

  predicate Same<V(==)>(memory: Option<Record<V>>, disk: Option<Record<V>>) {
    memory.Some? ==> disk.Some? && memory.value.value == disk.value.value
  }

  ghost predicate CallInStep<V>(cfg: Config, memory: Option<Record<V>>, disk: Option<Record<V>>,
                                call: Call<V>, q: Query)
  {
    && (call.Promotion? && call.q == q ==> disk.Some? && disk.value.value == Some(call.value))
    && (PutOf(call, q) ==> memory.Some? ==> memory.value.value == call.stored)
    && (InvalidationOf(cfg, call, q) ==> memory.None?)
  }

  predicate Apart<V>(cfg: Config, a: Call<V>, b: Call<V>, q: Query) {
    && (PutOf(a, q) ==> Elsewhere(cfg, b, q))
    && (InvalidationOf(cfg, a, q) ==> !GetOf(b, q) && !PutOf(b, q))
    && (GetOf(a, q) ==> !PutOf(b, q) && !InvalidationOf(cfg, b, q))
  }

  ghost predicate AllInStep<V>(cfg: Config, memory: Option<Record<V>>, disk: Option<Record<V>>,
                               calls: seq<Call<V>>, q: Query)
  {
    forall i :: 0 <= i < |calls| ==> CallInStep(cfg, memory, disk, calls[i], q)
  }

  ghost predicate AllApart<V>(cfg: Config, calls: seq<Call<V>>, q: Query) {
    forall i, j :: 0 <= i < |calls| && 0 <= j < |calls| && i != j ==> Apart(cfg, calls[i], calls[j], q)
  }

  ghost predicate InStep<V>(cfg: Config, memory: Option<Record<V>>, disk: Option<Record<V>>,
                            calls: seq<Call<V>>, q: Query)
  {
    && AllInStep(cfg, memory, disk, calls, q) && AllApart(cfg, calls, q)
    && (NoHalfPut(calls, q) ==> Same(memory, disk))
  }

  lemma {:induction false} OneMoreApart<V>(cfg: Config, calls: seq<Call<V>>, call: Call<V>, q: Query)
    requires AllApart(cfg, calls, q)
    requires forall i :: 0 <= i < |calls| ==> Apart(cfg, calls[i], call, q) && Apart(cfg, call, calls[i], q)
    ensures AllApart(cfg, calls + [call], q)
  {
  }

  lemma {:induction false} ChangedApart<V>(cfg: Config, calls: seq<Call<V>>, i: nat, call: Call<V>, q: Query)
    requires AllApart(cfg, calls, q) && i < |calls|
    requires Elsewhere(cfg, call, q) || (GetOf(call, q) && GetOf(calls[i], q))
    ensures AllApart(cfg, calls[i := call], q)
  {
    forall j | 0 <= j < |calls| && j != i ensures Apart(cfg, calls[j], call, q) && Apart(cfg, call, calls[j], q) {
      assert Apart(cfg, calls[j], calls[i], q) && Apart(cfg, calls[i], calls[j], q);
    }
  }

  lemma {:induction false} LookInStep<V>(cfg: Config, memory: Option<Record<V>>, disk: Option<Record<V>>,
                                         calls: seq<Call<V>>, r: Query, now: int, call: Call<V>, q: Query)
    requires InStep(cfg, memory, disk, calls, q) && Allowed(cfg, NONE, calls, Looks(r, now), q)
    requires call == Finished || call == DiskLook(r)
    ensures InStep(cfg, memory, disk, calls + [call], q)
  {
    forall i | 0 <= i < |calls| ensures Apart(cfg, calls[i], call, q) && Apart(cfg, call, calls[i], q) {
      assert !Clashes(cfg, NONE, calls[i], Looks(r, now), q);
    }
    OneMoreApart(cfg, calls, call, q);
    if NoHalfPut(calls + [call], q) {
      assert forall i :: 0 <= i < |calls| ==> (calls + [call])[i] == calls[i];
    }
  }

  lemma {:induction false} PutInStep<V>(cfg: Config, w: World<V>, memory: Option<Record<V>>, disk: Option<Record<V>>,
                                        event: Event<V>, q: Query)
    requires InStep(cfg, memory, disk, w.calls, q) && Allowed(cfg, NONE, w.calls, event, q) && event.Puts?
    ensures InStep(cfg, MemoryRecord(cfg, w, event, q, memory), disk, Next(cfg, w, event).calls, q)
  {
    var call := DiskPut(event.q, event.value, event.ttl);
    var all := w.calls + [call];
    forall i | 0 <= i < |w.calls|
      ensures Apart(cfg, w.calls[i], call, q) && Apart(cfg, call, w.calls[i], q)
      ensures event.q == q ==> Elsewhere(cfg, w.calls[i], q)
    {
      assert !Clashes(cfg, NONE, w.calls[i], event, q);
    }
    OneMoreApart(cfg, w.calls, call, q);
    assert all[|w.calls|] == call && forall i :: 0 <= i < |w.calls| ==> all[i] == w.calls[i];
    if event.q != q && NoHalfPut(all, q) {
      assert forall i :: 0 <= i < |w.calls| ==> !PutOf(w.calls[i], q);
    }
  }

  lemma {:induction false} InvalidateInStep<V>(cfg: Config, w: World<V>, memory: Option<Record<V>>,
                                               disk: Option<Record<V>>, event: Event<V>, q: Query)
    requires InStep(cfg, memory, disk, w.calls, q) && Allowed(cfg, NONE, w.calls, event, q) && event.Invalidates?
    ensures InStep(cfg, MemoryRecord(cfg, w, event, q, memory), disk, Next(cfg, w, event).calls, q)
  {
    var call := DiskInvalidation(event.project, event.tool, event.key);
    var all := w.calls + [call];
    forall i | 0 <= i < |w.calls|
      ensures Apart(cfg, w.calls[i], call, q) && Apart(cfg, call, w.calls[i], q)
    {
      assert !Clashes(cfg, NONE, w.calls[i], event, q);
    }
    OneMoreApart(cfg, w.calls, call, q);
    assert all[|w.calls|] == call && forall i :: 0 <= i < |w.calls| ==> all[i] == w.calls[i];
    if NoHalfPut(all, q) {
      assert forall i :: 0 <= i < |w.calls| ==> !PutOf(w.calls[i], q);
    }
  }

  /** One section of a call: what it finds on disk is the last value written there. */
  lemma {:induction false} ContinueInStep<V>(cfg: Config, w: World<V>, memory: Option<Record<V>>,
                                             disk: Option<Record<V>>, i: nat, now: int, q: Query)
    requires InStep(cfg, memory, disk, w.calls, q) && i < |w.calls|
    requires FromDisk(w.t, MakeKey(cfg, q), now).Some? ==>
               disk.Some? && FromDisk(w.t, MakeKey(cfg, q), now) == disk.value.value
    ensures var event := Continues(i, now);
      InStep(cfg, MemoryRecord(cfg, w, event, q, memory), DiskRecord(cfg, w, event, q, disk),
             Next(cfg, w, event).calls, q)
  {
    var event: Event<V> := Continues(i, now);
    var call, calls' := w.calls[i], Next(cfg, w, event).calls;
    var memory', disk' := MemoryRecord(cfg, w, event, q, memory), DiskRecord(cfg, w, event, q, disk);
    assert CallInStep(cfg, memory, disk, call, q);
    ChangedApart(cfg, w.calls, i, calls'[i], q);
    forall j | 0 <= j < |calls'| ensures CallInStep(cfg, memory', disk', calls'[j], q) {
      if j != i {
        assert CallInStep(cfg, memory, disk, w.calls[j], q) && Apart(cfg, call, w.calls[j], q);
      }
    }
    if NoHalfPut(calls', q) && !PutOf(call, q) {
      assert forall j :: 0 <= j < |w.calls| && j != i ==> w.calls[j] == calls'[j];
      assert NoHalfPut(w.calls, q);
    }
  }

  lemma {:induction false} RunInStep<V>(cfg: Config, events: seq<Event<V>>, q: Query)
    requires GoodDigest(cfg.digest) && AllNamesOk(events) && WellNamed(q) && Respects(cfg, NONE, events, q)
    ensures InStep(cfg, LastInMemory(cfg, events, q), LastOnDisk(cfg, events, q), Run(cfg, events).calls, q)
  {
    if events != [] {
      var before, event := events[..|events| - 1], events[|events| - 1];
      var w, memory, disk := Run(cfg, before), LastInMemory(cfg, before, q), LastOnDisk(cfg, before, q);
      assert AllNamesOk(before);
      RunInStep(cfg, before, q);
      match event
      case Looks(r, now) => LookInStep(cfg, memory, disk, w.calls, r, now, Run(cfg, events).calls[|w.calls|], q);
      case Puts(_, _, _, _, _) => PutInStep(cfg, w, memory, disk, event, q);
      case Invalidates(_, _, _) => InvalidateInStep(cfg, w, memory, disk, event, q);
      case Continues(i, now) =>
        if i < |w.calls| {
          HitsAreLastWrites(cfg, before, q, now);
          ContinueInStep(cfg, w, memory, disk, i, now, q);
        }
      case CleansUp(_) =>
      case Restarts =>
    }
  }

  // ---- what calls that do not overlap are promised ----

  ghost predicate IsLastPut<V>(cfg: Config, events: seq<Event<V>>, q: Query, memoryAt: int, diskAt: int) {
    var answer := Answered(Run(cfg, events).t, MakeKey(cfg, q), memoryAt, diskAt);
    answer.tier != Miss ==>
      LastPut(cfg, events, q).Some? && answer.value == LastPut(cfg, events, q).value.value
  }

  /** A hit, from either tier, is the last value put for the query and not invalidated since, of age at most the two
      times to live and the time a get took to promote it, when no two calls on that query overlapped of which one is
      a put or invalidation and the other a get or put. Calls on other queries may overlap them in any way. */
  lemma {:induction false} HitsAreLastPuts<V>(cfg: Config, events: seq<Event<V>>, q: Query, memoryAt: int, diskAt: int)
    requires GoodDigest(cfg.digest) && AllNamesOk(events) && WellNamed(q)
    requires Respects(cfg, NONE, events, q) && NoHalfPut(Run(cfg, events).calls, q)
    ensures IsLastPut(cfg, events, q, memoryAt, diskAt)
    ensures var w, m, d := Run(cfg, events), LastInMemory(cfg, events, q), LastOnDisk(cfg, events, q);
      match Answered(w.t, MakeKey(cfg, q), memoryAt, diskAt).tier
      case Memory => m.Some? && memoryAt - m.value.time <= Span(cfg.l1Ttl) + Span(m.value.ttl) + Span(m.value.delay)
      case Disk => d.Some? && diskAt - d.value.time <= d.value.ttl
      case Miss => true
  {
    HitsAreLastWrites(cfg, events, q, memoryAt);
    HitsAreLastWrites(cfg, events, q, diskAt);
    RunInStep(cfg, events, q);
    TiersPresent(cfg, events);
  }

  lemma {:induction false} RespectsPrefix<V>(cfg: Config, d: Overlap, pre: seq<Event<V>>, post: seq<Event<V>>, q: Query)
    requires Respects(cfg, d, pre + post, q)
    ensures Respects(cfg, d, pre, q)
    decreases |post|
  {
    if post == [] {
      assert pre + post == pre;
    } else {
      assert (pre + post)[..|pre + post| - 1] == pre + post[..|post| - 1];
      RespectsPrefix(cfg, d, pre, post[..|post| - 1], q);
    }
  }

  lemma {:induction false} NamesPrefix<V>(pre: seq<Event<V>>, post: seq<Event<V>>)
    requires AllNamesOk(pre + post)
    ensures AllNamesOk(pre)
  {
    assert forall j :: 0 <= j < |pre| ==> pre[j] == (pre + post)[j];
  }

  lemma {:induction false} NoPutStep<V>(cfg: Config, w: World<V>, event: Event<V>, q: Query)
    requires NoHalfPut(w.calls, q) && !(event.Puts? && event.q == q)
    ensures NoHalfPut(Next(cfg, w, event).calls, q) && DiskRecord(cfg, w, event, q, None) == None
  {
    var calls' := Next(cfg, w, event).calls;
    if event.Continues? && event.call < |w.calls| {
      assert !PutOf(w.calls[event.call], q);
      assert forall i :: 0 <= i < |calls'| && i != event.call ==> calls'[i] == w.calls[i];
    } else {
      assert forall i :: 0 <= i < |w.calls| && i < |calls'| ==> calls'[i] == w.calls[i];
    }
  }

  /** Without another put of `q` nothing puts it on disk. */
  lemma {:induction false} NothingPut<V>(cfg: Config, pre: seq<Event<V>>, post: seq<Event<V>>, q: Query)
    requires NoHalfPut(Run(cfg, pre).calls, q) && LastOnDisk(cfg, pre, q) == None
    requires forall i :: 0 <= i < |post| ==> !(post[i].Puts? && post[i].q == q)
    ensures NoHalfPut(Run(cfg, pre + post).calls, q) && LastOnDisk(cfg, pre + post, q) == None
    decreases |post|
  {
    if post == [] {
      assert pre + post == pre;
    } else {
      var before, last := post[..|post| - 1], post[|post| - 1];
      NothingPut(cfg, pre, before, q);
      NoPutStep(cfg, Run(cfg, pre + before), last, q);
      assert (pre + post)[..|pre + post| - 1] == pre + before && (pre + post)[|pre + post| - 1] == last;
    }
  }

  lemma {:induction false} NothingAnswered<V>(
    cfg: Config, mid: seq<Event<V>>, after: seq<Event<V>>, q: Query, memoryAt: int, diskAt: int)
    requires GoodDigest(cfg.digest) && WellNamed(q) && cfg.l2Enabled
    requires NoHalfPut(Run(cfg, mid).calls, q) && LastOnDisk(cfg, mid, q) == None
    requires AllNamesOk(mid + after) && Respects(cfg, NONE, mid + after, q)
    requires forall j :: 0 <= j < |after| ==> !(after[j].Puts? && after[j].q == q)
    ensures Answered(Run(cfg, mid + after).t, MakeKey(cfg, q), memoryAt, diskAt) == Answer(None, Miss)
  {
    NothingPut(cfg, mid, after, q);
    HitsAreLastPuts(cfg, mid + after, q, memoryAt, diskAt);
  }

  /** Once an invalidation that covers it, by key, tool or project, has returned, nothing put before is answered for a
      query whose calls did not overlap: until the next put every get misses. `i` is the invalidation, on its last
      section. */
  lemma {:induction false} InvalidatedQueryMisses<V>(
    cfg: Config, before: seq<Event<V>>, i: nat, now: int, after: seq<Event<V>>, q: Query, memoryAt: int, diskAt: int)
    requires GoodDigest(cfg.digest) && WellNamed(q) && cfg.l2Enabled
    requires i < |Run(cfg, before).calls| && InvalidationOf(cfg, Run(cfg, before).calls[i], q)
    requires var all := before + [Continues(i, now)] + after; AllNamesOk(all) && Respects(cfg, NONE, all, q)
    requires forall j :: 0 <= j < |after| ==> !(after[j].Puts? && after[j].q == q)
    ensures var all := before + [Continues(i, now)] + after;
      Answered(Run(cfg, all).t, MakeKey(cfg, q), memoryAt, diskAt) == Answer(None, Miss)
  {
    var c: Event<V> := Continues(i, now);
    assert before + [c] + after == before + ([c] + after);
    PrefixIsOrdinary(cfg, before, [c] + after, q);
    InvalidationLeavesNothing(cfg, before, i, now, q);
    NothingAnswered(cfg, before + [c], after, q, memoryAt, diskAt);
  }

  lemma {:induction false} PrefixIsOrdinary<V>(cfg: Config, pre: seq<Event<V>>, post: seq<Event<V>>, q: Query)
    requires AllNamesOk(pre + post) && Respects(cfg, NONE, pre + post, q)
    ensures AllNamesOk(pre) && Respects(cfg, NONE, pre, q)
  {
    RespectsPrefix(cfg, NONE, pre, post, q);
    NamesPrefix(pre, post);
  }

  lemma {:induction false} InvalidationLeavesNothing<V>(cfg: Config, before: seq<Event<V>>, i: nat, now: int, q: Query)
    requires GoodDigest(cfg.digest) && WellNamed(q) && AllNamesOk(before) && Respects(cfg, NONE, before, q)
    requires i < |Run(cfg, before).calls| && InvalidationOf(cfg, Run(cfg, before).calls[i], q)
    ensures var mid := before + [Continues(i, now)];
      NoHalfPut(Run(cfg, mid).calls, q) && LastOnDisk(cfg, mid, q) == None
  {
    RunInStep(cfg, before, q);
    InvalidationIsAlone(cfg, before, i, now, q);
  }

  lemma {:induction false} InvalidationIsAlone<V>(cfg: Config, before: seq<Event<V>>, i: nat, now: int, q: Query)
    requires i < |Run(cfg, before).calls| && AllApart(cfg, Run(cfg, before).calls, q)
    requires InvalidationOf(cfg, Run(cfg, before).calls[i], q)
    ensures var mid := before + [Continues(i, now)];
      NoHalfPut(Run(cfg, mid).calls, q) && LastOnDisk(cfg, mid, q) == None
  {
    var w, mid := Run(cfg, before), before + [Continues(i, now)];
    RunStep(cfg, before, Continues(i, now));
    assert mid[..|mid| - 1] == before;
    forall j | 0 <= j < |w.calls| && j != i ensures !PutOf(w.calls[j], q) {
      assert Apart(cfg, w.calls[i], w.calls[j], q);
    }
  }

  /** With the disk tier on, a value that was put and neither overwritten nor invalidated since is found until it
      expires, across evictions, clean-ups and restarts and whatever else overlaps; and it is the value answered when
      the calls on its query did not overlap. `i` is the put, on its last section. */
  lemma {:induction false} PutIsFoundUntilExpiry<V>(
    cfg: Config, before: seq<Event<V>>, i: nat, at: int, after: seq<Event<V>>, q: Query, memoryAt: int, diskAt: int)
    requires GoodDigest(cfg.digest) && AllNamesOk(before) && AllNamesOk(after) && cfg.l2Enabled && WellNamed(q)
    requires i < |Run(cfg, before).calls| && PutOf(Run(cfg, before).calls[i], q)
    requires Run(cfg, before).calls[i].stored.Some?
    requires diskAt - at <= Lifetime(cfg, Run(cfg, before).calls[i].lifetime)
    requires AllSpare(cfg, before + [Continues(i, at)], after, q, diskAt)
    ensures var all := before + [Continues(i, at)] + after;
      var answer := Answered(Run(cfg, all).t, MakeKey(cfg, q), memoryAt, diskAt);
      && answer.tier != Miss
      && (Respects(cfg, NONE, all, q) && NoHalfPut(Run(cfg, all).calls, q) ==>
            answer.value == Run(cfg, before).calls[i].stored)
  {
    var mid, all := before + [Continues(i, at)], before + [Continues(i, at)] + after;
    var put := Run(cfg, before).calls[i];
    var row := Row(put.stored, at, Lifetime(cfg, put.lifetime), q.project, q.tool);
    RunStep(cfg, before, Continues(i, at));
    TiersPresent(cfg, before);
    assert AllNamesOk(mid) && AllNamesOk(all);
    RowStays(cfg, mid, after, q, row, diskAt);
    HitsAreLastWrites(cfg, all, q, diskAt);
    if Respects(cfg, NONE, all, q) && NoHalfPut(Run(cfg, all).calls, q) {
      HitsAreLastPuts(cfg, all, q, memoryAt, diskAt);
    }
  }

  // ---- a get between its look on disk and its promotion ----

  /** The call is never continued and the cache not restarted. */
  predicate LeavesAlone<V>(events: seq<Event<V>>, i: nat) {
    forall j :: 0 <= j < |events| ==> events[j] != Restarts && !(events[j].Continues? && events[j].call == i)
  }

  lemma {:induction false} CallWaitsStep<V>(cfg: Config, w: World<V>, event: Event<V>, i: nat)
    requires i < |w.calls| && event != Restarts && !(event.Continues? && event.call == i)
    ensures var calls' := Next(cfg, w, event).calls; i < |calls'| && calls'[i] == w.calls[i]
  {
  }

  lemma {:induction false} CallWaits<V>(cfg: Config, pre: seq<Event<V>>, post: seq<Event<V>>, i: nat)
    requires i < |Run(cfg, pre).calls| && LeavesAlone(post, i)
    ensures i < |Run(cfg, pre + post).calls| && Run(cfg, pre + post).calls[i] == Run(cfg, pre).calls[i]
    decreases |post|
  {
    if post == [] {
      assert pre + post == pre;
    } else {
      var before, last := post[..|post| - 1], post[|post| - 1];
      assert pre + post == pre + before + [last];
      RunStep(cfg, pre + before, last);
      CallWaits(cfg, pre, before, i);
      CallWaitsStep(cfg, Run(cfg, pre + before), last, i);
    }
  }

  /** The sections of `between` leave `value` the last one put on disk for `q`: none writes it, or the last that
      does puts the same value. */
  ghost predicate Undisturbed<V>(cfg: Config, pre: seq<Event<V>>, between: seq<Event<V>>, q: Query, value: V) {
    between == [] ||
    var before, last := between[..|between| - 1], between[|between| - 1];
    var call := Runs(Run(cfg, pre + before), last);
    if PutOf(call, q) then call.stored == Some(value)
    else !InvalidationOf(cfg, call, q) && Undisturbed(cfg, pre, before, q, value)
  }

  ghost predicate Carries<V>(record: Option<Record<V>>, value: V) {
    record.Some? && record.value.value == Some(value)
  }

  lemma {:induction false} UndisturbedIff<V>(cfg: Config, pre: seq<Event<V>>, between: seq<Event<V>>, q: Query,
                                             value: V)
    requires Carries(LastOnDisk(cfg, pre, q), value)
    ensures Carries(LastOnDisk(cfg, pre + between, q), value) <==> Undisturbed(cfg, pre, between, q, value)
    decreases |between|
  {
    if between == [] {
      assert pre + between == pre;
    } else {
      var before, last := between[..|between| - 1], between[|between| - 1];
      UndisturbedIff(cfg, pre, before, q, value);
      assert (pre + between)[..|pre + between| - 1] == pre + before;
      assert (pre + between)[|pre + between| - 1] == last;
    }
  }

  /** A get that found `value` on disk promotes it. Whatever other calls do in between, a following look in memory
      finds `value`; that is the last put exactly when no section in between invalidates the query or puts another
      value for it, or the last one that does so puts the same value again. */
  lemma {:induction false} PromotionIsLastPutIff<V>(
    cfg: Config, events: seq<Event<V>>, i: nat, seenAt: int, between: seq<Event<V>>, at: int, q: Query, value: V,
    now: int)
    requires GoodDigest(cfg.digest) && AllNamesOk(events) && AllNamesOk(between) && WellNamed(q)
    requires cfg.l1Enabled && cfg.l2Enabled && now - at <= cfg.l1Ttl && LeavesAlone(between, i)
    requires i < |Run(cfg, events).calls| && Run(cfg, events).calls[i] == DiskLook(q)
    requires FromDisk(Run(cfg, events).t, MakeKey(cfg, q), seenAt) == Some(value)
    ensures var looked := events + [Continues(i, seenAt)];
      var all := looked + between + [Continues(i, at)];
      && FromMemory(Run(cfg, all).t, MakeKey(cfg, q), now) == Some(value)
      && (Carries(LastPut(cfg, all, q), value) <==> Undisturbed(cfg, looked, between, q, value))
  {
    var looked := events + [Continues(i, seenAt)];
    var ready, all := looked + between, looked + between + [Continues(i, at)];
    HitsAreLastWrites(cfg, events, q, seenAt);
    RunStep(cfg, events, Continues(i, seenAt));
    assert looked[..|looked| - 1] == events;
    assert LastOnDisk(cfg, looked, q) == LastOnDisk(cfg, events, q);
    CallWaits(cfg, looked, between, i);
    UndisturbedIff(cfg, looked, between, q, value);
    RunStep(cfg, ready, Continues(i, at));
    assert all[..|all| - 1] == ready;
    assert AllNamesOk(ready);
    RunFaithful(cfg, ready);
    TiersPresent(cfg, ready);
    StoredIsFound(Run(cfg, ready).t.l1.value, MakeKey(cfg, q), Some(value), 0, at, now);
  }

  lemma {:induction false} StoredIsFound<V>(l1: L1Cache.L1<V>, key: string, value: V, size: nat, at: int, now: int)
    requires L1Cache.Booked(l1) && now - at <= l1.ttl
    ensures L1Cache.Lookup(L1Cache.AfterPut(l1, key, value, size, at), key, now) == Some(value)
  {
    L1Cache.PutBooked(l1, key, value, size, at);
    L1Cache.InvalidateBooked(l1, key);
    L1Cache.EvictedBooked(L1Cache.Invalidated(l1, key), size);
  }
}
