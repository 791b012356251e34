/** Runs of the two-tier cache: any number of gets, puts and invalidations in flight, their sections interleaved in
    any order, with clean-ups and restarts at any moment. */
module TieredCacheRuns {
  import opened Options
  import opened OrderedMaps
  import opened TieredCache
  import L1Cache

  /** What a call in flight does next. `created`, `ttl` and `seenAt` are the history of the value a get found. */
  datatype Call<V> =
    | Finished
    | DiskLook(q: Query)
    | Promotion(q: Query, value: V, created: int, ttl: int, seenAt: int)
    | DiskPut(q: Query, stored: Option<V>, lifetime: int)
    | DiskInvalidation(project: string, tool: string, key: string)

  datatype World<V> = World(t: Tiers<V>, calls: seq<Call<V>>)

  /** The first three start a call with its section on memory. */
  datatype Event<V> =
    | Looks(q: Query, now: int)
    | Puts(q: Query, value: Option<V>, ttl: int, size: nat, now: int)
    | Invalidates(project: string, tool: string, key: string)
    | Continues(call: nat, now: int)
    | CleansUp(now: int)
    | Restarts

  function Begin<V>(cfg: Config): World<V> {
    World(Tiers(FreshL1(cfg), if cfg.l2Enabled then Some(map[]) else None, 0, 0), [])
  }

  function AfterLook<V>(cfg: Config, t: Tiers<V>, q: Query, now: int): Call<V> {
    match FromDisk(t, MakeKey(cfg, q), now)
    case None => Finished
    case Some(value) =>
      var row := t.l2.value[MakeKey(cfg, q)];
      Promotion(q, value, row.created, row.ttl, now)
  }

  /** The next section of one call, and what the call does after it. */
  function Continued<V>(cfg: Config, w: World<V>, call: Call<V>, now: int): (Tiers<V>, Call<V>) {
    match call
    case Finished => (w.t, Finished)
    case DiskLook(q) => (AfterDiskLook(w.t, MakeKey(cfg, q), now), AfterLook(cfg, w.t, q, now))
    case Promotion(q, value, _, _, _) => (Promoted(w.t, MakeKey(cfg, q), value, now), Finished)
    case DiskPut(q, value, ttl) => (PutOnDisk(cfg, w.t, q, value, ttl, now), Finished)
    case DiskInvalidation(project, tool, key) => (InvalidatedOnDisk(w.t, project, tool, key), Finished)
  }

  function Next<V>(cfg: Config, w: World<V>, event: Event<V>): World<V> {
    match event
    case Looks(q, now) =>
      var hit := FromMemory(w.t, MakeKey(cfg, q), now).Some?;
      World(AfterMemoryLook(w.t, MakeKey(cfg, q), now), w.calls + [if hit then Finished else DiskLook(q)])
    case Puts(q, value, ttl, size, now) =>
      World(PutInMemory(w.t, MakeKey(cfg, q), value, size, now), w.calls + [DiskPut(q, value, ttl)])
    case Invalidates(project, tool, key) =>
      World(InvalidatedInMemory(w.t, project, tool, key), w.calls + [DiskInvalidation(project, tool, key)])
    case Continues(i, now) =>
      if i >= |w.calls| then w
      else
        var (t', call') := Continued(cfg, w, w.calls[i], now);
        World(t', w.calls[i := call'])
    case CleansUp(now) => if w.t.l2.None? then w else w.(t := w.t.(l2 := Some(WithoutExpired(w.t.l2.value, now))))
    case Restarts => World(Tiers(FreshL1(cfg), w.t.l2, 0, 0), [])
  }

  function Run<V>(cfg: Config, events: seq<Event<V>>): World<V> {
    if events == [] then Begin(cfg) else Next(cfg, Run(cfg, events[..|events| - 1]), events[|events| - 1])
  }

  lemma {:induction false} RunStep<V>(cfg: Config, events: seq<Event<V>>, event: Event<V>)
    ensures Run(cfg, events + [event]) == Next(cfg, Run(cfg, events), event)
  {
    assert (events + [event])[..|events|] == events;
  }

  // ---- the reference: the last write of a query in the history of each tier ----

  /** A value in a tier: when it was put, how long it may be kept, and how late it was written to memory. */
  datatype Record<V> = Record(q: Query, value: Option<V>, time: int, ttl: int, delay: int)

  /** How long a put keeps its value: as long as it asks for, if it does. */
  function Lifetime(cfg: Config, ttl: int): int {
    if ttl != 0 then ttl else cfg.l2DefaultTtl
  }

  predicate Covers(cfg: Config, project: string, tool: string, key: string, q: Query) {
    if key != "" then MakeKey(cfg, q) == key
    else if tool != "" then q.project == project && q.tool == tool
    else q.project == project
  }

  /** The call that an event lets do its next section. */
  function Runs<V>(w: World<V>, event: Event<V>): Call<V> {
    if event.Continues? && event.call < |w.calls| then w.calls[event.call] else Finished
  }

  function MemoryRecord<V>(cfg: Config, w: World<V>, event: Event<V>, q: Query, before: Option<Record<V>>):
    Option<Record<V>>
  {
    match event
    case Puts(r, value, ttl, _, now) =>
      if r == q then Some(Record(q, value, now, Lifetime(cfg, ttl), 0)) else before
    case Invalidates(project, tool, key) => if Covers(cfg, project, tool, key, q) then None else before
    case Continues(_, now) =>
      (match Runs(w, event)
       case Promotion(r, value, created, ttl, seenAt) =>
         if r == q then Some(Record(q, Some(value), created, ttl, now - seenAt)) else before
       case _ => before)
    case Restarts => None
    case _ => before
  }

  function DiskRecord<V>(cfg: Config, w: World<V>, event: Event<V>, q: Query, before: Option<Record<V>>):
    Option<Record<V>>
  {
    if !event.Continues? then before
    else
      match Runs(w, event)
      case DiskPut(r, value, ttl) =>
        if r == q then Some(Record(q, value, event.now, Lifetime(cfg, ttl), 0)) else before
      case DiskInvalidation(project, tool, key) => if Covers(cfg, project, tool, key, q) then None else before
      case _ => before
  }

  function LastInMemory<V>(cfg: Config, events: seq<Event<V>>, q: Query): Option<Record<V>> {
    if events == [] then None
    else
      var before := events[..|events| - 1];
      MemoryRecord(cfg, Run(cfg, before), events[|events| - 1], q, LastInMemory(cfg, before, q))
  }

  function LastOnDisk<V>(cfg: Config, events: seq<Event<V>>, q: Query): Option<Record<V>> {
    if events == [] then None
    else
      var before := events[..|events| - 1];
      DiskRecord(cfg, Run(cfg, before), events[|events| - 1], q, LastOnDisk(cfg, before, q))
  }

  predicate NamesOk<V>(event: Event<V>) {
    match event
    case Puts(q, _, _, _, _) => WellNamed(q)
    case Looks(q, _) => WellNamed(q)
    case Invalidates(project, tool, _) => ':' !in project && ':' !in tool
    case _ => true
  }

  predicate AllNamesOk<V>(events: seq<Event<V>>) {
    forall i :: 0 <= i < |events| ==> NamesOk(events[i])
  }

  /** How long a time to live can keep a value; a negative one keeps it no longer than none. */
  function Span(ttl: int): int {
    if ttl < 0 then 0 else ttl
  }

  // ---- the same records, filed under their keys ----

  type Log<V> = map<string, Record<V>>

  datatype Logs<V> = Logs(memory: Log<V>, disk: Log<V>)

  function Uncovered<V>(cfg: Config, log: Log<V>, project: string, tool: string, key: string): Log<V> {
    map k | k in log && !Covers(cfg, project, tool, key, log[k].q) :: log[k]
  }

  function NextLogs<V>(cfg: Config, w: World<V>, logs: Logs<V>, event: Event<V>): Logs<V> {
    match event
    case Puts(q, value, ttl, _, now) =>
      logs.(memory := logs.memory[MakeKey(cfg, q) := Record(q, value, now, Lifetime(cfg, ttl), 0)])
    case Invalidates(project, tool, key) => logs.(memory := Uncovered(cfg, logs.memory, project, tool, key))
    case Continues(_, now) =>
      (match Runs(w, event)
       case Promotion(q, value, created, ttl, seenAt) =>
         logs.(memory := logs.memory[MakeKey(cfg, q) := Record(q, Some(value), created, ttl, now - seenAt)])
       case DiskPut(q, value, ttl) =>
         logs.(disk := logs.disk[MakeKey(cfg, q) := Record(q, value, now, Lifetime(cfg, ttl), 0)])
       case DiskInvalidation(project, tool, key) => logs.(disk := Uncovered(cfg, logs.disk, project, tool, key))
       case _ => logs)
    case Restarts => logs.(memory := map[])
    case _ => logs
  }

  function RunLogs<V>(cfg: Config, events: seq<Event<V>>): Logs<V> {
    if events == [] then Logs(map[], map[])
    else
      var before := events[..|events| - 1];
      NextLogs(cfg, Run(cfg, before), RunLogs(cfg, before), events[|events| - 1])
  }

  // ---- the invariant ----

  ghost predicate Filed<V>(cfg: Config, log: Log<V>) {
    forall k :: k in log ==> WellNamed(log[k].q) && k == MakeKey(cfg, log[k].q)
  }

  ghost predicate SlotOk<V>(log: Log<V>, entry: (string, L1Cache.Slot<Option<V>>)) {
    && entry.0 in log && entry.1.value == log[entry.0].value
    && entry.1.time - log[entry.0].time <= Span(log[entry.0].ttl) + Span(log[entry.0].delay)
  }

  ghost predicate MemoryOk<V>(cfg: Config, log: Log<V>, l1: L1Cache.L1<Option<V>>) {
    && L1Cache.Booked(l1) && L1Cache.WithinBudget(l1) && l1.ttl == cfg.l1Ttl
    && forall entry :: entry in l1.slots ==> SlotOk(log, entry)
  }

  ghost predicate RowOk<V>(log: Log<V>, rows: Rows<V>, key: string)
    requires key in rows
  {
    && key in log && rows[key].value == log[key].value && rows[key].created == log[key].time
    && rows[key].ttl == log[key].ttl && rows[key].project == log[key].q.project
  }

  ghost predicate DiskOk<V>(log: Log<V>, rows: Rows<V>) {
    forall key :: key in rows ==> RowOk(log, rows, key)
  }

  predicate CallOk<V>(call: Call<V>) {
    match call
    case Finished => true
    case DiskLook(q) => WellNamed(q)
    case Promotion(q, _, created, ttl, seenAt) => WellNamed(q) && seenAt - created <= ttl
    case DiskPut(q, _, _) => WellNamed(q)
    case DiskInvalidation(project, tool, _) => ':' !in project && ':' !in tool
  }

  ghost predicate Faithful<V>(cfg: Config, logs: Logs<V>, w: World<V>) {
    && Filed(cfg, logs.memory) && Filed(cfg, logs.disk)
    && (w.t.l1.Some? ==> MemoryOk(cfg, logs.memory, w.t.l1.value))
    && (w.t.l2.Some? ==> DiskOk(logs.disk, w.t.l2.value))
    && (forall i :: 0 <= i < |w.calls| ==> CallOk(w.calls[i]))
  }

  lemma {:induction false} WrittenMemoryOk<V>(cfg: Config, log: Log<V>, log': Log<V>, l1: L1Cache.L1<Option<V>>,
                                              key: string, value: Option<V>, size: nat, now: int)
    requires MemoryOk(cfg, log, l1)
    requires key in log' && log'[key].value == value
    requires now - log'[key].time <= Span(log'[key].ttl) + Span(log'[key].delay)
    requires forall k :: k in log && k != key ==> k in log' && log'[k] == log[k]
    ensures MemoryOk(cfg, log', L1Cache.AfterPut(l1, key, value, size, now))
  {
    L1Cache.PutBooked(l1, key, value, size, now);
    L1Cache.InvalidateBooked(l1, key);
    L1Cache.EvictedBooked(L1Cache.Invalidated(l1, key), size);
    var l1' := L1Cache.AfterPut(l1, key, value, size, now);
    forall entry | entry in l1'.slots ensures SlotOk(log', entry) {
      if entry.0 != key {
        assert SlotOk(log, entry);
      }
    }
  }

  /** What a look in memory finds and leaves. */
  lemma {:induction false} LookMemoryOk<V>(cfg: Config, log: Log<V>, l1: L1Cache.L1<Option<V>>, key: string, now: int)
    requires MemoryOk(cfg, log, l1)
    ensures MemoryOk(cfg, log, L1Cache.AfterGet(l1, key, now))
    ensures L1Cache.Lookup(l1, key, now).Some? ==>
              && key in log && L1Cache.Lookup(l1, key, now) == Some(log[key].value)
              && now - log[key].time <= Span(cfg.l1Ttl) + Span(log[key].ttl) + Span(log[key].delay)
  {
    L1Cache.GetBooked(l1, key, now);
    WithoutEntries(l1.slots, key);
    FindEntry(l1.slots, key);
    if Find(l1.slots, key).Some? {
      assert SlotOk(log, (key, Find(l1.slots, key).value));
    }
  }

  lemma {:induction false} WrittenDiskOk<V>(log: Log<V>, rows: Rows<V>, key: string, row: Row<V>, record: Record<V>)
    requires DiskOk(log, rows)
    requires row.value == record.value && row.created == record.time && row.ttl == record.ttl
    requires row.project == record.q.project
    ensures DiskOk(log[key := record], rows[key := row])
  {
    var log', rows' := log[key := record], rows[key := row];
    forall k | k in rows' ensures RowOk(log', rows', k) {
      if k != key {
        assert RowOk(log, rows, k);
      }
    }
  }

  lemma {:induction false} FewerRowsOk<V>(log: Log<V>, log': Log<V>, rows: Rows<V>, rows': Rows<V>)
    requires DiskOk(log, rows)
    requires forall k :: k in rows' ==> k in rows && rows'[k] == rows[k]
    requires forall k :: k in rows' && k in log ==> k in log' && log'[k] == log[k]
    ensures DiskOk(log', rows')
  {
    forall k | k in rows' ensures RowOk(log', rows', k) {
      assert RowOk(log, rows, k);
    }
  }

  /** Records that an invalidation keeps are unchanged, so what stays in memory stays faithful. */
  lemma {:induction false} FewerSlotsOk<V>(cfg: Config, log: Log<V>, log': Log<V>,
                                           l1: L1Cache.L1<Option<V>>, l1': L1Cache.L1<Option<V>>)
    requires MemoryOk(cfg, log, l1) && L1Cache.Booked(l1') && L1Cache.WithinBudget(l1') && l1'.ttl == l1.ttl
    requires forall entry :: entry in l1'.slots ==>
               entry in l1.slots && entry.0 in log' && log'[entry.0] == log[entry.0]
    ensures MemoryOk(cfg, log', l1')
  {
    forall entry | entry in l1'.slots ensures SlotOk(log', entry) {
      assert SlotOk(log, entry);
    }
  }

  lemma {:induction false} KeptRecord<V>(cfg: Config, log: Log<V>, project: string, tool: string, key: string,
                                         k: string)
    requires Filed(cfg, log) && ':' !in project && ':' !in tool && k in log
    ensures var log' := Uncovered(cfg, log, project, tool, key);
      (k in log' <==> if key != "" then k != key else if tool != "" then !(ToolPrefix(project, tool) <= k)
                      else !(ProjectPrefix(project) <= k))
      && (k in log' ==> log'[k] == log[k])
  {
    PrefixesNameOwners(cfg, log[k].q, project, tool);
  }

  lemma {:induction false} InvalidateMemory<V>(cfg: Config, log: Log<V>, l1: L1Cache.L1<Option<V>>,
                                               project: string, tool: string, key: string)
    requires Filed(cfg, log) && MemoryOk(cfg, log, l1) && ':' !in project && ':' !in tool
    ensures MemoryOk(cfg, Uncovered(cfg, log, project, tool, key),
              InvalidatedInMemory(Tiers(Some(l1), None, 0, 0), project, tool, key).l1.value)
  {
    var log' := Uncovered(cfg, log, project, tool, key);
    var l1' := InvalidatedInMemory(Tiers(Some(l1), None, 0, 0), project, tool, key).l1.value;
    if key != "" {
      L1Cache.InvalidateBooked(l1, key);
      assert forall entry :: entry in l1'.slots ==> entry.0 != key;
    } else {
      var prefix := if tool != "" then ToolPrefix(project, tool) else ProjectPrefix(project);
      L1Cache.PrefixBooked(l1, prefix);
      L1Cache.DropPrefixEntries(l1.slots, prefix);
      assert l1'.slots == L1Cache.DropPrefix(l1.slots, prefix);
    }
    forall entry | entry in l1'.slots ensures entry.0 in log' && log'[entry.0] == log[entry.0] {
      assert SlotOk(log, entry);
      KeptRecord(cfg, log, project, tool, key, entry.0);
    }
    FewerSlotsOk(cfg, log, log', l1, l1');
  }

  lemma {:induction false} InvalidateDisk<V>(cfg: Config, log: Log<V>, rows: Rows<V>,
                                             project: string, tool: string, key: string)
    requires Filed(cfg, log) && DiskOk(log, rows) && ':' !in project && ':' !in tool
    ensures DiskOk(Uncovered(cfg, log, project, tool, key),
              InvalidatedOnDisk(Tiers(None, Some(rows), 0, 0), project, tool, key).l2.value)
  {
    var log' := Uncovered(cfg, log, project, tool, key);
    var rows' := InvalidatedOnDisk(Tiers(None, Some(rows), 0, 0), project, tool, key).l2.value;
    forall k | k in rows' && k in log ensures k in log' && log'[k] == log[k] {
      assert RowOk(log, rows, k);
      KeptRecord(cfg, log, project, tool, key, k);
      PrefixesNameOwners(cfg, log[k].q, project, tool);
      if ToolPrefix(project, tool) <= k {
        LikeCoversPrefix(ToolPrefix(project, tool), k);
      }
    }
    FewerRowsOk(log, log', rows, rows');
  }

  lemma {:induction false} FiledGrows<V>(cfg: Config, log: Log<V>, record: Record<V>)
    requires Filed(cfg, log) && WellNamed(record.q)
    ensures Filed(cfg, log[MakeKey(cfg, record.q) := record])
  {
  }

  /** What the two lookups of a get find, in terms of the logs. */
  lemma {:induction false} LooksFaithful<V>(cfg: Config, logs: Logs<V>, w: World<V>, key: string, now: int)
    requires Faithful(cfg, logs, w)
    ensures FromMemory(w.t, key, now).Some? ==>
              && key in logs.memory && FromMemory(w.t, key, now) == logs.memory[key].value
              && now - logs.memory[key].time <=
                   Span(cfg.l1Ttl) + Span(logs.memory[key].ttl) + Span(logs.memory[key].delay)
    ensures FromDisk(w.t, key, now).Some? ==>
              && key in logs.disk && FromDisk(w.t, key, now) == logs.disk[key].value
              && now - logs.disk[key].time <= logs.disk[key].ttl
  {
    if w.t.l1.Some? {
      LookMemoryOk(cfg, logs.memory, w.t.l1.value, key, now);
    }
    if FromDisk(w.t, key, now).Some? {
      assert RowOk(logs.disk, w.t.l2.value, key);
    }
  }

  lemma {:induction false} StartFaithful<V>(cfg: Config, logs: Logs<V>, w: World<V>, event: Event<V>)
    requires Faithful(cfg, logs, w) && NamesOk(event) && (event.Looks? || event.Puts? || event.Invalidates?)
    ensures Faithful(cfg, NextLogs(cfg, w, logs, event), Next(cfg, w, event))
  {
    match event
    case Looks(q, now) =>
      if w.t.l1.Some? { LookMemoryOk(cfg, logs.memory, w.t.l1.value, MakeKey(cfg, q), now); }
    case Puts(q, value, ttl, size, now) =>
      var record := Record(q, value, now, Lifetime(cfg, ttl), 0);
      var log' := logs.memory[MakeKey(cfg, q) := record];
      FiledGrows(cfg, logs.memory, record);
      if w.t.l1.Some? { WrittenMemoryOk(cfg, logs.memory, log', w.t.l1.value, MakeKey(cfg, q), value, size, now); }
    case Invalidates(project, tool, key) =>
      if w.t.l1.Some? { InvalidateMemory(cfg, logs.memory, w.t.l1.value, project, tool, key); }
  }

  lemma {:induction false} DiskLookFaithful<V>(cfg: Config, logs: Logs<V>, w: World<V>, q: Query, now: int)
    requires Faithful(cfg, logs, w) && WellNamed(q)
    ensures w.t.l2.Some? ==> DiskOk(logs.disk, AfterDiskLook(w.t, MakeKey(cfg, q), now).l2.value)
    ensures CallOk(AfterLook(cfg, w.t, q, now))
  {
    if w.t.l2.Some? {
      FewerRowsOk(logs.disk, logs.disk, w.t.l2.value, AfterDiskLook(w.t, MakeKey(cfg, q), now).l2.value);
    }
  }

  lemma {:induction false} PromotionFaithful<V>(cfg: Config, log: Log<V>, l1: L1Cache.L1<Option<V>>,
                                                call: Call<V>, now: int)
    requires Filed(cfg, log) && MemoryOk(cfg, log, l1) && call.Promotion? && CallOk(call)
    ensures var key := MakeKey(cfg, call.q);
      var log' := log[key := Record(call.q, Some(call.value), call.created, call.ttl, now - call.seenAt)];
      MemoryOk(cfg, log', L1Cache.AfterPut(l1, key, Some(call.value), 0, now))
  {
    var key := MakeKey(cfg, call.q);
    var log' := log[key := Record(call.q, Some(call.value), call.created, call.ttl, now - call.seenAt)];
    WrittenMemoryOk(cfg, log, log', l1, key, Some(call.value), 0, now);
  }

  lemma {:induction false} PromotedFaithful<V>(cfg: Config, logs: Logs<V>, w: World<V>, i: nat, now: int)
    requires Faithful(cfg, logs, w) && i < |w.calls| && w.calls[i].Promotion?
    ensures Faithful(cfg, NextLogs(cfg, w, logs, Continues(i, now)), Next(cfg, w, Continues(i, now)))
  {
    var call := w.calls[i];
    assert CallOk(call);
    FiledGrows(cfg, logs.memory, Record(call.q, Some(call.value), call.created, call.ttl, now - call.seenAt));
    if w.t.l1.Some? { PromotionFaithful(cfg, logs.memory, w.t.l1.value, call, now); }
  }

  lemma {:induction false} DiskPutFaithful<V>(cfg: Config, logs: Logs<V>, w: World<V>, i: nat, now: int)
    requires Faithful(cfg, logs, w) && i < |w.calls| && w.calls[i].DiskPut?
    ensures Faithful(cfg, NextLogs(cfg, w, logs, Continues(i, now)), Next(cfg, w, Continues(i, now)))
  {
    var call := w.calls[i];
    assert CallOk(call);
    var ttl := Lifetime(cfg, call.lifetime);
    var record := Record(call.q, call.stored, now, ttl, 0);
    FiledGrows(cfg, logs.disk, record);
    if w.t.l2.Some? {
      var row := Row(call.stored, now, ttl, call.q.project, call.q.tool);
      WrittenDiskOk(logs.disk, w.t.l2.value, MakeKey(cfg, call.q), row, record);
    }
  }

  lemma {:induction false} DiskInvalidationFaithful<V>(cfg: Config, logs: Logs<V>, w: World<V>, i: nat, now: int)
    requires Faithful(cfg, logs, w) && i < |w.calls| && w.calls[i].DiskInvalidation?
    ensures Faithful(cfg, NextLogs(cfg, w, logs, Continues(i, now)), Next(cfg, w, Continues(i, now)))
  {
    var call := w.calls[i];
    assert CallOk(call);
    if w.t.l2.Some? { InvalidateDisk(cfg, logs.disk, w.t.l2.value, call.project, call.tool, call.key); }
  }

  lemma {:induction false} ContinueFaithful<V>(cfg: Config, logs: Logs<V>, w: World<V>, i: nat, now: int)
    requires Faithful(cfg, logs, w) && i < |w.calls|
    ensures Faithful(cfg, NextLogs(cfg, w, logs, Continues(i, now)), Next(cfg, w, Continues(i, now)))
  {
    match w.calls[i]
    case Finished =>
    case DiskLook(q) =>
      assert CallOk(w.calls[i]);
      DiskLookFaithful(cfg, logs, w, q, now);
    case Promotion(_, _, _, _, _) => PromotedFaithful(cfg, logs, w, i, now);
    case DiskPut(_, _, _) => DiskPutFaithful(cfg, logs, w, i, now);
    case DiskInvalidation(_, _, _) => DiskInvalidationFaithful(cfg, logs, w, i, now);
  }

  lemma {:induction false} NextFaithful<V>(cfg: Config, logs: Logs<V>, w: World<V>, event: Event<V>)
    requires Faithful(cfg, logs, w) && NamesOk(event)
    ensures Faithful(cfg, NextLogs(cfg, w, logs, event), Next(cfg, w, event))
  {
    match event
    case Continues(i, now) => if i < |w.calls| { ContinueFaithful(cfg, logs, w, i, now); }
    case CleansUp(now) =>
      if w.t.l2.Some? {
        FewerRowsOk(logs.disk, logs.disk, w.t.l2.value, WithoutExpired(w.t.l2.value, now));
      }
    case Restarts =>
    case _ => StartFaithful(cfg, logs, w, event);
  }

  /** In every interleaving each memory slot stands for the last write of its key in memory, and each row for the
      last write of its key on disk. */
  lemma {:induction false} RunFaithful<V>(cfg: Config, events: seq<Event<V>>)
    requires AllNamesOk(events)
    ensures Faithful(cfg, RunLogs(cfg, events), Run(cfg, events))
  {
    if events != [] {
      var rest := events[..|events| - 1];
      assert AllNamesOk(rest);
      RunFaithful(cfg, rest);
      NextFaithful(cfg, RunLogs(cfg, rest), Run(cfg, rest), events[|events| - 1]);
    }
  }

  // ---- the filed records are the last writes of the queries ----

  function At<V>(log: Log<V>, key: string): Option<Record<V>> {
    if key in log then Some(log[key]) else None
  }

  ghost predicate FiledFor<V>(cfg: Config, log: Log<V>, q: Query) {
    MakeKey(cfg, q) in log ==> log[MakeKey(cfg, q)].q == q
  }

  lemma {:induction false} WrittenAt<V>(cfg: Config, log: Log<V>, record: Record<V>, q: Query)
    requires GoodDigest(cfg.digest) && WellNamed(q) && WellNamed(record.q) && FiledFor(cfg, log, q)
    ensures var log' := log[MakeKey(cfg, record.q) := record];
      && FiledFor(cfg, log', q)
      && At(log', MakeKey(cfg, q)) == if record.q == q then Some(record) else At(log, MakeKey(cfg, q))
  {
    if MakeKey(cfg, record.q) == MakeKey(cfg, q) {
      KeysDistinct(cfg, record.q, q);
    }
  }

  lemma {:induction false} LogsStep<V>(cfg: Config, w: World<V>, logs: Logs<V>, event: Event<V>, q: Query)
    requires GoodDigest(cfg.digest) && WellNamed(q) && NamesOk(event) && CallOk(Runs(w, event))
    requires FiledFor(cfg, logs.memory, q) && FiledFor(cfg, logs.disk, q)
    ensures var logs' := NextLogs(cfg, w, logs, event); var key := MakeKey(cfg, q);
      && FiledFor(cfg, logs'.memory, q) && FiledFor(cfg, logs'.disk, q)
      && At(logs'.memory, key) == MemoryRecord(cfg, w, event, q, At(logs.memory, key))
      && At(logs'.disk, key) == DiskRecord(cfg, w, event, q, At(logs.disk, key))
  {
    match event
    case Puts(r, value, ttl, _, now) =>
      WrittenAt(cfg, logs.memory, Record(r, value, now, Lifetime(cfg, ttl), 0), q);
    case Continues(_, now) =>
      var call := Runs(w, event);
      if call.Promotion? {
        WrittenAt(cfg, logs.memory, Record(call.q, Some(call.value), call.created, call.ttl, now - call.seenAt), q);
      } else if call.DiskPut? {
        WrittenAt(cfg, logs.disk, Record(call.q, call.stored, now, Lifetime(cfg, call.lifetime), 0), q);
      }
    case _ =>
  }

  lemma {:induction false} LogsAgree<V>(cfg: Config, events: seq<Event<V>>, q: Query)
    requires GoodDigest(cfg.digest) && AllNamesOk(events) && WellNamed(q)
    ensures var logs, key := RunLogs(cfg, events), MakeKey(cfg, q);
      && FiledFor(cfg, logs.memory, q) && FiledFor(cfg, logs.disk, q)
      && At(logs.memory, key) == LastInMemory(cfg, events, q)
      && At(logs.disk, key) == LastOnDisk(cfg, events, q)
  {
    if events != [] {
      var before, last := events[..|events| - 1], events[|events| - 1];
      assert AllNamesOk(before) && NamesOk(last);
      LogsAgree(cfg, before, q);
      RunFaithful(cfg, before);
      LogsStep(cfg, Run(cfg, before), RunLogs(cfg, before), last, q);
    }
  }

  // ---- what every interleaving keeps ----

  /** In every interleaving a hit from memory is the last value written to memory for the query, of age at most the
      two times to live and the time its get took to promote it; a hit from disk is the last value written to disk
      for the query, within its time to live. */
  lemma {:induction false} HitsAreLastWrites<V>(cfg: Config, events: seq<Event<V>>, q: Query, now: int)
    requires GoodDigest(cfg.digest) && AllNamesOk(events) && WellNamed(q)
    ensures var w, m := Run(cfg, events), LastInMemory(cfg, events, q);
      FromMemory(w.t, MakeKey(cfg, q), now).Some? ==>
        && m.Some? && m.value.q == q && FromMemory(w.t, MakeKey(cfg, q), now) == m.value.value
        && now - m.value.time <= Span(cfg.l1Ttl) + Span(m.value.ttl) + Span(m.value.delay)
    ensures var w, d := Run(cfg, events), LastOnDisk(cfg, events, q);
      FromDisk(w.t, MakeKey(cfg, q), now).Some? ==>
        && d.Some? && d.value.q == q && FromDisk(w.t, MakeKey(cfg, q), now) == d.value.value
        && now - d.value.time <= d.value.ttl
  {
    RunFaithful(cfg, events);
    LogsAgree(cfg, events, q);
    LooksFaithful(cfg, RunLogs(cfg, events), Run(cfg, events), MakeKey(cfg, q), now);
  }

  lemma {:induction false} TiersPresent<V>(cfg: Config, events: seq<Event<V>>)
    ensures Run(cfg, events).t.l1.Some? == cfg.l1Enabled && Run(cfg, events).t.l2.Some? == cfg.l2Enabled
  {
    if events != [] {
      TiersPresent(cfg, events[..|events| - 1]);
      TiersStay(cfg, Run(cfg, events[..|events| - 1]), events[|events| - 1]);
    }
  }

  lemma {:induction false} TiersStay<V>(cfg: Config, w: World<V>, event: Event<V>)
    requires w.t.l1.Some? == cfg.l1Enabled && w.t.l2.Some? == cfg.l2Enabled
    ensures var t := Next(cfg, w, event).t; t.l1.Some? == cfg.l1Enabled && t.l2.Some? == cfg.l2Enabled
  {
  }

  /** The memory tier keeps its books in every interleaving, promotions included. */
  lemma {:induction false} MemoryKeepsItsBooks<V>(cfg: Config, events: seq<Event<V>>)
    requires AllNamesOk(events) && cfg.l1Enabled
    ensures var t := Run(cfg, events).t;
      t.l1.Some? && t.l1.value.bytes == L1Cache.Sum(t.l1.value.slots) && L1Cache.WithinBudget(t.l1.value)
  {
    RunFaithful(cfg, events);
    TiersPresent(cfg, events);
  }

  // ---- a row stays until it is overwritten, invalidated or expired ----

  /** The section writes another row than that of `q`, or none. */
  predicate Spares<V>(cfg: Config, w: World<V>, event: Event<V>, q: Query) {
    match Runs(w, event)
    case DiskPut(r, _, _) => r != q
    case DiskInvalidation(project, tool, key) =>
      if key != "" then MakeKey(cfg, q) != key
      else if tool != "" then !Like(ToolPrefix(project, tool) + "%", MakeKey(cfg, q))
      else q.project != project
    case _ => true
  }

  predicate NotAfter<V>(event: Event<V>, now: int) {
    (event.Continues? || event.CleansUp?) ==> event.now <= now
  }

  predicate AllSpare<V>(cfg: Config, pre: seq<Event<V>>, post: seq<Event<V>>, q: Query, now: int) {
    post == [] ||
    var before, last := post[..|post| - 1], post[|post| - 1];
    AllSpare(cfg, pre, before, q, now) && Spares(cfg, Run(cfg, pre + before), last, q) && NotAfter(last, now)
  }

  ghost predicate HoldsRow<V>(cfg: Config, t: Tiers<V>, q: Query, row: Row<V>) {
    t.l2.Some? && MakeKey(cfg, q) in t.l2.value && t.l2.value[MakeKey(cfg, q)] == row
  }

  lemma {:induction false} SparedRowStays<V>(cfg: Config, w: World<V>, q: Query, row: Row<V>, event: Event<V>, now: int)
    requires GoodDigest(cfg.digest) && WellNamed(q) && CallOk(Runs(w, event))
    requires Spares(cfg, w, event, q) && NotAfter(event, now)
    requires HoldsRow(cfg, w.t, q, row) && row.project == q.project && now - row.created <= row.ttl
    ensures HoldsRow(cfg, Next(cfg, w, event).t, q, row)
  {
    var call := Runs(w, event);
    if call.DiskPut? && MakeKey(cfg, call.q) == MakeKey(cfg, q) {
      KeysDistinct(cfg, call.q, q);
    }
  }

  lemma {:induction false} CallsAreOk<V>(cfg: Config, events: seq<Event<V>>, event: Event<V>)
    requires AllNamesOk(events)
    ensures CallOk(Runs(Run(cfg, events), event))
  {
    RunFaithful(cfg, events);
  }

  lemma {:induction false} RowStays<V>(cfg: Config, pre: seq<Event<V>>, post: seq<Event<V>>,
                                       q: Query, row: Row<V>, now: int)
    requires GoodDigest(cfg.digest) && WellNamed(q) && AllNamesOk(pre) && AllNamesOk(post)
    requires AllSpare(cfg, pre, post, q, now)
    requires HoldsRow(cfg, Run(cfg, pre).t, q, row) && row.project == q.project && now - row.created <= row.ttl
    ensures HoldsRow(cfg, Run(cfg, pre + post).t, q, row)
    decreases |post|
  {
    if post == [] {
      assert pre + post == pre;
    } else {
      var before, last := post[..|post| - 1], post[|post| - 1];
      RowStays(cfg, pre, before, q, row, now);
      CallsAreOk(cfg, pre + before, last);
      SparedRowStays(cfg, Run(cfg, pre + before), q, row, last, now);
      assert pre + post == pre + before + [last];
      RunStep(cfg, pre + before, last);
    }
  }
}
