/** The scheduler's guarantees, over every run. */
module SchedulerTheorems {
  import opened Sequences
  import opened Scheduler
  import opened SchedulerInvariants
  import opened SchedulerRuns

  // ---- exclusion ----

  lemma {:induction false} HolderCounted(c: Core, id: nat)
    requires Inv(c) && id < |c.reqs| && c.reqs[id].worker.Holding()
    ensures c.active.Get(c.reqs[id].lane) >= 1
  {
    assert CountOf(c, Holders(c.reqs[id].lane)) == |Ids(c.reqs, Holders(c.reqs[id].lane))|;
    assert id in Ids(c.reqs, Holders(c.reqs[id].lane));
  }

  lemma {:induction false} TwoHoldersCounted(c: Core, id: nat, other: nat)
    requires Inv(c) && id < |c.reqs| && other < |c.reqs| && id != other
    requires c.reqs[id].worker.Holding() && c.reqs[other].worker.Holding() && c.reqs[id].lane == c.reqs[other].lane
    ensures c.active.Get(c.reqs[id].lane) >= 2
  {
    var s := Ids(c.reqs, Holders(c.reqs[id].lane));
    assert CountOf(c, Holders(c.reqs[id].lane)) == |s|;
    assert {id, other} <= s;
    assert |s - {id, other}| == |s| - |{id, other}|;
  }

  /** A write that holds its lane runs alone: no other request, read or write, is between dispatch
      and release, timed-out reads included. */
  lemma {:induction false} WritesRunAlone(cfg: Config, events: seq<Event>, id: nat, other: nat)
    requires var c := Run(cfg, events).core;
      && id < |c.reqs| && other < |c.reqs| && id != other
      && c.reqs[id].lane == WriteRefactor && c.reqs[id].worker.Holding()
    ensures !Run(cfg, events).core.reqs[other].worker.Holding()
  {
    RunInv(cfg, events);
    var c := Run(cfg, events).core;
    HolderCounted(c, id);
    if c.reqs[other].worker.Holding() {
      HolderCounted(c, other);
      if c.reqs[other].lane == WriteRefactor {
        TwoHoldersCounted(c, id, other);
      }
    }
  }

  // ---- freshness ----

  /** A read between dispatch and release has only seen the store as it still is. */
  predicate Steady(r: Request, store: nat) {
    r.lane != WriteRefactor ==>
      && (r.worker.Holding() ==> forall i :: 0 <= i < |Observed(r)| ==> Observed(r)[i] == store)
      && (forall i :: 0 <= i < |Observed(r)| ==> Observed(r)[i] == Observed(r)[0])
  }

  predicate SeenSince(seen: seq<nat>, since: nat) {
    forall i :: 0 <= i < |seen| ==> since <= seen[i]
  }

  ghost predicate Fresh(w: World) {
    && (forall k :: 0 <= k < |w.callers| ==>
          && w.callers[k].id < |w.core.reqs| && w.callers[k].since <= w.store
          && SeenSince(Observed(w.core.reqs[w.callers[k].id]), w.callers[k].since))
    && (forall id :: 0 <= id < |w.core.reqs| ==> Steady(w.core.reqs[id], w.store))
  }

  lemma {:induction false} SubmitNew(c: Core, key: Key, timeout: real, now: real)
    requires Inv(c) && Indexed(c)
    ensures var c' := Submit(c, key, timeout, now);
      match SubmitAnswer(c, key)
      case Accepted(id) => id == |c.reqs| && |c'.reqs| == |c.reqs| + 1 && Observed(c'.reqs[id]) == []
      case Joined(id) =>
        && c' == c && id < |c.reqs| && c.reqs[id].lane != WriteRefactor
        && c.reqs[id].key == key && !c.reqs[id].future.Done()
        && (c.reqs[id].worker.Holding() || Observed(c.reqs[id]) == [])
      case QueueFull => c' == c.(rejected := c.rejected + 1)
  {
    if SubmitAnswer(c, key).Accepted? {
      var c1 := Enqueue(c, key, timeout, now);
      EnqueueInv(c, key, timeout, now);
      InvIndexed(c1);
      TryDispatchFramed(c1, Classify(c.cfg, key.tool));
      assert Framed(c1.reqs[|c.reqs|], Submit(c, key, timeout, now).reqs[|c.reqs|]);
    } else if SubmitAnswer(c, key).Joined? {
      var id := c.inFlight[key];
      assert InProgress(c, id) && LocalOk(c.cfg, c.reqs[id]);
    }
  }

  lemma {:induction false} SubmitFresh(w: World, e: Event)
    requires Inv(w.core) && Fresh(w) && e.Submits?
    ensures Fresh(Next(w, e))
  {
    InvIndexed(w.core);
    var c, c' := w.core, Next(w, e).core;
    SubmitNew(c, e.key, e.timeout, e.now);
    NextFramed(w, e);
    forall id | 0 <= id < |c'.reqs| ensures Steady(c'.reqs[id], w.store) {
      if id < |c.reqs| {
        assert Framed(c.reqs[id], c'.reqs[id]) && Steady(c.reqs[id], w.store);
      }
    }
    forall k | 0 <= k < |w.callers|
      ensures SeenSince(Observed(c'.reqs[w.callers[k].id]), w.callers[k].since)
    {
      assert Framed(c.reqs[w.callers[k].id], c'.reqs[w.callers[k].id]);
    }
    if SubmitAnswer(c, e.key).Joined? {
      assert Steady(c.reqs[SubmitAnswer(c, e.key).id], w.store);
    }
  }

  lemma {:induction false} FramedFresh(w: World, w': World)
    requires Fresh(w) && FramedAll(w.core, w'.core) && |w'.core.reqs| == |w.core.reqs|
    requires w'.store == w.store && w'.callers == w.callers
    ensures Fresh(w')
  {
    forall id | 0 <= id < |w.core.reqs| ensures Steady(w'.core.reqs[id], w.store) {
      assert Framed(w.core.reqs[id], w'.core.reqs[id]) && Steady(w.core.reqs[id], w.store);
    }
    forall k | 0 <= k < |w.callers|
      ensures SeenSince(Observed(w'.core.reqs[w.callers[k].id]), w.callers[k].since)
    {
      assert Framed(w.core.reqs[w.callers[k].id], w'.core.reqs[w.callers[k].id]);
    }
  }

  lemma {:induction false} NextSize(w: World, e: Event)
    requires Inv(w.core) && !e.Submits?
    ensures |Next(w, e).core.reqs| == |w.core.reqs|
  {
    InvIndexed(w.core);
    var c := w.core;
    match e {
      case Releases(id) =>
        if At(c, id).Back? {
          TryDispatchIndexed(Finish(c, id), WriteRefactor);
          var c1 := TryDispatch(Finish(c, id), WriteRefactor);
          TryDispatchIndexed(c1, FastRead);
          TryDispatchIndexed(TryDispatch(c1, FastRead), SemanticRead);
        }
      case DeadlineWakes(now) =>
        PopDoneKeeps(c);
        var c1 := PopDone(c);
        if Due(c1, now) && !TimeoutIgnored(c1.reqs[c1.deadlines[0].1]) {
          var c2 := c1.(deadlines := c1.deadlines[1..]);
          ExpireIndexed(c2, c1.deadlines[0].1);
          TryDispatchIndexed(Expire(c2, c1.deadlines[0].1), c1.reqs[c1.deadlines[0].1].lane);
        }
      case Cancels(id) =>
        if Cancellable(c, id) {
          WithdrawIndexed(c, id);
          TryDispatchIndexed(Withdraw(c, id), QueueOf(c, id));
        }
      case _ =>
    }
  }

  lemma {:induction false} MutateFresh(w: World, id: nat)
    requires Inv(w.core) && Fresh(w)
    ensures Fresh(Next(w, Mutates(id)))
  {
    InvIndexed(w.core);
    var c, w' := w.core, Next(w, Mutates(id));
    if w'.store != w.store {
      forall x | 0 <= x < |c.reqs| ensures Steady(c.reqs[x], w'.store) {
        assert Steady(c.reqs[x], w.store);
        HolderCounted(c, id);
        if c.reqs[x].lane != WriteRefactor && c.reqs[x].worker.Holding() {
          HolderCounted(c, x);
        }
      }
    }
  }

  lemma {:induction false} ObserveFresh(w: World, id: nat)
    requires Inv(w.core) && Fresh(w)
    ensures Fresh(Next(w, Observes(id)))
  {
    InvIndexed(w.core);
    var c, w' := w.core, Next(w, Observes(id));
    if At(c, id).Calling? {
      assert LocalOk(c.cfg, c.reqs[id]) && Steady(c.reqs[id], w.store);
      assert Observed(w'.core.reqs[id]) == Observed(c.reqs[id]) + [w.store];
      forall k | 0 <= k < |w.callers|
        ensures SeenSince(Observed(w'.core.reqs[w.callers[k].id]), w.callers[k].since)
      {
        assert SeenSince(Observed(c.reqs[w.callers[k].id]), w.callers[k].since);
      }
    }
  }

  lemma {:induction false} ResolveFresh(w: World, id: nat)
    requires Inv(w.core) && Fresh(w)
    ensures Fresh(Next(w, Resolves(id)))
  {
    InvIndexed(w.core);
    var c, w' := w.core, Next(w, Resolves(id));
    if At(c, id).Released? {
      assert LocalOk(c.cfg, c.reqs[id]) && Steady(c.reqs[id], w.store);
      var o' := Observed(w'.core.reqs[id]);
      assert o' == Observed(c.reqs[id]) || o' == [];
      forall k | 0 <= k < |w.callers|
        ensures SeenSince(Observed(w'.core.reqs[w.callers[k].id]), w.callers[k].since)
      {
        assert SeenSince(Observed(c.reqs[w.callers[k].id]), w.callers[k].since);
      }
    }
  }

  lemma {:induction false} NextFresh(w: World, e: Event)
    requires Inv(w.core) && Fresh(w)
    ensures Fresh(Next(w, e))
  {
    if e.Submits? {
      SubmitFresh(w, e);
    } else if e.Mutates? {
      MutateFresh(w, e.id);
    } else if e.Observes? {
      ObserveFresh(w, e.id);
    } else if e.Resolves? {
      ResolveFresh(w, e.id);
    } else {
      NextFramed(w, e);
      NextSize(w, e);
      FramedFresh(w, Next(w, e));
    }
  }

  lemma {:induction false} RunFresh(cfg: Config, events: seq<Event>)
    ensures Fresh(Run(cfg, events))
  {
    if events != [] {
      RunFresh(cfg, events[..|events| - 1]);
      RunInv(cfg, events[..|events| - 1]);
      NextFresh(Run(cfg, events[..|events| - 1]), events[|events| - 1]);
    }
  }

  lemma {:induction false} NextExtends(w: World, e: Event)
    requires Inv(w.core)
    ensures w.store <= Next(w, e).store && w.callers <= Next(w, e).callers
    ensures forall k :: |w.callers| <= k < |Next(w, e).callers| ==> w.store == Next(w, e).callers[k].since
  {
    InvIndexed(w.core);
  }

  /** The store and the list of callers only grow; a caller added later starts from a store at least as new. */
  lemma {:induction false} RunExtends(cfg: Config, pre: seq<Event>, post: seq<Event>)
    ensures Run(cfg, pre).store <= Run(cfg, pre + post).store
    ensures Run(cfg, pre).callers <= Run(cfg, pre + post).callers
    ensures forall k :: |Run(cfg, pre).callers| <= k < |Run(cfg, pre + post).callers| ==>
              Run(cfg, pre).store <= Run(cfg, pre + post).callers[k].since
  {
    if post == [] {
      assert pre + post == pre;
    } else {
      RunExtends(cfg, pre, post[..|post| - 1]);
      RunLast(cfg, pre, post);
      RunInv(cfg, pre + post[..|post| - 1]);
      ExtendsOneMore(Run(cfg, pre), Run(cfg, pre + post[..|post| - 1]), post[|post| - 1]);
    }
  }

  lemma {:induction false} ExtendsOneMore(w0: World, w1: World, e: Event)
    requires Inv(w1.core) && w0.store <= w1.store && w0.callers <= w1.callers
    requires forall k :: |w0.callers| <= k < |w1.callers| ==> w0.store <= w1.callers[k].since
    ensures w0.store <= Next(w1, e).store && w0.callers <= Next(w1, e).callers
    ensures forall k :: |w0.callers| <= k < |Next(w1, e).callers| ==> w0.store <= Next(w1, e).callers[k].since
  {
    NextExtends(w1, e);
    var w2 := Next(w1, e);
    forall k | |w0.callers| <= k < |w2.callers| ensures w0.store <= w2.callers[k].since {
      if k < |w1.callers| {
        assert w2.callers[k] == w1.callers[k];
      }
    }
  }

  /** Single flight keeps reads fresh: whoever submits after the run `pre`, whether its request is new
      or joins one already in flight, only ever receives values computed from the store as it was then or
      later; and everything a read delivers was seen in one and the same version of the store. */
  lemma {:induction false} DeliveredValuesAreFresh(cfg: Config, pre: seq<Event>, post: seq<Event>, k: nat)
    requires |Run(cfg, pre).callers| <= k < |Run(cfg, pre + post).callers|
    ensures var w, c := Run(cfg, pre + post), Run(cfg, pre + post).callers[k];
      && c.id < |w.core.reqs|
      && (w.core.reqs[c.id].future.Resolved? ==>
            && SeenSince(w.core.reqs[c.id].future.outcome.Seen(), Run(cfg, pre).store)
            && (w.core.reqs[c.id].lane != WriteRefactor ==>
                  forall i :: 0 <= i < |w.core.reqs[c.id].future.outcome.Seen()| ==>
                    w.core.reqs[c.id].future.outcome.Seen()[i] == w.core.reqs[c.id].future.outcome.Seen()[0]))
  {
    RunFresh(cfg, pre + post);
    RunExtends(cfg, pre, post);
    var w := Run(cfg, pre + post);
    var c := w.callers[k];
    assert SeenSince(Observed(w.core.reqs[c.id]), c.since);
    assert Steady(w.core.reqs[c.id], w.store);
  }

  /** While a read is between dispatch and release no step changes the store. */
  lemma {:induction false} StoreConstantDuringRead(cfg: Config, events: seq<Event>, e: Event, id: nat)
    requires var c := Run(cfg, events).core;
      id < |c.reqs| && c.reqs[id].lane != WriteRefactor && c.reqs[id].worker.Holding()
    ensures Next(Run(cfg, events), e).store == Run(cfg, events).store
  {
    RunInv(cfg, events);
    var w := Run(cfg, events);
    if e.Mutates? && At(w.core, e.id).Calling? && w.core.reqs[e.id].lane == WriteRefactor {
      WritesRunAlone(cfg, events, e.id, id);
    }
  }

  // ---- every request is answered once ----

  lemma {:induction false} EvolvesChain(a: Request, b: Request, c: Request)
    requires Evolves(a, b) && Evolves(b, c)
    ensures Evolves(a, c)
  {
  }

  lemma {:induction false} RunUnfolds(cfg: Config, events: seq<Event>, before: seq<Event>, last: Event)
    requires events == before + [last]
    ensures Run(cfg, events) == Next(Run(cfg, before), last)
  {
    assert events[..|events| - 1] == before;
  }

  lemma {:induction false} RunLast(cfg: Config, pre: seq<Event>, post: seq<Event>)
    requires post != []
    ensures Run(cfg, pre + post) == Next(Run(cfg, pre + post[..|post| - 1]), post[|post| - 1])
  {
    var before, last := pre + post[..|post| - 1], post[|post| - 1];
    assert pre + post == before + [last];
    RunUnfolds(cfg, pre + post, before, last);
  }

  lemma {:induction false} RunEvolves(cfg: Config, pre: seq<Event>, post: seq<Event>, id: nat)
    requires id < |Run(cfg, pre).core.reqs|
    ensures id < |Run(cfg, pre + post).core.reqs|
    ensures Evolves(Run(cfg, pre).core.reqs[id], Run(cfg, pre + post).core.reqs[id])
  {
    if post == [] {
      assert pre + post == pre;
    } else {
      RunEvolves(cfg, pre, post[..|post| - 1], id);
      RunLast(cfg, pre, post);
      RunInv(cfg, pre + post[..|post| - 1]);
      EvolvesOneMore(Run(cfg, pre), Run(cfg, pre + post[..|post| - 1]), post[|post| - 1], id);
    }
  }

  lemma {:induction false} EvolvesOneMore(w0: World, w1: World, e: Event, id: nat)
    requires Inv(w1.core) && id < |w0.core.reqs| && id < |w1.core.reqs|
    requires Evolves(w0.core.reqs[id], w1.core.reqs[id])
    ensures id < |Next(w1, e).core.reqs| && Evolves(w0.core.reqs[id], Next(w1, e).core.reqs[id])
  {
    NextEvolves(w1, e, id);
    EvolvesChain(w0.core.reqs[id], w1.core.reqs[id], Next(w1, e).core.reqs[id]);
  }

  /** A request's function is called at most once; its future, once done, never changes; and the value
      it is given is the one its own worker brought back. */
  lemma {:induction false} AnsweredOnce(cfg: Config, pre: seq<Event>, post: seq<Event>, id: nat)
    requires id < |Run(cfg, pre).core.reqs|
    ensures id < |Run(cfg, pre + post).core.reqs|
    ensures var r, r' := Run(cfg, pre).core.reqs[id], Run(cfg, pre + post).core.reqs[id];
      && r'.calls <= 1
      && (r.future.Done() ==> r'.future == r.future)
      && (HasResult(r.worker) && !r.future.Done() && r'.future.Resolved? ==> r'.future.outcome == r.worker.result)
  {
    RunInv(cfg, pre + post);
    RunEvolves(cfg, pre, post, id);
    var c := Run(cfg, pre + post).core;
    assert LocalOk(c.cfg, c.reqs[id]);
  }

  /** A write that was dispatched is never cancelled and never times out: its future runs until it
      holds the outcome of the one call of its function. */
  lemma {:induction false} StartedWriteKeepsItsOutcome(cfg: Config, events: seq<Event>, id: nat)
    requires var c := Run(cfg, events).core;
      id < |c.reqs| && c.reqs[id].lane == WriteRefactor && !c.reqs[id].worker.Idle?
    ensures var r := Run(cfg, events).core.reqs[id];
      && !r.cancelled
      && if r.worker.Exited? then r.future.Resolved? && !r.future.outcome.NotCalled? && r.calls == 1
         else r.future.Running?
  {
    RunInv(cfg, events);
    var c := Run(cfg, events).core;
    assert LocalOk(c.cfg, c.reqs[id]);
  }

  /** When no request is queued and no worker is under way, every future is done. */
  lemma {:induction false} DrainedRunAnswersEveryone(cfg: Config, events: seq<Event>, id: nat)
    requires var c := Run(cfg, events).core;
      && c.queues == PerLane([], [], [])
      && (forall x :: 0 <= x < |c.reqs| ==> c.reqs[x].worker.Idle? || c.reqs[x].worker.Exited?)
      && id < |c.reqs|
    ensures Run(cfg, events).core.reqs[id].future.Done()
  {
    RunInv(cfg, events);
    var c := Run(cfg, events).core;
    assert LocalOk(c.cfg, c.reqs[id]);
    assert !Queued(c, id);
  }

  // ---- the books balance ----

  ghost function QueuedSet(c: Core): set<nat> {
    set id: nat | id < |c.reqs| && Queued(c, id)
  }

  /** Requests that left their queue without a worker: expired there, or cancelled by their caller and skipped. */
  ghost function ExpiredInQueue(c: Core): set<nat> {
    set id: nat | id < |c.reqs| && c.reqs[id].worker.Idle? && c.reqs[id].future.TimedOut?
  }

  ghost function ExpiredRunning(c: Core): set<nat> {
    set id: nat | id < |c.reqs| && !c.reqs[id].worker.Idle? && c.reqs[id].future.TimedOut?
  }

  ghost function Skipped(c: Core): set<nat> {
    set id: nat | id < |c.reqs| && c.reqs[id].worker.Idle? && c.reqs[id].future.Cancelled?
                  && !c.reqs[id].cancelled && !Queued(c, id)
  }

  lemma {:induction false} IncreasingSize(queue: seq<nat>)
    requires forall i, j :: 0 <= i < j < |queue| ==> queue[i] < queue[j]
    ensures |Elems(queue)| == |queue|
  {
    if queue == [] {
      assert Elems(queue) == {};
    } else {
      var last, rest := queue[|queue| - 1], queue[..|queue| - 1];
      IncreasingSize(rest);
      assert queue == rest + [last];
      assert Elems(queue) == Elems(rest) + {last};
      assert last !in rest;
    }
  }

  lemma {:induction false} Peel(whole: set<nat>, part: set<nat>)
    requires part <= whole
    ensures |whole - part| == |whole| - |part|
  {
    assert whole == (whole - part) + part;
  }

  lemma {:induction false} QueuedMembers(c: Core, lane: Lane)
    requires Inv(c)
    ensures |Elems(c.queues.Get(lane))| == |c.queues.Get(lane)|
    ensures forall x: nat :: x in Elems(c.queues.Get(lane)) <==> Queued(c, x) && c.reqs[x].lane == lane
  {
    assert QueueOk(c.reqs, c.queues.Get(lane), lane);
    IncreasingSize(c.queues.Get(lane));
  }

  lemma {:induction false} QueuedSize(c: Core)
    requires Inv(c)
    ensures |QueuedSet(c)| == |c.queues.fast| + |c.queues.semantic| + |c.queues.write|
  {
    var f, s, w := Elems(c.queues.Get(FastRead)), Elems(c.queues.Get(SemanticRead)), Elems(c.queues.Get(WriteRefactor));
    QueuedMembers(c, FastRead);
    QueuedMembers(c, SemanticRead);
    QueuedMembers(c, WriteRefactor);
    Peel(QueuedSet(c), f);
    Peel(QueuedSet(c) - f, s);
    assert QueuedSet(c) - f - s == w;
  }

  ghost function Upto(n: nat): (s: set<nat>)
    ensures |s| == n
    ensures forall x: nat :: x in s <==> x < n
  {
    if n == 0 then {} else Upto(n - 1) + {n - 1}
  }

  /** Every accepted request is accounted for exactly once, by the scheduler's own counters. */
  lemma {:induction false} BooksBalance(cfg: Config, events: seq<Event>)
    ensures var c := Run(cfg, events).core;
      && |c.reqs| == |c.queues.fast| + |c.queues.semantic| + |c.queues.write|
                     + c.dispatched + c.cancels + |ExpiredInQueue(c)| + |Skipped(c)|
      && c.timeouts == |ExpiredInQueue(c)| + |ExpiredRunning(c)|
  {
    RunInv(cfg, events);
    var c := Run(cfg, events).core;
    Balance(c);
  }

  datatype Fate = InQueue | Dispatched | CancelledInQueue | TimedOutInQueue | SkippedByDispatch

  /** The five fates of an accepted request. */
  ghost function FateOf(c: Core, id: nat): Fate
    requires id < |c.reqs|
  {
    var r := c.reqs[id];
    if !r.worker.Idle? then Dispatched
    else if Queued(c, id) then InQueue
    else if r.future.TimedOut? then TimedOutInQueue
    else if r.cancelled then CancelledInQueue
    else SkippedByDispatch
  }

  ghost function FateSet(c: Core, fate: Fate): set<nat> {
    set id: nat | id < |c.reqs| && FateOf(c, id) == fate
  }

  lemma {:induction false} FateSets(c: Core)
    requires Inv(c)
    ensures FateSet(c, InQueue) == QueuedSet(c) && FateSet(c, Dispatched) == Ids(c.reqs, Started)
    ensures FateSet(c, CancelledInQueue) == Ids(c.reqs, Withdrawn)
    ensures FateSet(c, TimedOutInQueue) == ExpiredInQueue(c) && FateSet(c, SkippedByDispatch) == Skipped(c)
  {
    forall id: nat | id < |c.reqs|
      ensures Queued(c, id) ==> Waiting(c.reqs[id], c.reqs[id].lane)
      ensures LocalOk(c.cfg, c.reqs[id])
    {
      assert QueueOk(c.reqs, c.queues.Get(c.reqs[id].lane), c.reqs[id].lane);
    }
    assert Ids(c.reqs, Started) == FateSet(c, Dispatched);
    assert Ids(c.reqs, Withdrawn) == FateSet(c, CancelledInQueue);
  }

  lemma {:induction false} FiveParts(a: set<nat>, b: set<nat>, c: set<nat>, d: set<nat>, e: set<nat>)
    requires a !! b && a !! c && a !! d && a !! e && b !! c && b !! d && b !! e && c !! d && c !! e && d !! e
    ensures |a + b + c + d + e| == |a| + |b| + |c| + |d| + |e|
  {
    assert a + b !! c && a + b + c !! d && a + b + c + d !! e;
  }

  lemma {:induction false} FateSizes(c: Core)
    ensures |c.reqs| == |FateSet(c, InQueue)| + |FateSet(c, Dispatched)| + |FateSet(c, CancelledInQueue)|
                        + |FateSet(c, TimedOutInQueue)| + |FateSet(c, SkippedByDispatch)|
  {
    forall f, g: Fate | f != g ensures FateSet(c, f) !! FateSet(c, g) {
    }
    FiveParts(FateSet(c, InQueue), FateSet(c, Dispatched), FateSet(c, CancelledInQueue),
              FateSet(c, TimedOutInQueue), FateSet(c, SkippedByDispatch));
    forall x: nat | x < |c.reqs| ensures x in FateSet(c, FateOf(c, x)) {
    }
    assert Upto(|c.reqs|) == FateSet(c, InQueue) + FateSet(c, Dispatched) + FateSet(c, CancelledInQueue)
                             + FateSet(c, TimedOutInQueue) + FateSet(c, SkippedByDispatch);
  }

  lemma {:induction false} Balance(c: Core)
    requires Inv(c)
    ensures |c.reqs| == |c.queues.fast| + |c.queues.semantic| + |c.queues.write|
                        + c.dispatched + c.cancels + |ExpiredInQueue(c)| + |Skipped(c)|
    ensures c.timeouts == |ExpiredInQueue(c)| + |ExpiredRunning(c)|
  {
    QueuedSize(c);
    FateSets(c);
    FateSizes(c);
    assert CountOf(c, Started) == |Ids(c.reqs, Started)| && CountOf(c, Withdrawn) == |Ids(c.reqs, Withdrawn)|;
    assert CountOf(c, Expired) == |Ids(c.reqs, Expired)|;
    assert Ids(c.reqs, Expired) == ExpiredInQueue(c) + ExpiredRunning(c);
  }

  // ---- deadlines ----

  /** Whenever the deadline thread goes to sleep at `now`, no request that it could still expire has a
      deadline at or before `now`; in particular no request waiting in a queue has. */
  lemma {:induction false} NothingOverdueAtSleep(cfg: Config, events: seq<Event>, now: real, id: nat)
    requires var c := Run(cfg, events).core;
      && Sleeps(c, now) && id < |c.reqs| && !c.reqs[id].future.Done()
      && (Queued(c, id) || c.reqs[id].lane != WriteRefactor)
    ensures now < Run(cfg, events).core.reqs[id].deadline
  {
    RunInv(cfg, events);
    var c := Run(cfg, events).core;
    SleepMeansNothingDue(c, now);
    assert QueueOk(c.reqs, c.queues.Get(c.reqs[id].lane), c.reqs[id].lane);
  }

  // ---- the configuration is fixed ----

  lemma {:induction false} TryDispatchConfig(c: Core, lane: Lane)
    requires Indexed(c)
    ensures TryDispatch(c, lane).cfg == c.cfg
    decreases |c.queues.Get(lane)|
  {
    if CanDispatch(c, lane) {
      TryDispatchConfig(DispatchOne(c, lane), lane);
    }
  }

  lemma {:induction false} NextConfig(w: World, e: Event)
    requires Inv(w.core)
    ensures Next(w, e).core.cfg == w.core.cfg
  {
    InvIndexed(w.core);
    var c := w.core;
    match e {
      case Submits(key, timeout, now) =>
        if SubmitAnswer(c, key).Accepted? {
          EnqueueIndexed(c, key, timeout, now);
          TryDispatchConfig(Enqueue(c, key, timeout, now), Classify(c.cfg, key.tool));
        }
      case Releases(id) =>
        if At(c, id).Back? {
          TryDispatchIndexed(Finish(c, id), WriteRefactor);
          TryDispatchConfig(Finish(c, id), WriteRefactor);
          var c1 := TryDispatch(Finish(c, id), WriteRefactor);
          TryDispatchIndexed(c1, FastRead);
          TryDispatchConfig(c1, FastRead);
          TryDispatchConfig(TryDispatch(c1, FastRead), SemanticRead);
        }
      case DeadlineWakes(now) =>
        PopDoneKeeps(c);
        var c1 := PopDone(c);
        if Due(c1, now) && !TimeoutIgnored(c1.reqs[c1.deadlines[0].1]) {
          var c2 := c1.(deadlines := c1.deadlines[1..]);
          ExpireIndexed(c2, c1.deadlines[0].1);
          TryDispatchConfig(Expire(c2, c1.deadlines[0].1), c1.reqs[c1.deadlines[0].1].lane);
        }
      case Cancels(id) =>
        if Cancellable(c, id) {
          WithdrawIndexed(c, id);
          TryDispatchConfig(Withdraw(c, id), QueueOf(c, id));
        }
      case _ =>
    }
  }

  lemma {:induction false} RunConfig(cfg: Config, events: seq<Event>)
    ensures Run(cfg, events).core.cfg == cfg
  {
    if events != [] {
      RunConfig(cfg, events[..|events| - 1]);
      RunInv(cfg, events[..|events| - 1]);
      NextConfig(Run(cfg, events[..|events| - 1]), events[|events| - 1]);
    }
  }
}
