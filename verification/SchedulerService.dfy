/** What the scheduler does for its callers: identical reads share one run, lanes keep to their limits, deadlines and
    cancellations take effect when they should and not before. Stated over requests, futures and workers. */
module SchedulerService {
  import opened Scheduler
  import opened SchedulerInvariants
  import opened SchedulerRuns
  import opened SchedulerTheorems
  import DeadlineThread

  // ---- single flight ----

  /** A read whose future is not done and whose worker has not left the lane. */
  predicate Live(c: Core, id: nat) {
    && id < |c.reqs| && c.reqs[id].lane != WriteRefactor && !c.reqs[id].future.Done()
    && (c.reqs[id].worker.Idle? || c.reqs[id].worker.Holding())
  }

  predicate Named(c: Core, id: nat)
    requires id < |c.reqs|
  {
    c.reqs[id].key in c.inFlight && c.inFlight[c.reqs[id].key] == id
  }

  /** Every live read is the one that the single-flight table names for its key. */
  ghost predicate AllNamed(c: Core) {
    forall id: nat :: Live(c, id) ==> Named(c, id)
  }

  /** A step that brings no read to life and takes no live one out of the table. */
  lemma {:induction false} StillNamed(c: Core, c': Core)
    requires AllNamed(c)
    requires forall id: nat :: Live(c', id) ==> Live(c, id) && c'.reqs[id].key == c.reqs[id].key
    requires forall id: nat :: Live(c', id) && Named(c, id) ==> Named(c', id)
    ensures AllNamed(c')
  {
  }

  lemma {:induction false} DispatchOneNamed(c: Core, lane: Lane)
    requires Inv(c) && Indexed(c) && CanDispatch(c, lane) && AllNamed(c)
    ensures AllNamed(DispatchOne(c, lane))
  {
    assert QueueOk(c.reqs, c.queues.Get(lane), lane);
    StillNamed(c, DispatchOne(c, lane));
  }

  lemma {:induction false} TryDispatchNamed(c: Core, lane: Lane)
    requires Inv(c) && Indexed(c) && AllNamed(c)
    ensures AllNamed(TryDispatch(c, lane))
    decreases |c.queues.Get(lane)|
  {
    if CanDispatch(c, lane) {
      DispatchOneInv(c, lane);
      DispatchOneNamed(c, lane);
      TryDispatchNamed(DispatchOne(c, lane), lane);
    }
  }

  predicate LiveWith(c: Core, id: nat, key: Key) {
    Live(c, id) && c.reqs[id].key == key
  }

  /** A submit joins exactly the live read of its key. */
  lemma {:induction false} JoinsIff(c: Core, key: Key, id: nat)
    requires Inv(c) && Indexed(c) && AllNamed(c)
    ensures SubmitAnswer(c, key) == Joined(id) <==> LiveWith(c, id, key)
  {
    if SubmitAnswer(c, key).Joined? {
      assert InProgress(c, c.inFlight[key]) && LocalOk(c.cfg, c.reqs[c.inFlight[key]]);
    }
    if LiveWith(c, id, key) {
      assert Named(c, id) && LocalOk(c.cfg, c.reqs[id]);
    }
  }

  lemma {:induction false} EnqueueNamed(c: Core, key: Key, timeout: real, now: real)
    requires Inv(c) && Indexed(c) && AllNamed(c) && SubmitAnswer(c, key).Accepted?
    ensures AllNamed(Enqueue(c, key, timeout, now))
  {
    var c' := Enqueue(c, key, timeout, now);
    forall id: nat | Live(c', id) ensures Named(c', id) {
      if id < |c.reqs| {
        JoinsIff(c, key, id);
        assert Live(c, id) && Named(c, id);
      }
    }
  }

  lemma {:induction false} SubmitNamed(c: Core, key: Key, timeout: real, now: real)
    requires Inv(c) && Indexed(c) && AllNamed(c)
    ensures AllNamed(Submit(c, key, timeout, now))
  {
    if SubmitAnswer(c, key).Accepted? {
      EnqueueNamed(c, key, timeout, now);
      EnqueueInv(c, key, timeout, now);
      InvIndexed(Enqueue(c, key, timeout, now));
      TryDispatchNamed(Enqueue(c, key, timeout, now), Classify(c.cfg, key.tool));
    } else {
      StillNamed(c, Submit(c, key, timeout, now));
    }
  }

  lemma {:induction false} DeadlinePassNamed(c: Core, now: real)
    requires Inv(c) && Indexed(c) && AllNamed(c)
    ensures AllNamed(DeadlinePass(c, now))
  {
    PopDoneInv(c);
    PopDoneKeeps(c);
    StillNamed(c, PopDone(c));
    if Due(PopDone(c), now) {
      DueNamed(PopDone(c));
    }
  }

  /** The earliest deadline is taken off the heap and its request expires. */
  lemma {:induction false} DueNamed(c: Core)
    requires Inv(c) && Indexed(c) && AllNamed(c) && c.deadlines != []
    ensures var id, c' := c.deadlines[0].1, c.(deadlines := c.deadlines[1..]);
      AllNamed(c') && Indexed(c') && AllNamed(Timeout(c', id))
  {
    var id, c' := c.deadlines[0].1, c.(deadlines := c.deadlines[1..]);
    StillNamed(c, c');
    if !TimeoutIgnored(c.reqs[id]) {
      DueExpiryInv(c);
      ExpireNamed(c', id);
      TryDispatchNamed(Expire(c', id), c.reqs[id].lane);
    }
  }

  lemma {:induction false} ExpireNamed(c: Core, id: nat)
    requires Indexed(c) && id < |c.reqs| && AllNamed(c)
    ensures AllNamed(Expire(c, id))
  {
    StillNamed(c, Expire(c, id));
  }

  lemma {:induction false} CancelNamed(c: Core, id: nat)
    requires Inv(c) && Indexed(c) && AllNamed(c)
    ensures AllNamed(Cancel(c, id))
  {
    if Cancellable(c, id) {
      assert QueueOk(c.reqs, c.queues.Get(QueueOf(c, id)), QueueOf(c, id));
      WithdrawInv(c, id);
      InvIndexed(Withdraw(c, id));
      StillNamed(c, Withdraw(c, id));
      TryDispatchNamed(Withdraw(c, id), QueueOf(c, id));
    }
  }

  lemma {:induction false} ReleaseNamed(c: Core, id: nat)
    requires Inv(c) && Indexed(c) && AllNamed(c) && id < |c.reqs| && c.reqs[id].worker.Back?
    ensures AllNamed(Release(c, id))
  {
    FinishInv(c, id);
    InvIndexed(Finish(c, id));
    StillNamed(c, Finish(c, id));
    TryDispatchNamed(Finish(c, id), WriteRefactor);
    TryDispatchInv(Finish(c, id), WriteRefactor);
    var c1 := TryDispatch(Finish(c, id), WriteRefactor);
    TryDispatchNamed(c1, FastRead);
    TryDispatchInv(c1, FastRead);
    TryDispatchNamed(TryDispatch(c1, FastRead), SemanticRead);
  }

  lemma {:induction false} WorkerNamed(w: World, e: Event)
    requires Inv(w.core) && Indexed(w.core) && AllNamed(w.core)
    requires !e.Submits? && !e.Releases? && !e.DeadlineWakes? && !e.Cancels?
    ensures AllNamed(Next(w, e).core)
  {
    StillNamed(w.core, Next(w, e).core);
  }

  lemma {:induction false} NextNamed(w: World, e: Event)
    requires Inv(w.core) && AllNamed(w.core)
    ensures AllNamed(Next(w, e).core)
  {
    InvIndexed(w.core);
    match e {
      case Submits(key, timeout, now) => SubmitNamed(w.core, key, timeout, now);
      case Releases(id) => if At(w.core, id).Back? { ReleaseNamed(w.core, id); }
      case DeadlineWakes(now) => DeadlinePassNamed(w.core, now);
      case Cancels(id) => CancelNamed(w.core, id);
      case _ => WorkerNamed(w, e);
    }
  }

  /** In every run the single-flight table names every live read. */
  lemma {:induction false} RunNamed(cfg: Config, events: seq<Event>)
    ensures AllNamed(Run(cfg, events).core)
  {
    if events != [] {
      RunInv(cfg, events[..|events| - 1]);
      RunNamed(cfg, events[..|events| - 1]);
      NextNamed(Run(cfg, events[..|events| - 1]), events[|events| - 1]);
    }
  }

  /** Identical reads never run or wait twice at the same time. */
  lemma {:induction false} SingleFlight(cfg: Config, events: seq<Event>, id: nat, other: nat)
    requires Live(Run(cfg, events).core, id) && Live(Run(cfg, events).core, other)
    requires Run(cfg, events).core.reqs[id].key == Run(cfg, events).core.reqs[other].key
    ensures id == other
  {
    RunNamed(cfg, events);
    assert Named(Run(cfg, events).core, id) && Named(Run(cfg, events).core, other);
  }

  /** A submit of the key of a live read returns that read's future and adds nothing. */
  lemma {:induction false} SubmitJoinsLiveRead(
    cfg: Config, events: seq<Event>, id: nat, timeout: real, now: real)
    requires Live(Run(cfg, events).core, id)
    ensures var w := Run(cfg, events);
      var w' := Run(cfg, events + [Submits(w.core.reqs[id].key, timeout, now)]);
      w' == w.(callers := w.callers + [Caller(id, w.store)])
  {
    var w := Run(cfg, events);
    var e := Submits(w.core.reqs[id].key, timeout, now);
    RunNamed(cfg, events);
    RunInv(cfg, events);
    JoinsIff(w.core, e.key, id);
    assert (events + [e])[..|events|] == events;
  }

  /** Otherwise it is refused when as many requests wait in its lane as may, with nothing but the count of refusals
      changed, and else opens one new request, with its own deadline, whose future it returns. */
  lemma {:induction false} SubmitOpensRequest(cfg: Config, events: seq<Event>, key: Key, timeout: real, now: real)
    requires forall id: nat :: !LiveWith(Run(cfg, events).core, id, key)
    ensures var w := Run(cfg, events); var w' := Run(cfg, events + [Submits(key, timeout, now)]);
      var lane, n := Classify(cfg, key.tool), |w.core.reqs|;
      if |w.core.queues.Get(lane)| >= cfg.lanes.Get(lane).maxQueue
      then w' == w.(core := w.core.(rejected := w.core.rejected + 1))
      else
        && w'.callers == w.callers + [Caller(n, w.store)] && |w'.core.reqs| == n + 1
        && w'.core.rejected == w.core.rejected
        && w'.core.reqs[n].key == key && w'.core.reqs[n].lane == lane && w'.core.reqs[n].calls == 0
        && w'.core.reqs[n].deadline == now + (if timeout != 0.0 then timeout else cfg.lanes.Get(lane).timeout)
        && !w'.core.reqs[n].future.Done() && !w'.core.reqs[n].cancelled
  {
    var w := Run(cfg, events);
    var c, e := w.core, Submits(key, timeout, now);
    RunNamed(cfg, events);
    RunInv(cfg, events);
    RunConfig(cfg, events);
    assert (events + [e])[..|events|] == events;
    if SubmitAnswer(c, key).Joined? {
      JoinsIff(c, key, SubmitAnswer(c, key).id);
    } else if SubmitAnswer(c, key).Accepted? {
      EnqueueInv(c, key, timeout, now);
      InvIndexed(Enqueue(c, key, timeout, now));
      NewRequestStays(Enqueue(c, key, timeout, now), Classify(cfg, key.tool), |c.reqs|);
    }
  }

  /** Dispatching leaves a waiting request waiting or hands it to a worker. */
  lemma {:induction false} NewRequestStays(c: Core, lane: Lane, id: nat)
    requires Indexed(c) && id < |c.reqs| && !c.reqs[id].future.Done() && !c.reqs[id].cancelled
    ensures var c' := TryDispatch(c, lane);
      && |c'.reqs| == |c.reqs| && c'.rejected == c.rejected
      && c'.reqs[id] == c.reqs[id].(future := c'.reqs[id].future, worker := c'.reqs[id].worker)
      && !c'.reqs[id].future.Done()
    decreases |c.queues.Get(lane)|
  {
    if CanDispatch(c, lane) {
      NewRequestStays(DispatchOne(c, lane), lane, id);
    }
  }

  // ---- the limits of the lanes ----

  function Limit(cfg: Config, lane: Lane): nat {
    if cfg.lanes.Get(lane).maxConcurrent < 0 then 0 else cfg.lanes.Get(lane).maxConcurrent
  }

  /** The requests of a lane between dispatch and release. */
  ghost function RunningIn(c: Core, lane: Lane): set<nat> {
    Ids(c.reqs, Holders(lane))
  }

  predicate WithinLimits(c: Core) {
    forall lane :: c.active.Get(lane) <= Limit(c.cfg, lane)
  }

  lemma {:induction false} TryDispatchLimits(c: Core, lane: Lane)
    requires Indexed(c) && WithinLimits(c)
    ensures WithinLimits(TryDispatch(c, lane)) && Indexed(TryDispatch(c, lane))
    decreases |c.queues.Get(lane)|
  {
    if CanDispatch(c, lane) {
      TryDispatchLimits(DispatchOne(c, lane), lane);
    }
  }

  lemma {:induction false} SameLimits(c: Core, c': Core)
    requires WithinLimits(c) && c'.cfg == c.cfg && forall lane :: c'.active.Get(lane) <= c.active.Get(lane)
    ensures WithinLimits(c')
  {
  }

  lemma {:induction false} NextLimits(w: World, e: Event)
    requires Inv(w.core) && WithinLimits(w.core)
    ensures WithinLimits(Next(w, e).core)
  {
    InvIndexed(w.core);
    var c := w.core;
    match e {
      case Submits(key, timeout, now) =>
        if SubmitAnswer(c, key).Accepted? {
          EnqueueIndexed(c, key, timeout, now);
          SameLimits(c, Enqueue(c, key, timeout, now));
          TryDispatchLimits(Enqueue(c, key, timeout, now), Classify(c.cfg, key.tool));
        }
      case Releases(id) =>
        if At(c, id).Back? {
          SameLimits(c, Finish(c, id));
          TryDispatchLimits(Finish(c, id), WriteRefactor);
          var c1 := TryDispatch(Finish(c, id), WriteRefactor);
          TryDispatchLimits(c1, FastRead);
          TryDispatchLimits(TryDispatch(c1, FastRead), SemanticRead);
        }
      case DeadlineWakes(now) =>
        PopDoneKeeps(c);
        var c1 := PopDone(c);
        if Due(c1, now) && !TimeoutIgnored(c1.reqs[c1.deadlines[0].1]) {
          var c2 := c1.(deadlines := c1.deadlines[1..]);
          ExpireIndexed(c2, c1.deadlines[0].1);
          SameLimits(c, Expire(c2, c1.deadlines[0].1));
          TryDispatchLimits(Expire(c2, c1.deadlines[0].1), c1.reqs[c1.deadlines[0].1].lane);
        } else {
          SameLimits(c, DeadlinePass(c, now));
        }
      case Cancels(id) =>
        if Cancellable(c, id) {
          WithdrawIndexed(c, id);
          SameLimits(c, Withdraw(c, id));
          TryDispatchLimits(Withdraw(c, id), QueueOf(c, id));
        }
      case _ => SameLimits(c, Next(w, e).core);
    }
  }

  lemma {:induction false} RunLimits(cfg: Config, events: seq<Event>)
    ensures WithinLimits(Run(cfg, events).core)
  {
    if events != [] {
      RunInv(cfg, events[..|events| - 1]);
      RunLimits(cfg, events[..|events| - 1]);
      NextLimits(Run(cfg, events[..|events| - 1]), events[|events| - 1]);
    }
  }

  /** In every run at most `maxConcurrent` requests of a lane are between dispatch and release. */
  lemma {:induction false} LanesKeepTheirLimits(cfg: Config, events: seq<Event>, lane: Lane)
    ensures |RunningIn(Run(cfg, events).core, lane)| <= Limit(cfg, lane)
  {
    RunInv(cfg, events);
    RunLimits(cfg, events);
    RunConfig(cfg, events);
    var c := Run(cfg, events).core;
    assert CountOf(c, Holders(lane)) == |Ids(c.reqs, Holders(lane))|;
    assert c.active.Get(lane) <= Limit(c.cfg, lane);
  }

  /** Dispatching a lane leaves nothing waiting that might run: its queue is empty, or its limit is reached, or a write
      waits for others to finish, or a read for a write. */
  lemma {:induction false} DispatchUsesTheLane(c: Core, lane: Lane)
    requires Inv(c) && Indexed(c)
    ensures var c' := TryDispatch(c, lane);
      || c'.queues.Get(lane) == []
      || |RunningIn(c', lane)| >= Limit(c.cfg, lane)
      || (if lane == WriteRefactor then exists l :: RunningIn(c', l) != {}
          else RunningIn(c', WriteRefactor) != {} || c'.queues.write != [])
    decreases |c.queues.Get(lane)|
  {
    if CanDispatch(c, lane) {
      DispatchOneInv(c, lane);
      DispatchUsesTheLane(DispatchOne(c, lane), lane);
    } else {
      assert forall l :: CountOf(c, Holders(l)) == |RunningIn(c, l)|;
      assert CountOf(c, Holders(lane)) == |RunningIn(c, lane)|;
      assert CountOf(c, Holders(FastRead)) == |RunningIn(c, FastRead)|;
      assert CountOf(c, Holders(SemanticRead)) == |RunningIn(c, SemanticRead)|;
      assert CountOf(c, Holders(WriteRefactor)) == |RunningIn(c, WriteRefactor)|;
    }
  }

  /** A tool that nobody has classified runs alone. */
  lemma {:induction false} UnknownToolsRunAlone(cfg: Config, events: seq<Event>, id: nat, other: nat)
    requires var c := Run(cfg, events).core;
      && id < |c.reqs| && other < |c.reqs| && id != other
      && c.reqs[id].key.tool !in cfg.toolLanes && c.reqs[id].worker.Holding()
    ensures !Run(cfg, events).core.reqs[other].worker.Holding()
  {
    RunInv(cfg, events);
    RunConfig(cfg, events);
    assert LocalOk(cfg, Run(cfg, events).core.reqs[id]);
    WritesRunAlone(cfg, events, id, other);
  }

  // ---- deadlines ----

  /** A request times out only in a pass of the deadline thread at or after its deadline. */
  lemma {:induction false} NothingExpiresEarly(cfg: Config, events: seq<Event>, e: Event, id: nat)
    requires var c, c' := Run(cfg, events).core, Run(cfg, events + [e]).core;
      id < |c'.reqs| && c'.reqs[id].future.TimedOut? && !(id < |c.reqs| && c.reqs[id].future.TimedOut?)
    ensures e.DeadlineWakes? && id < |Run(cfg, events).core.reqs| && Run(cfg, events).core.reqs[id].deadline <= e.now
  {
    var w := Run(cfg, events);
    RunInv(cfg, events);
    assert (events + [e])[..|events|] == events;
    if !e.DeadlineWakes? {
      DeadlineThread.NextExpiresNone(w, e);
    } else {
      PassExpiresDue(w.core, e.now, id);
    }
  }

  lemma {:induction false} PassExpiresDue(c: Core, now: real, id: nat)
    requires Inv(c) && Indexed(c) && id < |DeadlinePass(c, now).reqs|
    requires DeadlinePass(c, now).reqs[id].future.TimedOut? && !(id < |c.reqs| && c.reqs[id].future.TimedOut?)
    ensures id < |c.reqs| && c.reqs[id].deadline <= now
  {
    PopDoneInv(c);
    PopDoneKeeps(c);
    var c1 := PopDone(c);
    if Due(c1, now) && !TimeoutIgnored(c1.reqs[c1.deadlines[0].1]) {
      var due, c2 := c1.deadlines[0].1, c1.(deadlines := c1.deadlines[1..]);
      DueExpiryInv(c1);
      DeadlineThread.TryDispatchExpiresNone(Expire(c2, due), c1.reqs[due].lane);
      assert c1.deadlines[0].0 == c1.reqs[due].deadline;
    }
  }

  /** The passes of the deadline thread between two of its sleeps, all at `now`. */
  function Passes(now: real, n: nat): seq<Event> {
    if n == 0 then [] else Passes(now, n - 1) + [DeadlineWakes(now)]
  }

  lemma {:induction false} PassShortensHeap(c: Core, now: real)
    requires Inv(c) && Indexed(c)
    ensures |DeadlinePass(c, now).deadlines| <= |c.deadlines|
    ensures Sleeps(c, now) || |DeadlinePass(c, now).deadlines| < |c.deadlines|
    ensures Sleeps(c, now) ==> Sleeps(DeadlinePass(c, now), now)
  {
    PopDoneInv(c);
    PopDoneKeeps(c);
    PopDoneShortens(c);
    var c1 := PopDone(c);
    if Due(c1, now) && !TimeoutIgnored(c1.reqs[c1.deadlines[0].1]) {
      var c2 := c1.(deadlines := c1.deadlines[1..]);
      DueExpiryInv(c1);
      DispatchKeepsHeap(Expire(c2, c1.deadlines[0].1), c1.reqs[c1.deadlines[0].1].lane);
    }
  }

  lemma {:induction false} PopDoneShortens(c: Core)
    requires Indexed(c)
    ensures Indexed(PopDone(c)) && |PopDone(c).deadlines| <= |c.deadlines| && PopDone(PopDone(c)) == PopDone(c)
    decreases |c.deadlines|
  {
    if c.deadlines != [] && c.reqs[c.deadlines[0].1].future.Done() {
      PopDoneShortens(c.(deadlines := c.deadlines[1..]));
    }
  }

  lemma {:induction false} DispatchKeepsHeap(c: Core, lane: Lane)
    requires Indexed(c)
    ensures TryDispatch(c, lane).deadlines == c.deadlines
    decreases |c.queues.Get(lane)|
  {
    if CanDispatch(c, lane) {
      DispatchKeepsHeap(DispatchOne(c, lane), lane);
    }
  }

  lemma {:induction false} OneMorePass(cfg: Config, events: seq<Event>, now: real, n: nat)
    requires n > 0 && Indexed(Run(cfg, events + Passes(now, n - 1)).core)
    ensures Run(cfg, events + Passes(now, n)).core == DeadlinePass(Run(cfg, events + Passes(now, n - 1)).core, now)
  {
    var before := events + Passes(now, n - 1);
    assert events + Passes(now, n) == before + [DeadlineWakes(now)];
    assert (before + [DeadlineWakes(now)])[..|before|] == before;
  }

  lemma {:induction false} PassBound(c: Core, now: real, n: nat, bound: nat)
    requires Inv(c) && Indexed(c) && n > 0 && (Sleeps(c, now) || |c.deadlines| + n - 1 <= bound)
    ensures var c' := DeadlinePass(c, now); Sleeps(c', now) || |c'.deadlines| + n <= bound
  {
    PassShortensHeap(c, now);
  }

  function AfterPasses(cfg: Config, events: seq<Event>, now: real, n: nat): Core {
    Run(cfg, events + Passes(now, n)).core
  }

  lemma {:induction false} NoPass(cfg: Config, events: seq<Event>, now: real)
    ensures AfterPasses(cfg, events, now, 0) == Run(cfg, events).core
  {
    assert events + Passes(now, 0) == events;
  }

  lemma {:induction false} NextPass(cfg: Config, events: seq<Event>, now: real, n: nat)
    requires n > 0
    ensures var c := AfterPasses(cfg, events, now, n - 1);
      Inv(c) && Indexed(c) && AfterPasses(cfg, events, now, n) == DeadlinePass(c, now)
  {
    RunInv(cfg, events + Passes(now, n - 1));
    OneMorePass(cfg, events, now, n);
  }

  lemma {:induction false} PassesEndAsleep(cfg: Config, events: seq<Event>, now: real, n: nat, bound: nat)
    requires bound == |Run(cfg, events).core.deadlines|
    ensures var c' := AfterPasses(cfg, events, now, n); Sleeps(c', now) || |c'.deadlines| + n <= bound
  {
    if n == 0 {
      NoPass(cfg, events, now);
    } else {
      PassesEndAsleep(cfg, events, now, n - 1, bound);
      OnePassOn(cfg, events, now, n, bound);
    }
  }

  lemma {:induction false} OnePassOn(cfg: Config, events: seq<Event>, now: real, n: nat, bound: nat)
    requires n > 0
    requires var c := AfterPasses(cfg, events, now, n - 1); Sleeps(c, now) || |c.deadlines| + n - 1 <= bound
    ensures var c' := AfterPasses(cfg, events, now, n); Sleeps(c', now) || |c'.deadlines| + n <= bound
  {
    NextPass(cfg, events, now, n);
    PassBound(AfterPasses(cfg, events, now, n - 1), now, n, bound);
  }

  /** Once the deadline thread has run at `now` often enough to go to sleep, every request due by then is answered,
      but for writes that have started. */
  lemma {:induction false} DueRequestsAreAnswered(cfg: Config, events: seq<Event>, now: real, n: nat, id: nat)
    requires n > |Run(cfg, events).core.deadlines|
    requires var c' := Run(cfg, events + Passes(now, n)).core;
      id < |c'.reqs| && c'.reqs[id].deadline <= now
      && !(c'.reqs[id].lane == WriteRefactor && c'.reqs[id].future.Running?)
    ensures Run(cfg, events + Passes(now, n)).core.reqs[id].future.Done()
  {
    PassesEndAsleep(cfg, events, now, n, |Run(cfg, events).core.deadlines|);
    var c' := Run(cfg, events + Passes(now, n)).core;
    RunInv(cfg, events + Passes(now, n));
    SleepMeansNothingDue(c', now);
  }

  // ---- cancellation ----

  /** Cancelling withdraws a request that waits, whose function is then never called, and leaves one that runs or is
      done with its worker alone. */
  lemma {:induction false} CancelWithdraws(cfg: Config, events: seq<Event>, id: nat)
    requires id < |Run(cfg, events).core.reqs|
    ensures var c, c' := Run(cfg, events).core, Run(cfg, events + [Cancels(id)]).core;
      && id < |c'.reqs|
      && (c.reqs[id].future.Pending? ==>
            && c'.reqs[id] == c.reqs[id].(cancelled := true, future := Cancelled) && c'.cancels == c.cancels + 1
            && !Queued(c', id))
      && (!c.reqs[id].worker.Idle? ==> c' == c)
  {
    var c := Run(cfg, events).core;
    RunInv(cfg, events);
    assert (events + [Cancels(id)])[..|events|] == events;
    assert LocalOk(c.cfg, c.reqs[id]);
    assert QueueOk(c.reqs, c.queues.Get(QueueOf(c, id)), QueueOf(c, id));
    if Cancellable(c, id) {
      WithdrawIndexed(c, id);
      TryDispatchIndexed(Withdraw(c, id), QueueOf(c, id));
    }
    if c.reqs[id].future.Pending? {
      assert Queued(c, id);
      WithdrawInv(c, id);
      InvIndexed(Withdraw(c, id));
      var lane := QueueOf(c, id);
      assert QueueOk(c.reqs, c.queues.Get(lane), lane);
      WithoutOk(c.queues.Get(lane), id);
      OutsideStays(Withdraw(c, id), lane, id);
    }
  }

  lemma {:induction false} OutsideStays(c: Core, lane: Lane, id: nat)
    requires Inv(c) && Indexed(c) && id < |c.reqs| && !Queued(c, id)
    ensures var c' := TryDispatch(c, lane);
      |c'.reqs| == |c.reqs| && c'.reqs[id] == c.reqs[id] && c'.cancels == c.cancels && !Queued(c', id)
    decreases |c.queues.Get(lane)|
  {
    if CanDispatch(c, lane) {
      assert QueueOk(c.reqs, c.queues.Get(lane), lane);
      DispatchOneInv(c, lane);
      OutsideStays(DispatchOne(c, lane), lane, id);
    }
  }

  // ---- workers ----

  lemma {:induction false} RunNext(cfg: Config, events: seq<Event>, e: Event)
    ensures Run(cfg, events + [e]) == Next(Run(cfg, events), e)
  {
    assert (events + [e])[..|events|] == events;
  }

  lemma {:induction false} ReleaseKeepsOwn(c: Core, id: nat)
    requires Inv(c) && Indexed(c) && id < |c.reqs| && c.reqs[id].worker.Back?
    ensures |Release(c, id).reqs| == |c.reqs|
    ensures Release(c, id).reqs[id] == c.reqs[id].(worker := Released(c.reqs[id].worker.result))
  {
    var c0 := Finish(c, id);
    FinishInv(c, id);
    InvIndexed(c0);
    assert QueueOk(c0.reqs, c0.queues.Get(c0.reqs[id].lane), c0.reqs[id].lane);
    OutsideStays(c0, WriteRefactor, id);
    TryDispatchInv(c0, WriteRefactor);
    var c1 := TryDispatch(c0, WriteRefactor);
    InvIndexed(c1);
    OutsideStays(c1, FastRead, id);
    TryDispatchInv(c1, FastRead);
    InvIndexed(TryDispatch(c1, FastRead));
    OutsideStays(TryDispatch(c1, FastRead), SemanticRead, id);
  }

  /** What a worker brings back: nothing of a request that was marked before it began. */
  function Brought(r: Request, ok: bool, value: int): Outcome {
    if r.cancelled then NotCalled else if ok then Returned(value, []) else Raised(value, [])
  }

  /** What becomes of a request that was handed out when its worker goes through its steps: its function is called
      unless the request is marked, and the outcome is set unless there is an answer. */
  function Served(r: Request, ok: bool, value: int): Request {
    if r.cancelled then r.(worker := Exited)
    else
      var future := if r.future == Running then Resolved(Brought(r, ok, value)) else r.future;
      r.(worker := Exited, calls := 1, future := future)
  }

  lemma {:induction false} WorkerReturns(w: World, id: nat, ok: bool, value: int)
    requires Inv(w.core) && Indexed(w.core) && At(w.core, id) == Submitted
    ensures var r, w' := w.core.reqs[id], Next(Next(w, Begins(id)), Returns(id, ok, value));
      && id < |w'.core.reqs| && LocalOk(w.core.cfg, r)
      && w'.core.reqs[id] == r.(worker := Back(Brought(r, ok, value)), calls := if r.cancelled then 0 else 1)
  {
    NextInv(w, Begins(id));
    assert LocalOk(w.core.cfg, w.core.reqs[id]);
  }

  lemma {:induction false} WorkerLeaves(w: World, id: nat)
    requires Inv(w.core) && Indexed(w.core) && At(w.core, id).Back?
    ensures var r, w' := w.core.reqs[id], Next(Next(w, Releases(id)), Resolves(id));
      && id < |w'.core.reqs|
      && w'.core.reqs[id] == r.(worker := Exited, future := if r.cancelled || r.future.Done() then r.future
                                                            else Resolved(r.worker.result))
  {
    NextInv(w, Releases(id));
    ReleaseKeepsOwn(w.core, id);
  }

  function WorkerSteps(id: nat, ok: bool, value: int): seq<Event> {
    [Begins(id), Returns(id, ok, value)] + [Releases(id), Resolves(id)]
  }

  lemma {:induction false} RunTwo(cfg: Config, events: seq<Event>, a: Event, b: Event)
    ensures Run(cfg, events + [a, b]) == Next(Next(Run(cfg, events), a), b)
  {
    var first := events + [a];
    assert events + [a, b] == first + [b];
    RunNext(cfg, first, b);
    RunNext(cfg, events, a);
  }

  /** Every worker gets out of its lane: in any run, the steps of a worker that was handed a request end with the
      request answered and the worker gone. */
  lemma {:induction false} WorkersFinish(cfg: Config, events: seq<Event>, id: nat, ok: bool, value: int)
    requires id < |Run(cfg, events).core.reqs| && Run(cfg, events).core.reqs[id].worker == Submitted
    ensures var r, c' := Run(cfg, events).core.reqs[id], Run(cfg, events + WorkerSteps(id, ok, value)).core;
      id < |c'.reqs| && c'.reqs[id] == Served(r, ok, value) && c'.reqs[id].future.Done()
  {
    var mid := events + [Begins(id), Returns(id, ok, value)];
    RunInv(cfg, events);
    RunInv(cfg, mid);
    RunTwo(cfg, events, Begins(id), Returns(id, ok, value));
    RunTwo(cfg, mid, Releases(id), Resolves(id));
    assert events + WorkerSteps(id, ok, value) == mid + [Releases(id), Resolves(id)];
    WorkerReturns(Run(cfg, events), id, ok, value);
    WorkerLeaves(Run(cfg, mid), id);
  }

  // ---- refusals ----

  /** How many submits were refused, so that they had no caller. */
  function Refusals(cfg: Config, events: seq<Event>): nat {
    if events == [] then 0
    else
      var before, e := events[..|events| - 1], events[|events| - 1];
      Refusals(cfg, before) + if e.Submits? && Run(cfg, events).callers == Run(cfg, before).callers then 1 else 0
  }

  lemma {:induction false} DispatchRefusesNothing(c: Core, lane: Lane)
    requires Indexed(c)
    ensures TryDispatch(c, lane).rejected == c.rejected
    decreases |c.queues.Get(lane)|
  {
    if CanDispatch(c, lane) {
      DispatchRefusesNothing(DispatchOne(c, lane), lane);
    }
  }

  lemma {:induction false} PassRefusesNothing(c: Core, now: real)
    requires Inv(c) && Indexed(c)
    ensures DeadlinePass(c, now).rejected == c.rejected
  {
    PopDoneInv(c);
    PopDoneKeeps(c);
    var c1 := PopDone(c);
    if Due(c1, now) {
      var id, c2 := c1.deadlines[0].1, c1.(deadlines := c1.deadlines[1..]);
      if !TimeoutIgnored(c1.reqs[id]) {
        ExpireIndexed(c2, id);
        DispatchRefusesNothing(Expire(c2, id), c1.reqs[id].lane);
      }
    }
  }

  lemma {:induction false} NextRefuses(w: World, e: Event)
    requires Inv(w.core) && Indexed(w.core)
    ensures Next(w, e).core.rejected ==
            w.core.rejected + if e.Submits? && Next(w, e).callers == w.callers then 1 else 0
  {
    var c := w.core;
    match e
    case Submits(key, timeout, now) =>
      if SubmitAnswer(c, key).Accepted? {
        EnqueueIndexed(c, key, timeout, now);
        DispatchRefusesNothing(Enqueue(c, key, timeout, now), Classify(c.cfg, key.tool));
      }
    case Releases(id) =>
      if At(c, id).Back? {
        FinishInv(c, id);
        var c0 := Finish(c, id);
        InvIndexed(c0);
        TryDispatchIndexed(c0, WriteRefactor);
        TryDispatchIndexed(TryDispatch(c0, WriteRefactor), FastRead);
        DispatchRefusesNothing(c0, WriteRefactor);
        DispatchRefusesNothing(TryDispatch(c0, WriteRefactor), FastRead);
        DispatchRefusesNothing(TryDispatch(TryDispatch(c0, WriteRefactor), FastRead), SemanticRead);
      }
    case DeadlineWakes(now) => PassRefusesNothing(c, now);
    case Cancels(id) =>
      if Cancellable(c, id) {
        WithdrawIndexed(c, id);
        DispatchRefusesNothing(Withdraw(c, id), QueueOf(c, id));
      }
    case _ =>
  }

  /** The scheduler's own count of refusals is right in every run. */
  lemma {:induction false} RefusalsAreCounted(cfg: Config, events: seq<Event>)
    ensures Run(cfg, events).core.rejected == Refusals(cfg, events)
  {
    if events != [] {
      var before := events[..|events| - 1];
      RefusalsAreCounted(cfg, before);
      RunInv(cfg, before);
      InvIndexed(Run(cfg, before).core);
      NextRefuses(Run(cfg, before), events[|events| - 1]);
    }
  }
}
