/** The scheduler keeps moving: it never stalls, and a waiting write starts in its turn. */
module SchedulerProgress {
  import opened Scheduler
  import opened SchedulerInvariants
  import opened SchedulerRuns
  import opened SchedulerTheorems

  /** `n` requests left one queue, at most that many became active, and nothing else changed in queues and counts. */
  predicate Took(c: Core, c': Core, lane: Lane, n: int) {
    && c'.cfg == c.cfg && 0 <= n <= |c.queues.Get(lane)| && c'.queues == c.queues.Set(lane, c.queues.Get(lane)[n..])
    && c.active.Get(lane) <= c'.active.Get(lane) <= c.active.Get(lane) + n
    && c'.active == c.active.Set(lane, c'.active.Get(lane))
  }

  lemma {:induction false} TookOne(c: Core, lane: Lane)
    requires Indexed(c) && CanDispatch(c, lane)
    ensures Took(c, DispatchOne(c, lane), lane, 1)
  {
  }

  lemma {:induction false} TookMore(c: Core, c1: Core, c': Core, lane: Lane, n: nat)
    requires Took(c, c1, lane, 1) && Took(c1, c', lane, n)
    ensures Took(c, c', lane, n + 1)
  {
    var q := c.queues.Get(lane);
    assert c1.queues.Get(lane) == q[1..] && q[1..][n..] == q[n + 1..];
  }

  lemma {:induction false} TookNone(c: Core, lane: Lane)
    ensures Took(c, c, lane, 0)
  {
    assert c.queues.Get(lane)[0..] == c.queues.Get(lane);
  }

  /** Dispatching takes a prefix off one queue and stops only when the lane may not run more. */
  lemma {:induction false} TryDispatchQueues(c: Core, lane: Lane)
    requires Indexed(c)
    ensures var c' := TryDispatch(c, lane);
      && Indexed(c') && !CanDispatch(c', lane)
      && Took(c, c', lane, |c.queues.Get(lane)| - |c'.queues.Get(lane)|)
    decreases |c.queues.Get(lane)|
  {
    if CanDispatch(c, lane) {
      var c1 := DispatchOne(c, lane);
      TryDispatchQueues(c1, lane);
      TookOne(c, lane);
      TookMore(c, c1, TryDispatch(c1, lane), lane, |c1.queues.Get(lane)| - |TryDispatch(c1, lane).queues.Get(lane)|);
    } else {
      TookNone(c, lane);
    }
  }

  // ---- no stall ----

  /** A lane that may queue requests of this tool may also run one. */
  predicate Serves(cfg: Config, tool: string) {
    var lane := cfg.lanes.Get(Classify(cfg, tool));
    lane.maxQueue >= 1 ==> lane.maxConcurrent >= 1
  }

  predicate Stalled(c: Core) {
    !SomeActive(c.active) && c.queues != PerLane([], [], [])
  }

  predicate Bounded(c: Core) {
    forall lane :: c.queues.Get(lane) != [] ==> |c.queues.Get(lane)| <= c.cfg.lanes.Get(lane).maxQueue
  }

  lemma {:induction false} QueuedLaneServed(c: Core, lane: Lane)
    requires Inv(c) && Bounded(c) && c.queues.Get(lane) != [] && (forall tool :: Serves(c.cfg, tool))
    ensures c.cfg.lanes.Get(lane).maxConcurrent >= 1
  {
    var id := c.queues.Get(lane)[0];
    assert QueueOk(c.reqs, c.queues.Get(lane), lane);
    assert LocalOk(c.cfg, c.reqs[id]);
    assert Serves(c.cfg, c.reqs[id].key.tool);
  }

  lemma {:induction false} DispatchBounded(c: Core, lane: Lane)
    requires Indexed(c) && Bounded(c)
    ensures Bounded(TryDispatch(c, lane))
  {
    TryDispatchQueues(c, lane);
    var c' := TryDispatch(c, lane);
    forall l | c'.queues.Get(l) != [] ensures |c'.queues.Get(l)| <= c'.cfg.lanes.Get(l).maxQueue {
      assert c.queues.Get(l) != [];
    }
  }

  /** Dispatching cannot create a stall, and dispatching every lane removes any. */
  lemma {:induction false} DispatchUnstalls(c: Core, lane: Lane)
    requires Inv(c) && Indexed(c) && Bounded(c) && (forall tool :: Serves(c.cfg, tool))
    requires lane == WriteRefactor || c.queues.write == [] || SomeActive(c.active)
    ensures var c' := TryDispatch(c, lane);
      && (SomeActive(c.active) ==> SomeActive(c'.active))
      && (!SomeActive(c'.active) ==> c'.queues == c.queues.Set(lane, []))
  {
    TryDispatchQueues(c, lane);
    TryDispatchInv(c, lane);
    DispatchBounded(c, lane);
    var c' := TryDispatch(c, lane);
    if !SomeActive(c'.active) && c'.queues.Get(lane) != [] {
      QueuedLaneServed(c', lane);
    }
  }

  ghost predicate Flowing(c: Core) {
    Bounded(c) && !Stalled(c)
  }

  lemma {:induction false} ReleaseFlows(c: Core, id: nat)
    requires Inv(c) && Indexed(c) && Flowing(c) && id < |c.reqs| && c.reqs[id].worker.Back?
    requires forall tool :: Serves(c.cfg, tool)
    ensures Flowing(Release(c, id))
  {
    FinishInv(c, id);
    var c0 := Finish(c, id);
    assert Bounded(c0) by { assert c0.queues == c.queues && c0.cfg == c.cfg; }
    DispatchUnstalls(c0, WriteRefactor);
    TryDispatchInv(c0, WriteRefactor);
    TryDispatchQueues(c0, WriteRefactor);
    DispatchBounded(c0, WriteRefactor);
    var c1 := TryDispatch(c0, WriteRefactor);
    DispatchUnstalls(c1, FastRead);
    TryDispatchInv(c1, FastRead);
    TryDispatchQueues(c1, FastRead);
    DispatchBounded(c1, FastRead);
    var c2 := TryDispatch(c1, FastRead);
    DispatchUnstalls(c2, SemanticRead);
    DispatchBounded(c2, SemanticRead);
  }

  lemma {:induction false} SubmitFlows(c: Core, key: Key, timeout: real, now: real)
    requires Inv(c) && Indexed(c) && Flowing(c) && (forall tool :: Serves(c.cfg, tool))
    ensures Flowing(Submit(c, key, timeout, now))
  {
    if SubmitAnswer(c, key).Accepted? {
      var lane := Classify(c.cfg, key.tool);
      var c1 := Enqueue(c, key, timeout, now);
      EnqueueInv(c, key, timeout, now);
      InvIndexed(c1);
      forall l | c1.queues.Get(l) != [] ensures |c1.queues.Get(l)| <= c1.cfg.lanes.Get(l).maxQueue {
        assert l != lane ==> c1.queues.Get(l) == c.queues.Get(l);
      }
      DispatchUnstalls(c1, lane);
      DispatchBounded(c1, lane);
    } else {
      assert Bounded(c.(rejected := c.rejected + 1)) by {
        assert forall lane :: c.queues.Get(lane) == c.(rejected := c.rejected + 1).queues.Get(lane);
      }
    }
  }

  /** A request leaves its queue and the lane is tried again. */
  lemma {:induction false} LeaveFlows(c: Core, c1: Core, lane: Lane, id: nat)
    requires Flowing(c) && Inv(c1) && Indexed(c1) && c1.cfg == c.cfg && c1.active == c.active
    requires c1.queues == c.queues || c1.queues == c.queues.Set(lane, Without(c.queues.Get(lane), id))
    requires forall tool :: Serves(c.cfg, tool)
    ensures Flowing(TryDispatch(c1, lane))
  {
    WithoutMembers(c.queues.Get(lane), id);
    forall l | c1.queues.Get(l) != [] ensures |c1.queues.Get(l)| <= c1.cfg.lanes.Get(l).maxQueue {
      assert c.queues.Get(l) != [];
    }
    DispatchUnstalls(c1, lane);
    DispatchBounded(c1, lane);
  }

  lemma {:induction false} DeadlineFlows(c: Core, now: real)
    requires Inv(c) && Indexed(c) && Flowing(c) && (forall tool :: Serves(c.cfg, tool))
    ensures Flowing(DeadlinePass(c, now))
  {
    PopDoneKeeps(c);
    PopDoneInv(c);
    var c1 := PopDone(c);
    assert Bounded(c1) by { assert forall l :: c1.queues.Get(l) == c.queues.Get(l); }
    if Due(c1, now) {
      var popped := c1.(deadlines := c1.deadlines[1..]);
      assert Bounded(popped) by { assert forall l :: popped.queues.Get(l) == c.queues.Get(l); }
      var id := c1.deadlines[0].1;
      if !TimeoutIgnored(c1.reqs[id]) {
        DueExpiryInv(c1);
        LeaveFlows(popped, Expire(popped, id), c1.reqs[id].lane, id);
      }
    }
  }

  lemma {:induction false} NextFlows(w: World, e: Event)
    requires Inv(w.core) && Flowing(w.core) && (forall tool :: Serves(w.core.cfg, tool))
    ensures Flowing(Next(w, e).core)
  {
    InvIndexed(w.core);
    var c := w.core;
    match e {
      case Submits(key, timeout, now) => SubmitFlows(c, key, timeout, now);
      case Releases(id) => if At(c, id).Back? { ReleaseFlows(c, id); }
      case DeadlineWakes(now) => DeadlineFlows(c, now);
      case Cancels(id) =>
        if Cancellable(c, id) {
          WithdrawInv(c, id);
          InvIndexed(Withdraw(c, id));
          LeaveFlows(c, Withdraw(c, id), QueueOf(c, id), id);
        }
      case _ =>
        assert Next(w, e).core.queues == c.queues && Next(w, e).core.active == c.active;
        assert forall l :: Next(w, e).core.queues.Get(l) == c.queues.Get(l);
    }
  }

  lemma {:induction false} RunFlows(cfg: Config, events: seq<Event>)
    requires forall tool :: Serves(cfg, tool)
    ensures Flowing(Run(cfg, events).core)
  {
    if events != [] {
      var before := Run(cfg, events[..|events| - 1]);
      RunFlows(cfg, events[..|events| - 1]);
      RunInv(cfg, events[..|events| - 1]);
      RunConfig(cfg, events[..|events| - 1]);
      NextFlows(before, events[|events| - 1]);
    }
  }

  lemma {:induction false} UnservedToolStalls(cfg: Config, tool: string)
    requires !Serves(cfg, tool)
    ensures Stalled(Run(cfg, [Submits(Key("", tool, ""), 0.0, 0.0)]).core)
  {
    var e := Submits(Key("", tool, ""), 0.0, 0.0);
    assert [e][..|[e]| - 1] == [];
    InitInv(cfg);
    assert Run(cfg, []) == World(Init(cfg), 0, []);
    assert Run(cfg, [e]) == Next(World(Init(cfg), 0, []), e);
  }

  ghost predicate NeverStalls(cfg: Config) {
    forall events: seq<Event> :: !Stalled(Run(cfg, events).core)
  }

  lemma {:induction false} StallWitness(cfg: Config, events: seq<Event>)
    requires Stalled(Run(cfg, events).core)
    ensures !NeverStalls(cfg)
  {
  }

  /** After every step of every run either something is active or nothing is queued, exactly for the
      configurations in which every tool's lane, if it may queue at all, may run at least one request. */
  lemma {:induction false} NeverStallsIff(cfg: Config)
    ensures NeverStalls(cfg) <==> (forall tool :: Serves(cfg, tool))
  {
    if forall tool :: Serves(cfg, tool) {
      forall events: seq<Event> ensures !Stalled(Run(cfg, events).core) {
        RunFlows(cfg, events);
      }
    } else {
      var tool :| !Serves(cfg, tool);
      var events: seq<Event> := [Submits(Key("", tool, ""), 0.0, 0.0)];
      UnservedToolStalls(cfg, tool);
      StallWitness(cfg, events);
    }
  }

  // ---- a waiting write ----

  function Index(queue: seq<nat>, id: nat): nat {
    if queue == [] || queue[0] == id then 0 else 1 + Index(queue[1..], id)
  }

  lemma {:induction false} IndexAfterDrop(queue: seq<nat>, id: nat, n: nat)
    requires n <= |queue| && id in queue[n..] && (forall i, j :: 0 <= i < j < |queue| ==> queue[i] < queue[j])
    ensures Index(queue[n..], id) + n == Index(queue, id)
  {
    if n == 0 {
      assert queue[0..] == queue;
    } else {
      assert queue[1..][n - 1..] == queue[n..];
      IndexAfterDrop(queue[1..], id, n - 1);
      var i :| 0 <= i < |queue[n..]| && queue[n..][i] == id;
      assert queue[0] < queue[n + i];
    }
  }

  lemma {:induction false} IndexAfterAppend(queue: seq<nat>, id: nat, x: nat)
    requires id in queue
    ensures Index(queue + [x], id) == Index(queue, id)
  {
    if queue[0] != id {
      assert (queue + [x])[1..] == queue[1..] + [x];
      IndexAfterAppend(queue[1..], id, x);
    }
  }

  lemma {:induction false} IndexAfterWithout(queue: seq<nat>, id: nat, x: nat)
    requires id in queue && x != id
    ensures Index(Without(queue, x), id) <= Index(queue, id)
  {
    if queue[0] != x && queue[0] != id {
      assert Without(queue, x)[1..] == Without(queue[1..], x);
      IndexAfterWithout(queue[1..], id, x);
    }
  }

  predicate WaitingWrite(c: Core, id: nat) {
    id in c.queues.write
  }

  /** Completions a waiting write can still be made to wait for. */
  function Backlog(c: Core, id: nat): int {
    Total(c.active) + Index(c.queues.write, id)
  }

  lemma {:induction false} DispatchBacklog(c: Core, lane: Lane, id: nat)
    requires Inv(c) && Indexed(c) && WaitingWrite(TryDispatch(c, lane), id)
    ensures WaitingWrite(c, id) && Backlog(TryDispatch(c, lane), id) <= Backlog(c, id)
    ensures lane != WriteRefactor ==> TryDispatch(c, lane) == c
  {
    if lane == WriteRefactor {
      TryDispatchQueues(c, lane);
      WriteBacklog(c, TryDispatch(c, lane), |c.queues.write| - |TryDispatch(c, lane).queues.write|, id);
    } else {
      TryDispatchQueues(c, lane);
      assert c.queues.write != [];
    }
  }

  lemma {:induction false} WriteBacklog(c: Core, c': Core, n: nat, id: nat)
    requires QueuesOk(c) && n <= |c.queues.write| && c'.queues.write == c.queues.write[n..] && id in c'.queues.write
    requires c'.active.fast == c.active.fast && c'.active.semantic == c.active.semantic
    requires c'.active.write <= c.active.write + n
    ensures WaitingWrite(c, id) && Backlog(c', id) <= Backlog(c, id)
  {
    assert QueueOk(c.reqs, c.queues.Get(WriteRefactor), WriteRefactor);
    IndexAfterDrop(c.queues.write, id, n);
  }

  lemma {:induction false} SubmitBacklog(c: Core, key: Key, timeout: real, now: real, id: nat)
    requires Inv(c) && Indexed(c) && WaitingWrite(c, id) && WaitingWrite(Submit(c, key, timeout, now), id)
    ensures Backlog(Submit(c, key, timeout, now), id) <= Backlog(c, id)
  {
    if SubmitAnswer(c, key).Accepted? {
      var c1 := Enqueue(c, key, timeout, now);
      EnqueueInv(c, key, timeout, now);
      InvIndexed(c1);
      IndexAfterAppend(c.queues.write, id, |c.reqs|);
      DispatchBacklog(c1, Classify(c.cfg, key.tool), id);
    }
  }

  lemma {:induction false} LeaveBacklog(c: Core, c1: Core, lane: Lane, x: nat, id: nat)
    requires Inv(c) && Inv(c1) && Indexed(c1) && c1.active == c.active
    requires c1.queues == c.queues || c1.queues == c.queues.Set(lane, Without(c.queues.Get(lane), x))
    requires WaitingWrite(c, id) && WaitingWrite(TryDispatch(c1, lane), id)
    ensures Backlog(TryDispatch(c1, lane), id) <= Backlog(c, id)
  {
    DispatchBacklog(c1, lane, id);
    if c1.queues != c.queues && lane == WriteRefactor {
      assert QueueOk(c.reqs, c.queues.Get(WriteRefactor), WriteRefactor);
      WithoutOk(c.queues.write, x);
      IndexAfterWithout(c.queues.write, id, x);
    }
  }

  lemma {:induction false} DeadlineBacklog(c: Core, now: real, id: nat)
    requires Inv(c) && Indexed(c) && WaitingWrite(c, id) && WaitingWrite(DeadlinePass(c, now), id)
    ensures Backlog(DeadlinePass(c, now), id) <= Backlog(c, id)
  {
    PopDoneKeeps(c);
    PopDoneInv(c);
    var c1 := PopDone(c);
    if Due(c1, now) && !TimeoutIgnored(c1.reqs[c1.deadlines[0].1]) {
      var x := c1.deadlines[0].1;
      DueExpiryInv(c1);
      LeaveBacklog(c, Expire(c1.(deadlines := c1.deadlines[1..]), x), c1.reqs[x].lane, x, id);
    }
  }

  lemma {:induction false} ReleaseBacklog(c: Core, x: nat, id: nat)
    requires Inv(c) && Indexed(c) && x < |c.reqs| && c.reqs[x].worker.Back?
    requires WaitingWrite(c, id) && WaitingWrite(Release(c, x), id)
    ensures Backlog(Release(c, x), id) < Backlog(c, id)
  {
    FinishInv(c, x);
    var c0 := Finish(c, x);
    TryDispatchInv(c0, WriteRefactor);
    var c1 := TryDispatch(c0, WriteRefactor);
    TryDispatchInv(c1, FastRead);
    var c2 := TryDispatch(c1, FastRead);
    DispatchBacklog(c2, SemanticRead, id);
    DispatchBacklog(c1, FastRead, id);
    DispatchBacklog(c0, WriteRefactor, id);
  }

  predicate Completes(w: World, e: Event) {
    e.Releases? && At(w.core, e.id).Back?
  }

  lemma {:induction false} NextBacklog(w: World, e: Event, id: nat)
    requires Inv(w.core) && WaitingWrite(w.core, id) && WaitingWrite(Next(w, e).core, id)
    ensures Backlog(Next(w, e).core, id) + One(Completes(w, e)) <= Backlog(w.core, id)
  {
    InvIndexed(w.core);
    var c := w.core;
    match e {
      case Submits(key, timeout, now) => SubmitBacklog(c, key, timeout, now, id);
      case Releases(x) => if At(c, x).Back? { ReleaseBacklog(c, x, id); }
      case DeadlineWakes(now) => DeadlineBacklog(c, now, id);
      case Cancels(x) =>
        if Cancellable(c, x) {
          WithdrawInv(c, x);
          InvIndexed(Withdraw(c, x));
          LeaveBacklog(c, Withdraw(c, x), QueueOf(c, x), x, id);
        }
      case _ =>
    }
  }

  /** Workers that finish while `post` runs after `pre`. */
  ghost function Completions(cfg: Config, pre: seq<Event>, post: seq<Event>): nat {
    if post == [] then 0
    else
      var rest := post[..|post| - 1];
      Completions(cfg, pre, rest) + if Completes(Run(cfg, pre + rest), post[|post| - 1]) then 1 else 0
  }

  lemma {:induction false} BacklogPaysForCompletions(cfg: Config, pre: seq<Event>, post: seq<Event>, id: nat)
    requires forall k :: 0 <= k <= |post| ==> WaitingWrite(Run(cfg, pre + post[..k]).core, id)
    ensures Completions(cfg, pre, post) + Backlog(Run(cfg, pre + post).core, id) <= Backlog(Run(cfg, pre).core, id)
  {
    assert post[..|post|] == post;
    if post == [] {
      assert pre + post == pre;
    } else {
      var rest := post[..|post| - 1];
      assert forall k :: 0 <= k <= |rest| ==> rest[..k] == post[..k];
      BacklogPaysForCompletions(cfg, pre, rest, id);
      RunLast(cfg, pre, post);
      RunInv(cfg, pre + rest);
      NextBacklog(Run(cfg, pre + rest), post[|post| - 1], id);
    }
  }

  /** In a state that flows, a waiting write has a backlog: something is active. */
  lemma {:induction false} WaitingHasBacklog(c: Core, id: nat)
    requires Inv(c) && Flowing(c) && WaitingWrite(c, id)
    ensures Backlog(c, id) > 0
  {
    assert c.queues != PerLane([], [], []);
  }

  /** A write with `k` writes before it leaves its queue within (active requests + k) completions: while it
      stays queued, fewer than that many workers finish. New reads cannot overtake it. */
  lemma {:induction false} WaitingWriteStartsInTurn(cfg: Config, pre: seq<Event>, post: seq<Event>, id: nat)
    requires forall tool :: Serves(cfg, tool)
    requires forall k :: 0 <= k <= |post| ==> WaitingWrite(Run(cfg, pre + post[..k]).core, id)
    ensures var c := Run(cfg, pre).core;
      Completions(cfg, pre, post) < Total(c.active) + Index(c.queues.write, id)
  {
    RunInv(cfg, pre + post);
    BacklogPaysForCompletions(cfg, pre, post, id);
    assert post[..|post|] == post;
    RunFlows(cfg, pre + post);
    WaitingHasBacklog(Run(cfg, pre + post).core, id);
  }
}
