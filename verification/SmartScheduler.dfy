/** The scheduler object: its methods change the fields the way the state machine says. */
module SmartSchedulers {
  import opened Scheduler
  import opened SchedulerInvariants
  import DeadlineThread

  /** Where deque.remove finds the first occurrence. */
  lemma {:induction false} WithoutAt(queue: seq<nat>, id: nat, i: nat)
    requires i < |queue| && queue[i] == id && id !in queue[..i]
    ensures Without(queue, id) == queue[..i] + queue[i + 1..]
  {
    if i == 0 {
      assert queue[..0] + queue[1..] == queue[1..];
    } else {
      assert queue[0] == queue[..i][0];
      assert queue[1..][..i - 1] == queue[..i][1..];
      WithoutAt(queue[1..], id, i - 1);
      assert queue[..i] + queue[i + 1..] == [queue[0]] + (queue[1..][..i - 1] + queue[1..][i..]);
    }
  }

  lemma {:induction false} WithoutAbsent(queue: seq<nat>, id: nat)
    requires id !in queue
    ensures Without(queue, id) == queue
  {
    if queue != [] {
      WithoutAbsent(queue[1..], id);
    }
  }

  lemma {:induction false} InsertDeadlineAt(ds: seq<(real, nat)>, entry: (real, nat), i: nat)
    requires i <= |ds| && (forall j :: 0 <= j < i ==> ds[j].0 <= entry.0)
    requires i < |ds| ==> entry.0 < ds[i].0
    ensures InsertDeadline(ds, entry) == ds[..i] + [entry] + ds[i..]
  {
    if i == 0 {
      assert ds[..0] + [entry] + ds[0..] == [entry] + ds;
    } else {
      InsertDeadlineAt(ds[1..], entry, i - 1);
      assert ds[..i] + [entry] + ds[i..] == [ds[0]] + (ds[1..][..i - 1] + [entry] + ds[1..][i - 1..]);
    }
  }

  method RemoveFrom(queue: seq<nat>, id: nat) returns (rest: seq<nat>)
    ensures rest == Without(queue, id)
  {
    var i := 0;
    while i < |queue| && queue[i] != id
      invariant 0 <= i <= |queue| && id !in queue[..i]
    {
      i := i + 1;
    }
    if i < |queue| {
      WithoutAt(queue, id, i);
      rest := queue[..i] + queue[i + 1..];
    } else {
      assert queue[..i] == queue;
      WithoutAbsent(queue, id);
      rest := queue;
    }
  }

  method PushDeadline(ds: seq<(real, nat)>, entry: (real, nat)) returns (ds': seq<(real, nat)>)
    ensures ds' == InsertDeadline(ds, entry)
  {
    var i := 0;
    while i < |ds| && ds[i].0 <= entry.0
      invariant 0 <= i <= |ds| && (forall j :: 0 <= j < i ==> ds[j].0 <= entry.0)
    {
      i := i + 1;
    }
    InsertDeadlineAt(ds, entry, i);
    ds' := ds[..i] + [entry] + ds[i..];
  }

  class SmartScheduler {
    const cfg: Config
    var reqs: seq<Request>
    var queues: PerLane<seq<nat>>
    var active: PerLane<int>
    var inFlight: map<Key, nat>
    var deadlines: seq<(real, nat)>
    var dispatched: nat
    var cancels: nat
    var timeouts: nat
    var rejected: nat

    ghost function Snapshot(): Core
      reads this
    {
      Core(cfg, reqs, queues, active, inFlight, deadlines, dispatched, cancels, timeouts, rejected)
    }

    ghost predicate Valid()
      reads this
    {
      Inv(Snapshot())
    }

    constructor (cfg: Config)
      ensures Valid() && Snapshot() == Init(cfg)
    {
      this.cfg := cfg;
      reqs := [];
      queues := PerLane([], [], []);
      active := PerLane(0, 0, 0);
      inFlight := map[];
      deadlines := [];
      dispatched, cancels, timeouts, rejected := 0, 0, 0, 0;
      new;
      InitInv(cfg);
    }

    method RemoveInFlightOf(id: nat)
      requires id < |reqs|
      modifies this`inFlight
      ensures Snapshot() == RemoveInFlight(old(Snapshot()), id)
    {
      var key := reqs[id].key;
      if key in inFlight && inFlight[key] == id {
        inFlight := inFlight - {key};
      }
    }

    /** Pops the head of a lane's queue and drops it or hands it to the pool. */
    method DispatchHead(lane: Lane)
      requires Indexed(Snapshot()) && CanDispatch(Snapshot(), lane)
      modifies this`reqs, this`queues, this`active, this`inFlight, this`dispatched
      ensures Snapshot() == DispatchOne(old(Snapshot()), lane)
      ensures Indexed(Snapshot()) && |queues.Get(lane)| < |old(queues).Get(lane)|
    {
      var id := queues.Get(lane)[0];
      queues := queues.Set(lane, queues.Get(lane)[1..]);
      if reqs[id].cancelled || reqs[id].future.Done() {
        RemoveInFlightOf(id);
      } else {
        reqs := reqs[id := reqs[id].(future := Running, worker := Submitted)];
        active := active.Set(lane, active.Get(lane) + 1);
        dispatched := dispatched + 1;
      }
    }

    /** Hands queued requests of one lane to the pool while the lane may run more. */
    method Dispatch(lane: Lane)
      requires Indexed(Snapshot())
      modifies this`reqs, this`queues, this`active, this`inFlight, this`dispatched
      ensures Snapshot() == TryDispatch(old(Snapshot()), lane)
      ensures active.Get(lane) == old(active.Get(lane)) || active.Get(lane) <= cfg.lanes.Get(lane).maxConcurrent
      ensures Indexed(Snapshot())
    {
      var blocked := false;
      while !blocked && queues.Get(lane) != [] && active.Get(lane) < cfg.lanes.Get(lane).maxConcurrent
        invariant Indexed(Snapshot())
        invariant TryDispatch(Snapshot(), lane) == TryDispatch(old(Snapshot()), lane)
        invariant blocked ==> !CanDispatch(Snapshot(), lane)
        invariant active.Get(lane) == old(active.Get(lane)) || active.Get(lane) <= cfg.lanes.Get(lane).maxConcurrent
        decreases |queues.Get(lane)|, !blocked
      {
        if lane == WriteRefactor {
          blocked := SomeActive(active);
        } else {
          blocked := active.write != 0 || queues.write != [];
        }
        if !blocked {
          DispatchHead(lane);
        }
      }
    }

    /** The table names a read with this key that waits or runs. */
    ghost predicate Unanswered(key: Key)
      requires Indexed(Snapshot())
      reads this
    {
      && Classify(cfg, key.tool) != WriteRefactor && key in inFlight
      && (reqs[inFlight[key]].future == Pending || reqs[inFlight[key]].future == Running)
    }

    method SubmitRequest(key: Key, timeout: real, now: real) returns (answer: Answer)
      requires Valid()
      modifies this
      ensures Valid() && Indexed(old(Snapshot()))
      ensures answer.Joined? <==> old(Unanswered(key))
      ensures answer == SubmitAnswer(old(Snapshot()), key)
      ensures Snapshot() == Submit(old(Snapshot()), key, timeout, now)
    {
      InvIndexed(Snapshot());
      SubmitInv(Snapshot(), key, timeout, now);
      answer := SubmitLocked(key, timeout, now);
    }

    method SubmitLocked(key: Key, timeout: real, now: real) returns (answer: Answer)
      requires Indexed(Snapshot())
      modifies this
      ensures answer.Joined? <==> old(Unanswered(key))
      ensures answer == SubmitAnswer(old(Snapshot()), key)
      ensures Snapshot() == Submit(old(Snapshot()), key, timeout, now)
    {
      var lane := Classify(cfg, key.tool);
      if lane != WriteRefactor && key in inFlight {
        var existing := inFlight[key];
        if !reqs[existing].future.Done() {
          return Joined(existing);
        }
      }
      if |queues.Get(lane)| >= cfg.lanes.Get(lane).maxQueue {
        rejected := rejected + 1;
        return QueueFull;
      }
      answer := Accepted(|reqs|);
      EnqueueRequest(key, timeout, now);
      Dispatch(lane);
    }

    method EnqueueRequest(key: Key, timeout: real, now: real)
      requires Indexed(Snapshot())
      modifies this`reqs, this`queues, this`inFlight, this`deadlines
      ensures Snapshot() == Enqueue(old(Snapshot()), key, timeout, now)
      ensures Indexed(Snapshot())
    {
      EnqueueIndexed(Snapshot(), key, timeout, now);
      var lane := Classify(cfg, key.tool);
      var seconds := if timeout != 0.0 then timeout else cfg.lanes.Get(lane).timeout;
      var id := |reqs|;
      var request := Request(key, lane, now + seconds, false, Pending, Idle, 0);
      reqs := reqs + [request];
      inFlight := inFlight[key := id];
      queues := queues.Set(lane, queues.Get(lane) + [id]);
      deadlines := PushDeadline(deadlines, (request.deadline, id));
    }

    /** A section that nothing interrupts. */
    method TimeoutRequestLocked(id: nat)
      requires Indexed(Snapshot()) && id < |reqs|
      modifies this`reqs, this`queues, this`active, this`inFlight, this`dispatched, this`timeouts
      ensures Snapshot() == Timeout(old(Snapshot()), id)
      ensures Indexed(Snapshot())
    {
      var request := reqs[id];
      if request.future.Done() {
        return;
      }
      if request.lane == WriteRefactor && request.future.Running? {
        return;
      }
      ghost var before := Snapshot();
      MarkTimedOut(id);
      DeadlineThread.MarkThenSet(before, id);
      var raised := SetTimeoutError(id);
    }

    /** The section from the mark to the exception. */
    method MarkTimedOut(id: nat)
      requires Indexed(Snapshot()) && id < |reqs|
      modifies this`reqs, this`queues, this`inFlight, this`timeouts
      ensures Snapshot() == DeadlineThread.Mark(old(Snapshot()), id)
      ensures Indexed(Snapshot())
    {
      DeadlineThread.MarkIndexed(Snapshot(), id);
      var request := reqs[id];
      timeouts := timeouts + 1;
      RemoveInFlightOf(id);
      if !request.future.Running? {
        var rest := RemoveFrom(queues.Get(request.lane), id);
        queues := queues.Set(request.lane, rest);
      }
      reqs := reqs[id := request.(cancelled := true)];
    }

    /** Raises, and leaves everything as it is, when the future got done after the test. */
    method SetTimeoutError(id: nat) returns (raised: bool)
      requires Indexed(Snapshot()) && id < |reqs|
      modifies this`reqs, this`queues, this`active, this`inFlight, this`dispatched
      ensures raised == old(reqs[id].future.Done())
      ensures Snapshot() == if raised then old(Snapshot()) else DeadlineThread.SetException(old(Snapshot()), id)
      ensures Indexed(Snapshot())
    {
      var request := reqs[id];
      if request.future.Done() {
        return true;
      }
      reqs := reqs[id := request.(future := TimedOut)];
      Dispatch(request.lane);
      raised := false;
    }

    /** One turn of the deadline thread: true when it found nothing due and waits. */
    method DeadlineTurn(now: real) returns (sleeps: bool)
      requires Valid()
      modifies this
      ensures Valid() && Indexed(old(Snapshot()))
      ensures Snapshot() == DeadlinePass(old(Snapshot()), now)
      ensures sleeps == Sleeps(old(Snapshot()), now)
    {
      InvIndexed(Snapshot());
      DeadlinePassInv(Snapshot(), now);
      ghost var before := Snapshot();
      PopDoneKeeps(before);
      while deadlines != [] && reqs[deadlines[0].1].future.Done()
        invariant Indexed(Snapshot()) && PopDone(Snapshot()) == PopDone(before)
        decreases |deadlines|
      {
        deadlines := deadlines[1..];
      }
      assert Snapshot() == PopDone(before);
      if deadlines == [] || deadlines[0].0 - now > 0.0 {
        return true;
      }
      var id := deadlines[0].1;
      deadlines := deadlines[1..];
      TimeoutRequestLocked(id);
      sleeps := false;
    }

    method CancelRequest(id: nat) returns (cancelled: bool)
      requires Valid()
      modifies this
      ensures Valid() && Indexed(old(Snapshot()))
      ensures Snapshot() == Cancel(old(Snapshot()), id)
      ensures cancelled == Cancellable(old(Snapshot()), id)
    {
      InvIndexed(Snapshot());
      CancelInv(Snapshot(), id);
      cancelled := CancelLocked(id);
    }

    /** Searches the lanes in order and withdraws the request from the queue that holds it. */
    method CancelLocked(id: nat) returns (cancelled: bool)
      requires Indexed(Snapshot())
      modifies this
      ensures Snapshot() == Cancel(old(Snapshot()), id)
      ensures cancelled == Cancellable(old(Snapshot()), id)
    {
      ghost var before := Snapshot();
      var lanes := [FastRead, SemanticRead, WriteRefactor];
      var n := 0;
      while n < 3
        invariant 0 <= n <= 3 && Snapshot() == before
        invariant forall k :: 0 <= k < n ==> id !in queues.Get(lanes[k])
      {
        var queue := queues.Get(lanes[n]);
        var i := 0;
        while i < |queue|
          invariant 0 <= i <= |queue| && id !in queue[..i] && Snapshot() == before
        {
          if queue[i] == id {
            assert queues.Get(lanes[0]) == queues.fast && queues.Get(lanes[1]) == queues.semantic;
            assert lanes[n] == QueueOf(before, id);
            if reqs[id].future.Running? {
              return false;
            }
            WithdrawFrom(lanes[n], id);
            Dispatch(lanes[n]);
            return true;
          }
          i := i + 1;
        }
        assert queue[..i] == queue;
        n := n + 1;
      }
      assert id !in queues.Get(lanes[0]) && id !in queues.Get(lanes[1]) && id !in queues.Get(lanes[2]);
      cancelled := false;
    }

    method WithdrawFrom(lane: Lane, id: nat)
      requires Indexed(Snapshot()) && id < |reqs| && lane == QueueOf(Snapshot(), id)
      modifies this`reqs, this`queues, this`inFlight, this`cancels
      ensures Snapshot() == Withdraw(old(Snapshot()), id)
      ensures Indexed(Snapshot())
    {
      WithdrawIndexed(Snapshot(), id);
      reqs := reqs[id := reqs[id].(cancelled := true, future := CancelFuture(reqs[id].future))];
      var rest := RemoveFrom(queues.Get(lane), id);
      queues := queues.Set(lane, rest);
      RemoveInFlightOf(id);
      cancels := cancels + 1;
    }

    /** The worker looks at the cancelled flag; unless it is set it goes on to call the function. */
    method ExecuteBegin(id: nat) returns (call: bool)
      requires Valid() && id < |reqs| && reqs[id].worker.Submitted?
      modifies this`reqs
      ensures Valid() && Snapshot() == Begin(old(Snapshot()), id)
      ensures call == !old(reqs[id].cancelled)
    {
      BeginInv(Snapshot(), id);
      var request := reqs[id];
      call := !request.cancelled;
      if call {
        reqs := reqs[id := request.(worker := Calling([]), calls := request.calls + 1)];
      } else {
        reqs := reqs[id := request.(worker := Back(NotCalled))];
      }
    }

    /** The worker's locked section: leave the lane, then dispatch writes before reads. */
    method ExecuteFinish(id: nat)
      requires Valid() && id < |reqs| && reqs[id].worker.Back?
      modifies this
      ensures Valid() && Indexed(old(Snapshot()))
      ensures Snapshot() == Release(old(Snapshot()), id)
    {
      InvIndexed(Snapshot());
      ReleaseInv(Snapshot(), id);
      ghost var before := Snapshot();
      var request := reqs[id];
      reqs := reqs[id := request.(worker := Released(request.worker.result))];
      active := active.Set(request.lane, active.Get(request.lane) - 1);
      RemoveInFlightOf(id);
      assert Snapshot() == Finish(before, id);
      Dispatch(WriteRefactor);
      Dispatch(FastRead);
      Dispatch(SemanticRead);
    }

    /** The worker's unlocked check-then-set. */
    method ExecuteResolve(id: nat)
      requires Valid() && id < |reqs| && reqs[id].worker.Released?
      modifies this`reqs
      ensures Valid() && Snapshot() == Resolve(old(Snapshot()), id)
    {
      ResolveInv(Snapshot(), id);
      var request := reqs[id];
      if !request.cancelled && !request.future.Done() {
        reqs := reqs[id := request.(worker := Exited, future := Resolved(request.worker.result))];
      } else {
        reqs := reqs[id := request.(worker := Exited)];
      }
    }
  }
}
