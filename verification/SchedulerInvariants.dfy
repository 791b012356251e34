/** What every critical section of the scheduler keeps. */
module SchedulerInvariants {
  import opened Scheduler

  // ---- counting requests by their state ----

  datatype Sel = Holders(lane: Lane) | Started | Expired | Withdrawn

  predicate Pick(sel: Sel, r: Request) {
    match sel
    case Holders(lane) => r.lane == lane && r.worker.Holding()
    case Started => !r.worker.Idle?
    case Expired => r.future.TimedOut?
    case Withdrawn => r.cancelled && r.future.Cancelled?
  }

  ghost function Ids(reqs: seq<Request>, sel: Sel): set<nat> {
    set i: nat | i < |reqs| && Pick(sel, reqs[i])
  }

  function One(b: bool): int {
    if b then 1 else 0
  }

  lemma {:induction false} SizeWithout(s: set<nat>, id: nat)
    ensures |s - {id}| == |s| - One(id in s)
  {
    if id in s {
      assert s == (s - {id}) + {id};
    } else {
      assert s - {id} == s;
    }
  }

  lemma {:induction false} IdsPutOne(reqs: seq<Request>, id: nat, r: Request, sel: Sel)
    requires id < |reqs|
    ensures |Ids(reqs[id := r], sel)| == |Ids(reqs, sel)| - One(Pick(sel, reqs[id])) + One(Pick(sel, r))
  {
    var before, after := Ids(reqs, sel), Ids(reqs[id := r], sel);
    assert forall i: nat :: i != id ==> (i in before <==> i in after);
    assert before - {id} == after - {id};
    SizeWithout(before, id);
    SizeWithout(after, id);
  }

  lemma {:induction false} IdsPut(reqs: seq<Request>, id: nat, r: Request)
    requires id < |reqs|
    ensures forall sel :: |Ids(reqs[id := r], sel)| == |Ids(reqs, sel)| - One(Pick(sel, reqs[id])) + One(Pick(sel, r))
  {
    forall sel {
      IdsPutOne(reqs, id, r, sel);
    }
  }

  lemma {:induction false} IdsAppend(reqs: seq<Request>, r: Request)
    ensures forall sel :: |Ids(reqs + [r], sel)| == |Ids(reqs, sel)| + One(Pick(sel, r))
  {
    forall sel ensures |Ids(reqs + [r], sel)| == |Ids(reqs, sel)| + One(Pick(sel, r)) {
      var n := |reqs|;
      assert Ids(reqs + [r], sel) == if Pick(sel, r) then Ids(reqs, sel) + {n} else Ids(reqs, sel);
    }
  }

  function CountOf(c: Core, sel: Sel): int {
    match sel
    case Holders(lane) => c.active.Get(lane)
    case Started => c.dispatched
    case Expired => c.timeouts
    case Withdrawn => c.cancels
  }

  /** Every counter the scheduler keeps equals the number of requests it stands for. */
  ghost predicate Counted(c: Core) {
    forall sel :: CountOf(c, sel) == |Ids(c.reqs, sel)|
  }

  // ---- one request ----

  /** A request whose worker still owes a result: its future runs, or it is a read that expired. */
  predicate Owing(r: Request) {
    || (r.future.Running? && !r.cancelled)
    || (r.future.TimedOut? && r.cancelled && r.lane != WriteRefactor)
  }

  predicate LocalOk(cfg: Config, r: Request) {
    && r.lane == Classify(cfg, r.key.tool)
    && (r.cancelled ==> r.future.Done())
    && match r.worker
       case Idle => r.calls == 0 && !r.future.Running? && !r.future.Resolved?
       case Submitted => r.calls == 0 && Owing(r)
       case Calling(_) => r.calls == 1 && Owing(r)
       case Back(res) => r.calls == One(!res.NotCalled?) && Owing(r) && (res.NotCalled? ==> r.cancelled)
       case Released(res) => r.calls == One(!res.NotCalled?) && Owing(r) && (res.NotCalled? ==> r.cancelled)
       case Exited =>
         || (r.future.Resolved? && !r.cancelled && !r.future.outcome.NotCalled? && r.calls == 1)
         || (r.future.TimedOut? && r.cancelled && r.lane != WriteRefactor && r.calls <= 1)
  }

  predicate AllLocalOk(c: Core) {
    forall id :: 0 <= id < |c.reqs| ==> LocalOk(c.cfg, c.reqs[id])
  }

  // ---- queues ----

  predicate Waiting(r: Request, lane: Lane) {
    r.lane == lane && r.worker.Idle? && !r.cancelled && (r.future.Pending? || r.future.Cancelled?)
  }

  predicate QueueOk(reqs: seq<Request>, queue: seq<nat>, lane: Lane) {
    && (forall i :: 0 <= i < |queue| ==> queue[i] < |reqs| && Waiting(reqs[queue[i]], lane))
    && (forall i, j :: 0 <= i < j < |queue| ==> queue[i] < queue[j])
  }

  predicate QueuesOk(c: Core) {
    forall lane :: QueueOk(c.reqs, c.queues.Get(lane), lane)
  }

  predicate Queued(c: Core, id: nat) {
    id < |c.reqs| && id in c.queues.Get(c.reqs[id].lane)
  }

  /** A request nobody runs and nobody queues has its answer. */
  predicate Settled(c: Core) {
    forall id: nat :: id < |c.reqs| && c.reqs[id].worker.Idle? && !c.reqs[id].future.Done() ==> Queued(c, id)
  }

  // ---- lanes, single flight, deadlines ----

  predicate Exclusive(c: Core) {
    && c.active.fast >= 0 && c.active.semantic >= 0 && 0 <= c.active.write <= 1
    && (c.active.write == 1 ==> c.active.fast == 0 && c.active.semantic == 0)
  }

  predicate InProgress(c: Core, id: nat) {
    id < |c.reqs| && (c.reqs[id].worker.Holding() || Queued(c, id))
  }

  predicate FlightOk(c: Core) {
    forall key :: key in c.inFlight ==> InProgress(c, c.inFlight[key]) && c.reqs[c.inFlight[key]].key == key
  }

  predicate Before(a: (real, nat), b: (real, nat)) {
    a.0 < b.0 || (a.0 == b.0 && a.1 < b.1)
  }

  predicate InOrder(ds: seq<(real, nat)>) {
    forall i, j :: 0 <= i < j < |ds| ==> Before(ds[i], ds[j])
  }

  predicate HeapOrdered(c: Core) {
    && InOrder(c.deadlines)
    && (forall i :: 0 <= i < |c.deadlines| ==>
          c.deadlines[i].1 < |c.reqs| && c.deadlines[i].0 == c.reqs[c.deadlines[i].1].deadline)
  }

  /** Every request a deadline may still expire, queued or running, has its heap entry. */
  predicate HeapComplete(c: Core) {
    forall id: nat :: id < |c.reqs| && !TimeoutIgnored(c.reqs[id]) ==> (c.reqs[id].deadline, id) in c.deadlines
  }

  ghost predicate Inv(c: Core) {
    && AllLocalOk(c) && QueuesOk(c) && Settled(c) && Counted(c)
    && Exclusive(c) && FlightOk(c) && HeapOrdered(c) && HeapComplete(c)
  }

  lemma {:induction false} InvIndexed(c: Core)
    requires QueuesOk(c) && FlightOk(c) && HeapOrdered(c)
    ensures Indexed(c)
  {
    assert QueueOk(c.reqs, c.queues.Get(FastRead), FastRead);
    assert QueueOk(c.reqs, c.queues.Get(SemanticRead), SemanticRead);
    assert QueueOk(c.reqs, c.queues.Get(WriteRefactor), WriteRefactor);
    assert forall key :: key in c.inFlight ==> InProgress(c, c.inFlight[key]);
  }

  lemma {:induction false} InitInv(cfg: Config)
    ensures Inv(Init(cfg))
  {
    var c := Init(cfg);
    forall sel ensures CountOf(c, sel) == |Ids(c.reqs, sel)| {
      assert Ids(c.reqs, sel) == {};
    }
  }

  // ---- single-flight removal ----

  lemma {:induction false} RemoveInFlightOk(c: Core, id: nat)
    requires id < |c.reqs|
    requires forall key :: key in c.inFlight ==> c.inFlight[key] < |c.reqs| && c.reqs[c.inFlight[key]].key == key
    ensures forall key :: key in RemoveInFlight(c, id).inFlight ==>
              key in c.inFlight && c.inFlight[key] == RemoveInFlight(c, id).inFlight[key] && c.inFlight[key] != id
  {
  }

  lemma {:induction false} WithoutHead(queue: seq<nat>, x: nat)
    requires queue != [] && (forall i, j :: 0 <= i < j < |queue| ==> queue[i] < queue[j])
    ensures x in queue[1..] <==> x in queue && x != queue[0]
  {
    assert queue == [queue[0]] + queue[1..];
  }

  lemma {:induction false} WithoutOk(queue: seq<nat>, id: nat)
    requires forall i, j :: 0 <= i < j < |queue| ==> queue[i] < queue[j]
    ensures forall i, j :: 0 <= i < j < |Without(queue, id)| ==> Without(queue, id)[i] < Without(queue, id)[j]
    ensures forall x :: x in Without(queue, id) <==> x in queue && x != id
  {
    if queue != [] {
      assert queue == [queue[0]] + queue[1..];
      if queue[0] != id {
        WithoutOk(queue[1..], id);
        var rest := Without(queue[1..], id);
        forall j | 0 <= j < |rest| ensures queue[0] < rest[j] {
          assert rest[j] in rest && rest[j] in queue[1..];
        }
      }
    }
  }

  // ---- dispatch ----

  lemma {:induction false} DispatchOneInv(c: Core, lane: Lane)
    requires Inv(c) && Indexed(c) && CanDispatch(c, lane)
    ensures Inv(DispatchOne(c, lane))
  {
    var c' := DispatchOne(c, lane);
    var queue := c.queues.Get(lane);
    var id := queue[0];
    assert QueueOk(c.reqs, queue, lane);
    assert LocalOk(c.cfg, c.reqs[id]);
    IdsPut(c.reqs, id, c'.reqs[id]);
    assert c.reqs[id := c'.reqs[id]] == c'.reqs;
    DispatchOneQueues(c, lane);
    assert Counted(c') by {
      forall sel ensures CountOf(c', sel) == |Ids(c'.reqs, sel)| {
        assert CountOf(c, sel) == |Ids(c.reqs, sel)|;
      }
    }
  }

  lemma {:induction false} DispatchOneQueues(c: Core, lane: Lane)
    requires QueuesOk(c) && FlightOk(c) && Settled(c) && Indexed(c) && CanDispatch(c, lane)
    ensures QueuesOk(DispatchOne(c, lane)) && FlightOk(DispatchOne(c, lane)) && Settled(DispatchOne(c, lane))
  {
    var c' := DispatchOne(c, lane);
    var queue := c.queues.Get(lane);
    var id := queue[0];
    assert QueueOk(c.reqs, queue, lane) && id in queue;
    forall l ensures QueueOk(c'.reqs, c'.queues.Get(l), l) {
      QueueAfterPop(c, lane, l);
    }
    forall x: nat | x < |c.reqs| && x != id && Queued(c, x) ensures Queued(c', x) {
      WithoutHead(queue, x);
    }
    DispatchOneFlight(c, lane);
  }

  lemma {:induction false} QueueAfterPop(c: Core, lane: Lane, l: Lane)
    requires QueuesOk(c) && Indexed(c) && CanDispatch(c, lane)
    ensures QueueOk(DispatchOne(c, lane).reqs, DispatchOne(c, lane).queues.Get(l), l)
  {
    var c' := DispatchOne(c, lane);
    var queue := c.queues.Get(lane);
    assert QueueOk(c.reqs, queue, lane);
    assert QueueOk(c.reqs, c.queues.Get(l), l);
    var q' := c'.queues.Get(l);
    assert q' == if l == lane then queue[1..] else c.queues.Get(l);
    forall i | 0 <= i < |q'| ensures q'[i] < |c'.reqs| && Waiting(c'.reqs[q'[i]], l) {
      assert q'[i] != queue[0];
    }
  }

  lemma {:induction false} DispatchOneFlight(c: Core, lane: Lane)
    requires QueuesOk(c) && FlightOk(c) && Indexed(c) && CanDispatch(c, lane)
    ensures FlightOk(DispatchOne(c, lane))
  {
    var c' := DispatchOne(c, lane);
    var queue := c.queues.Get(lane);
    assert QueueOk(c.reqs, queue, lane);
    forall key | key in c'.inFlight
      ensures InProgress(c', c'.inFlight[key]) && c'.reqs[c'.inFlight[key]].key == key
    {
      var x := c'.inFlight[key];
      assert key in c.inFlight && c.inFlight[key] == x;
      assert InProgress(c, x) && c.reqs[x].key == key;
      if x != queue[0] {
        WithoutHead(queue, x);
        assert c'.reqs[x] == c.reqs[x];
      }
    }
  }

  lemma {:induction false} TryDispatchInv(c: Core, lane: Lane)
    requires Inv(c) && Indexed(c)
    ensures Inv(TryDispatch(c, lane)) && Indexed(TryDispatch(c, lane))
    decreases |c.queues.Get(lane)|
  {
    if CanDispatch(c, lane) {
      DispatchOneInv(c, lane);
      TryDispatchInv(DispatchOne(c, lane), lane);
    }
  }

  // ---- updates of one request ----

  /** An update of a request that leaves its place in queue, pool and counters alone. */
  predicate QuietChange(cfg: Config, r: Request, r': Request) {
    && r'.key == r.key && r'.lane == r.lane && r'.deadline == r.deadline
    && LocalOk(cfg, r')
    && (Waiting(r, r.lane) ==> Waiting(r', r.lane))
    && r'.worker.Idle? == r.worker.Idle? && r'.worker.Holding() == r.worker.Holding()
    && (r.future.Done() ==> r'.future.Done())
    && (TimeoutIgnored(r) ==> TimeoutIgnored(r'))
    && (r.future.TimedOut? <==> r'.future.TimedOut?)
    && (r.cancelled && r.future.Cancelled? <==> r'.cancelled && r'.future.Cancelled?)
  }

  lemma {:induction false} QuietChangeInv(c: Core, id: nat, r: Request)
    requires Inv(c) && id < |c.reqs| && QuietChange(c.cfg, c.reqs[id], r)
    ensures Inv(Put(c, id, r))
  {
    var c' := Put(c, id, r);
    IdsPut(c.reqs, id, r);
    assert Counted(c') by {
      forall sel ensures CountOf(c', sel) == |Ids(c'.reqs, sel)| {
        assert CountOf(c, sel) == |Ids(c.reqs, sel)|;
      }
    }
    forall lane ensures QueueOk(c'.reqs, c'.queues.Get(lane), lane) {
      assert QueueOk(c.reqs, c.queues.Get(lane), lane);
    }
    forall x: nat | x < |c.reqs| && Queued(c, x) ensures Queued(c', x) {
    }
    forall key | key in c'.inFlight
      ensures InProgress(c', c'.inFlight[key]) && c'.reqs[c'.inFlight[key]].key == key
    {
      assert InProgress(c, c.inFlight[key]);
    }
  }

  lemma {:induction false} BeginInv(c: Core, id: nat)
    requires Inv(c) && id < |c.reqs| && c.reqs[id].worker.Submitted?
    ensures Inv(Begin(c, id))
  {
    QuietChangeInv(c, id, Begin(c, id).reqs[id]);
  }

  lemma {:induction false} ResolveInv(c: Core, id: nat)
    requires Inv(c) && id < |c.reqs| && c.reqs[id].worker.Released?
    ensures Inv(Resolve(c, id))
  {
    assert LocalOk(c.cfg, c.reqs[id]);
    QuietChangeInv(c, id, Resolve(c, id).reqs[id]);
  }

  lemma {:induction false} CallerCancelInv(c: Core, id: nat)
    requires Inv(c) && id < |c.reqs|
    ensures Inv(CallerCancel(c, id))
  {
    assert LocalOk(c.cfg, c.reqs[id]);
    QuietChangeInv(c, id, CallerCancel(c, id).reqs[id]);
  }

  // ---- a worker leaves its lane ----

  lemma {:induction false} FinishInv(c: Core, id: nat)
    requires Inv(c) && id < |c.reqs| && c.reqs[id].worker.Back?
    ensures Inv(Finish(c, id))
  {
    FinishCounts(c, id);
    FinishQueues(c, id);
  }

  lemma {:induction false} FinishCounts(c: Core, id: nat)
    requires Inv(c) && id < |c.reqs| && c.reqs[id].worker.Back?
    ensures Counted(Finish(c, id)) && Exclusive(Finish(c, id)) && AllLocalOk(Finish(c, id))
  {
    var c' := Finish(c, id);
    var r := c.reqs[id];
    assert LocalOk(c.cfg, r);
    IdsPut(c.reqs, id, c'.reqs[id]);
    assert CountOf(c, Holders(r.lane)) == |Ids(c.reqs, Holders(r.lane))| > 0 by {
      assert id in Ids(c.reqs, Holders(r.lane));
    }
    forall sel ensures CountOf(c', sel) == |Ids(c'.reqs, sel)| {
      assert CountOf(c, sel) == |Ids(c.reqs, sel)|;
    }
  }

  lemma {:induction false} FinishQueues(c: Core, id: nat)
    requires Inv(c) && id < |c.reqs| && c.reqs[id].worker.Back?
    ensures QueuesOk(Finish(c, id)) && Settled(Finish(c, id)) && FlightOk(Finish(c, id))
  {
    var c' := Finish(c, id);
    forall lane ensures QueueOk(c'.reqs, c'.queues.Get(lane), lane) {
      assert QueueOk(c.reqs, c.queues.Get(lane), lane);
    }
    forall x: nat | x < |c.reqs| && Queued(c, x) ensures Queued(c', x) {
    }
    forall key | key in c'.inFlight
      ensures InProgress(c', c'.inFlight[key]) && c'.reqs[c'.inFlight[key]].key == key
    {
      assert InProgress(c, c.inFlight[key]);
    }
  }

  lemma {:induction false} ReleaseInv(c: Core, id: nat)
    requires Inv(c) && id < |c.reqs| && c.reqs[id].worker.Back?
    ensures Indexed(c) && Inv(Release(c, id))
  {
    InvIndexed(c);
    FinishInv(c, id);
    DispatchAllInv(Finish(c, id));
  }

  lemma {:induction false} DispatchAllInv(c: Core)
    requires Inv(c) && Indexed(c)
    ensures Inv(DispatchAll(c))
  {
    TryDispatchInv(c, WriteRefactor);
    var c1 := TryDispatch(c, WriteRefactor);
    TryDispatchInv(c1, FastRead);
    TryDispatchInv(TryDispatch(c1, FastRead), SemanticRead);
  }

  // ---- a request leaves its queue ----

  /** The queue of `lane` without `id`: the common part of expiry and withdrawal. */
  lemma {:induction false} QueueAfterWithout(c: Core, c': Core, id: nat)
    requires QueuesOk(c) && id < |c.reqs| == |c'.reqs| && c'.reqs == c.reqs[id := c'.reqs[id]]
    requires c'.reqs[id].lane == c.reqs[id].lane
    requires c'.queues == c.queues.Set(c.reqs[id].lane, Without(c.queues.Get(c.reqs[id].lane), id))
    ensures QueuesOk(c')
    ensures forall x: nat :: x != id && Queued(c, x) ==> Queued(c', x)
    ensures !Queued(c', id)
  {
    var lane := c.reqs[id].lane;
    var queue := c.queues.Get(lane);
    assert QueueOk(c.reqs, queue, lane);
    WithoutOk(queue, id);
    forall l ensures QueueOk(c'.reqs, c'.queues.Get(l), l) {
      QueueElsewhere(c, c', id, l);
    }
  }

  lemma {:induction false} QueueElsewhere(c: Core, c': Core, id: nat, l: Lane)
    requires QueuesOk(c) && id < |c.reqs| == |c'.reqs| && c'.reqs == c.reqs[id := c'.reqs[id]]
    requires c'.reqs[id].lane == c.reqs[id].lane
    requires c'.queues == c.queues.Set(c.reqs[id].lane, Without(c.queues.Get(c.reqs[id].lane), id))
    ensures QueueOk(c'.reqs, c'.queues.Get(l), l)
  {
    var lane := c.reqs[id].lane;
    assert QueueOk(c.reqs, c.queues.Get(l), l);
    WithoutOk(c.queues.Get(l), id);
    var q' := c'.queues.Get(l);
    forall i | 0 <= i < |q'| ensures q'[i] < |c'.reqs| && Waiting(c'.reqs[q'[i]], l) {
      assert q'[i] in c.queues.Get(l);
      assert l == lane ==> q'[i] in q' && q'[i] != id;
    }
  }

  lemma {:induction false} ExpireInv(c: Core, id: nat)
    requires Inv(c) && id < |c.reqs| && !TimeoutIgnored(c.reqs[id])
    ensures Inv(Expire(c, id))
  {
    var c' := Expire(c, id);
    var r := c.reqs[id];
    assert LocalOk(c.cfg, r);
    IdsPut(c.reqs, id, c'.reqs[id]);
    assert Counted(c') by {
      forall sel ensures CountOf(c', sel) == |Ids(c'.reqs, sel)| {
        assert CountOf(c, sel) == |Ids(c.reqs, sel)|;
      }
    }
    assert LocalOk(c'.cfg, c'.reqs[id]);
    ExpireQueues(c, id);
  }

  lemma {:induction false} ExpireQueues(c: Core, id: nat)
    requires Inv(c) && id < |c.reqs| && !TimeoutIgnored(c.reqs[id])
    ensures QueuesOk(Expire(c, id)) && Settled(Expire(c, id)) && FlightOk(Expire(c, id))
  {
    var c' := Expire(c, id);
    assert LocalOk(c.cfg, c.reqs[id]);
    if c.reqs[id].future.Running? {
      assert forall l :: QueueOk(c.reqs, c.queues.Get(l), l);
      forall l ensures QueueOk(c'.reqs, c'.queues.Get(l), l) {
        assert QueueOk(c.reqs, c.queues.Get(l), l);
      }
    } else {
      QueueAfterWithout(c, c', id);
    }
    RemoveInFlightOk(c, id);
    forall key | key in c'.inFlight
      ensures InProgress(c', c'.inFlight[key]) && c'.reqs[c'.inFlight[key]].key == key
    {
      assert InProgress(c, c.inFlight[key]);
    }
  }

  lemma {:induction false} TimeoutInv(c: Core, id: nat)
    requires Inv(c) && id < |c.reqs|
    ensures Indexed(c) && Inv(Timeout(c, id))
  {
    InvIndexed(c);
    if !TimeoutIgnored(c.reqs[id]) {
      ExpireInv(c, id);
      InvIndexed(Expire(c, id));
      TryDispatchInv(Expire(c, id), c.reqs[id].lane);
    }
  }

  lemma {:induction false} WithdrawInv(c: Core, id: nat)
    requires Inv(c) && Indexed(c) && Cancellable(c, id)
    ensures Inv(Withdraw(c, id))
  {
    var c' := Withdraw(c, id);
    var lane := QueueOf(c, id);
    assert QueueOk(c.reqs, c.queues.Get(lane), lane);
    var r := c.reqs[id];
    assert LocalOk(c.cfg, r) && Waiting(r, lane);
    IdsPut(c.reqs, id, c'.reqs[id]);
    assert Counted(c') by {
      forall sel ensures CountOf(c', sel) == |Ids(c'.reqs, sel)| {
        assert CountOf(c, sel) == |Ids(c.reqs, sel)|;
      }
    }
    assert LocalOk(c'.cfg, c'.reqs[id]);
    QueueAfterWithout(c, c', id);
    forall key | key in c'.inFlight
      ensures InProgress(c', c'.inFlight[key]) && c'.reqs[c'.inFlight[key]].key == key
    {
      assert InProgress(c, c.inFlight[key]);
    }
  }

  lemma {:induction false} CancelInv(c: Core, id: nat)
    requires Inv(c)
    ensures Indexed(c) && Inv(Cancel(c, id))
  {
    InvIndexed(c);
    if Cancellable(c, id) {
      WithdrawInv(c, id);
      InvIndexed(Withdraw(c, id));
      TryDispatchInv(Withdraw(c, id), QueueOf(c, id));
    }
  }

  // ---- submit ----

  lemma {:induction false} InsertDeadlineOrdered(ds: seq<(real, nat)>, entry: (real, nat))
    requires InOrder(ds)
    requires forall i :: 0 <= i < |ds| ==> ds[i].1 < entry.1
    ensures InOrder(InsertDeadline(ds, entry))
  {
    if ds != [] && entry.0 >= ds[0].0 {
      InsertDeadlineOrdered(ds[1..], entry);
      InsertDeadlineMembers(ds[1..], entry);
      var tail := InsertDeadline(ds[1..], entry);
      forall j | 0 <= j < |tail| ensures Before(ds[0], tail[j]) {
        assert tail[j] in tail;
      }
    }
  }

  lemma {:induction false} EnqueueInv(c: Core, key: Key, timeout: real, now: real)
    requires Inv(c)
    ensures Inv(Enqueue(c, key, timeout, now))
  {
    var c' := Enqueue(c, key, timeout, now);
    var id := |c.reqs|;
    IdsAppend(c.reqs, c'.reqs[id]);
    assert Counted(c') by {
      forall sel ensures CountOf(c', sel) == |Ids(c'.reqs, sel)| {
        assert CountOf(c, sel) == |Ids(c.reqs, sel)|;
      }
    }
    EnqueueQueues(c, key, timeout, now);
    EnqueueHeap(c, key, timeout, now);
  }

  lemma {:induction false} QueueGrows(reqs: seq<Request>, queue: seq<nat>, lane: Lane, r: Request)
    requires QueueOk(reqs, queue, lane)
    ensures QueueOk(reqs + [r], queue, lane)
    ensures Waiting(r, lane) ==> QueueOk(reqs + [r], queue + [|reqs|], lane)
  {
  }

  lemma {:induction false} EnqueueQueues(c: Core, key: Key, timeout: real, now: real)
    requires Inv(c)
    ensures QueuesOk(Enqueue(c, key, timeout, now)) && Settled(Enqueue(c, key, timeout, now))
    ensures FlightOk(Enqueue(c, key, timeout, now))
  {
    var c', id := Enqueue(c, key, timeout, now), |c.reqs|;
    forall l ensures QueueOk(c'.reqs, c'.queues.Get(l), l) {
      assert QueueOk(c.reqs, c.queues.Get(l), l);
      QueueGrows(c.reqs, c.queues.Get(l), l, c'.reqs[id]);
    }
    EnqueueSettled(c, key, timeout, now);
    EnqueueFlight(c, key, timeout, now);
  }

  lemma {:induction false} EnqueueSettled(c: Core, key: Key, timeout: real, now: real)
    requires Settled(c)
    ensures Settled(Enqueue(c, key, timeout, now))
  {
    EnqueueMembers(c, key, timeout, now);
  }

  lemma {:induction false} EnqueueMembers(c: Core, key: Key, timeout: real, now: real)
    ensures var c' := Enqueue(c, key, timeout, now);
      Queued(c', |c.reqs|) && forall x: nat :: Queued(c, x) ==> Queued(c', x)
  {
    var c', id := Enqueue(c, key, timeout, now), |c.reqs|;
    assert Queued(c', id) by {
      var q' := c'.queues.Get(c'.reqs[id].lane);
      assert q'[|q'| - 1] == id;
    }
  }

  lemma {:induction false} EnqueueFlight(c: Core, key: Key, timeout: real, now: real)
    requires FlightOk(c)
    ensures FlightOk(Enqueue(c, key, timeout, now))
  {
    var c' := Enqueue(c, key, timeout, now);
    EnqueueMembers(c, key, timeout, now);
    forall k | k in c'.inFlight ensures InProgress(c', c'.inFlight[k]) && c'.reqs[c'.inFlight[k]].key == k {
      if k != key {
        assert InProgress(c, c.inFlight[k]);
      }
    }
  }

  lemma {:induction false} EnqueueHeap(c: Core, key: Key, timeout: real, now: real)
    requires HeapOrdered(c) && HeapComplete(c)
    ensures HeapOrdered(Enqueue(c, key, timeout, now)) && HeapComplete(Enqueue(c, key, timeout, now))
  {
    var c' := Enqueue(c, key, timeout, now);
    var entry := (c'.reqs[|c.reqs|].deadline, |c.reqs|);
    InsertDeadlineOrdered(c.deadlines, entry);
    InsertDeadlineMembers(c.deadlines, entry);
    assert c'.deadlines == InsertDeadline(c.deadlines, entry);
    forall i | 0 <= i < |c'.deadlines|
      ensures c'.deadlines[i].1 < |c'.reqs| && c'.deadlines[i].0 == c'.reqs[c'.deadlines[i].1].deadline
    {
      var d := c'.deadlines[i];
      assert d in c'.deadlines;
      if d != entry {
        var j :| 0 <= j < |c.deadlines| && c.deadlines[j] == d;
      }
    }
    assert HeapOrdered(c');
    forall id: nat | id < |c'.reqs| && !TimeoutIgnored(c'.reqs[id]) ensures (c'.reqs[id].deadline, id) in c'.deadlines {
      if id < |c.reqs| {
        assert (c.reqs[id].deadline, id) in c.deadlines;
      }
    }
  }

  lemma {:induction false} SubmitInv(c: Core, key: Key, timeout: real, now: real)
    requires Inv(c)
    ensures Indexed(c) && Inv(Submit(c, key, timeout, now))
  {
    InvIndexed(c);
    if SubmitAnswer(c, key).Accepted? {
      EnqueueInv(c, key, timeout, now);
      InvIndexed(Enqueue(c, key, timeout, now));
      TryDispatchInv(Enqueue(c, key, timeout, now), Classify(c.cfg, key.tool));
    } else {
      RejectInv(c, c.rejected + 1);
    }
  }

  lemma {:induction false} RejectInv(c: Core, n: nat)
    requires Inv(c)
    ensures Inv(c.(rejected := n))
  {
    var c' := c.(rejected := n);
    assert forall key :: key in c.inFlight ==> InProgress(c, c.inFlight[key]) ==> InProgress(c', c.inFlight[key]);
    assert forall lane :: QueueOk(c.reqs, c.queues.Get(lane), lane);
    assert Counted(c') by {
      forall sel ensures CountOf(c', sel) == |Ids(c'.reqs, sel)| {
        assert CountOf(c, sel) == |Ids(c.reqs, sel)|;
      }
    }
  }

  // ---- deadline thread ----

  /** Dropping a heap entry whose request can no longer expire keeps the heap complete. */
  lemma {:induction false} PopEntryInv(c: Core)
    requires Inv(c) && c.deadlines != [] && TimeoutIgnored(c.reqs[c.deadlines[0].1])
    ensures Inv(c.(deadlines := c.deadlines[1..]))
  {
    var c' := c.(deadlines := c.deadlines[1..]);
    assert c.deadlines == [c.deadlines[0]] + c.deadlines[1..];
    assert forall key :: key in c.inFlight ==> InProgress(c, c.inFlight[key]) ==> InProgress(c', c.inFlight[key]);
    assert forall lane :: QueueOk(c.reqs, c.queues.Get(lane), lane);
    assert Counted(c') by {
      forall sel ensures CountOf(c', sel) == |Ids(c'.reqs, sel)| {
        assert CountOf(c, sel) == |Ids(c.reqs, sel)|;
      }
    }
    forall id: nat | id < |c.reqs| && Queued(c, id) ensures Queued(c', id) {
    }
  }

  lemma {:induction false} PopDoneInv(c: Core)
    requires Inv(c) && Indexed(c)
    ensures Inv(PopDone(c)) && Indexed(PopDone(c))
    ensures PopDone(c).deadlines != [] ==> !PopDone(c).reqs[PopDone(c).deadlines[0].1].future.Done()
    decreases |c.deadlines|
  {
    if c.deadlines != [] && c.reqs[c.deadlines[0].1].future.Done() {
      PopEntryInv(c);
      PopDoneInv(c.(deadlines := c.deadlines[1..]));
    }
  }

  lemma {:induction false} DueExpiryInv(c: Core)
    requires Inv(c) && c.deadlines != [] && !TimeoutIgnored(c.reqs[c.deadlines[0].1])
    ensures var c2 := Expire(c.(deadlines := c.deadlines[1..]), c.deadlines[0].1); Inv(c2) && Indexed(c2)
  {
    var id := c.deadlines[0].1;
    ExpireInv(c, id);
    PopEntryInv(Expire(c, id));
    var c2 := Expire(c.(deadlines := c.deadlines[1..]), id);
    assert c2 == Expire(c, id).(deadlines := c.deadlines[1..]);
    InvIndexed(c2);
  }

  lemma {:induction false} DeadlinePassInv(c: Core, now: real)
    requires Inv(c)
    ensures Indexed(c) && Inv(DeadlinePass(c, now))
  {
    InvIndexed(c);
    PopDoneInv(c);
    var c1 := PopDone(c);
    if Due(c1, now) {
      var id := c1.deadlines[0].1;
      if TimeoutIgnored(c1.reqs[id]) {
        PopEntryInv(c1);
      } else {
        DueExpiryInv(c1);
        TryDispatchInv(Expire(c1.(deadlines := c1.deadlines[1..]), id), c1.reqs[id].lane);
      }
    }
  }

  /** Deadlines are never lost: when the deadline thread goes to sleep at `now`, every request that
      can still expire, queued or running, has a deadline after `now`. */
  lemma {:induction false} SleepMeansNothingDue(c: Core, now: real)
    requires Inv(c)
    ensures Indexed(c)
    ensures Sleeps(c, now) ==>
              forall id: nat :: id < |c.reqs| && !TimeoutIgnored(c.reqs[id]) ==> now < c.reqs[id].deadline
  {
    InvIndexed(c);
    if Sleeps(c, now) {
      PopDoneInv(c);
      PopDoneKeeps(c);
      var c1 := PopDone(c);
      forall id: nat | id < |c.reqs| && !TimeoutIgnored(c.reqs[id]) ensures now < c.reqs[id].deadline {
        var entry := (c1.reqs[id].deadline, id);
        assert entry in c1.deadlines;
        var i :| 0 <= i < |c1.deadlines| && c1.deadlines[i] == entry;
        assert i > 0 ==> Before(c1.deadlines[0], c1.deadlines[i]);
      }
    }
  }
}
