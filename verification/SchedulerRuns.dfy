/** Whole runs of the scheduler: any interleaving of callers, workers, the deadline thread and
    the project store that the scheduled functions read and write. */
module SchedulerRuns {
  import opened Scheduler
  import opened SchedulerInvariants

  /** A caller of submit that was handed the future of request `id` when the store was at version `since`. */
  datatype Caller = Caller(id: nat, since: nat)

  datatype World = World(core: Core, store: nat, callers: seq<Caller>)

  datatype Event =
    | Submits(key: Key, timeout: real, now: real)
    | Begins(id: nat)
    | Observes(id: nat)                        // a running function reads the store
    | Mutates(id: nat)                         // a running write changes the store
    | Returns(id: nat, ok: bool, value: int)   // the function returns or raises
    | Releases(id: nat)                        // the worker's locked section
    | Resolves(id: nat)                        // the worker's unlocked check-then-set
    | DeadlineWakes(now: real)
    | Cancels(id: nat)
    | CallerCancels(id: nat)

  function At(c: Core, id: nat): Worker {
    if id < |c.reqs| then c.reqs[id].worker else Idle
  }

  function SetWorker(c: Core, id: nat, w: Worker): Core
    requires id < |c.reqs|
  {
    Put(c, id, c.reqs[id].(worker := w))
  }

  /** One atomic step; an event that is not enabled changes nothing. */
  function Next(w: World, e: Event): World {
    var c := w.core;
    if !Indexed(c) then w   // never the case in a run
    else
      match e
      case Submits(key, timeout, now) =>
        var answer := SubmitAnswer(c, key);
        w.(core := Submit(c, key, timeout, now),
           callers := if answer.QueueFull? then w.callers else w.callers + [Caller(answer.id, w.store)])
      case Begins(id) => if At(c, id).Submitted? then w.(core := Begin(c, id)) else w
      case Observes(id) =>
        if At(c, id).Calling? then w.(core := SetWorker(c, id, Calling(At(c, id).seen + [w.store]))) else w
      case Mutates(id) =>
        if At(c, id).Calling? && c.reqs[id].lane == WriteRefactor then w.(store := w.store + 1) else w
      case Returns(id, ok, value) =>
        if At(c, id).Calling? then
          var seen := At(c, id).seen;
          w.(core := SetWorker(c, id, Back(if ok then Returned(value, seen) else Raised(value, seen))))
        else w
      case Releases(id) => if At(c, id).Back? then w.(core := Release(c, id)) else w
      case Resolves(id) => if At(c, id).Released? then w.(core := Resolve(c, id)) else w
      case DeadlineWakes(now) => w.(core := DeadlinePass(c, now))
      case Cancels(id) => w.(core := Cancel(c, id))
      case CallerCancels(id) => if id < |c.reqs| then w.(core := CallerCancel(c, id)) else w
  }

  lemma {:induction false} NextInv(w: World, e: Event)
    requires Inv(w.core)
    ensures Inv(Next(w, e).core) && Indexed(Next(w, e).core)
  {
    InvIndexed(w.core);
    var c := w.core;
    match e {
      case Submits(key, timeout, now) => SubmitInv(c, key, timeout, now);
      case Begins(id) => if At(c, id).Submitted? { BeginInv(c, id); }
      case Observes(id) =>
        if At(c, id).Calling? {
          assert LocalOk(c.cfg, c.reqs[id]);
          QuietChangeInv(c, id, Next(w, e).core.reqs[id]);
        }
      case Mutates(id) =>
      case Returns(id, ok, value) =>
        if At(c, id).Calling? {
          assert LocalOk(c.cfg, c.reqs[id]);
          QuietChangeInv(c, id, Next(w, e).core.reqs[id]);
        }
      case Releases(id) => if At(c, id).Back? { ReleaseInv(c, id); }
      case Resolves(id) => if At(c, id).Released? { ResolveInv(c, id); }
      case DeadlineWakes(now) => DeadlinePassInv(c, now);
      case Cancels(id) => CancelInv(c, id);
      case CallerCancels(id) => if id < |c.reqs| { CallerCancelInv(c, id); }
    }
    InvIndexed(Next(w, e).core);
  }

  function Run(cfg: Config, events: seq<Event>): World {
    if events == [] then World(Init(cfg), 0, [])
    else Next(Run(cfg, events[..|events| - 1]), events[|events| - 1])
  }

  /** The invariant holds in every reachable state. */
  lemma {:induction false} RunInv(cfg: Config, events: seq<Event>)
    ensures Inv(Run(cfg, events).core) && Indexed(Run(cfg, events).core)
  {
    if events == [] {
      InitInv(cfg);
      InvIndexed(Init(cfg));
    } else {
      RunInv(cfg, events[..|events| - 1]);
      NextInv(Run(cfg, events[..|events| - 1]), events[|events| - 1]);
    }
  }

  // ---- how one request moves ----

  function Phase(w: Worker): nat {
    match w
    case Idle => 0
    case Submitted => 1
    case Calling(_) => 2
    case Back(_) => 3
    case Released(_) => 4
    case Exited => 5
  }

  /** The store versions that the request's function has read so far, if they can still reach a caller. */
  function Observed(r: Request): seq<nat> {
    if r.future.Resolved? then r.future.outcome.Seen()
    else match r.worker
         case Calling(seen) => seen
         case Back(res) => res.Seen()
         case Released(res) => res.Seen()
         case _ => []
  }

  predicate HasResult(w: Worker) {
    w.Back? || w.Released?
  }

  /** The order in which a request may change. */
  predicate Evolves(r: Request, r': Request) {
    && r'.key == r.key && r'.lane == r.lane && r'.deadline == r.deadline
    && (r.future.Done() ==> r'.future == r.future)
    && (r.cancelled ==> r'.cancelled)
    && Phase(r.worker) <= Phase(r'.worker)
    && r.calls <= r'.calls
    && (r.worker.Exited? ==> r'.future == r.future)
    && (HasResult(r.worker) ==>
          if HasResult(r'.worker)
          then r'.worker.result == r.worker.result && (r'.future.Resolved? ==> r.future.Resolved?)
          else
            && r'.worker.Exited?
            && (r'.future.Resolved? && !r.future.Resolved? ==> r'.future.outcome == r.worker.result))
  }

  predicate Framed(r: Request, r': Request) {
    && Evolves(r, r')
    && Observed(r') == Observed(r)
    && (r'.worker.Holding() ==> r.worker.Holding() || Observed(r') == [])
  }

  ghost predicate FramedAll(c: Core, c': Core) {
    && |c.reqs| <= |c'.reqs|
    && forall id :: 0 <= id < |c.reqs| ==> Framed(c.reqs[id], c'.reqs[id])
  }

  lemma {:induction false} FramedChain(a: Core, b: Core, c: Core)
    requires FramedAll(a, b) && FramedAll(b, c)
    ensures FramedAll(a, c)
  {
    forall id | 0 <= id < |a.reqs| ensures Framed(a.reqs[id], c.reqs[id]) {
      assert Framed(a.reqs[id], b.reqs[id]) && Framed(b.reqs[id], c.reqs[id]);
    }
  }

  lemma {:induction false} DispatchOneFramed(c: Core, lane: Lane)
    requires AllLocalOk(c) && QueuesOk(c) && Indexed(c) && CanDispatch(c, lane)
    ensures FramedAll(c, DispatchOne(c, lane))
  {
    var id := c.queues.Get(lane)[0];
    assert LocalOk(c.cfg, c.reqs[id]);
    assert QueueOk(c.reqs, c.queues.Get(lane), lane);
  }

  lemma {:induction false} TryDispatchFramed(c: Core, lane: Lane)
    requires Inv(c) && Indexed(c)
    ensures FramedAll(c, TryDispatch(c, lane))
    ensures |TryDispatch(c, lane).reqs| == |c.reqs|
    decreases |c.queues.Get(lane)|
  {
    if CanDispatch(c, lane) {
      DispatchOneInv(c, lane);
      DispatchOneFramed(c, lane);
      var c1 := DispatchOne(c, lane);
      TryDispatchFramed(c1, lane);
      FramedChain(c, c1, TryDispatch(c1, lane));
    }
  }

  lemma {:induction false} DispatchAllFramed(c: Core)
    requires Inv(c) && Indexed(c)
    ensures FramedAll(c, DispatchAll(c))
  {
    TryDispatchInv(c, WriteRefactor);
    TryDispatchFramed(c, WriteRefactor);
    var c1 := TryDispatch(c, WriteRefactor);
    TryDispatchInv(c1, FastRead);
    TryDispatchFramed(c1, FastRead);
    var c2 := TryDispatch(c1, FastRead);
    TryDispatchFramed(c2, SemanticRead);
    FramedChain(c, c1, c2);
    FramedChain(c, c2, TryDispatch(c2, SemanticRead));
  }

  lemma {:induction false} FinishFramed(c: Core, id: nat)
    requires id < |c.reqs| && c.reqs[id].worker.Back?
    ensures FramedAll(c, Finish(c, id))
  {
  }

  lemma {:induction false} ReleaseFramed(c: Core, id: nat)
    requires Inv(c) && Indexed(c) && id < |c.reqs| && c.reqs[id].worker.Back?
    ensures FramedAll(c, Release(c, id))
  {
    FinishInv(c, id);
    InvIndexed(Finish(c, id));
    FinishFramed(c, id);
    DispatchAllFramed(Finish(c, id));
    FramedChain(c, Finish(c, id), Release(c, id));
  }

  lemma {:induction false} ExpireFramed(c: Core, c2: Core, id: nat)
    requires AllLocalOk(c) && id < |c.reqs| && !TimeoutIgnored(c.reqs[id]) && c2.reqs == Expire(c, id).reqs
    ensures FramedAll(c, c2)
  {
    assert LocalOk(c.cfg, c.reqs[id]);
  }

  lemma {:induction false} DeadlinePassFramed(c: Core, now: real)
    requires Inv(c) && Indexed(c)
    ensures FramedAll(c, DeadlinePass(c, now))
  {
    PopDoneKeeps(c);
    PopDoneInv(c);
    var c1 := PopDone(c);
    if Due(c1, now) && !TimeoutIgnored(c1.reqs[c1.deadlines[0].1]) {
      var id := c1.deadlines[0].1;
      var c2 := Expire(c1.(deadlines := c1.deadlines[1..]), id);
      DueExpiryInv(c1);
      ExpireFramed(c, c2, id);
      TryDispatchFramed(c2, c1.reqs[id].lane);
      FramedChain(c, c2, DeadlinePass(c, now));
    }
  }

  lemma {:induction false} SubmitFramed(c: Core, key: Key, timeout: real, now: real)
    requires Inv(c) && Indexed(c)
    ensures FramedAll(c, Submit(c, key, timeout, now))
  {
    if SubmitAnswer(c, key).Accepted? {
      var c1 := Enqueue(c, key, timeout, now);
      EnqueueInv(c, key, timeout, now);
      InvIndexed(c1);
      TryDispatchFramed(c1, Classify(c.cfg, key.tool));
      FramedChain(c, c1, Submit(c, key, timeout, now));
    }
  }

  lemma {:induction false} WithdrawFramed(c: Core, id: nat)
    requires Inv(c) && Indexed(c) && Cancellable(c, id)
    ensures FramedAll(c, Withdraw(c, id))
  {
    var lane := QueueOf(c, id);
    assert QueueOk(c.reqs, c.queues.Get(lane), lane);
    assert LocalOk(c.cfg, c.reqs[id]);
  }

  lemma {:induction false} CancelFramed(c: Core, id: nat)
    requires Inv(c) && Indexed(c)
    ensures FramedAll(c, Cancel(c, id))
  {
    if Cancellable(c, id) {
      var c1 := Withdraw(c, id);
      WithdrawInv(c, id);
      InvIndexed(c1);
      WithdrawFramed(c, id);
      TryDispatchFramed(c1, QueueOf(c, id));
      FramedChain(c, c1, Cancel(c, id));
    }
  }

  lemma {:induction false} WorkerFramed(w: World, e: Event)
    requires Inv(w.core) && (e.Begins? || e.Returns? || e.CallerCancels? || e.Mutates?)
    ensures FramedAll(w.core, Next(w, e).core)
  {
    InvIndexed(w.core);
    if !e.Mutates? && e.id < |w.core.reqs| {
      assert LocalOk(w.core.cfg, w.core.reqs[e.id]);
    }
  }

  /** Every step except a read of the store and the setting of a result leaves what was observed alone. */
  lemma {:induction false} NextFramed(w: World, e: Event)
    requires Inv(w.core) && !e.Observes? && !e.Resolves?
    ensures FramedAll(w.core, Next(w, e).core)
  {
    InvIndexed(w.core);
    var c := w.core;
    match e {
      case Submits(key, timeout, now) => SubmitFramed(c, key, timeout, now);
      case Releases(id) => if At(c, id).Back? { ReleaseFramed(c, id); }
      case DeadlineWakes(now) => DeadlinePassFramed(c, now);
      case Cancels(id) => CancelFramed(c, id);
      case _ => WorkerFramed(w, e);
    }
  }

  lemma {:induction false} NextEvolves(w: World, e: Event, id: nat)
    requires Inv(w.core) && id < |w.core.reqs|
    ensures id < |Next(w, e).core.reqs| && Evolves(w.core.reqs[id], Next(w, e).core.reqs[id])
  {
    InvIndexed(w.core);
    if !e.Observes? && !e.Resolves? {
      NextFramed(w, e);
      assert Framed(w.core.reqs[id], Next(w, e).core.reqs[id]);
    }
  }
}
