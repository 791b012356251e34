/** The request scheduler as a state machine over its critical sections.

    A request, its future and the worker that runs it share one table entry; the
    entry's index stands for the request id and for the identity of the future. */
module Scheduler {

  datatype Lane = FastRead | SemanticRead | WriteRefactor

  /** One slot per lane: the dictionaries keyed by Lane. */
  datatype PerLane<T> = PerLane(fast: T, semantic: T, write: T) {
    function Get(lane: Lane): T {
      match lane
      case FastRead => fast
      case SemanticRead => semantic
      case WriteRefactor => write
    }

    function Set(lane: Lane, value: T): PerLane<T> {
      match lane
      case FastRead => this.(fast := value)
      case SemanticRead => this.(semantic := value)
      case WriteRefactor => this.(write := value)
    }
  }

  datatype LaneConfig = LaneConfig(maxConcurrent: int, maxQueue: int, timeout: real)

  /** Lane limits and the table of audited tools. */
  datatype Config = Config(lanes: PerLane<LaneConfig>, toolLanes: map<string, Lane>)

  /** Tools missing from the table are treated as writes. */
  function Classify(cfg: Config, tool: string): Lane {
    if tool in cfg.toolLanes then cfg.toolLanes[tool] else WriteRefactor
  }

  /** The single-flight key before it is rendered as one string. */
  datatype Key = Key(project: string, tool: string, args: string)

  /** What a worker holds after the call: `seen` lists the store versions the function read. */
  datatype Outcome = NotCalled | Returned(value: int, seen: seq<nat>) | Raised(error: int, seen: seq<nat>) {
    function Seen(): seq<nat> {
      if NotCalled? then [] else seen
    }
  }

  datatype Future = Pending | Running | Cancelled | TimedOut | Resolved(outcome: Outcome) {
    predicate Done() {
      Cancelled? || TimedOut? || Resolved?
    }
  }

  /** Where the worker of a request is: not handed to the pool, waiting in the pool, inside the
      function, back but before the locked section, after it, or gone. */
  datatype Worker =
    | Idle
    | Submitted
    | Calling(seen: seq<nat>)
    | Back(result: Outcome)
    | Released(result: Outcome)
    | Exited
  {
    /** The lane's active count includes this worker. */
    predicate Holding() {
      Submitted? || Calling? || Back?
    }
  }

  datatype Request = Request(
    key: Key, lane: Lane, deadline: real, cancelled: bool, future: Future, worker: Worker, calls: nat)

  datatype Core = Core(
    cfg: Config,
    reqs: seq<Request>,
    queues: PerLane<seq<nat>>,
    active: PerLane<int>,
    inFlight: map<Key, nat>,
    deadlines: seq<(real, nat)>,
    dispatched: nat,
    cancels: nat,
    timeouts: nat,
    rejected: nat)

  predicate Below(queue: seq<nat>, n: nat) {
    forall i :: 0 <= i < |queue| ==> queue[i] < n
  }

  predicate Indexed(c: Core) {
    && Below(c.queues.fast, |c.reqs|) && Below(c.queues.semantic, |c.reqs|) && Below(c.queues.write, |c.reqs|)
    && (forall key :: key in c.inFlight ==> c.inFlight[key] < |c.reqs|)
    && (forall i :: 0 <= i < |c.deadlines| ==> c.deadlines[i].1 < |c.reqs|)
  }

  function Put(c: Core, id: nat, r: Request): Core
    requires id < |c.reqs|
  {
    c.(reqs := c.reqs[id := r])
  }

  function RemoveInFlight(c: Core, id: nat): Core
    requires id < |c.reqs|
  {
    var key := c.reqs[id].key;
    if key in c.inFlight && c.inFlight[key] == id then c.(inFlight := c.inFlight - {key}) else c
  }

  // ---- dispatch ----

  function Total(a: PerLane<int>): int {
    a.fast + a.semantic + a.write
  }

  predicate SomeActive(a: PerLane<int>) {
    a.fast != 0 || a.semantic != 0 || a.write != 0
  }

  predicate CanDispatch(c: Core, lane: Lane) {
    && c.queues.Get(lane) != []
    && c.active.Get(lane) < c.cfg.lanes.Get(lane).maxConcurrent
    && if lane == WriteRefactor then !SomeActive(c.active)
       else c.active.write == 0 && c.queues.write == []
  }

  /** Pops the head of the queue and either drops it or hands it to the pool. */
  function DispatchOne(c: Core, lane: Lane): (c': Core)
    requires Indexed(c) && CanDispatch(c, lane)
    ensures Indexed(c') && |c'.reqs| == |c.reqs| && |c'.queues.Get(lane)| < |c.queues.Get(lane)|
  {
    var queue := c.queues.Get(lane);
    var id := queue[0];
    var popped := c.(queues := c.queues.Set(lane, queue[1..]));
    var r := c.reqs[id];
    if r.cancelled || r.future.Done() then RemoveInFlight(popped, id)
    else
      Put(popped, id, r.(future := Running, worker := Submitted)).(
        active := c.active.Set(lane, c.active.Get(lane) + 1), dispatched := c.dispatched + 1)
  }

  function TryDispatch(c: Core, lane: Lane): Core
    requires Indexed(c)
    decreases |c.queues.Get(lane)|
  {
    if CanDispatch(c, lane) then TryDispatch(DispatchOne(c, lane), lane) else c
  }

  // ---- submit ----

  datatype Answer = Joined(id: nat) | Accepted(id: nat) | QueueFull

  function InsertDeadline(ds: seq<(real, nat)>, entry: (real, nat)): seq<(real, nat)> {
    if ds == [] || entry.0 < ds[0].0 then [entry] + ds else [ds[0]] + InsertDeadline(ds[1..], entry)
  }

  function Enqueue(c: Core, key: Key, timeout: real, now: real): Core {
    var lane := Classify(c.cfg, key.tool);
    var id := |c.reqs|;
    var seconds := if timeout != 0.0 then timeout else c.cfg.lanes.Get(lane).timeout;
    var r := Request(key, lane, now + seconds, false, Pending, Idle, 0);
    c.(reqs := c.reqs + [r],
       queues := c.queues.Set(lane, c.queues.Get(lane) + [id]),
       inFlight := c.inFlight[key := id],
       deadlines := InsertDeadline(c.deadlines, (r.deadline, id)))
  }

  function SubmitAnswer(c: Core, key: Key): Answer
    requires Indexed(c)
  {
    var lane := Classify(c.cfg, key.tool);
    if lane != WriteRefactor && key in c.inFlight && !c.reqs[c.inFlight[key]].future.Done() then Joined(c.inFlight[key])
    else if |c.queues.Get(lane)| >= c.cfg.lanes.Get(lane).maxQueue then QueueFull
    else Accepted(|c.reqs|)
  }

  function Submit(c: Core, key: Key, timeout: real, now: real): Core
    requires Indexed(c)
  {
    match SubmitAnswer(c, key)
    case Joined(_) => c
    case QueueFull => c.(rejected := c.rejected + 1)
    case Accepted(_) =>
      EnqueueIndexed(c, key, timeout, now);
      TryDispatch(Enqueue(c, key, timeout, now), Classify(c.cfg, key.tool))
  }

  // ---- timeouts, cancellation ----

  /** deque.remove: drops the first occurrence, if any. */
  function Without(queue: seq<nat>, id: nat): seq<nat> {
    if queue == [] then []
    else if queue[0] == id then queue[1..]
    else [queue[0]] + Without(queue[1..], id)
  }

  predicate TimeoutIgnored(r: Request) {
    r.future.Done() || (r.lane == WriteRefactor && r.future.Running?)
  }

  function Expire(c: Core, id: nat): Core
    requires id < |c.reqs|
  {
    var r := c.reqs[id];
    var queues := if r.future.Running? then c.queues
                  else c.queues.Set(r.lane, Without(c.queues.Get(r.lane), id));
    Put(RemoveInFlight(c, id), id, r.(cancelled := true, future := TimedOut)).(
      queues := queues, timeouts := c.timeouts + 1)
  }

  function Timeout(c: Core, id: nat): Core
    requires Indexed(c) && id < |c.reqs|
  {
    if TimeoutIgnored(c.reqs[id]) then c
    else
      ExpireIndexed(c, id);
      TryDispatch(Expire(c, id), c.reqs[id].lane)
  }

  /** Drops entries of finished requests from the front of the heap. */
  function PopDone(c: Core): Core
    requires Indexed(c)
    decreases |c.deadlines|
  {
    if c.deadlines != [] && c.reqs[c.deadlines[0].1].future.Done()
    then PopDone(c.(deadlines := c.deadlines[1..]))
    else c
  }

  predicate Due(c: Core, now: real) {
    c.deadlines != [] && c.deadlines[0].0 - now <= 0.0
  }

  /** One pass of the deadline thread that reads the clock at `now`. */
  function DeadlinePass(c: Core, now: real): Core
    requires Indexed(c)
  {
    PopDoneKeeps(c);
    var c1 := PopDone(c);
    if Due(c1, now) then Timeout(c1.(deadlines := c1.deadlines[1..]), c1.deadlines[0].1) else c1
  }

  predicate Sleeps(c: Core, now: real) {
    Indexed(c) && !Due(PopDone(c), now)
  }

  /** Future.cancel of the standard library: only a pending future changes. */
  function CancelFuture(f: Future): Future {
    if f.Pending? then Cancelled else f
  }

  function QueueOf(c: Core, id: nat): (lane: Lane)
    ensures (exists l :: id in c.queues.Get(l)) ==> id in c.queues.Get(lane)
  {
    if id in c.queues.fast then FastRead else if id in c.queues.semantic then SemanticRead else WriteRefactor
  }

  predicate Cancellable(c: Core, id: nat)
    requires Indexed(c)
  {
    id in c.queues.Get(QueueOf(c, id)) && !c.reqs[id].future.Running?
  }

  function Withdraw(c: Core, id: nat): Core
    requires id < |c.reqs|
  {
    var r := c.reqs[id];
    var lane := QueueOf(c, id);
    RemoveInFlight(
      Put(c, id, r.(cancelled := true, future := CancelFuture(r.future))).(
        queues := c.queues.Set(lane, Without(c.queues.Get(lane), id)), cancels := c.cancels + 1), id)
  }

  function Cancel(c: Core, id: nat): Core
    requires Indexed(c)
  {
    if Cancellable(c, id) then
      WithdrawIndexed(c, id);
      TryDispatch(Withdraw(c, id), QueueOf(c, id))
    else c
  }

  /** A caller cancels the future it holds, without the scheduler's lock. */
  function CallerCancel(c: Core, id: nat): Core
    requires id < |c.reqs|
  {
    Put(c, id, c.reqs[id].(future := CancelFuture(c.reqs[id].future)))
  }

  // ---- workers ----

  function Begin(c: Core, id: nat): Core
    requires id < |c.reqs|
  {
    var r := c.reqs[id];
    if r.cancelled then Put(c, id, r.(worker := Back(NotCalled)))
    else Put(c, id, r.(worker := Calling([]), calls := r.calls + 1))
  }

  function Finish(c: Core, id: nat): Core
    requires id < |c.reqs| && c.reqs[id].worker.Back?
  {
    var r := c.reqs[id];
    RemoveInFlight(
      Put(c, id, r.(worker := Released(r.worker.result))).(
        active := c.active.Set(r.lane, c.active.Get(r.lane) - 1)), id)
  }

  function DispatchAll(c: Core): Core
    requires Indexed(c)
  {
    TryDispatchIndexed(c, WriteRefactor);
    var c1 := TryDispatch(c, WriteRefactor);
    TryDispatchIndexed(c1, FastRead);
    TryDispatch(TryDispatch(c1, FastRead), SemanticRead)
  }

  function Release(c: Core, id: nat): Core
    requires Indexed(c) && id < |c.reqs| && c.reqs[id].worker.Back?
  {
    DispatchAll(Finish(c, id))
  }

  function Resolve(c: Core, id: nat): Core
    requires id < |c.reqs| && c.reqs[id].worker.Released?
  {
    var r := c.reqs[id];
    var future := if !r.cancelled && !r.future.Done() then Resolved(r.worker.result) else r.future;
    Put(c, id, r.(worker := Exited, future := future))
  }

  function Init(cfg: Config): Core {
    Core(cfg, [], PerLane([], [], []), PerLane(0, 0, 0), map[], [], 0, 0, 0, 0)
  }

  // ---- index bounds survive every operation ----

  lemma {:induction false} TryDispatchIndexed(c: Core, lane: Lane)
    requires Indexed(c)
    ensures Indexed(TryDispatch(c, lane)) && |TryDispatch(c, lane).reqs| == |c.reqs|
    decreases |c.queues.Get(lane)|
  {
    if CanDispatch(c, lane) {
      TryDispatchIndexed(DispatchOne(c, lane), lane);
    }
  }

  lemma {:induction false} InsertDeadlineMembers(ds: seq<(real, nat)>, entry: (real, nat))
    ensures forall d :: d in InsertDeadline(ds, entry) <==> d == entry || d in ds
  {
    if ds != [] && entry.0 >= ds[0].0 {
      assert ds == [ds[0]] + ds[1..];
      InsertDeadlineMembers(ds[1..], entry);
    } else {
      assert InsertDeadline(ds, entry) == [entry] + ds;
    }
  }

  lemma {:induction false} EnqueueIndexed(c: Core, key: Key, timeout: real, now: real)
    requires Indexed(c)
    ensures Indexed(Enqueue(c, key, timeout, now))
  {
    var c' := Enqueue(c, key, timeout, now);
    InsertDeadlineMembers(c.deadlines, (c'.reqs[|c.reqs|].deadline, |c.reqs|));
    assert forall i :: 0 <= i < |c'.deadlines| ==> c'.deadlines[i] in c'.deadlines;
  }

  lemma {:induction false} WithoutMembers(queue: seq<nat>, id: nat)
    ensures |Without(queue, id)| <= |queue|
    ensures forall x :: x in Without(queue, id) ==> x in queue
    ensures forall x :: x in queue && x != id ==> x in Without(queue, id)
    ensures forall n: nat :: Below(queue, n) ==> Below(Without(queue, id), n)
  {
    if queue != [] && queue[0] != id {
      assert queue == [queue[0]] + queue[1..];
      WithoutMembers(queue[1..], id);
      forall n: nat | Below(queue, n) ensures Below(Without(queue, id), n) {
        assert Below(queue[1..], n);
      }
    }
  }

  lemma {:induction false} ExpireIndexed(c: Core, id: nat)
    requires Indexed(c) && id < |c.reqs|
    ensures Indexed(Expire(c, id))
  {
    WithoutMembers(c.queues.Get(c.reqs[id].lane), id);
  }

  lemma {:induction false} WithdrawIndexed(c: Core, id: nat)
    requires Indexed(c) && id < |c.reqs|
    ensures Indexed(Withdraw(c, id))
  {
    WithoutMembers(c.queues.Get(QueueOf(c, id)), id);
  }

  lemma {:induction false} PopDoneKeeps(c: Core)
    requires Indexed(c)
    ensures Indexed(PopDone(c))
    ensures PopDone(c) == c.(deadlines := PopDone(c).deadlines)
    decreases |c.deadlines|
  {
    if c.deadlines != [] && c.reqs[c.deadlines[0].1].future.Done() {
      PopDoneKeeps(c.(deadlines := c.deadlines[1..]));
    }
  }
}
