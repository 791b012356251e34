/** The deadline thread one step at a time: what callers and workers, who do not take the scheduler's lock to change a
    future, can do between its test of a request and its `set_exception`. */
module DeadlineThread {
  import opened Scheduler
  import opened SchedulerInvariants
  import opened SchedulerRuns

  /** `Tested`: not done, about to be marked. `Marked`: about to be given its exception. `Dead`: an exception that
      nothing handles has ended the thread. */
  datatype Thread = Ready | Tested(id: nat) | Marked(id: nat) | Dead {
    predicate InSection() {
      Tested? || Marked?
    }
  }

  /** `checked` are the requests whose worker has passed its check and not yet set the result. */
  datatype State = State(w: World, thread: Thread, checked: set<nat>)

  /** What others do: an event of the runs, or one of the two halves of a worker's check-then-set, which `Resolves`
      takes as one. */
  datatype Action =
    | Plain(event: Event)
    | Checks(id: nat)
    | Delivers(id: nat)

  datatype Step =
    | Wakes(now: real)
    | Marks
    | Sets
    | Does(action: Action)

  /** Events that take the scheduler's lock, which the thread holds during its section. */
  predicate Locked(e: Event) {
    e.Submits? || e.Releases? || e.Cancels?
  }

  /** The worker sets the result; if the future is done by then it raises in its own thread. */
  function Deliver(c: Core, id: nat): Core
    requires id < |c.reqs| && c.reqs[id].worker.Released?
  {
    var r := c.reqs[id];
    Put(c, id, r.(worker := Exited, future := if r.future.Done() then r.future else Resolved(r.worker.result)))
  }

  function Act(s: State, a: Action): State {
    var c := s.w.core;
    match a
    case Plain(e) =>
      if e.DeadlineWakes? || e.Resolves? || (Locked(e) && s.thread.InSection()) then s else s.(w := Next(s.w, e))
    case Checks(id) =>
      if !At(c, id).Released? || id in s.checked then s
      else if !c.reqs[id].cancelled && !c.reqs[id].future.Done() then s.(checked := s.checked + {id})
      else s.(w := s.w.(core := SetWorker(c, id, Exited)))
    case Delivers(id) =>
      if !At(c, id).Released? || id !in s.checked then s
      else s.(w := s.w.(core := Deliver(c, id)), checked := s.checked - {id})
  }

  /** Everything the section does before it sets the exception. */
  function Mark(c: Core, id: nat): Core
    requires id < |c.reqs|
  {
    var r := c.reqs[id];
    var queues := if r.future.Running? then c.queues
                  else c.queues.Set(r.lane, Without(c.queues.Get(r.lane), id));
    Put(RemoveInFlight(c, id), id, r.(cancelled := true)).(queues := queues, timeouts := c.timeouts + 1)
  }

  function SetException(c: Core, id: nat): Core
    requires Indexed(c) && id < |c.reqs|
  {
    TryDispatch(Put(c, id, c.reqs[id].(future := TimedOut)), c.reqs[id].lane)
  }

  function Wake(s: State, now: real): State
    requires Indexed(s.w.core)
  {
    PopDoneKeeps(s.w.core);
    var c := PopDone(s.w.core);
    if Due(c, now) then
      var id := c.deadlines[0].1;
      s.(w := s.w.(core := c.(deadlines := c.deadlines[1..])),
         thread := if TimeoutIgnored(c.reqs[id]) then Ready else Tested(id))
    else s.(w := s.w.(core := c), thread := Ready)
  }

  /** One step; a step that is not enabled changes nothing. */
  function NextStep(s: State, step: Step): State {
    var c := s.w.core;
    if !Indexed(c) then s   // never the case in a run
    else
      match step
      case Wakes(now) => if s.thread.Ready? then Wake(s, now) else s
      case Marks =>
        if s.thread.Tested? && s.thread.id < |c.reqs|
        then s.(w := s.w.(core := Mark(c, s.thread.id)), thread := Marked(s.thread.id)) else s
      case Sets =>
        if !s.thread.Marked? || s.thread.id >= |c.reqs| then s
        else if c.reqs[s.thread.id].future.Done() then s.(thread := Dead)   // InvalidStateError
        else s.(w := s.w.(core := SetException(c, s.thread.id)), thread := Ready)
      case Does(a) => Act(s, a)
  }

  function Steps(s: State, steps: seq<Step>): State {
    if steps == [] then s else NextStep(Steps(s, steps[..|steps| - 1]), steps[|steps| - 1])
  }

  /** What others do while the thread stands where it stands. */
  function Meanwhile(s: State, actions: seq<Action>): State {
    if actions == [] then s else Act(Meanwhile(s, actions[..|actions| - 1]), actions[|actions| - 1])
  }

  /** Outside the thread's section the two halves are the one step that the runs of `SchedulerRuns` take, or nothing. */
  lemma {:induction false} WorkerSetIsOneStep(s: State, a: Action)
    requires Inv(s.w.core)
    ensures Act(s, a).w == s.w || Act(s, a).w == Next(s.w, if a.Plain? then a.event else Resolves(a.id))
  {
    InvIndexed(s.w.core);
    if !a.Plain? && At(s.w.core, a.id).Released? {
      assert LocalOk(s.w.core.cfg, s.w.core.reqs[a.id]);
    }
  }

  /** The thread's section, with what others do in its two gaps. */
  function Section(s: State, now: real, early: seq<Action>, late: seq<Action>): State {
    var tested := Meanwhile(NextStep(s, Wakes(now)), early);
    NextStep(Meanwhile(NextStep(tested, Marks), late), Sets)
  }

  // ---- what a gap can do to the request ----

  /** The worker sets its result after it passed its check, which a cancelled request no longer lets it pass. */
  predicate DeliversAfter(id: nat, passed: bool, cancelled: bool, actions: seq<Action>) {
    actions != [] &&
    var before, last := actions[..|actions| - 1], actions[|actions| - 1];
    || DeliversAfter(id, passed, cancelled, before)
    || (last == Delivers(id) && (passed || (!cancelled && Checks(id) in before)))
  }

  lemma {:induction false} DeliversLate(id: nat, passed: bool, actions: seq<Action>)
    ensures DeliversAfter(id, passed, true, actions) <==> passed && Delivers(id) in actions
  {
    if actions != [] {
      var before, last := actions[..|actions| - 1], actions[|actions| - 1];
      DeliversLate(id, passed, before);
      assert actions == before + [last];
    }
  }

  /** Only its caller can change the future of a waiting request, and only its own worker that of a running one. */
  predicate GapOk(r: Request, passed: bool, r': Request, passed': bool, id: nat, actions: seq<Action>) {
    && r'.lane == r.lane && r'.cancelled == r.cancelled && r'.key == r.key
    && (r.worker.Idle? ==>
          && r'.worker.Idle?
          && r'.future == if Plain(CallerCancels(id)) in actions then CancelFuture(r.future) else r.future)
    && (r.worker.Holding() ==> r'.worker.Holding() && r'.future == r.future)
    && (r.worker.Released? ==>
          if DeliversAfter(id, passed, r.cancelled, actions)
          then r'.worker.Exited? && r'.future == Resolved(r.worker.result)
          else if r.cancelled && !passed && Checks(id) in actions then r'.worker.Exited? && r'.future == r.future
          else
            && r'.worker == r.worker && r'.future == r.future
            && (passed' <==> passed || (!r.cancelled && Checks(id) in actions)))
    && (r.worker.Exited? ==> r'.worker.Exited? && r'.future == r.future)
  }

  /** The request stands between test and exception. */
  predicate Pausing(r: Request) {
    && !r.future.Done()
    && (r.worker.Idle? <==> r.future.Pending?) && (!r.worker.Idle? <==> r.future.Running?)
  }

  predicate Stutters(a: Action) {
    a.Plain? && (a.event.DeadlineWakes? || a.event.Resolves? || Locked(a.event))
  }

  function Actor(a: Action): nat
    requires !Stutters(a)
  {
    if a.Plain? then a.event.id else a.id
  }

  /** Under the thread's lock an action changes at most one request, and nothing else but the store. */
  lemma {:induction false} UnlockedStep(s: State, a: Action)
    requires s.thread.InSection() && Indexed(s.w.core)
    ensures var s' := Act(s, a); var c, c' := s.w.core, s'.w.core;
      && s'.thread == s.thread && c' == c.(reqs := c'.reqs) && |c'.reqs| == |c.reqs| && Indexed(c')
      && (Stutters(a) ==> s' == s)
      && (!Stutters(a) ==> forall k: nat :: k != Actor(a) ==> (k in s'.checked <==> k in s.checked))
      && (!Stutters(a) ==> forall k: nat :: k < |c.reqs| && k != Actor(a) ==> c'.reqs[k] == c.reqs[k])
  {
  }

  lemma {:induction false} GapStep(s: State, a: Action, id: nat, r: Request, passed: bool, before: seq<Action>)
    requires s.thread.InSection() && Indexed(s.w.core) && id < |s.w.core.reqs|
    requires Pausing(r) && GapOk(r, passed, s.w.core.reqs[id], id in s.checked, id, before)
    ensures var s' := Act(s, a);
      && s'.thread == s.thread && Indexed(s'.w.core) && |s'.w.core.reqs| == |s.w.core.reqs|
      && GapOk(r, passed, s'.w.core.reqs[id], id in s'.checked, id, before + [a])
  {
    UnlockedStep(s, a);
    assert (before + [a])[..|before|] == before;
    assert forall x :: x in before + [a] <==> x in before || x == a;
  }

  lemma {:induction false} GapEffect(s: State, actions: seq<Action>, id: nat)
    requires s.thread.InSection() && Indexed(s.w.core) && id < |s.w.core.reqs| && Pausing(s.w.core.reqs[id])
    ensures var s' := Meanwhile(s, actions);
      && s'.thread == s.thread && Indexed(s'.w.core) && |s'.w.core.reqs| == |s.w.core.reqs|
      && GapOk(s.w.core.reqs[id], id in s.checked, s'.w.core.reqs[id], id in s'.checked, id, actions)
  {
    if actions != [] {
      var before, a := actions[..|actions| - 1], actions[|actions| - 1];
      GapEffect(s, before, id);
      GapStep(Meanwhile(s, before), a, id, s.w.core.reqs[id], id in s.checked, before);
      assert actions == before + [a];
    }
  }

  lemma {:induction false} MarkIndexed(c: Core, id: nat)
    requires Indexed(c) && id < |c.reqs|
    ensures Indexed(Mark(c, id))
  {
    WithoutMembers(c.queues.Get(c.reqs[id].lane), id);
  }

  // ---- when the thread dies ----

  lemma {:induction false} TestedRequest(s: State, now: real)
    requires Inv(s.w.core) && s.thread.Ready? && NextStep(s, Wakes(now)).thread.Tested?
    ensures var s1 := NextStep(s, Wakes(now)); var id := s1.thread.id;
      && Indexed(s1.w.core) && id < |s1.w.core.reqs| && Pausing(s1.w.core.reqs[id]) && !s1.w.core.reqs[id].cancelled
      && !s1.w.core.reqs[id].worker.Exited?
  {
    InvIndexed(s.w.core);
    PopDoneKeeps(s.w.core);
    var id := NextStep(s, Wakes(now)).thread.id;
    assert LocalOk(s.w.core.cfg, s.w.core.reqs[id]);
  }

  /** The request of one section: what it was when tested, and whether its worker had passed its check by then, decide
      which actions in the gaps are fatal. */
  predicate Fatal(r: Request, passed: bool, id: nat, early: seq<Action>, late: seq<Action>) {
    || (r.future.Pending? && (Plain(CallerCancels(id)) in early || Plain(CallerCancels(id)) in late))
    || (r.worker.Released?
        && (|| DeliversAfter(id, passed, false, early)
            || ((passed || Checks(id) in early) && Delivers(id) in late)))
  }

  /** The thread dies exactly when, in either gap, the caller of a waiting request cancels its future, or when the
      worker of an overdue read passes its check before the mark and sets its result between the test and the
      exception. Otherwise the request is timed out. */
  lemma {:induction false} ThreadDiesIff(s: State, now: real, early: seq<Action>, late: seq<Action>)
    requires Inv(s.w.core) && s.thread.Ready? && NextStep(s, Wakes(now)).thread.Tested?
    ensures var s1 := NextStep(s, Wakes(now)); var id := s1.thread.id; var end := Section(s, now, early, late);
      && id < |s1.w.core.reqs| && id < |end.w.core.reqs|
      && (end.thread.Dead? <==> Fatal(s1.w.core.reqs[id], id in s1.checked, id, early, late))
      && (!end.thread.Dead? ==> end.thread.Ready? && end.w.core.reqs[id].future.TimedOut?)
  {
    var s1 := NextStep(s, Wakes(now));
    var id := s1.thread.id;
    TestedRequest(s, now);
    GapEffect(s1, early, id);
    var s2 := Meanwhile(s1, early);
    var s3 := NextStep(s2, Marks);
    MarkIndexed(s2.w.core, id);
    LateGap(s3, late, id);
    SetsTimesOut(Meanwhile(s3, late), id);
  }

  lemma {:induction false} SetsTimesOut(s: State, id: nat)
    requires s.thread == Marked(id) && Indexed(s.w.core) && id < |s.w.core.reqs|
    ensures var s' := NextStep(s, Sets);
      && |s'.w.core.reqs| == |s.w.core.reqs|
      && (s'.thread.Dead? <==> s.w.core.reqs[id].future.Done())
      && (!s'.thread.Dead? ==> s'.thread.Ready? && s'.w.core.reqs[id].future.TimedOut?)
  {
    if !s.w.core.reqs[id].future.Done() {
      var c := Put(s.w.core, id, s.w.core.reqs[id].(future := TimedOut));
      TryDispatchKeepsDone(c, s.w.core.reqs[id].lane, id);
    }
  }

  lemma {:induction false} LateGap(s: State, actions: seq<Action>, id: nat)
    requires s.thread == Marked(id) && Indexed(s.w.core) && id < |s.w.core.reqs| && s.w.core.reqs[id].cancelled
    requires var r := s.w.core.reqs[id];
      Pausing(r) || (r.future.Done() && (r.worker.Idle? || r.worker.Exited?))
    ensures var s' := Meanwhile(s, actions); var r := s.w.core.reqs[id];
      && s'.thread == s.thread && Indexed(s'.w.core) && |s'.w.core.reqs| == |s.w.core.reqs|
      && (s'.w.core.reqs[id].future.Done() <==>
            || r.future.Done()
            || (r.future.Pending? && Plain(CallerCancels(id)) in actions)
            || (r.worker.Released? && id in s.checked && Delivers(id) in actions))
  {
    if Pausing(s.w.core.reqs[id]) {
      GapEffect(s, actions, id);
      DeliversLate(id, id in s.checked, actions);
    } else {
      DoneStays(s, actions, id);
    }
  }

  lemma {:induction false} DoneStays(s: State, actions: seq<Action>, id: nat)
    requires s.thread.InSection() && Indexed(s.w.core) && id < |s.w.core.reqs|
    requires var r := s.w.core.reqs[id]; r.future.Done() && (r.worker.Idle? || r.worker.Exited?)
    ensures var s' := Meanwhile(s, actions);
      && s'.thread == s.thread && Indexed(s'.w.core) && |s'.w.core.reqs| == |s.w.core.reqs|
      && s'.w.core.reqs[id] == s.w.core.reqs[id]
  {
    if actions != [] {
      DoneStays(s, actions[..|actions| - 1], id);
      UnlockedStep(Meanwhile(s, actions[..|actions| - 1]), actions[|actions| - 1]);
    }
  }

  lemma {:induction false} TryDispatchKeepsDone(c: Core, lane: Lane, id: nat)
    requires Indexed(c) && id < |c.reqs| && c.reqs[id].future.TimedOut?
    ensures Indexed(TryDispatch(c, lane)) && |TryDispatch(c, lane).reqs| == |c.reqs|
    ensures TryDispatch(c, lane).reqs[id] == c.reqs[id]
    decreases |c.queues.Get(lane)|
  {
    if CanDispatch(c, lane) {
      TryDispatchKeepsDone(DispatchOne(c, lane), lane, id);
    }
  }

  /** A section that nothing interrupts is the one step that the runs of `SchedulerRuns` take. */
  lemma {:induction false} UninterruptedSection(s: State, now: real)
    requires Inv(s.w.core) && s.thread.Ready?
    ensures var s1 := NextStep(s, Wakes(now));
      (if s1.thread.Tested? then Section(s, now, [], []) else s1) ==
      s.(w := Next(s.w, DeadlineWakes(now)))
  {
    InvIndexed(s.w.core);
    PopDoneKeeps(s.w.core);
    var s1 := NextStep(s, Wakes(now));
    if s1.thread.Tested? {
      var id := s1.thread.id;
      TestedRequest(s, now);
      MarkIndexed(s1.w.core, id);
      MarkThenSet(s1.w.core, id);
    }
  }

  lemma {:induction false} MarkThenSet(c: Core, id: nat)
    requires Indexed(c) && id < |c.reqs| && Indexed(Mark(c, id)) && !TimeoutIgnored(c.reqs[id])
    ensures SetException(Mark(c, id), id) == Timeout(c, id)
  {
    var marked := Mark(c, id);
    assert Put(marked, id, marked.reqs[id].(future := TimedOut)) == Expire(c, id);
  }

  // ---- a section that is interrupted and survives ----

  function WithHeap(s: State, ds: seq<(real, nat)>): State {
    s.(w := s.w.(core := s.w.core.(deadlines := ds)))
  }

  lemma {:induction false} HeapStep(s: State, ds: seq<(real, nat)>, a: Action)
    requires s.thread.InSection() && Indexed(s.w.core) && Indexed(WithHeap(s, ds).w.core)
    ensures var s' := Act(s, a);
      && Indexed(s'.w.core) && Indexed(WithHeap(s', ds).w.core) && s'.thread == s.thread
      && s'.w.core.deadlines == s.w.core.deadlines && |s'.w.core.reqs| == |s.w.core.reqs|
      && Act(WithHeap(s, ds), a) == WithHeap(s', ds)
  {
    UnlockedStep(s, a);
    UnlockedStep(WithHeap(s, ds), a);
  }

  /** Dropping the entry at the head of the heap and actions under the thread's lock commute. */
  lemma {:induction false} GapIgnoresHeap(s: State, ds: seq<(real, nat)>, actions: seq<Action>)
    requires s.thread.InSection() && Indexed(s.w.core) && Indexed(WithHeap(s, ds).w.core)
    ensures var s' := Meanwhile(s, actions);
      && Indexed(s'.w.core) && Indexed(WithHeap(s', ds).w.core) && s'.thread == s.thread
      && s'.w.core.deadlines == s.w.core.deadlines && |s'.w.core.reqs| == |s.w.core.reqs|
      && Meanwhile(WithHeap(s, ds), actions) == WithHeap(s', ds)
  {
    if actions != [] {
      GapIgnoresHeap(s, ds, actions[..|actions| - 1]);
      HeapStep(Meanwhile(s, actions[..|actions| - 1]), ds, actions[|actions| - 1]);
    }
  }

  lemma {:induction false} ActInv(s: State, a: Action)
    requires Inv(s.w.core)
    ensures Inv(Act(s, a).w.core) && Indexed(Act(s, a).w.core)
  {
    InvIndexed(s.w.core);
    WorkerSetIsOneStep(s, a);
    NextInv(s.w, if a.Plain? then a.event else Resolves(a.id));
  }

  lemma {:induction false} GapInv(s: State, actions: seq<Action>)
    requires Inv(s.w.core)
    ensures Inv(Meanwhile(s, actions).w.core)
  {
    if actions != [] {
      GapInv(s, actions[..|actions| - 1]);
      ActInv(Meanwhile(s, actions[..|actions| - 1]), actions[|actions| - 1]);
    }
  }

  /** The state with the exception already set. */
  function Ahead(s: State, id: nat): State
    requires id < |s.w.core.reqs|
  {
    s.(w := s.w.(core := Put(s.w.core, id, s.w.core.reqs[id].(future := TimedOut))))
  }

  /** For a marked request it does not matter to the others whether its exception is set before or after them. */
  lemma {:induction false} GapIgnoresException(s: State, id: nat, actions: seq<Action>)
    requires s.thread.InSection() && Indexed(s.w.core) && id < |s.w.core.reqs| && s.w.core.reqs[id].cancelled
    ensures var s' := Meanwhile(s, actions);
      && Indexed(s'.w.core) && s'.thread == s.thread && |s'.w.core.reqs| == |s.w.core.reqs|
      && s'.w.core.reqs[id].cancelled
      && Meanwhile(Ahead(s, id), actions) == Ahead(s', id)
  {
    if actions != [] {
      GapIgnoresException(s, id, actions[..|actions| - 1]);
      AheadStep(Meanwhile(s, actions[..|actions| - 1]), id, actions[|actions| - 1]);
    }
  }

  lemma {:induction false} AheadStep(s: State, id: nat, a: Action)
    requires s.thread.InSection() && Indexed(s.w.core) && id < |s.w.core.reqs| && s.w.core.reqs[id].cancelled
    ensures var s' := Act(s, a);
      && Indexed(s'.w.core) && |s'.w.core.reqs| == |s.w.core.reqs| && s'.w.core.reqs[id].cancelled
      && Act(Ahead(s, id), a) == Ahead(s', id)
  {
    var t, s' := Ahead(s, id), Act(s, a);
    UnlockedStep(s, a);
    UnlockedStep(t, a);
    if !Stutters(a) {
      assert t.w.core.reqs[id] == s.w.core.reqs[id].(future := TimedOut);
      assert forall k :: 0 <= k < |s.w.core.reqs| && k != id ==> t.w.core.reqs[k] == s.w.core.reqs[k];
      assert Act(t, a).w.core.reqs == Ahead(s', id).w.core.reqs;
    }
  }

  lemma {:induction false} MarkAhead(c: Core, id: nat)
    requires Indexed(c) && id < |c.reqs| && !TimeoutIgnored(c.reqs[id])
    ensures Put(Mark(c, id), id, Mark(c, id).reqs[id].(future := TimedOut)) == Expire(c, id)
  {
  }

  /** Up to its mark the section works on a state of the runs whose earliest deadline it has taken off the heap. */
  lemma {:induction false} EarlyGap(s: State, now: real, early: seq<Action>)
    requires Inv(s.w.core) && s.thread.Ready? && NextStep(s, Wakes(now)).thread.Tested?
    ensures var s1 := NextStep(s, Wakes(now)); var id := s1.thread.id;
      var s2 := Meanwhile(s1, early);
      var c := Meanwhile(s.(w := s.w.(core := PopDone(s.w.core)), thread := s1.thread), early).w.core;
      && Inv(c) && Indexed(c) && c.deadlines != [] && c.deadlines[0].1 == id && id < |c.reqs|
      && s2.w.core == c.(deadlines := c.deadlines[1..]) && s2.thread == Tested(id) && Indexed(s2.w.core)
      && !c.reqs[id].cancelled && !(c.reqs[id].lane == WriteRefactor && c.reqs[id].future.Running?)
  {
    var s1 := NextStep(s, Wakes(now));
    var id := s1.thread.id;
    TestedRequest(s, now);
    PopDoneInv(s.w.core);
    PopDoneKeeps(s.w.core);
    var s0 := s.(w := s.w.(core := PopDone(s.w.core)), thread := s1.thread);
    assert s1 == WithHeap(s0, s0.w.core.deadlines[1..]);
    GapIgnoresHeap(s0, s0.w.core.deadlines[1..], early);
    GapInv(s0, early);
    GapEffect(s1, early, id);
  }

  /** From the mark on the section is an expiry, what others do in the second gap, and a dispatch. */
  lemma {:induction false} LateSection(s: State, c: Core, late: seq<Action>, id: nat)
    requires Inv(c) && Indexed(c) && c.deadlines != [] && c.deadlines[0].1 == id && id < |c.reqs|
    requires s.w.core == c.(deadlines := c.deadlines[1..]) && s.thread == Tested(id) && Indexed(s.w.core)
    requires !TimeoutIgnored(c.reqs[id])
    requires NextStep(Meanwhile(NextStep(s, Marks), late), Sets).thread.Ready?
    ensures Inv(NextStep(Meanwhile(NextStep(s, Marks), late), Sets).w.core)
  {
    var s3 := NextStep(s, Marks);
    MarkIndexed(s.w.core, id);
    GapIgnoresException(s3, id, late);
    MarkAhead(s.w.core, id);
    DueExpiryInv(c);
    assert Ahead(s3, id).w.core == Expire(c.(deadlines := c.deadlines[1..]), id);
    GapInv(Ahead(s3, id), late);
    SetsInv(Meanwhile(s3, late), id);
  }

  lemma {:induction false} SetsInv(s: State, id: nat)
    requires s.thread == Marked(id) && Indexed(s.w.core) && id < |s.w.core.reqs| && Inv(Ahead(s, id).w.core)
    requires NextStep(s, Sets).thread.Ready?
    ensures Inv(NextStep(s, Sets).w.core)
  {
    var ahead := Ahead(s, id).w.core;
    InvIndexed(ahead);
    TryDispatchInv(ahead, ahead.reqs[id].lane);
  }

  /** A section that survives leaves a state in which the scheduler's invariant holds again. */
  lemma {:induction false} SurvivorInv(s: State, now: real, early: seq<Action>, late: seq<Action>)
    requires Inv(s.w.core) && s.thread.Ready? && NextStep(s, Wakes(now)).thread.Tested?
    requires Section(s, now, early, late).thread.Ready?
    ensures Inv(Section(s, now, early, late).w.core)
  {
    var s1 := NextStep(s, Wakes(now));
    var id, s2 := s1.thread.id, Meanwhile(s1, early);
    var c := Meanwhile(s.(w := s.w.(core := PopDone(s.w.core)), thread := s1.thread), early).w.core;
    EarlyGap(s, now, early);
    if c.reqs[id].future.Done() {
      DoneKills(s2, late, id);
    } else {
      LateSection(s2, c, late, id);
    }
  }

  lemma {:induction false} DoneKills(s: State, late: seq<Action>, id: nat)
    requires s.thread == Tested(id) && Indexed(s.w.core) && id < |s.w.core.reqs| && s.w.core.reqs[id].future.Done()
    requires s.w.core.reqs[id].worker.Idle? || s.w.core.reqs[id].worker.Exited?
    ensures NextStep(Meanwhile(NextStep(s, Marks), late), Sets).thread.Dead?
  {
    MarkIndexed(s.w.core, id);
    DoneStays(NextStep(s, Marks), late, id);
  }

  // ---- whole runs ----

  /** A turn of the thread holds what others do in its two gaps. */
  datatype Turn = Acts(action: Action) | Turn(now: real, early: seq<Action>, late: seq<Action>)

  function After(s: State, turn: Turn): State {
    match turn
    case Acts(a) => Act(s, a)
    case Turn(now, early, late) =>
      var s1 := NextStep(s, Wakes(now));
      if s1.thread.Tested? && s.thread.Ready? then Section(s, now, early, late) else s1
  }

  function RunTurns(cfg: Config, turns: seq<Turn>): State {
    if turns == [] then State(World(Init(cfg), 0, []), Ready, {})
    else After(RunTurns(cfg, turns[..|turns| - 1]), turns[|turns| - 1])
  }

  predicate FatalTurn(s: State, turn: Turn) {
    && turn.Turn? && s.thread.Ready?
    && var s1 := NextStep(s, Wakes(turn.now));
       s1.thread.Tested? && s1.thread.id < |s1.w.core.reqs|
       && Fatal(s1.w.core.reqs[s1.thread.id], s1.thread.id in s1.checked, s1.thread.id, turn.early, turn.late)
  }

  predicate Alive(s: State) {
    s.thread.Ready? && Indexed(s.w.core)
  }

  lemma {:induction false} TurnKeeps(s: State, turn: Turn)
    requires (Alive(s) && Inv(s.w.core)) || s.thread.Dead?
    ensures After(s, turn).thread.Dead? <==> s.thread.Dead? || FatalTurn(s, turn)
    ensures var s' := After(s, turn); s'.thread.Dead? || (Alive(s') && Inv(s'.w.core))
  {
    if Alive(s) {
      match turn {
        case Acts(a) => ActInv(s, a);
        case Turn(now, early, late) =>
          if NextStep(s, Wakes(now)).thread.Tested? {
            ThreadDiesIff(s, now, early, late);
            TestedRequest(s, now);
            if Section(s, now, early, late).thread.Ready? {
              SurvivorInv(s, now, early, late);
              InvIndexed(Section(s, now, early, late).w.core);
            }
          } else {
            UninterruptedSection(s, now);
            NextInv(s.w, DeadlineWakes(now));
          }
      }
    }
  }

  /** One of the turns was fatal. */
  predicate SomeFatal(cfg: Config, turns: seq<Turn>) {
    turns != [] &&
    var before, last := turns[..|turns| - 1], turns[|turns| - 1];
    SomeFatal(cfg, before) || FatalTurn(RunTurns(cfg, before), last)
  }

  /** In every run the deadline thread is dead exactly when one of its turns was fatal, and as long as it lives the
      scheduler's invariant holds between its turns. */
  lemma {:induction false} RunDiesIff(cfg: Config, turns: seq<Turn>)
    ensures var s := RunTurns(cfg, turns);
      && (s.thread.Dead? <==> SomeFatal(cfg, turns))
      && (s.thread.Dead? || (Alive(s) && Inv(s.w.core)))
  {
    if turns == [] {
      InitInv(cfg);
    } else {
      var before, last := turns[..|turns| - 1], turns[|turns| - 1];
      RunDiesIff(cfg, before);
      TurnKeeps(RunTurns(cfg, before), last);
    }
  }

  // ---- runs in which it dies ----

  predicate Serves(lane: LaneConfig) {
    lane.maxConcurrent >= 1 && lane.maxQueue >= 1
  }

  lemma {:induction false} OneMoreTurn(cfg: Config, turns: seq<Turn>, turn: Turn)
    ensures RunTurns(cfg, turns + [turn]) == After(RunTurns(cfg, turns), turn)
  {
    assert (turns + [turn])[..|turns|] == turns;
  }

  /** The first request of its lane runs at once. */
  lemma {:induction false} FirstRuns(cfg: Config, key: Key, timeout: real)
    requires Serves(cfg.lanes.Get(Classify(cfg, key.tool))) && timeout != 0.0
    ensures var c := Submit(Init(cfg), key, timeout, 0.0); var lane := Classify(cfg, key.tool);
      c == Init(cfg).(reqs := [Request(key, lane, timeout, false, Running, Submitted, 0)],
                      active := PerLane(0, 0, 0).Set(lane, 1), inFlight := map[key := 0],
                      deadlines := [(timeout, 0)], dispatched := 1)
  {
    var lane := Classify(cfg, key.tool);
    var c1 := Enqueue(Init(cfg), key, timeout, 0.0);
    assert c1.queues.Get(lane) == [0] && c1.deadlines == [(timeout, 0)];
    EnqueueIndexed(Init(cfg), key, timeout, 0.0);
    assert CanDispatch(c1, lane);
    var c2 := DispatchOne(c1, lane);
    assert c2.queues == PerLane([], [], []);
    assert TryDispatch(c2, lane) == c2;
  }

  /** A read waits behind the active write. */
  lemma {:induction false} SecondWaits(cfg: Config, c: Core, write: Key, read: Key)
    requires Classify(cfg, write.tool) == WriteRefactor && Classify(cfg, read.tool) != WriteRefactor
    requires Serves(cfg.lanes.write) && Serves(cfg.lanes.Get(Classify(cfg, read.tool)))
    requires c == Submit(Init(cfg), write, 10.0, 0.0)
    ensures Indexed(c)
    ensures var c' := Submit(c, read, 1.0, 0.0);
      && Indexed(c') && |c'.reqs| == 2 && c'.deadlines == [(1.0, 1), (10.0, 0)]
      && c'.reqs[1].future.Pending? && !c'.reqs[1].cancelled
  {
    FirstRuns(cfg, write, 10.0);
    EnqueueIndexed(c, read, 1.0, 0.0);
    var c1 := Enqueue(c, read, 1.0, 0.0);
    assert SubmitAnswer(c, read) == Accepted(1);
    assert !CanDispatch(c1, Classify(cfg, read.tool));
    assert c1.deadlines == InsertDeadline([(10.0, 0)], (1.0, 1));
  }

  /** A read waits behind an active write past its deadline, and its caller cancels it inside the section. */
  function CancelTurns(write: Key, read: Key): seq<Turn> {
    [Acts(Plain(Submits(write, 10.0, 0.0))), Acts(Plain(Submits(read, 1.0, 0.0)))]
    + [Turn(1.0, [Plain(CallerCancels(1))], [])]
  }

  lemma {:induction false} ReadWaits(cfg: Config, write: Key, read: Key)
    requires Classify(cfg, write.tool) == WriteRefactor && Classify(cfg, read.tool) != WriteRefactor
    requires Serves(cfg.lanes.write) && Serves(cfg.lanes.Get(Classify(cfg, read.tool)))
    ensures var s := RunTurns(cfg, CancelTurns(write, read)[..2]);
      && s.thread.Ready? && Indexed(s.w.core) && |s.w.core.reqs| == 2 && s.w.core.deadlines == [(1.0, 1), (10.0, 0)]
      && s.w.core.reqs[1].future.Pending?
  {
    var a, b := Acts(Plain(Submits(write, 10.0, 0.0))), Acts(Plain(Submits(read, 1.0, 0.0)));
    OneMoreTurn(cfg, [], a);
    OneMoreTurn(cfg, [a], b);
    assert [] + [a] == [a] && [a] + [b] == CancelTurns(write, read)[..2];
    SecondWaits(cfg, Submit(Init(cfg), write, 10.0, 0.0), write, read);
  }

  lemma {:induction false} CancelInSectionKills(cfg: Config, write: Key, read: Key)
    requires Classify(cfg, write.tool) == WriteRefactor && Classify(cfg, read.tool) != WriteRefactor
    requires Serves(cfg.lanes.write) && Serves(cfg.lanes.Get(Classify(cfg, read.tool)))
    ensures RunTurns(cfg, CancelTurns(write, read)).thread.Dead?
  {
    var turns, turn := CancelTurns(write, read)[..2], Turn(1.0, [Plain(CallerCancels(1))], []);
    var s := RunTurns(cfg, turns);
    ReadWaits(cfg, write, read);
    RunDiesIff(cfg, turns);
    assert NextStep(s, Wakes(1.0)).thread == Tested(1);
    TurnKeeps(s, turn);
    OneMoreTurn(cfg, turns, turn);
    assert turns + [turn] == CancelTurns(write, read);
  }

  /** A read whose function has returned and whose worker has left its lane, but not yet set the result. */
  function ReleasedTurns(key: Key): seq<Turn> {
    [Acts(Plain(Submits(key, 1.0, 0.0))), Acts(Plain(Begins(0))), Acts(Plain(Returns(0, true, 0)))]
    + [Acts(Plain(Releases(0)))]
  }

  lemma {:induction false} NothingQueued(c: Core)
    requires Indexed(c) && c.queues == PerLane([], [], [])
    ensures DispatchAll(c) == c
  {
  }

  /** The core after the read has run, as long as its worker is in the lane. */
  function RunningRead(cfg: Config, key: Key, worker: Worker, calls: nat): Core {
    var lane := Classify(cfg, key.tool);
    Init(cfg).(reqs := [Request(key, lane, 1.0, false, Running, worker, calls)],
               active := PerLane(0, 0, 0).Set(lane, 1), inFlight := map[key := 0],
               deadlines := [(1.0, 0)], dispatched := 1)
  }

  lemma {:induction false} ReadSteps(s: State, cfg: Config, key: Key)
    requires s.thread.Ready?
    ensures s.w.core == RunningRead(cfg, key, Submitted, 0) ==>
              Act(s, Plain(Begins(0))) == s.(w := s.w.(core := RunningRead(cfg, key, Calling([]), 1)))
    ensures s.w.core == RunningRead(cfg, key, Calling([]), 1) ==>
              Act(s, Plain(Returns(0, true, 0))) ==
              s.(w := s.w.(core := RunningRead(cfg, key, Back(Returned(0, [])), 1)))
  {
  }

  lemma {:induction false} ReadLeaves(s: State, cfg: Config, key: Key)
    requires s.thread.Ready? && s.w.core == RunningRead(cfg, key, Back(Returned(0, [])), 1)
    ensures var s' := Act(s, Plain(Releases(0)));
      && s'.thread.Ready? && Indexed(s'.w.core) && |s'.w.core.reqs| == 1 && s'.w.core.deadlines == [(1.0, 0)]
      && s'.w.core.reqs[0].worker.Released? && s'.w.core.reqs[0].future.Running?
      && s'.w.core.reqs[0].lane == Classify(cfg, key.tool)
  {
    NothingQueued(Finish(s.w.core, 0));
  }

  lemma {:induction false} ReleasedRead(cfg: Config, key: Key)
    requires Classify(cfg, key.tool) != WriteRefactor && Serves(cfg.lanes.Get(Classify(cfg, key.tool)))
    ensures var s := RunTurns(cfg, ReleasedTurns(key));
      && s.thread.Ready? && Indexed(s.w.core) && |s.w.core.reqs| == 1 && s.w.core.deadlines == [(1.0, 0)]
      && s.w.core.reqs[0].worker.Released? && s.w.core.reqs[0].future.Running?
      && s.w.core.reqs[0].lane != WriteRefactor
  {
    var a, b := Acts(Plain(Submits(key, 1.0, 0.0))), Acts(Plain(Begins(0)));
    var d, e := Acts(Plain(Returns(0, true, 0))), Acts(Plain(Releases(0)));
    OneMoreTurn(cfg, [], a);
    OneMoreTurn(cfg, [a], b);
    OneMoreTurn(cfg, [a, b], d);
    OneMoreTurn(cfg, [a, b, d], e);
    assert [] + [a] == [a] && [a] + [b] == [a, b] && [a, b] + [d] == [a, b, d];
    ReadSubmitted(cfg, key);
    ReadSteps(RunTurns(cfg, [a]), cfg, key);
    ReadSteps(RunTurns(cfg, [a, b]), cfg, key);
    ReadLeaves(RunTurns(cfg, [a, b, d]), cfg, key);
  }

  lemma {:induction false} ReadSubmitted(cfg: Config, key: Key)
    requires Serves(cfg.lanes.Get(Classify(cfg, key.tool)))
    ensures var s := Act(RunTurns(cfg, []), Plain(Submits(key, 1.0, 0.0)));
      s.thread.Ready? && s.w.core == RunningRead(cfg, key, Submitted, 0)
  {
    FirstRuns(cfg, key, 1.0);
  }

  /** The worker checks before the mark and sets its result before it, or between mark and exception. */
  function SetTurn(late: bool): Turn {
    if late then Turn(1.0, [Checks(0)], [Delivers(0)]) else Turn(1.0, [Checks(0), Delivers(0)], [])
  }

  lemma {:induction false} SetInSectionKills(cfg: Config, key: Key, late: bool)
    requires Classify(cfg, key.tool) != WriteRefactor && Serves(cfg.lanes.Get(Classify(cfg, key.tool)))
    ensures RunTurns(cfg, ReleasedTurns(key) + [SetTurn(late)]).thread.Dead?
  {
    var s := RunTurns(cfg, ReleasedTurns(key));
    ReleasedRead(cfg, key);
    RunDiesIff(cfg, ReleasedTurns(key));
    assert NextStep(s, Wakes(1.0)).thread == Tested(0);
    assert [Checks(0), Delivers(0)][..1] == [Checks(0)];
    assert DeliversAfter(0, false, false, [Checks(0), Delivers(0)]);
    assert DeliversAfter(0, true, false, [Checks(0), Delivers(0)]);
    TurnKeeps(s, SetTurn(late));
    OneMoreTurn(cfg, ReleasedTurns(key), SetTurn(late));
  }

  // ---- after its death ----

  /** No request has timed out from one state to the other. */
  ghost predicate NoneExpires(c: Core, c': Core) {
    && c'.timeouts == c.timeouts && |c.reqs| <= |c'.reqs|
    && (forall id :: 0 <= id < |c'.reqs| && c'.reqs[id].future.TimedOut? ==>
          id < |c.reqs| && c.reqs[id].future.TimedOut?)
  }

  lemma {:induction false} TryDispatchExpiresNone(c: Core, lane: Lane)
    requires Indexed(c)
    ensures NoneExpires(c, TryDispatch(c, lane)) && Indexed(TryDispatch(c, lane))
    decreases |c.queues.Get(lane)|
  {
    if CanDispatch(c, lane) {
      TryDispatchExpiresNone(DispatchOne(c, lane), lane);
    }
  }

  lemma {:induction false} SubmitExpiresNone(c: Core, key: Key, timeout: real, now: real)
    requires Indexed(c)
    ensures NoneExpires(c, Submit(c, key, timeout, now))
  {
    if SubmitAnswer(c, key).Accepted? {
      EnqueueIndexed(c, key, timeout, now);
      TryDispatchExpiresNone(Enqueue(c, key, timeout, now), Classify(c.cfg, key.tool));
    }
  }

  lemma {:induction false} ReleaseExpiresNone(c: Core, id: nat)
    requires Indexed(c) && id < |c.reqs| && c.reqs[id].worker.Back?
    ensures NoneExpires(c, Release(c, id))
  {
    TryDispatchExpiresNone(Finish(c, id), WriteRefactor);
    var c1 := TryDispatch(Finish(c, id), WriteRefactor);
    TryDispatchExpiresNone(c1, FastRead);
    TryDispatchExpiresNone(TryDispatch(c1, FastRead), SemanticRead);
  }

  lemma {:induction false} CancelExpiresNone(c: Core, id: nat)
    requires Indexed(c)
    ensures NoneExpires(c, Cancel(c, id))
  {
    if Cancellable(c, id) {
      WithdrawIndexed(c, id);
      TryDispatchExpiresNone(Withdraw(c, id), QueueOf(c, id));
    }
  }

  lemma {:induction false} NextExpiresNone(w: World, e: Event)
    requires !e.DeadlineWakes?
    ensures NoneExpires(w.core, Next(w, e).core)
  {
    var c := w.core;
    if Indexed(c) {
      match e {
        case Submits(key, timeout, now) => SubmitExpiresNone(c, key, timeout, now);
        case Releases(id) => if At(c, id).Back? { ReleaseExpiresNone(c, id); }
        case Cancels(id) => CancelExpiresNone(c, id);
        case _ =>
      }
    }
  }

  /** Once the thread is dead it stays so, and nothing expires any more, whatever its deadline. */
  lemma {:induction false} NothingExpiresAfterDeath(s: State, steps: seq<Step>)
    requires s.thread.Dead?
    ensures Steps(s, steps).thread.Dead? && NoneExpires(s.w.core, Steps(s, steps).w.core)
  {
    if steps != [] {
      NothingExpiresAfterDeath(s, steps[..|steps| - 1]);
      var before, step := Steps(s, steps[..|steps| - 1]), steps[|steps| - 1];
      if step.Does? && step.action.Plain? && !step.action.event.DeadlineWakes? {
        NextExpiresNone(before.w, step.action.event);
      }
    }
  }
}
