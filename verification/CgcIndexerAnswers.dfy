/** What a submit to the code-graph indexer is answered, and which jobs its registry keeps, told from what happened
    before. */
module CgcIndexerAnswers {
  import opened Options
  import opened CgcIndexer
  import opened CgcIndexerRuns

  // ---- what was recorded, and what is dirty, from the events ----

  /** The files as they were when the job at work began. */
  ghost function AtStart(disk: Snapshot, graph: Graph, events: seq<Event>): Snapshot {
    if events == [] then map[]
    else
      var before, e := events[..|events| - 1], events[|events| - 1];
      var w := Run(disk, graph, before);
      if e.Start? && Enabled(w, e) then w.disk else AtStart(disk, graph, before)
  }

  /** The files as they were when the job at work was done with indexing. */
  ghost function AtEnd(disk: Snapshot, graph: Graph, events: seq<Event>): Snapshot {
    if events == [] then map[]
    else
      var before, e := events[..|events| - 1], events[|events| - 1];
      var w := Run(disk, graph, before);
      if e.Compare? && Enabled(w, e) then w.disk else AtEnd(disk, graph, before)
  }

  /** The files as they were when the job began that was last recorded for the target. */
  ghost function Recorded(disk: Snapshot, graph: Graph, events: seq<Event>, target: Path): Option<Snapshot> {
    if events == [] then None
    else
      var before, e := events[..|events| - 1], events[|events| - 1];
      var w := Run(disk, graph, before);
      if e.RecordResult? && Enabled(w, e) && w.worker.target == target then Some(AtStart(disk, graph, before))
      else Recorded(disk, graph, before, target)
  }

  /** The last recorded job that saw the file, before or after, saw it change. */
  ghost predicate IsDirty(disk: Snapshot, graph: Graph, events: seq<Event>, p: Path) {
    events != [] &&
    var before, e := events[..|events| - 1], events[|events| - 1];
    var w := Run(disk, graph, before);
    var start, end := AtStart(disk, graph, before), AtEnd(disk, graph, before);
    if e.RecordResult? && Enabled(w, e) && w.worker.target <= p && (p in start || p in end)
    then DiskAt(start, p) != DiskAt(end, p)
    else IsDirty(disk, graph, before, p)
  }

  /** Nothing under the target differs. */
  ghost predicate SameUnder(target: Path, a: Snapshot, b: Snapshot) {
    forall p :: target <= p ==> DiskAt(a, p) == DiskAt(b, p)
  }

  ghost predicate IsUnder(snapshot: Snapshot, disk: Snapshot, target: Path) {
    forall p :: DiskAt(snapshot, p) == if target <= p then DiskAt(disk, p) else None
  }

  lemma {:induction false} SnapshotIsUnder(disk: Snapshot, target: Path)
    ensures IsUnder(SnapshotOf(disk, target), disk, target)
  {
  }

  /** A snapshot tells exactly the files under its target. */
  lemma {:induction false} SameSnapshotsIff(a: Snapshot, b: Snapshot, target: Path, start: Snapshot, disk: Snapshot)
    requires IsUnder(a, start, target) && IsUnder(b, disk, target)
    ensures a == b <==> SameUnder(target, start, disk)
  {
    if a == b {
      forall p | target <= p ensures DiskAt(start, p) == DiskAt(disk, p) {
        assert DiskAt(a, p) == DiskAt(b, p);
      }
    }
    if SameUnder(target, start, disk) {
      forall p ensures DiskAt(a, p) == DiskAt(b, p) {
      }
      SameAt(a, b);
    }
  }

  lemma {:induction false} SameAt(a: Snapshot, b: Snapshot)
    requires forall p :: DiskAt(a, p) == DiskAt(b, p)
    ensures a == b
  {
    forall p ensures p in a <==> p in b {
      assert DiskAt(a, p) == DiskAt(b, p);
    }
    forall p | p in a ensures a[p] == b[p] {
      assert DiskAt(a, p) == DiskAt(b, p);
    }
  }

  // ---- the worker remembers the start and the end of its job ----

  ghost predicate Remembers(worker: Worker, start: Snapshot, end: Snapshot) {
    match worker
    case Idle => true
    case Indexing(_, target, before, _) => IsUnder(before, start, target)
    case Indexed(_, target, before, _) => IsUnder(before, start, target)
    case Detached(_, before, _, _) => IsUnder(before, start, [])
    case Promoted(_, target, before) => IsUnder(before, start, target)
    case Compared(_, target, before, after) => IsUnder(before, start, target) && IsUnder(after, end, target)
    case Finishing(_) => true
  }

  lemma {:induction false} RememberStep(w: World, e: Event, start: Snapshot, end: Snapshot)
    requires Remembers(w.worker, start, end)
    ensures Remembers(Next(w, e).worker, if e.Start? && Enabled(w, e) then w.disk else start,
              if e.Compare? && Enabled(w, e) then w.disk else end)
  {
    if e.Start? && Enabled(w, e) {
      SnapshotIsUnder(w.disk, PathOf(w.ix, e.id));
    } else if e.Compare? && Enabled(w, e) {
      SnapshotIsUnder(w.disk, w.worker.target);
    }
  }

  lemma {:induction false} RunRemembers(disk: Snapshot, graph: Graph, events: seq<Event>)
    ensures Remembers(Run(disk, graph, events).worker, AtStart(disk, graph, events), AtEnd(disk, graph, events))
  {
    if events != [] {
      var before, e := events[..|events| - 1], events[|events| - 1];
      RunRemembers(disk, graph, before);
      RememberStep(Run(disk, graph, before), e, AtStart(disk, graph, before), AtEnd(disk, graph, before));
    }
  }

  // ---- the tables of records and of dirty paths ----

  ghost predicate RecordedAs(ix: Indexer, target: Path, recorded: Option<Snapshot>) {
    && (target in ix.snapshots <==> recorded.Some?)
    && (recorded.Some? ==> IsUnder(ix.snapshots[target], recorded.value, target))
  }

  lemma {:induction false} DirtyAfterRecord(ix: Indexer, id: nat, target: Path, before: Snapshot, after: Snapshot,
                                            start: Snapshot, end: Snapshot, p: Path)
    requires IsUnder(before, start, target) && IsUnder(after, end, target)
    ensures p in Record(ix, id, target, before, after).dirty <==>
              if target <= p && (p in start || p in end) then DiskAt(start, p) != DiskAt(end, p) else p in ix.dirty
  {
    assert DiskAt(before, p) == if target <= p then DiskAt(start, p) else None;
    assert DiskAt(after, p) == if target <= p then DiskAt(end, p) else None;
  }

  lemma {:induction false} KeepsTables(w: World, e: Event)
    requires !(e.RecordResult? && Enabled(w, e))
    ensures Next(w, e).ix.snapshots == w.ix.snapshots && Next(w, e).ix.dirty == w.ix.dirty
  {
    if e.SubmitJob? && !QueueFull(w.ix) {
      PruneEachKeepsRecords(w.ix, CompletedIds(w.ix.jobs), MAX_RETAINED_JOBS - 1, e.now - JOB_RETENTION_SECONDS);
    } else if e.StatusPrune? {
      PruneEachKeepsRecords(w.ix, CompletedIds(w.ix.jobs), MAX_RETAINED_JOBS, e.now - JOB_RETENTION_SECONDS);
    }
  }

  lemma {:induction false} RunRecords(disk: Snapshot, graph: Graph, events: seq<Event>, target: Path)
    ensures RecordedAs(Run(disk, graph, events).ix, target, Recorded(disk, graph, events, target))
  {
    if events != [] {
      var before, e := events[..|events| - 1], events[|events| - 1];
      RunRecords(disk, graph, before, target);
      RunRemembers(disk, graph, before);
      if !(e.RecordResult? && Enabled(Run(disk, graph, before), e)) {
        KeepsTables(Run(disk, graph, before), e);
      }
    }
  }

  lemma {:induction false} RunDirties(disk: Snapshot, graph: Graph, events: seq<Event>, p: Path)
    ensures p in Run(disk, graph, events).ix.dirty <==> IsDirty(disk, graph, events, p)
  {
    if events != [] {
      var before, e := events[..|events| - 1], events[|events| - 1];
      var w := Run(disk, graph, before);
      RunDirties(disk, graph, before, p);
      if e.RecordResult? && Enabled(w, e) {
        RunRemembers(disk, graph, before);
        DirtyAfterRecord(w.ix, w.worker.id, w.worker.target, w.worker.before, w.worker.after,
                         AtStart(disk, graph, before), AtEnd(disk, graph, before), p);
      } else {
        KeepsTables(w, e);
      }
    }
  }

  // ---- the answer to a submit ----

  /** The target was recorded, every tracked file under it is as it was when the recorded job began, and none of them
      changed under the last recorded job that saw it. */
  ghost predicate NothingNew(disk: Snapshot, graph: Graph, events: seq<Event>, target: Path) {
    var recorded := Recorded(disk, graph, events, target);
    && recorded.Some? && SameUnder(target, recorded.value, Run(disk, graph, events).disk)
    && forall p :: target <= p ==> !IsDirty(disk, graph, events, p)
  }

  lemma {:induction false} UnchangedIff(disk: Snapshot, graph: Graph, events: seq<Event>, target: Path)
    ensures var w := Run(disk, graph, events);
      Unchanged(w.ix, w.disk, target) <==> NothingNew(disk, graph, events, target)
  {
    var w, recorded := Run(disk, graph, events), Recorded(disk, graph, events, target);
    RunRecords(disk, graph, events, target);
    forall p ensures p in w.ix.dirty <==> IsDirty(disk, graph, events, p) {
      RunDirties(disk, graph, events, p);
    }
    if recorded.Some? {
      SnapshotIsUnder(w.disk, target);
      SameSnapshotsIff(w.ix.snapshots[target], SnapshotOf(w.disk, target), target, recorded.value, w.disk);
    }
  }

  function Unfinished(jobs: seq<Job>): set<Job> {
    set job | job in jobs && job.state != Done
  }

  lemma {:induction false} PendingIsUnfinished(jobs: seq<Job>)
    requires UniqueJobs(jobs)
    ensures Pending(jobs) == |Unfinished(jobs)|
  {
    if jobs != [] {
      var first, rest := jobs[0], jobs[1..];
      FirstAndRest(jobs);
      UniqueCons(first, rest);
      PendingIsUnfinished(rest);
      assert first !in rest by {
        assert forall job :: job in rest ==> job.id in Ids(rest);
      }
      var own := if first.state != Done then {first} else {};
      assert Unfinished(jobs) == own + Unfinished(rest) by {
        assert forall job :: job in jobs <==> job == first || job in rest;
      }
    }
  }

  /** A submit is turned away exactly when eight jobs are unfinished, and then changes nothing. Otherwise its job is
      entered last, done and noted as skipped when it was not forced and nothing is new under its target, and queued
      without a note in every other case. */
  lemma {:induction false} SubmitIsAnswered(disk: Snapshot, graph: Graph, events: seq<Event>, target: Path,
                                            force: bool, now: int)
    ensures var w, w' := Run(disk, graph, events), Run(disk, graph, events + [SubmitJob(target, force, now)]);
      if |Unfinished(w.ix.jobs)| >= 8 then w'.ix == w.ix
      else
        var skipped := !force && NothingNew(disk, graph, events, target);
        var id := w.nextId;
        && w'.ix.jobs != [] && w'.ix.jobs[|w'.ix.jobs| - 1] == Job(id, if skipped then Done else Queued)
        && id in w'.ix.paths && w'.ix.paths[id] == target
        && id in w'.ix.meta
        && w'.ix.meta[id] == Meta(now, if skipped then Some(now) else None, if skipped then Skipped else NoNote, {})
  {
    var w := Run(disk, graph, events);
    RunStep(disk, graph, events, SubmitJob(target, force, now));
    RegistryBounded(disk, graph, events);
    PendingIsUnfinished(w.ix.jobs);
    UnchangedIff(disk, graph, events, target);
    PruneEachKeepsRecords(w.ix, CompletedIds(w.ix.jobs), MAX_RETAINED_JOBS - 1, now - JOB_RETENTION_SECONDS);
  }

  // ---- a dirty path that is gone ----

  /** The file is gone, and the job at work never saw it. */
  ghost predicate Unseen(disk: Snapshot, graph: Graph, events: seq<Event>, p: Path) {
    var w := Run(disk, graph, events);
    && p !in w.disk && (w.worker.Idle? || p !in AtStart(disk, graph, events))
    && (w.worker.Compared? ==> p !in AtEnd(disk, graph, events))
  }

  predicate BringsBack(e: Event, p: Path) {
    e.Edit? && e.p == p && e.stamp.Some?
  }

  lemma {:induction false} StaysAway(w: World, e: Event, p: Path)
    requires p !in w.disk && !BringsBack(e, p)
    ensures p !in Next(w, e).disk
  {
  }

  /** Only a start sets the worker to work, and only a comparison takes the second snapshot. */
  lemma {:induction false} WorkerGoesOn(w: World, e: Event)
    ensures w.worker.Idle? && !Next(w, e).worker.Idle? ==> e.Start? && Enabled(w, e)
    ensures !w.worker.Compared? && Next(w, e).worker.Compared? ==> e.Compare? && Enabled(w, e)
  {
  }

  lemma {:induction false} UnseenStep(disk: Snapshot, graph: Graph, events: seq<Event>, e: Event, p: Path)
    requires IsDirty(disk, graph, events, p) && Unseen(disk, graph, events, p) && !BringsBack(e, p)
    ensures IsDirty(disk, graph, events + [e], p) && Unseen(disk, graph, events + [e], p)
  {
    var all, w := events + [e], Run(disk, graph, events);
    assert all[..|all| - 1] == events && all[|all| - 1] == e;
    RunStep(disk, graph, events, e);
    StaysAway(w, e, p);
    WorkerGoesOn(w, e);
    if e.RecordResult? && Enabled(w, e) {
      assert w.worker.Compared?;
    }
  }

  /** A dirty file that is gone before the next job begins stays dirty until it is back, whatever is indexed meanwhile:
      no target above it is skipped. */
  lemma {:induction false} VanishedStaysDirty(disk: Snapshot, graph: Graph, events: seq<Event>, more: seq<Event>,
                                              p: Path, target: Path)
    requires IsDirty(disk, graph, events, p) && target <= p
    requires var w := Run(disk, graph, events); w.worker.Idle? && p !in w.disk
    requires forall i :: 0 <= i < |more| ==> !BringsBack(more[i], p)
    ensures IsDirty(disk, graph, events + more, p) && Unseen(disk, graph, events + more, p)
    ensures !NothingNew(disk, graph, events + more, target)
    decreases |more|
  {
    if more == [] {
      assert events + more == events;
    } else {
      var before, last := more[..|more| - 1], more[|more| - 1];
      assert events + more == events + before + [last];
      VanishedStaysDirty(disk, graph, events, before, p, target);
      UnseenStep(disk, graph, events + before, last, p);
    }
  }

  // ---- what a recorded job notes ----

  /** A recorded job notes exactly the files under its target that differ between its start and its end, and is noted
      as dirty when there are any. */
  lemma {:induction false} RecordNotes(disk: Snapshot, graph: Graph, events: seq<Event>)
    requires Run(disk, graph, events).worker.Compared?
    ensures var w, w' := Run(disk, graph, events), Run(disk, graph, events + [RecordResult]);
      var id, start, end := w.worker.id, AtStart(disk, graph, events), AtEnd(disk, graph, events);
      && id in w.ix.meta && id in w'.ix.meta
      && (forall p :: p in w'.ix.meta[id].changed <==> w.worker.target <= p && DiskAt(start, p) != DiskAt(end, p))
      && w'.ix.meta[id].note == (if w'.ix.meta[id].changed != {} then Dirty else w.ix.meta[id].note)
  {
    var w, start, end := Run(disk, graph, events), AtStart(disk, graph, events), AtEnd(disk, graph, events);
    RunStep(disk, graph, events, RecordResult);
    RegistryBounded(disk, graph, events);
    RunRemembers(disk, graph, events);
    assert w.worker.id in Ids(w.ix.jobs);
    var changed := Difference(w.worker.before, w.worker.after);
    forall p ensures p in changed <==> w.worker.target <= p && DiskAt(start, p) != DiskAt(end, p) {
      assert DiskAt(w.worker.before, p) == if w.worker.target <= p then DiskAt(start, p) else None;
      assert DiskAt(w.worker.after, p) == if w.worker.target <= p then DiskAt(end, p) else None;
    }
  }

  // ---- which jobs are kept ----

  predicate Outlived(ix: Indexer, id: nat, now: int) {
    id in ix.meta && ix.meta[id].completedAt.Some? && ix.meta[id].completedAt.value + 3600 <= now
  }

  /** The k-th completed job stays. */
  predicate StaysAt(ix: Indexer, completed: seq<nat>, limit: int, now: int, k: nat)
    requires k < |completed|
  {
    k >= |ix.jobs| - limit && !Outlived(ix, completed[k], now)
  }

  predicate SubIndexer(ix: Indexer, ix': Indexer) {
    && (forall id :: id in ix'.paths ==> id in ix.paths && ix'.paths[id] == ix.paths[id])
    && (forall id :: id in ix'.meta ==> id in ix.meta && ix'.meta[id] == ix.meta[id])
    && ix'.jobs == Only(ix.jobs, ix'.paths.Keys)
  }

  ghost predicate PrunedTo(ix: Indexer, ix': Indexer, completed: seq<nat>, limit: int, now: int) {
    && Consistent(ix') && SubIndexer(ix, ix')
    && (forall k :: 0 <= k < |completed| ==> (completed[k] in ix'.paths <==> StaysAt(ix, completed, limit, now, k)))
    && (forall id :: id in ix.paths && id !in completed ==> id in ix'.paths)
  }

  /** The jobs with the given ids, in their order. */
  function Only(jobs: seq<Job>, ids: set<nat>): seq<Job> {
    if jobs == [] then []
    else (if jobs[0].id in ids then [jobs[0]] else []) + Only(jobs[1..], ids)
  }

  lemma {:induction false} OnlyAll(jobs: seq<Job>, ids: set<nat>)
    requires Ids(jobs) <= ids
    ensures Only(jobs, ids) == jobs
  {
    if jobs != [] {
      FirstAndRest(jobs);
      OnlyAll(jobs[1..], ids);
    }
  }

  lemma {:induction false} OnlyWithout(jobs: seq<Job>, id: nat, ids: set<nat>)
    requires UniqueJobs(jobs) && id !in ids
    ensures Only(WithoutJob(jobs, id), ids) == Only(jobs, ids)
  {
    if jobs != [] {
      FirstAndRest(jobs);
      UniqueCons(jobs[0], jobs[1..]);
      if jobs[0].id != id {
        OnlyWithout(jobs[1..], id, ids);
      }
    }
  }

  lemma {:induction false} ForgottenIs(ix: Indexer, id: nat, ix': Indexer)
    requires Consistent(ix) && id in Ids(ix.jobs)
    requires SubIndexer(CgcIndexer.Forget(ix, id), ix')
    ensures SubIndexer(ix, ix')
  {
    OnlyWithout(ix.jobs, id, ix'.paths.Keys);
  }

  lemma {:induction false} DropFirst(ix: Indexer, ix': Indexer, completed: seq<nat>, limit: int, now: int)
    requires Consistent(ix) && completed != [] && completed[0] in Ids(ix.jobs) && completed[0] !in completed[1..]
    requires Outlived(ix, completed[0], now) || |ix.jobs| > limit
    requires PrunedTo(CgcIndexer.Forget(ix, completed[0]), ix', completed[1..], limit, now)
    ensures PrunedTo(ix, ix', completed, limit, now)
  {
    var id, rest, ix1 := completed[0], completed[1..], CgcIndexer.Forget(ix, completed[0]);
    ForgetEffect(ix, id);
    ForgottenIs(ix, id, ix');
    forall k | 0 <= k < |completed|
      ensures completed[k] in ix'.paths <==> StaysAt(ix, completed, limit, now, k)
    {
      if k > 0 {
        var j := k - 1;
        assert rest[j] == completed[k] && rest[j] != id;
        assert completed[k] in ix'.paths <==> StaysAt(ix1, rest, limit, now, j);
      }
    }
    forall other | other in ix.paths && other !in completed ensures other in ix'.paths {
      assert other !in rest && other != id;
    }
  }

  lemma {:induction false} KeepFirst(ix: Indexer, ix': Indexer, completed: seq<nat>, limit: int, now: int)
    requires Consistent(ix) && completed != [] && completed[0] in Ids(ix.jobs) && completed[0] !in completed[1..]
    requires !Outlived(ix, completed[0], now) && |ix.jobs| <= limit
    requires PrunedTo(ix, ix', completed[1..], limit, now)
    ensures PrunedTo(ix, ix', completed, limit, now)
  {
    var rest := completed[1..];
    forall k | 0 <= k < |completed|
      ensures completed[k] in ix'.paths <==> StaysAt(ix, completed, limit, now, k)
    {
      if k > 0 {
        var j := k - 1;
        assert rest[j] == completed[k];
        assert completed[k] in ix'.paths <==> StaysAt(ix, rest, limit, now, j);
      }
    }
  }

  /** Jobs of the registry, no one twice. */
  ghost predicate EachOnce(jobs: seq<Job>, ids: seq<nat>) {
    && (forall i, j :: 0 <= i < j < |ids| ==> ids[i] != ids[j])
    && (forall k :: 0 <= k < |ids| ==> ids[k] in Ids(jobs))
  }

  lemma {:induction false} RestOnce(jobs: seq<Job>, ids: seq<nat>, jobs': seq<Job>)
    requires EachOnce(jobs, ids) && ids != []
    requires Ids(jobs') == Ids(jobs) || Ids(jobs') == Ids(jobs) - {ids[0]}
    ensures EachOnce(jobs', ids[1..]) && ids[0] !in ids[1..] && ids[0] in Ids(jobs)
  {
  }

  lemma {:induction false} PruneEachIs(ix: Indexer, completed: seq<nat>, limit: int, now: int)
    requires Consistent(ix) && EachOnce(ix.jobs, completed)
    ensures PrunedTo(ix, PruneEach(ix, completed, limit, now - 3600), completed, limit, now)
    decreases |completed|
  {
    if completed == [] {
      OnlyAll(ix.jobs, ix.paths.Keys);
    } else {
      var id, rest := completed[0], completed[1..];
      RestOnce(ix.jobs, completed, ix.jobs);
      if ExpiredJob(ix, id, now - 3600) || |ix.jobs| > limit {
        ForgetEffect(ix, id);
        RestOnce(ix.jobs, completed, CgcIndexer.Forget(ix, id).jobs);
        PruneEachIs(CgcIndexer.Forget(ix, id), rest, limit, now);
        DropFirst(ix, PruneEach(ix, completed, limit, now - 3600), completed, limit, now);
      } else {
        PruneEachIs(ix, rest, limit, now);
        KeepFirst(ix, PruneEach(ix, completed, limit, now - 3600), completed, limit, now);
      }
    }
  }

  function DoneJobs(jobs: seq<Job>): nat {
    if jobs == [] then 0 else DoneJobs(jobs[..|jobs| - 1]) + if jobs[|jobs| - 1].state == Done then 1 else 0
  }

  function OwnId(job: Job): seq<nat> {
    if job.state.Done? then [job.id] else []
  }

  lemma {:induction false} CompletedCons(job: Job, rest: seq<Job>)
    ensures CompletedIds([job] + rest) == OwnId(job) + CompletedIds(rest)
  {
    assert ([job] + rest)[1..] == rest;
  }

  lemma {:induction false} CompletedConcat(a: seq<Job>, b: seq<Job>)
    ensures CompletedIds(a + b) == CompletedIds(a) + CompletedIds(b)
  {
    if a == [] {
      assert a + b == b;
    } else {
      var first, rest := a[0], a[1..];
      assert a == [first] + rest && a + b == [first] + (rest + b);
      CompletedConcat(rest, b);
      CompletedCons(first, rest);
      CompletedCons(first, rest + b);
      ThreeParts(OwnId(first), CompletedIds(rest), CompletedIds(b));
    }
  }

  lemma {:induction false} ThreeParts(a: seq<nat>, b: seq<nat>, c: seq<nat>)
    ensures a + (b + c) == a + b + c
  {
  }

  lemma {:induction false} DoneJobsAre(jobs: seq<Job>)
    ensures DoneJobs(jobs) == |CompletedIds(jobs)|
  {
    if jobs != [] {
      var before, last := jobs[..|jobs| - 1], jobs[|jobs| - 1];
      DoneJobsAre(before);
      CompletedConcat(before, [last]);
      assert jobs == before + [last];
    }
  }

  /** The i-th job is done, and so many completed jobs stand before it. */
  lemma {:induction false} DoneJobAt(jobs: seq<Job>, i: nat)
    requires i < |jobs| && jobs[i].state == Done
    ensures var k := DoneJobs(jobs[..i]); k < |CompletedIds(jobs)| && CompletedIds(jobs)[k] == jobs[i].id
  {
    DoneJobsAre(jobs[..i]);
    CompletedConcat(jobs[..i], jobs[i..]);
    assert jobs == jobs[..i] + jobs[i..];
    assert jobs[i..][0] == jobs[i];
  }

  lemma {:induction false} PrunedIs(ix: Indexer, reserve: int, now: int)
    requires Consistent(ix)
    ensures PrunedTo(ix, Prune(ix, reserve, now), CompletedIds(ix.jobs), 64 - reserve, now)
  {
    CompletedOnce(ix.jobs);
    PruneEachIs(ix, CompletedIds(ix.jobs), 64 - reserve, now);
  }

  lemma {:induction false} CompletedOnce(jobs: seq<Job>)
    requires UniqueJobs(jobs)
    ensures EachOnce(jobs, CompletedIds(jobs))
  {
    CompletedJobs(jobs);
    CompletedRegistered(jobs);
  }

  lemma {:induction false} UnfinishedStays(ix: Indexer, ix': Indexer, limit: int, now: int, job: Job)
    requires Consistent(ix) && PrunedTo(ix, ix', CompletedIds(ix.jobs), limit, now)
    requires job in ix.jobs && job.state != Done
    ensures job.id in ix'.paths
  {
    UnfinishedNotCompleted(ix.jobs, job);
    assert job.id in Ids(ix.jobs);
  }

  lemma {:induction false} DoneStaysIff(ix: Indexer, ix': Indexer, limit: int, now: int, i: nat)
    requires PrunedTo(ix, ix', CompletedIds(ix.jobs), limit, now) && i < |ix.jobs| && ix.jobs[i].state == Done
    ensures ix.jobs[i].id in ix'.paths <==>
              DoneJobs(ix.jobs[..i]) >= |ix.jobs| - limit && !Outlived(ix, ix.jobs[i].id, now)
  {
    var completed, k := CompletedIds(ix.jobs), DoneJobs(ix.jobs[..i]);
    DoneJobAt(ix.jobs, i);
    assert completed[k] in ix'.paths <==> StaysAt(ix, completed, limit, now, k);
  }

  /** Pruning keeps the unfinished jobs, and of the completed ones those that completed less than an hour ago and have
      enough completed jobs before them to make up for the registry's excess over sixty-four, the reserve counted in;
      the jobs that stay keep their order and their entries. */
  lemma {:induction false} PruneKeeps(ix: Indexer, reserve: int, now: int, i: nat)
    requires Consistent(ix) && i < |ix.jobs|
    ensures var ix', job := Prune(ix, reserve, now), ix.jobs[i];
      && (job.id in ix'.paths <==>
            job.state != Done
            || (DoneJobs(ix.jobs[..i]) >= |ix.jobs| - (64 - reserve) && !Outlived(ix, job.id, now)))
      && Consistent(ix') && SubIndexer(ix, ix')
  {
    var ix' := Prune(ix, reserve, now);
    PrunedIs(ix, reserve, now);
    if ix.jobs[i].state == Done {
      DoneStaysIff(ix, ix', 64 - reserve, now, i);
    } else {
      UnfinishedStays(ix, ix', 64 - reserve, now, ix.jobs[i]);
    }
  }
}
