/** Runs of the indexer: submitted jobs, one worker at a time, and edits at any moment. */
module CgcIndexerRuns {
  import opened Options
  import opened CgcIndexer

  type Graph = map<Path, Stamp>

  /** The single worker between two jobs or inside one. `staging` is the separate graph of a root job. */
  datatype Worker =
    | Idle
    | Indexing(id: nat, target: Path, before: Snapshot, staging: Graph)   // the tool runs
    | Indexed(id: nat, target: Path, before: Snapshot, staging: Graph)    // the tool reported success
    | Detached(id: nat, before: Snapshot, staging: Graph, prior: Graph)   // between the two renames of a promotion
    | Promoted(id: nat, target: Path, before: Snapshot)                   // the graph to query is in place
    | Compared(id: nat, target: Path, before: Snapshot, after: Snapshot)  // the second snapshot is taken
    | Finishing(id: nat)

  /** What becomes of the staging graph: it takes the place of the old one; or that fails and the old one is kept or
      put back; or putting the old one back fails as well and it is removed. */
  datatype Promotion = InPlace | Kept | Lost

  /** `hist` holds every stamp a path ever had; `graph` is the graph that queries see; `standing` are the targets
      recorded since a graph was last lost; `edited` are the paths changed since the last job began; `returned` are
      the paths that an edit ever gave back a stamp they had before. */
  datatype World = World(
    ix: Indexer, disk: Snapshot, hist: map<Path, set<Stamp>>, graph: Graph, worker: Worker, nextId: nat,
    standing: set<Path>, edited: set<Path>, returned: set<Path>)

  datatype Event =
    | Edit(p: Path, stamp: Option<Stamp>)    // write, restore or delete a file
    | SubmitJob(target: Path, force: bool, now: int)
    | StatusPrune(now: int)
    | Start(id: nat)
    | ToolReads(p: Path)                     // the tool indexes a file as it is now
    | ToolForgets(p: Path)                   // the tool drops a file that is gone
    | ToolEnds(ok: bool)
    | Detach                                 // the old graph is renamed away
    | Promote(outcome: Promotion)
    | Compare
    | RecordResult
    | Fail                                   // an exception
    | Finish(now: int)
    | Crash(id: nat)                         // the worker dies before it starts on the job

  function Past(hist: map<Path, set<Stamp>>, p: Path): set<Stamp> {
    if p in hist then hist[p] else {}
  }

  function DiskAt(disk: Snapshot, p: Path): Option<Stamp> {
    if p in disk then Some(disk[p]) else None
  }

  function PathOf(ix: Indexer, id: nat): Path {
    if id in ix.paths then ix.paths[id] else []
  }

  /** What a successful tool run guarantees: every file that was under the target and left alone is in the graph. */
  ghost predicate Holds(g: Graph, before: Snapshot, edited: set<Path>) {
    forall p :: p in before && p !in edited ==> p in g && g[p] == before[p]
  }

  /** The edit gives the path a stamp that it had before and no longer has. */
  predicate Returning(w: World, e: Event) {
    e.Edit? && e.stamp.Some? && DiskAt(w.disk, e.p) != e.stamp && e.stamp.value in Past(w.hist, e.p)
  }

  ghost predicate Enabled(w: World, e: Event) {
    match e
    case Start(id) => w.worker.Idle? && Job(id, Queued) in w.ix.jobs
    case Crash(id) => w.worker.Idle? && Job(id, Queued) in w.ix.jobs
    case ToolReads(p) => w.worker.Indexing? && p in w.disk && w.worker.target <= p
    case ToolForgets(p) => w.worker.Indexing? && p !in w.disk
    case ToolEnds(ok) =>
      && w.worker.Indexing?
      && (ok ==> Holds(if w.worker.target == [] then w.worker.staging else w.graph, w.worker.before, w.edited))
    case Detach => w.worker.Indexed? && w.worker.target == []
    case Promote(outcome) =>
      || w.worker.Detached?
      || (w.worker.Indexed? && outcome == if w.worker.target == [] then Kept else InPlace)
    case Compare => w.worker.Promoted?
    case RecordResult => w.worker.Compared?
    case Fail => w.worker.Indexing? || w.worker.Promoted?
    case Finish(_) => w.worker.Finishing?
    case _ => true
  }

  function EditTo(w: World, p: Path, stamp: Option<Stamp>): World {
    if DiskAt(w.disk, p) == stamp then w
    else
      match stamp
      case None => w.(disk := w.disk - {p}, edited := w.edited + {p})
      case Some(given) =>
        w.(disk := w.disk[p := given], hist := w.hist[p := Past(w.hist, p) + {given}], edited := w.edited + {p},
           returned := if given in Past(w.hist, p) then w.returned + {p} else w.returned)
  }

  ghost function Step(w: World, e: Event): World
    requires Enabled(w, e)
  {
    match e
    case Edit(p, stamp) => EditTo(w, p, stamp)
    case SubmitJob(target, force, now) =>
      w.(ix := Submit(w.ix, w.nextId, target, force, w.disk, now), nextId := w.nextId + 1)
    case StatusPrune(now) => w.(ix := Prune(w.ix, 0, now))
    case Start(id) =>
      var target := PathOf(w.ix, id);
      w.(ix := w.ix.(jobs := SetState(w.ix.jobs, id, Running)),
         worker := Indexing(id, target, SnapshotOf(w.disk, target), map[]), edited := {})
    case ToolReads(p) =>
      if w.worker.target == []
      then w.(worker := Indexing(w.worker.id, [], w.worker.before, w.worker.staging[p := w.disk[p]]))
      else w.(graph := w.graph[p := w.disk[p]])
    case ToolForgets(p) =>
      if w.worker.target == [] then w.(worker := Indexing(w.worker.id, [], w.worker.before, w.worker.staging - {p}))
      else w.(graph := w.graph - {p})
    case ToolEnds(ok) =>
      w.(worker := if ok then Indexed(w.worker.id, w.worker.target, w.worker.before, w.worker.staging)
                   else Finishing(w.worker.id))
    case Detach =>
      w.(graph := map[], worker := Detached(w.worker.id, w.worker.before, w.worker.staging, w.graph))
    case Promote(outcome) =>
      if w.worker.Detached? then
        match outcome
        case InPlace => w.(graph := w.worker.staging, worker := Promoted(w.worker.id, [], w.worker.before))
        case Kept => w.(graph := w.worker.prior, worker := Finishing(w.worker.id))
        case Lost => w.(worker := Finishing(w.worker.id), standing := {})
      else if w.worker.target == [] then w.(worker := Finishing(w.worker.id))
      else w.(worker := Promoted(w.worker.id, w.worker.target, w.worker.before))
    case Compare =>
      var after := SnapshotOf(w.disk, w.worker.target);
      w.(worker := Compared(w.worker.id, w.worker.target, w.worker.before, after))
    case RecordResult =>
      w.(ix := Record(w.ix, w.worker.id, w.worker.target, w.worker.before, w.worker.after),
         worker := Finishing(w.worker.id), standing := w.standing + {w.worker.target})
    case Fail => w.(worker := Finishing(w.worker.id))
    case Finish(now) => w.(ix := Complete(w.ix, w.worker.id, now), worker := Idle)
    case Crash(id) => w.(ix := w.ix.(jobs := SetState(w.ix.jobs, id, Done)))
  }

  ghost function Next(w: World, e: Event): World {
    if Enabled(w, e) then Step(w, e) else w
  }

  /** Any workspace and graph to start with; nothing has been indexed yet. */
  function Initial(disk: Snapshot, graph: Graph): World {
    World(Empty(), disk, map p | p in disk :: {disk[p]}, graph, Idle, 0, {}, {}, {})
  }

  ghost function Run(disk: Snapshot, graph: Graph, events: seq<Event>): World {
    if events == [] then Initial(disk, graph) else Next(Run(disk, graph, events[..|events| - 1]), events[|events| - 1])
  }

  // ---- what a record says ----

  /** The file is recorded under a target that still stands. */
  predicate Stands(w: World, target: Path, p: Path) {
    target in w.standing && target in w.ix.snapshots && p in w.ix.snapshots[target]
  }

  /** The graph that queries see, or that a promotion under way still puts back when it fails. */
  function Base(w: World): Graph {
    if w.worker.Detached? then w.worker.prior else w.graph
  }

  /** A recorded file is dirty, or still in the graph as recorded, or no longer on disk as recorded, unless it got
      back an earlier stamp. */
  ghost predicate RecordOk(w: World, target: Path, p: Path)
    requires Stands(w, target, p)
  {
    var stamp := w.ix.snapshots[target][p];
    && target <= p && stamp in Past(w.hist, p)
    && (p in w.returned || p in w.ix.dirty || DiskAt(Base(w), p) == Some(stamp) || DiskAt(w.disk, p) != Some(stamp))
  }

  predicate Carried(w: World, job: Path, before: Snapshot, target: Path, p: Path)
    requires Stands(w, target, p)
  {
    p !in w.returned && job <= p && DiskAt(w.disk, p) == Some(w.ix.snapshots[target][p]) ==>
      DiskAt(before, p) == DiskAt(w.disk, p)
  }

  /** While a job runs, a file that still carries an old recorded stamp carried it when the job began, and one that
      carries the stamp it had then was left alone. */
  ghost predicate BeforeOk(w: World, job: Path, before: Snapshot) {
    && (forall p :: p in before ==> job <= p && before[p] in Past(w.hist, p))
    && (forall p :: p in before && p !in w.returned && DiskAt(w.disk, p) == Some(before[p]) ==> p !in w.edited)
    && (forall target, p :: Stands(w, target, p) ==> Carried(w, job, before, target, p))
  }

  ghost predicate WorkerOk(w: World) {
    match w.worker
    case Idle => true
    case Indexing(_, target, before, _) => BeforeOk(w, target, before)
    case Indexed(_, target, before, staging) =>
      BeforeOk(w, target, before) && Holds(if target == [] then staging else w.graph, before, w.edited)
    case Detached(_, before, staging, _) => BeforeOk(w, [], before) && Holds(staging, before, w.edited)
    case Promoted(_, target, before) => BeforeOk(w, target, before) && Holds(w.graph, before, w.edited)
    case Compared(_, target, before, after) =>
      && BeforeOk(w, target, before) && Holds(w.graph, before, w.edited)
      && (forall p :: p in after ==> target <= p && after[p] in Past(w.hist, p))
      && (forall p :: p in before && p !in w.returned && DiskAt(after, p) != Some(before[p]) ==>
            DiskAt(w.disk, p) != Some(before[p]))
    case Finishing(_) => true
  }

  ghost predicate Sound(w: World) {
    && (forall p :: p in w.disk ==> w.disk[p] in Past(w.hist, p))
    && (forall target, p :: Stands(w, target, p) ==> RecordOk(w, target, p))
    && WorkerOk(w)
  }

  lemma {:induction false} PruneEachKeepsRecords(ix: Indexer, completed: seq<nat>, limit: int, cutoff: int)
    ensures PruneEach(ix, completed, limit, cutoff).snapshots == ix.snapshots
    ensures PruneEach(ix, completed, limit, cutoff).dirty == ix.dirty
    decreases |completed|
  {
    if completed != [] {
      var drop := ExpiredJob(ix, completed[0], cutoff) || |ix.jobs| > limit;
      PruneEachKeepsRecords(if drop then CgcIndexer.Forget(ix, completed[0]) else ix, completed[1..], limit, cutoff);
    }
  }

  predicate SameDisk(w: World, w': World) {
    w'.disk == w.disk && w'.hist == w.hist && w'.edited == w.edited && w'.returned == w.returned
  }

  lemma {:induction false} SameRecords(w: World, w': World)
    requires Sound(w) && w'.ix.snapshots == w.ix.snapshots && w'.ix.dirty == w.ix.dirty && w'.standing == w.standing
    requires SameDisk(w, w') && Base(w') == Base(w) && WorkerOk(w')
    ensures Sound(w')
  {
    forall target, p | Stands(w', target, p) ensures RecordOk(w', target, p) {
      assert RecordOk(w, target, p);
    }
  }

  /** An edited path has a stamp it never had before, or none, or it is noted as returned. */
  ghost predicate Edited(w: World, w': World) {
    && w'.ix == w.ix && w'.graph == w.graph && w'.worker == w.worker && w'.standing == w.standing
    && w.returned <= w'.returned && w.edited <= w'.edited
    && (forall x, s :: s in Past(w.hist, x) ==> s in Past(w'.hist, x))
    && (forall x :: x in w'.disk ==> w'.disk[x] in Past(w'.hist, x))
    && (forall x :: DiskAt(w'.disk, x) == DiskAt(w.disk, x) ==> x in w'.edited ==> x in w.edited)
    && (forall x :: DiskAt(w'.disk, x) != DiskAt(w.disk, x) ==>
          x in w'.disk ==> x in w'.returned || w'.disk[x] !in Past(w.hist, x))
  }

  lemma {:induction false} EditedBefore(w: World, w': World, job: Path, before: Snapshot)
    requires Sound(w) && Edited(w, w') && BeforeOk(w, job, before)
    ensures BeforeOk(w', job, before)
    ensures forall g: Graph :: Holds(g, before, w.edited) ==> Holds(g, before, w'.edited)
  {
    forall target, p | Stands(w', target, p) ensures Carried(w', job, before, target, p) {
      assert Carried(w, job, before, target, p) && RecordOk(w, target, p);
    }
    forall g: Graph | Holds(g, before, w.edited) ensures Holds(g, before, w'.edited) {
    }
  }

  lemma {:induction false} EditedSound(w: World, w': World)
    requires Sound(w) && Edited(w, w')
    ensures Sound(w')
  {
    forall target, x | Stands(w', target, x) ensures RecordOk(w', target, x) {
      assert RecordOk(w, target, x);
    }
    match w.worker {
      case Idle =>
      case Indexing(_, target, before, _) => EditedBefore(w, w', target, before);
      case Indexed(_, target, before, staging) => EditedBefore(w, w', target, before);
      case Detached(_, before, _, _) => EditedBefore(w, w', [], before);
      case Promoted(_, target, before) => EditedBefore(w, w', target, before);
      case Compared(_, target, before, after) => EditedBefore(w, w', target, before);
      case Finishing(_) =>
    }
  }

  lemma {:induction false} EditSound(w: World, p: Path, stamp: Option<Stamp>)
    requires Sound(w)
    ensures Sound(EditTo(w, p, stamp))
  {
    assert Edited(w, EditTo(w, p, stamp));
    EditedSound(w, EditTo(w, p, stamp));
  }

  lemma {:induction false} StartSound(w: World, id: nat)
    requires Sound(w) && Enabled(w, Start(id))
    ensures Sound(Step(w, Start(id)))
  {
    var w' := Step(w, Start(id));
    forall target, p | Stands(w', target, p)
      ensures Carried(w', w'.worker.target, w'.worker.before, target, p)
    {
    }
    forall target, p | Stands(w', target, p) ensures RecordOk(w', target, p) {
      assert RecordOk(w, target, p);
    }
  }

  /** Steps that leave records, disk and history alone keep what is known about the running job. */
  lemma {:induction false} SameBefore(w: World, w': World, job: Path, before: Snapshot)
    requires BeforeOk(w, job, before) && w'.ix.snapshots == w.ix.snapshots && w'.standing <= w.standing
    requires SameDisk(w, w')
    ensures BeforeOk(w', job, before)
  {
    forall target, p | Stands(w', target, p) ensures Carried(w', job, before, target, p) {
      assert Carried(w, job, before, target, p);
    }
  }

  lemma {:induction false} SameWorker(w: World, w': World)
    requires WorkerOk(w) && w'.worker == w.worker && w'.graph == w.graph
    requires w'.ix.snapshots == w.ix.snapshots && w'.standing == w.standing
    requires SameDisk(w, w')
    ensures WorkerOk(w')
  {
    match w.worker {
      case Idle =>
      case Indexing(_, target, before, _) => SameBefore(w, w', target, before);
      case Indexed(_, target, before, staging) => SameBefore(w, w', target, before);
      case Detached(_, before, _, _) => SameBefore(w, w', [], before);
      case Promoted(_, target, before) => SameBefore(w, w', target, before);
      case Compared(_, target, before, after) => SameBefore(w, w', target, before);
      case Finishing(_) =>
    }
  }

  lemma {:induction false} ToolSound(w: World, e: Event)
    requires Sound(w) && Enabled(w, e) && (e.ToolReads? || e.ToolForgets?)
    ensures Sound(Step(w, e))
  {
    var w' := Step(w, e);
    SameBefore(w, w', w.worker.target, w.worker.before);
    forall target, p | Stands(w', target, p) ensures RecordOk(w', target, p) {
      assert RecordOk(w, target, p);
    }
  }

  lemma {:induction false} PromoteSound(w: World, e: Event)
    requires Sound(w) && Enabled(w, e) && (e.Detach? || e.Promote?)
    ensures Sound(Step(w, e))
  {
    var w' := Step(w, e);
    var job := if w.worker.Detached? then [] else w.worker.target;
    SameBefore(w, w', job, w.worker.before);
    forall target, p | Stands(w', target, p) ensures RecordOk(w', target, p) {
      assert RecordOk(w, target, p) && Carried(w, job, w.worker.before, target, p);
      assert [] <= p;
    }
  }

  lemma {:induction false} RecordSound(w: World)
    requires Sound(w) && Enabled(w, RecordResult)
    ensures Sound(Step(w, RecordResult))
  {
    var w' := Step(w, RecordResult);
    var before, after := w.worker.before, w.worker.after;
    forall target, p | Stands(w', target, p) ensures RecordOk(w', target, p) {
      if target != w.worker.target {
        assert RecordOk(w, target, p) && Carried(w, w.worker.target, before, target, p);
      }
    }
  }

  lemma {:induction false} ToolEndSound(w: World, e: Event)
    requires Sound(w) && Enabled(w, e) && (e.ToolEnds? || e.Fail? || e.Finish? || e.Compare? || e.Crash?)
    ensures Sound(Step(w, e))
  {
    var w' := Step(w, e);
    if !e.Finish? && !e.Crash? {
      SameBefore(w, w', w.worker.target, w.worker.before);
    }
    SameRecords(w, w');
  }

  lemma {:induction false} NextSound(w: World, e: Event)
    requires Sound(w)
    ensures Sound(Next(w, e))
  {
    if Enabled(w, e) {
      match e {
        case Edit(p, stamp) => EditSound(w, p, stamp);
        case SubmitJob(target, force, now) =>
          PruneEachKeepsRecords(w.ix, CompletedIds(w.ix.jobs), MAX_RETAINED_JOBS - 1, now - JOB_RETENTION_SECONDS);
          SameWorker(w, Step(w, e));
          SameRecords(w, Step(w, e));
        case StatusPrune(now) =>
          PruneEachKeepsRecords(w.ix, CompletedIds(w.ix.jobs), MAX_RETAINED_JOBS, now - JOB_RETENTION_SECONDS);
          SameWorker(w, Step(w, e));
          SameRecords(w, Step(w, e));
        case Start(id) => StartSound(w, id);
        case ToolReads(p) => ToolSound(w, e);
        case ToolForgets(p) => ToolSound(w, e);
        case Detach => PromoteSound(w, e);
        case Promote(_) => PromoteSound(w, e);
        case RecordResult => RecordSound(w);
        case _ => ToolEndSound(w, e);
      }
    }
  }

  lemma {:induction false} RunSound(disk: Snapshot, graph: Graph, events: seq<Event>)
    ensures Sound(Run(disk, graph, events))
  {
    if events != [] {
      RunSound(disk, graph, events[..|events| - 1]);
      NextSound(Run(disk, graph, events[..|events| - 1]), events[|events| - 1]);
    }
  }

  // ---- the registry stays bounded ----

  predicate UniqueJobs(jobs: seq<Job>) {
    forall i, j :: 0 <= i < j < |jobs| ==> jobs[i].id != jobs[j].id
  }

  function Ids(jobs: seq<Job>): set<nat> {
    set job | job in jobs :: job.id
  }

  lemma {:induction false} FirstAndRest(jobs: seq<Job>)
    requires jobs != []
    ensures jobs == [jobs[0]] + jobs[1..]
    ensures Ids(jobs) == {jobs[0].id} + Ids(jobs[1..])
  {
    assert forall job :: job in jobs <==> job == jobs[0] || job in jobs[1..];
  }

  lemma {:induction false} UniqueCons(first: Job, rest: seq<Job>)
    ensures UniqueJobs([first] + rest) <==> UniqueJobs(rest) && first.id !in Ids(rest)
  {
    var jobs := [first] + rest;
    if UniqueJobs(jobs) {
      forall i, j | 0 <= i < j < |rest| ensures rest[i].id != rest[j].id {
        assert jobs[i + 1].id != jobs[j + 1].id;
      }
      forall job | job in rest ensures job.id != first.id {
        var i :| 0 <= i < |rest| && rest[i] == job;
        assert jobs[0].id != jobs[i + 1].id;
      }
    }
    if UniqueJobs(rest) && first.id !in Ids(rest) {
      forall j | 0 <= j < |rest| ensures rest[j].id != first.id {
        assert rest[j] in rest && rest[j].id in Ids(rest);
      }
    }
  }

  lemma {:induction false} WithoutJobEffect(jobs: seq<Job>, id: nat)
    requires UniqueJobs(jobs)
    ensures UniqueJobs(WithoutJob(jobs, id)) && Ids(WithoutJob(jobs, id)) == Ids(jobs) - {id}
    ensures |WithoutJob(jobs, id)| == |jobs| - if id in Ids(jobs) then 1 else 0
    ensures forall job :: job in WithoutJob(jobs, id) <==> job in jobs && job.id != id
  {
    if jobs != [] {
      var first, rest := jobs[0], jobs[1..];
      FirstAndRest(jobs);
      UniqueCons(first, rest);
      if first.id != id {
        WithoutJobEffect(rest, id);
        FirstAndRest(WithoutJob(jobs, id));
        UniqueCons(first, WithoutJob(rest, id));
      } else {
        assert forall job :: job in rest ==> job.id in Ids(rest);
      }
    }
  }

  lemma {:induction false} UniqueById(jobs: seq<Job>, a: Job, b: Job)
    requires UniqueJobs(jobs) && a in jobs && b in jobs && a.id == b.id
    ensures a == b
  {
    var i, j :| 0 <= i < |jobs| && 0 <= j < |jobs| && jobs[i] == a && jobs[j] == b;
  }

  lemma {:induction false} SetStateIds(jobs: seq<Job>, id: nat, state: JobState)
    requires UniqueJobs(jobs) && id in Ids(jobs)
    ensures var jobs' := SetState(jobs, id, state);
      UniqueJobs(jobs') && Ids(jobs') == Ids(jobs) && |jobs'| == |jobs| && Job(id, state) in jobs'
  {
    FirstAndRest(jobs);
    var first, rest, jobs' := jobs[0], jobs[1..], SetState(jobs, id, state);
    UniqueCons(first, rest);
    if first.id != id {
      SetStateIds(rest, id, state);
    }
    FirstAndRest(jobs');
    UniqueCons(jobs'[0], jobs'[1..]);
  }

  lemma {:induction false} SetStatePending(jobs: seq<Job>, id: nat, state: JobState)
    requires UniqueJobs(jobs) && (state.Done? || Job(id, Queued) in jobs)
    ensures Pending(SetState(jobs, id, state)) <= Pending(jobs)
  {
    if jobs != [] {
      var first, rest := jobs[0], jobs[1..];
      FirstAndRest(jobs);
      UniqueCons(first, rest);
      if first.id != id {
        SetStatePending(rest, id, state);
      } else if Job(id, Queued) in jobs {
        UniqueById(jobs, first, Job(id, Queued));
      }
    }
  }

  /** What pruning must not touch and how far it may leave the registry filled. */
  ghost predicate Consistent(ix: Indexer) {
    UniqueJobs(ix.jobs) && Ids(ix.jobs) == ix.paths.Keys && ix.paths.Keys == ix.meta.Keys
  }

  lemma {:induction false} ForgetEffect(ix: Indexer, id: nat)
    requires Consistent(ix) && id in Ids(ix.jobs)
    ensures var ix' := CgcIndexer.Forget(ix, id);
      && Consistent(ix') && Ids(ix'.jobs) == Ids(ix.jobs) - {id} && |ix'.jobs| == |ix.jobs| - 1
      && (forall job :: job in ix'.jobs <==> job in ix.jobs && job.id != id)
  {
    WithoutJobEffect(ix.jobs, id);
  }

  lemma {:induction false} PruneEachEffect(ix: Indexer, completed: seq<nat>, limit: int, cutoff: int)
    requires Consistent(ix) && limit >= 0
    requires forall i, j :: 0 <= i < j < |completed| ==> completed[i] != completed[j]
    requires forall id :: id in completed ==> id in Ids(ix.jobs)
    ensures var ix' := PruneEach(ix, completed, limit, cutoff);
      && Consistent(ix') && Ids(ix'.jobs) <= Ids(ix.jobs)
      && (|ix'.jobs| <= limit || |ix'.jobs| <= |ix.jobs| - |completed|)
      && (forall job :: job in ix'.jobs ==> job in ix.jobs)
      && (forall job :: job in ix.jobs && job.id !in completed ==> job in ix'.jobs)
    decreases |completed|
  {
    if completed != [] {
      var id, rest := completed[0], completed[1..];
      assert completed == [id] + rest && id in completed;
      assert id !in rest;
      if ExpiredJob(ix, id, cutoff) || |ix.jobs| > limit {
        ForgetEffect(ix, id);
        PruneEachEffect(CgcIndexer.Forget(ix, id), rest, limit, cutoff);
      } else {
        PruneEachEffect(ix, rest, limit, cutoff);
      }
    }
  }

  lemma {:induction false} CompletedJobs(jobs: seq<Job>)
    requires UniqueJobs(jobs)
    ensures |CompletedIds(jobs)| + Pending(jobs) == |jobs|
    ensures forall i, j :: 0 <= i < j < |CompletedIds(jobs)| ==> CompletedIds(jobs)[i] != CompletedIds(jobs)[j]
    ensures forall id :: id in CompletedIds(jobs) ==> Job(id, Done) in jobs
  {
    if jobs != [] {
      assert jobs == [jobs[0]] + jobs[1..];
      CompletedJobs(jobs[1..]);
      var rest := CompletedIds(jobs[1..]);
      forall id | id in rest ensures id != jobs[0].id {
        var i :| 0 <= i < |jobs[1..]| && jobs[1..][i] == Job(id, Done);
        assert jobs[i + 1].id == id;
      }
    }
  }

  lemma {:induction false} PendingSubset(jobs: seq<Job>, jobs': seq<Job>)
    requires UniqueJobs(jobs') && (forall job :: job in jobs' ==> job in jobs)
    ensures Pending(jobs') <= Pending(jobs)
    decreases |jobs|
  {
    if jobs == [] {
      assert jobs' != [] ==> jobs'[0] in jobs';
    } else {
      var first := jobs[0];
      assert jobs == [first] + jobs[1..];
      if first in jobs' {
        var smaller := WithoutJob(jobs', first.id);
        WithoutJobEffect(jobs', first.id);
        WithoutJobPending(jobs', first);
        forall job | job in smaller ensures job in jobs[1..] {
        }
        PendingSubset(jobs[1..], smaller);
      } else {
        PendingSubset(jobs[1..], jobs');
      }
    }
  }

  lemma {:induction false} WithoutJobPending(jobs: seq<Job>, job: Job)
    requires UniqueJobs(jobs) && job in jobs
    ensures Pending(jobs) == Pending(WithoutJob(jobs, job.id)) + if job.state.Done? then 0 else 1
  {
    var i :| 0 <= i < |jobs| && jobs[i] == job;
    if i > 0 {
      assert jobs[1..][i - 1] == job;
      WithoutJobPending(jobs[1..], job);
    }
  }

  lemma {:induction false} PendingAppend(jobs: seq<Job>, job: Job)
    ensures Pending(jobs + [job]) == Pending(jobs) + if job.state.Done? then 0 else 1
  {
    if jobs != [] {
      assert (jobs + [job])[1..] == jobs[1..] + [job];
      PendingAppend(jobs[1..], job);
    } else {
      assert jobs + [job] == [job];
    }
  }

  lemma {:induction false} CompletedRegistered(jobs: seq<Job>)
    requires UniqueJobs(jobs)
    ensures forall id :: id in CompletedIds(jobs) ==> id in Ids(jobs)
    ensures forall job :: job in jobs && !job.state.Done? ==> job.id !in CompletedIds(jobs)
  {
    var completed := CompletedIds(jobs);
    CompletedJobs(jobs);
    forall id | id in completed ensures id in Ids(jobs) {
      assert Job(id, Done) in jobs;
    }
    forall job | job in jobs && !job.state.Done? ensures job.id !in completed {
      UnfinishedNotCompleted(jobs, job);
    }
  }

  lemma {:induction false} PruneEffect(ix: Indexer, reserve: int, now: int)
    requires Consistent(ix) && Pending(ix.jobs) <= MAX_PENDING_JOBS && 0 <= reserve <= 1
    ensures var ix' := Prune(ix, reserve, now);
      && Consistent(ix') && Ids(ix'.jobs) <= Ids(ix.jobs) && |ix'.jobs| <= MAX_RETAINED_JOBS - reserve
      && Pending(ix'.jobs) <= Pending(ix.jobs)
      && (forall job :: job in ix.jobs && !job.state.Done? ==> job in ix'.jobs)
  {
    CompletedJobs(ix.jobs);
    CompletedRegistered(ix.jobs);
    PruneEachEffect(ix, CompletedIds(ix.jobs), MAX_RETAINED_JOBS - reserve, now - JOB_RETENTION_SECONDS);
    PendingSubset(ix.jobs, Prune(ix, reserve, now).jobs);
  }

  lemma {:induction false} UnfinishedNotCompleted(jobs: seq<Job>, job: Job)
    requires UniqueJobs(jobs) && job in jobs && !job.state.Done?
    ensures job.id !in CompletedIds(jobs)
  {
    CompletedJobs(jobs);
    if job.id in CompletedIds(jobs) {
      UniqueById(jobs, job, Job(job.id, Done));
    }
  }

  ghost predicate Registered(w: World) {
    && Consistent(w.ix) && Pending(w.ix.jobs) <= MAX_PENDING_JOBS && |w.ix.jobs| <= MAX_RETAINED_JOBS
    && (forall job :: job in w.ix.jobs ==> job.id < w.nextId)
    && (!w.worker.Idle? ==> Job(w.worker.id, Running) in w.ix.jobs)
  }

  lemma {:induction false} JobAppended(jobs: seq<Job>, job: Job)
    requires UniqueJobs(jobs) && job.id !in Ids(jobs)
    ensures UniqueJobs(jobs + [job]) && Ids(jobs + [job]) == Ids(jobs) + {job.id}
    ensures Pending(jobs + [job]) <= Pending(jobs) + 1
  {
    PendingAppend(jobs, job);
    assert forall i :: 0 <= i < |jobs| ==> jobs[i].id in Ids(jobs);
  }

  lemma {:induction false} SubmitRegistered(w: World, target: Path, force: bool, now: int)
    requires Registered(w)
    ensures Registered(Step(w, SubmitJob(target, force, now)))
  {
    if !QueueFull(w.ix) {
      PruneEffect(w.ix, 1, now);
      NextIdIsFresh(w);
      var pruned, w' := Prune(w.ix, 1, now), Step(w, SubmitJob(target, force, now));
      JobAppended(pruned.jobs, w'.ix.jobs[|w'.ix.jobs| - 1]);
      forall j | j in pruned.jobs ensures j.id < w.nextId {
        assert j.id in Ids(pruned.jobs) && j.id in Ids(w.ix.jobs);
      }
    }
  }

  lemma {:induction false} StartRegistered(w: World, id: nat)
    requires Registered(w) && Enabled(w, Start(id))
    ensures Registered(Step(w, Start(id)))
  {
    StateRegistered(w, id, Running);
  }

  lemma {:induction false} CrashRegistered(w: World, id: nat)
    requires Registered(w) && Enabled(w, Crash(id))
    ensures Registered(Step(w, Crash(id)))
  {
    StateRegistered(w, id, Done);
  }

  lemma {:induction false} FinishRegistered(w: World, now: int)
    requires Registered(w) && Enabled(w, Finish(now))
    ensures Registered(Step(w, Finish(now)))
  {
    StateRegistered(w, w.worker.id, Done);
  }

  lemma {:induction false} SameRegistry(w: World, w': World)
    requires Registered(w) && w'.ix.jobs == w.ix.jobs && w'.ix.paths == w.ix.paths && w'.nextId == w.nextId
    requires w'.ix.meta.Keys == w.ix.meta.Keys
    requires w'.worker == w.worker || (!w.worker.Idle? && !w'.worker.Idle? && w'.worker.id == w.worker.id)
    ensures Registered(w')
  {
  }

  lemma {:induction false} QuietRegistered(w: World, e: Event)
    requires Registered(w) && Enabled(w, e)
    requires !e.SubmitJob? && !e.StatusPrune? && !e.Start? && !e.Crash? && !e.Finish?
    ensures Registered(Step(w, e))
  {
    SameRegistry(w, Step(w, e));
  }

  lemma {:induction false} NextRegistered(w: World, e: Event)
    requires Registered(w)
    ensures Registered(Next(w, e))
  {
    if Enabled(w, e) {
      match e {
        case SubmitJob(target, force, now) => SubmitRegistered(w, target, force, now);
        case StatusPrune(now) =>
          PruneEffect(w.ix, 0, now);
          StatusRegistered(w, now);
        case Start(id) => StartRegistered(w, id);
        case Crash(id) => CrashRegistered(w, id);
        case Finish(now) => FinishRegistered(w, now);
        case _ => QuietRegistered(w, e);
      }
    }
  }

  lemma {:induction false} StatusRegistered(w: World, now: int)
    requires Registered(w)
    ensures Registered(w.(ix := Prune(w.ix, 0, now)))
  {
    PruneEffect(w.ix, 0, now);
    var ix' := Prune(w.ix, 0, now);
    forall job | job in ix'.jobs ensures job.id < w.nextId {
      assert job.id in Ids(ix'.jobs) && job.id in Ids(w.ix.jobs);
    }
  }

  lemma {:induction false} StateRegistered(w: World, id: nat, state: JobState)
    requires Registered(w) && (Job(id, Queued) in w.ix.jobs || (state.Done? && Job(id, Running) in w.ix.jobs))
    ensures var jobs' := SetState(w.ix.jobs, id, state);
      && UniqueJobs(jobs') && Ids(jobs') == Ids(w.ix.jobs) && Pending(jobs') <= MAX_PENDING_JOBS
      && |jobs'| == |w.ix.jobs| && Job(id, state) in jobs'
      && (forall job :: job in jobs' ==> job.id < w.nextId)
  {
    assert id in Ids(w.ix.jobs);
    SetStateIds(w.ix.jobs, id, state);
    SetStatePending(w.ix.jobs, id, state);
    var jobs' := SetState(w.ix.jobs, id, state);
    forall job | job in jobs' ensures job.id < w.nextId {
      assert job.id in Ids(jobs') && job.id in Ids(w.ix.jobs);
    }
  }

  /** In every reachable state at most eight jobs are unfinished and at most sixty-four are retained, the three
      job tables have the same keys, and the job at work is among them. */
  lemma {:induction false} RegistryBounded(disk: Snapshot, graph: Graph, events: seq<Event>)
    ensures Registered(Run(disk, graph, events))
  {
    if events != [] {
      RegistryBounded(disk, graph, events[..|events| - 1]);
      NextRegistered(Run(disk, graph, events[..|events| - 1]), events[|events| - 1]);
    }
  }

  lemma {:induction false} NextIdIsFresh(w: World)
    requires Registered(w)
    ensures w.nextId !in w.ix.meta
  {
    assert forall job :: job in w.ix.jobs ==> job.id != w.nextId;
  }

  // ---- skipping ----

  /** The submit skips its job. */
  ghost predicate Skips(w: World, target: Path, force: bool, now: int) {
    var w' := Step(w, SubmitJob(target, force, now));
    w.nextId in w'.ix.meta && w'.ix.meta[w.nextId].note.Skipped?
  }

  predicate UpToDate(w: World, target: Path) {
    forall p :: p in w.disk && target <= p ==> p in w.graph && w.graph[p] == w.disk[p]
  }

  /** No edit gives a file under the target a stamp that it had before. */
  ghost predicate NoReturns(disk: Snapshot, graph: Graph, events: seq<Event>, target: Path) {
    events == [] ||
    var before, last := events[..|events| - 1], events[|events| - 1];
    NoReturns(disk, graph, before, target) && !(Returning(Run(disk, graph, before), last) && target <= last.p)
  }

  predicate NoneReturned(w: World, target: Path) {
    forall p :: p in w.returned ==> !(target <= p)
  }

  lemma {:induction false} ReturnStep(w: World, e: Event)
    ensures Next(w, e).returned == w.returned + if Returning(w, e) then {e.p} else {}
  {
  }

  lemma {:induction false} NoReturnsIff(disk: Snapshot, graph: Graph, events: seq<Event>, target: Path)
    ensures NoReturns(disk, graph, events, target) <==> NoneReturned(Run(disk, graph, events), target)
  {
    if events != [] {
      var before, last := events[..|events| - 1], events[|events| - 1];
      var w := Run(disk, graph, before);
      NoReturnsIff(disk, graph, before, target);
      ReturnStep(w, last);
      if Returning(w, last) {
        assert last.p in Next(w, last).returned;
      }
    }
  }

  /** A submitted job is skipped whose target was recorded since a graph was last lost, and no promotion stands
      between its two renames. If no file under the target ever got back an earlier stamp, the graph already holds the
      current version of every tracked file there: for overlapping targets, failed jobs and promotions, and any other
      edits at any moment. */
  lemma {:induction false} SkippingIsSound(
    disk: Snapshot, graph: Graph, events: seq<Event>, target: Path, force: bool, now: int)
    requires NoReturns(disk, graph, events, target)
    requires var w := Run(disk, graph, events);
      Skips(w, target, force, now) && target in w.standing && !w.worker.Detached?
    ensures UpToDate(Run(disk, graph, events), target)
  {
    RunSound(disk, graph, events);
    NoReturnsIff(disk, graph, events, target);
    var w := Run(disk, graph, events);
    SkippedIsUnchanged(disk, graph, events, target, force, now);
    forall p | p in w.disk && target <= p ensures p in w.graph && w.graph[p] == w.disk[p] {
      assert p in SnapshotOf(w.disk, target);
      assert RecordOk(w, target, p);
    }
  }

  lemma {:induction false} SkippedIsUnchanged(
    disk: Snapshot, graph: Graph, events: seq<Event>, target: Path, force: bool, now: int)
    requires Skips(Run(disk, graph, events), target, force, now)
    ensures var w := Run(disk, graph, events); Unchanged(w.ix, w.disk, target)
  {
    RegistryBounded(disk, graph, events);
    var w := Run(disk, graph, events);
    NextIdIsFresh(w);
    if !QueueFull(w.ix) {
      PruneEachKeepsRecords(w.ix, CompletedIds(w.ix.jobs), MAX_RETAINED_JOBS - 1, now - JOB_RETENTION_SECONDS);
    }
  }

  predicate NoLoss(events: seq<Event>) {
    forall i :: 0 <= i < |events| ==> events[i] != Promote(Lost)
  }

  lemma {:induction false} StandStep(w: World, e: Event)
    requires w.ix.snapshots.Keys <= w.standing && e != Promote(Lost)
    ensures var w' := Next(w, e); w'.ix.snapshots.Keys <= w'.standing
  {
    if e.SubmitJob? && !QueueFull(w.ix) {
      PruneEachKeepsRecords(w.ix, CompletedIds(w.ix.jobs), MAX_RETAINED_JOBS - 1, e.now - JOB_RETENTION_SECONDS);
    } else if e.StatusPrune? {
      PruneEachKeepsRecords(w.ix, CompletedIds(w.ix.jobs), MAX_RETAINED_JOBS, e.now - JOB_RETENTION_SECONDS);
    }
  }

  lemma {:induction false} AllStand(disk: Snapshot, graph: Graph, events: seq<Event>)
    requires NoLoss(events)
    ensures var w := Run(disk, graph, events); w.ix.snapshots.Keys <= w.standing
  {
    if events != [] {
      var before, e := events[..|events| - 1], events[|events| - 1];
      AllStand(disk, graph, before);
      StandStep(Run(disk, graph, before), e);
    }
  }

  // ---- and when it is not sound ----

  lemma {:induction false} RunStep(disk: Snapshot, graph: Graph, events: seq<Event>, e: Event)
    ensures Run(disk, graph, events + [e]) == Next(Run(disk, graph, events), e)
  {
    assert (events + [e])[..|events|] == events;
  }

  /** What is allowed: promotions that lose the graph, edits that give back an earlier stamp, and submits between the
      two renames of a promotion. */
  datatype Permits = Permits(losses: bool, reverts: bool, midway: bool)

  /** In every run that holds only what is permitted, whatever is skipped is up to date. */
  ghost predicate AlwaysSkipsSoundly(d: Permits) {
    forall disk, graph, events, target, force, now ::
      Permitted(d, disk, graph, events) ==> SkipSound(disk, graph, events, target, force, now)
  }

  ghost predicate Permitted(d: Permits, disk: Snapshot, graph: Graph, events: seq<Event>) {
    && (d.losses || NoLoss(events))
    && (d.reverts || NoReturns(disk, graph, events, []))
    && (d.midway || !Run(disk, graph, events).worker.Detached?)
  }

  ghost predicate SkipSound(disk: Snapshot, graph: Graph, events: seq<Event>, target: Path, force: bool, now: int) {
    Skips(Run(disk, graph, events), target, force, now) ==> UpToDate(Run(disk, graph, events), target)
  }

  function AnyStamp(): Stamp {
    Stamp(0, 0, "")
  }

  function OneTracked(): Snapshot {
    map[["f"] := AnyStamp()]
  }

  /** The only file is indexed on its own. */
  function RecordEvents(): seq<Event> {
    [SubmitJob(["f"], false, 0), Start(0), ToolEnds(true), Promote(InPlace), Compare, RecordResult, Finish(0)]
  }

  /** Then the whole workspace is indexed, and the old graph renamed away. */
  function MidwayEvents(): seq<Event> {
    RecordEvents() + [SubmitJob([], false, 0), Start(1), ToolReads(["f"]), ToolEnds(true), Detach]
  }

  /** And neither the new graph nor the old one can be put in its place. */
  function LossEvents(): seq<Event> {
    MidwayEvents() + [Promote(Lost)]
  }

  /** Or the file is moved away before the whole workspace is indexed. */
  function GoneEvents(): seq<Event> {
    RecordEvents() + [Edit(["f"], None), SubmitJob([], false, 0), Start(1)]
  }

  /** And is put back as it was afterwards. */
  function RevertEvents(): seq<Event> {
    GoneEvents() + [ToolEnds(true), Detach] + [Promote(InPlace), Compare]
    + [RecordResult, Edit(["f"], Some(AnyStamp()))]
  }

  function RecordedIndexer(): Indexer {
    Indexer([Job(0, Done)], map[0 := ["f"]], map[0 := Meta(0, Some(0), NoNote, {})], map[["f"] := OneTracked()], {})
  }

  function RecordedWorld(): World {
    World(RecordedIndexer(), OneTracked(), map[["f"] := {AnyStamp()}], OneTracked(), Idle, 1, {["f"]}, {}, {})
  }

  lemma {:induction false} OneSnapshot(target: Path)
    requires target == ["f"] || target == []
    ensures SnapshotOf(OneTracked(), target) == OneTracked() && Difference(OneTracked(), OneTracked()) == {}
  {
  }

  lemma {:induction false} FirstJob()
    ensures Run(OneTracked(), OneTracked(), RecordEvents()) == RecordedWorld()
  {
    var d, e0: seq<Event> := OneTracked(), [];
    var e1 := e0 + [SubmitJob(["f"], false, 0)];
    var e2 := e1 + [Start(0)];
    var e3 := e2 + [ToolEnds(true)];
    var e4 := e3 + [Promote(InPlace)];
    var e5 := e4 + [Compare];
    var e6 := e5 + [RecordResult];
    RunStep(d, d, e0, SubmitJob(["f"], false, 0));
    RunStep(d, d, e1, Start(0));
    RunStep(d, d, e2, ToolEnds(true));
    RunStep(d, d, e3, Promote(InPlace));
    RunStep(d, d, e4, Compare);
    RunStep(d, d, e5, RecordResult);
    RunStep(d, d, e6, Finish(0));
    assert RecordEvents() == e6 + [Finish(0)];
    FirstJobStarts();
    FirstJobEnds();
  }

  /** The world while the first job is at work. */
  function AtWork(worker: Worker, standing: set<Path>, snapshots: map<Path, Snapshot>): World {
    World(Indexer([Job(0, Running)], map[0 := ["f"]], map[0 := Meta(0, None, NoNote, {})], snapshots, {}),
          OneTracked(), map[["f"] := {AnyStamp()}], OneTracked(), worker, 1, standing, {}, {})
  }

  lemma {:induction false} FirstJobStarts()
    ensures Next(Next(Initial(OneTracked(), OneTracked()), SubmitJob(["f"], false, 0)), Start(0)) ==
            AtWork(Indexing(0, ["f"], OneTracked(), map[]), {}, map[])
  {
    OneSnapshot(["f"]);
    var w0 := Initial(OneTracked(), OneTracked());
    var w1 := Next(w0, SubmitJob(["f"], false, 0));
    assert w0.hist == map[["f"] := {AnyStamp()}];
    assert w1.ix == Indexer([Job(0, Queued)], map[0 := ["f"]], map[0 := Meta(0, None, NoNote, {})], map[], {});
    assert Job(0, Queued) == w1.ix.jobs[0];
  }

  lemma {:induction false} FirstJobEnds()
    ensures var w := AtWork(Indexing(0, ["f"], OneTracked(), map[]), {}, map[]);
      Next(Next(Next(Next(Next(w, ToolEnds(true)), Promote(InPlace)), Compare), RecordResult), Finish(0))
      == RecordedWorld()
  {
    OneSnapshot(["f"]);
    var d := OneTracked();
    var w := AtWork(Indexing(0, ["f"], d, map[]), {}, map[]);
    assert Next(w, ToolEnds(true)) == w.(worker := Indexed(0, ["f"], d, map[]));
    var w3 := w.(worker := Compared(0, ["f"], d, d));
    assert Next(Next(Next(w, ToolEnds(true)), Promote(InPlace)), Compare) == w3;
    FirstJobRecorded();
  }

  lemma {:induction false} FirstJobRecorded()
    ensures var d := OneTracked();
      Next(Next(AtWork(Compared(0, ["f"], d, d), {}, map[]), RecordResult), Finish(0)) == RecordedWorld()
  {
    OneSnapshot(["f"]);
    var d := OneTracked();
    var w3, w4 := AtWork(Compared(0, ["f"], d, d), {}, map[]), AtWork(Finishing(0), {["f"]}, map[["f"] := d]);
    assert Record(w3.ix, 0, ["f"], d, d) == w4.ix;
    assert Next(w3, RecordResult) == w4;
    assert Complete(w4.ix, 0, 0) == RecordedIndexer();
  }

  /** A root job starts after the first job is recorded. */
  lemma {:induction false} SecondJobStarts(w0: World)
    requires w0.ix == RecordedIndexer() && w0.nextId == 1 && w0.worker.Idle?
    ensures var w := Next(Next(w0, SubmitJob([], false, 0)), Start(1));
      && w.worker == Indexing(1, [], SnapshotOf(w0.disk, []), map[]) && w.nextId == 2
      && w.ix.snapshots == map[["f"] := OneTracked()] && w.ix.dirty == {} && |w.ix.jobs| == 2
      && w == w0.(ix := w.ix, worker := w.worker, nextId := 2, edited := {})
  {
    var r := RecordedIndexer();
    assert CompletedIds(r.jobs) == [0] by {
      assert r.jobs[1..] == [];
    }
    PruneNothing(r, 0);
    assert [] !in r.snapshots;
    var w1 := Next(w0, SubmitJob([], false, 0));
    assert w1.ix.jobs == [Job(0, Done), Job(1, Queued)] && PathOf(w1.ix, 1) == [];
    assert Job(1, Queued) == w1.ix.jobs[1];
    assert SetState(w1.ix.jobs, 1, Running) == [Job(0, Done), Job(1, Running)] by {
      assert w1.ix.jobs[1..] == [Job(1, Queued)];
    }
  }

  /** Pruning keeps one job that completed now. */
  lemma {:induction false} PruneNothing(ix: Indexer, now: int)
    requires CompletedIds(ix.jobs) == [0] && |ix.jobs| < MAX_RETAINED_JOBS
             && !ExpiredJob(ix, 0, now - JOB_RETENTION_SECONDS)
    ensures Prune(ix, 1, now) == ix
  {
    var limit, cutoff, completed := MAX_RETAINED_JOBS - 1, now - JOB_RETENTION_SECONDS, CompletedIds(ix.jobs);
    assert completed[1..] == [];
    assert PruneEach(ix, completed[1..], limit, cutoff) == ix;
    assert PruneEach(ix, completed, limit, cutoff) == ix;
  }

  /** The recorded file is skipped in a world whose disk is as recorded, whatever the graph. */
  lemma {:induction false} RecordedIsSkipped(w: World)
    requires w.disk == OneTracked() && w.graph == map[] && |w.ix.jobs| == 2
    requires ["f"] in w.ix.snapshots && w.ix.snapshots[["f"]] == OneTracked() && w.ix.dirty == {}
    ensures Skips(w, ["f"], false, 0) && !UpToDate(w, ["f"])
  {
    OneSnapshot(["f"]);
    FewPending(w.ix.jobs);
    PruneEachKeepsRecords(w.ix, CompletedIds(w.ix.jobs), MAX_RETAINED_JOBS - 1, 0 - JOB_RETENTION_SECONDS);
    assert ["f"] in w.disk;
  }

  lemma {:induction false} MidwayWorld()
    ensures var w := Run(OneTracked(), OneTracked(), MidwayEvents());
      && w.disk == OneTracked() && w.graph == map[] && |w.ix.jobs| == 2 && w.worker.Detached?
      && w.ix.snapshots == map[["f"] := OneTracked()] && w.ix.dirty == {} && w.returned == {}
  {
    var d, e7 := OneTracked(), RecordEvents();
    var e8 := e7 + [SubmitJob([], false, 0)];
    var e9 := e8 + [Start(1)];
    var e10 := e9 + [ToolReads(["f"])];
    var e11 := e10 + [ToolEnds(true)];
    FirstJob();
    RunStep(d, d, e7, SubmitJob([], false, 0));
    RunStep(d, d, e8, Start(1));
    RunStep(d, d, e9, ToolReads(["f"]));
    RunStep(d, d, e10, ToolEnds(true));
    RunStep(d, d, e11, Detach);
    assert MidwayEvents() == e11 + [Detach];
    SecondJobStarts(RecordedWorld());
    OneSnapshot([]);
    MidwaySteps(Run(d, d, e9));
  }

  lemma {:induction false} MidwaySteps(w: World)
    requires w.worker == Indexing(1, [], OneTracked(), map[]) && w.disk == OneTracked()
    ensures var w' := Next(Next(Next(w, ToolReads(["f"])), ToolEnds(true)), Detach);
      && w'.ix == w.ix && w'.disk == w.disk && w'.graph == map[] && w'.worker.Detached? && w'.returned == w.returned
  {
    assert w.worker.target <= ["f"];
    var w1 := Next(w, ToolReads(["f"]));
    assert w1 == w.(worker := Indexing(1, [], OneTracked(), map[["f"] := AnyStamp()]));
    assert Holds(map[["f"] := AnyStamp()], OneTracked(), w.edited);
    assert Next(w1, ToolEnds(true)).worker.Indexed?;
  }

  /** Between the two renames of a promotion the file is skipped although no graph is in place. */
  lemma {:induction false} MidwayIsSkipped()
    ensures !SkipSound(OneTracked(), OneTracked(), MidwayEvents(), ["f"], false, 0)
    ensures NoLoss(MidwayEvents()) && NoReturns(OneTracked(), OneTracked(), MidwayEvents(), [])
  {
    MidwayWorld();
    RecordedIsSkipped(Run(OneTracked(), OneTracked(), MidwayEvents()));
    NoReturnsIff(OneTracked(), OneTracked(), MidwayEvents(), []);
  }

  /** The lost graph leaves the record of the file behind, and the file is skipped although no graph holds it. */
  lemma {:induction false} LostGraphIsSkipped()
    ensures !SkipSound(OneTracked(), OneTracked(), LossEvents(), ["f"], false, 0)
    ensures NoReturns(OneTracked(), OneTracked(), LossEvents(), [])
    ensures !Run(OneTracked(), OneTracked(), LossEvents()).worker.Detached?
  {
    MidwayWorld();
    RunStep(OneTracked(), OneTracked(), MidwayEvents(), Promote(Lost));
    RecordedIsSkipped(Run(OneTracked(), OneTracked(), LossEvents()));
    NoReturnsIff(OneTracked(), OneTracked(), LossEvents(), []);
  }

  lemma {:induction false} GoneWorld()
    ensures var w := Next(Next(Next(RecordedWorld(), Edit(["f"], None)), SubmitJob([], false, 0)), Start(1));
      && w.worker == Indexing(1, [], map[], map[]) && w.disk == map[] && |w.ix.jobs| == 2
      && w.ix.snapshots == map[["f"] := OneTracked()] && w.ix.dirty == {} && w.hist == map[["f"] := {AnyStamp()}]
  {
    var w := Next(RecordedWorld(), Edit(["f"], None));
    assert w.disk == map[] && SnapshotOf(w.disk, []) == map[];
    SecondJobStarts(w);
  }

  /** The second job finds nothing and records that; the file and its record stay as they were. */
  lemma {:induction false} SecondJobFindsNothing(w: World)
    requires w.worker == Indexing(1, [], map[], map[]) && w.disk == map[] && w.ix.dirty == {}
    ensures var w' := Next(Next(Next(Next(Next(w, ToolEnds(true)), Detach), Promote(InPlace)), Compare), RecordResult);
      && w'.worker == Finishing(1) && w'.disk == map[] && w'.graph == map[] && w'.hist == w.hist
      && w'.ix.jobs == w.ix.jobs && w'.ix.snapshots == w.ix.snapshots[[] := map[]] && w'.ix.dirty == {}
  {
    var w1 := Next(w, ToolEnds(true));
    assert w1 == w.(worker := Indexed(1, [], map[], map[]));
    var w3 := Next(Next(w1, Detach), Promote(InPlace));
    assert w3 == w.(graph := map[], worker := Promoted(1, [], map[]));
    assert SnapshotOf(w.disk, []) == map[];
    assert Next(w3, Compare) == w3.(worker := Compared(1, [], map[], map[]));
    assert Difference(map[], map[]) == {};
  }

  lemma {:induction false} GoneRun()
    ensures Run(OneTracked(), OneTracked(), GoneEvents()) ==
            Next(Next(Next(RecordedWorld(), Edit(["f"], None)), SubmitJob([], false, 0)), Start(1))
  {
    var d, e7 := OneTracked(), RecordEvents();
    var e8 := e7 + [Edit(["f"], None)];
    var e9 := e8 + [SubmitJob([], false, 0)];
    FirstJob();
    RunStep(d, d, e7, Edit(["f"], None));
    RunStep(d, d, e8, SubmitJob([], false, 0));
    RunStep(d, d, e9, Start(1));
    assert GoneEvents() == e9 + [Start(1)];
  }

  lemma {:induction false} NothingLost()
    ensures NoLoss(RecordEvents()) && NoLoss(MidwayEvents()) && NoLoss(GoneEvents()) && NoLoss(RevertEvents())
  {
  }

  /** A file that was gone while its surroundings were indexed and is back as it was is skipped although the graph
      has dropped it. */
  lemma {:induction false} RevertedFileIsSkipped()
    ensures !SkipSound(OneTracked(), OneTracked(), RevertEvents(), ["f"], false, 0)
    ensures NoLoss(RevertEvents()) && !Run(OneTracked(), OneTracked(), RevertEvents()).worker.Detached?
  {
    GoneRun();
    GoneWorld();
    RevertTail(GoneEvents());
    NothingLost();
  }

  /** Two more steps of a run. */
  lemma {:induction false} TwoSteps(disk: Snapshot, graph: Graph, events: seq<Event>, a: Event, b: Event)
    ensures Run(disk, graph, events + [a, b]) == Next(Next(Run(disk, graph, events), a), b)
  {
    RunStep(disk, graph, events, a);
    RunStep(disk, graph, events + [a], b);
    assert events + [a, b] == events + [a] + [b];
  }

  lemma {:induction false} RevertTail(events: seq<Event>)
    requires var w := Run(OneTracked(), OneTracked(), events);
      && w.worker == Indexing(1, [], map[], map[]) && w.disk == map[] && |w.ix.jobs| == 2
      && w.ix.snapshots == map[["f"] := OneTracked()] && w.ix.dirty == {} && w.hist == map[["f"] := {AnyStamp()}]
    ensures var all := events + [ToolEnds(true), Detach] + [Promote(InPlace), Compare]
                       + [RecordResult, Edit(["f"], Some(AnyStamp()))];
      !SkipSound(OneTracked(), OneTracked(), all, ["f"], false, 0)
      && !Run(OneTracked(), OneTracked(), all).worker.Detached?
  {
    var d, a := OneTracked(), events + [ToolEnds(true), Detach];
    var b := a + [Promote(InPlace), Compare];
    TwoSteps(d, d, events, ToolEnds(true), Detach);
    TwoSteps(d, d, a, Promote(InPlace), Compare);
    TwoSteps(d, d, b, RecordResult, Edit(["f"], Some(AnyStamp())));
    SecondJobFindsNothing(Run(d, d, events));
    BackIsSkipped(Next(Run(d, d, b), RecordResult));
  }

  lemma {:induction false} BackIsSkipped(w: World)
    requires w.worker == Finishing(1) && w.disk == map[] && w.graph == map[] && |w.ix.jobs| == 2
    requires w.ix.snapshots == map[["f"] := OneTracked()][[] := map[]] && w.ix.dirty == {}
    ensures var w' := Next(w, Edit(["f"], Some(AnyStamp())));
      Skips(w', ["f"], false, 0) && !UpToDate(w', ["f"]) && w'.worker == Finishing(1)
  {
    var w' := Next(w, Edit(["f"], Some(AnyStamp())));
    assert w'.disk == OneTracked();
    RecordedIsSkipped(w');
  }

  lemma {:induction false} FewPending(jobs: seq<Job>)
    ensures Pending(jobs) <= |jobs|
  {
    if jobs != [] {
      FewPending(jobs[1..]);
    }
  }

  lemma {:induction false} NoReturnsBelow(disk: Snapshot, graph: Graph, events: seq<Event>, target: Path)
    requires NoReturns(disk, graph, events, [])
    ensures NoReturns(disk, graph, events, target)
  {
    if events != [] {
      NoReturnsBelow(disk, graph, events[..|events| - 1], target);
      assert events[|events| - 1].Edit? ==> [] <= events[|events| - 1].p;
    }
  }

  lemma {:induction false} PermittedSkipIsSound(
    d: Permits, disk: Snapshot, graph: Graph, events: seq<Event>, target: Path, force: bool, now: int)
    requires d == Permits(false, false, false) && Permitted(d, disk, graph, events)
    ensures SkipSound(disk, graph, events, target, force, now)
  {
    if Skips(Run(disk, graph, events), target, force, now) {
      AllStand(disk, graph, events);
      SkippedIsUnchanged(disk, graph, events, target, force, now);
      NoReturnsBelow(disk, graph, events, target);
      SkippingIsSound(disk, graph, events, target, force, now);
    }
  }

  lemma {:induction false} Refutes(d: Permits, events: seq<Event>)
    requires Permitted(d, OneTracked(), OneTracked(), events)
    requires !SkipSound(OneTracked(), OneTracked(), events, ["f"], false, 0)
    ensures !AlwaysSkipsSoundly(d)
  {
  }

  /** Skipping is sound in every run exactly as long as no promotion loses the graph, no edit gives a file back an
      earlier stamp, and no submit falls between the two renames of a promotion. */
  lemma {:induction false} AlwaysSkipsSoundlyIff(d: Permits)
    ensures AlwaysSkipsSoundly(d) <==> !d.losses && !d.reverts && !d.midway
  {
    if d.midway {
      MidwayIsSkipped();
      Refutes(d, MidwayEvents());
    } else if d.losses {
      LostGraphIsSkipped();
      Refutes(d, LossEvents());
    } else if d.reverts {
      RevertedFileIsSkipped();
      Refutes(d, RevertEvents());
    } else {
      forall disk, graph, events, target, force, now | Permitted(d, disk, graph, events)
        ensures SkipSound(disk, graph, events, target, force, now)
      {
        PermittedSkipIsSound(d, disk, graph, events, target, force, now);
      }
    }
  }
}
