/** The code-graph indexer of one workspace: its job registry and its record of what was indexed. */
module CgcIndexer {
  import opened Options

  /** Paths relative to the workspace root, which is the empty path. */
  type Path = seq<string>

  datatype Stamp = Stamp(mtime: int, size: nat, digest: string)

  type Snapshot = map<Path, Stamp>

  /** Tracked files under a target, as they are on disk. */
  function SnapshotOf(disk: Snapshot, target: Path): Snapshot {
    map p | p in disk && target <= p :: disk[p]
  }

  datatype JobState = Queued | Running | Done

  datatype Job = Job(id: nat, state: JobState)

  datatype Note = NoNote | Skipped | Dirty

  datatype Meta = Meta(submittedAt: int, completedAt: Option<int>, note: Note, changed: set<Path>)

  datatype Indexer = Indexer(
    jobs: seq<Job>, paths: map<nat, Path>, meta: map<nat, Meta>, snapshots: map<Path, Snapshot>, dirty: set<Path>)

  const MAX_PENDING_JOBS := 8
  const MAX_RETAINED_JOBS := 64
  const JOB_RETENTION_SECONDS := 3600

  // ---- the registry ----

  function Pending(jobs: seq<Job>): nat {
    if jobs == [] then 0 else (if jobs[0].state.Done? then 0 else 1) + Pending(jobs[1..])
  }

  function CompletedIds(jobs: seq<Job>): seq<nat> {
    if jobs == [] then []
    else (if jobs[0].state.Done? then [jobs[0].id] else []) + CompletedIds(jobs[1..])
  }

  function WithoutJob(jobs: seq<Job>, id: nat): seq<Job> {
    if jobs == [] then [] else if jobs[0].id == id then jobs[1..] else [jobs[0]] + WithoutJob(jobs[1..], id)
  }

  function Forget(ix: Indexer, id: nat): Indexer {
    ix.(jobs := WithoutJob(ix.jobs, id), paths := ix.paths - {id}, meta := ix.meta - {id})
  }

  predicate ExpiredJob(ix: Indexer, id: nat, cutoff: int) {
    id in ix.meta && ix.meta[id].completedAt.Some? && ix.meta[id].completedAt.value <= cutoff
  }

  /** Goes through completed jobs, oldest first, dropping the expired ones and as many more as the limit asks. */
  function PruneEach(ix: Indexer, completed: seq<nat>, limit: int, cutoff: int): Indexer
    decreases |completed|
  {
    if completed == [] then ix
    else
      var drop := ExpiredJob(ix, completed[0], cutoff) || |ix.jobs| > limit;
      PruneEach(if drop then Forget(ix, completed[0]) else ix, completed[1..], limit, cutoff)
  }

  function Prune(ix: Indexer, reserve: int, now: int): Indexer {
    PruneEach(ix, CompletedIds(ix.jobs), MAX_RETAINED_JOBS - reserve, now - JOB_RETENTION_SECONDS)
  }

  // ---- submitting ----

  predicate Unchanged(ix: Indexer, disk: Snapshot, target: Path) {
    && (forall p :: p in ix.dirty ==> !(target <= p))
    && target in ix.snapshots && ix.snapshots[target] == SnapshotOf(disk, target)
  }

  predicate QueueFull(ix: Indexer) {
    Pending(ix.jobs) >= MAX_PENDING_JOBS
  }

  function Submit(ix: Indexer, id: nat, target: Path, force: bool, disk: Snapshot, now: int): Indexer {
    if QueueFull(ix) then ix
    else
      var pruned := Prune(ix, 1, now);
      var skip := !force && Unchanged(pruned, disk, target);
      pruned.(
        jobs := pruned.jobs + [Job(id, if skip then Done else Queued)],
        paths := pruned.paths[id := target],
        meta := pruned.meta[id := Meta(now, if skip then Some(now) else None, if skip then Skipped else NoNote, {})])
  }

  // ---- the worker's sections ----

  function SetState(jobs: seq<Job>, id: nat, state: JobState): seq<Job> {
    if jobs == [] then []
    else if jobs[0].id == id then [Job(id, state)] + jobs[1..]
    else [jobs[0]] + SetState(jobs[1..], id, state)
  }

  /** Paths that appeared, vanished or got another stamp between two snapshots. */
  function Difference(before: Snapshot, after: Snapshot): set<Path> {
    (before.Keys - after.Keys) + (after.Keys - before.Keys)
    + (set p | p in before && p in after && before[p] != after[p])
  }

  /** A successful run is recorded under the snapshot taken before it; what changed meanwhile is dirty. */
  function Record(ix: Indexer, id: nat, target: Path, before: Snapshot, after: Snapshot): Indexer {
    var changed := Difference(before, after);
    ix.(snapshots := ix.snapshots[target := before],
        dirty := ix.dirty - (before.Keys + after.Keys) + changed,
        meta := if id in ix.meta
                then
                  var note := if changed != {} then Dirty else ix.meta[id].note;
                  ix.meta[id := ix.meta[id].(note := note, changed := changed)]
                else ix.meta)
  }

  function Complete(ix: Indexer, id: nat, now: int): Indexer {
    ix.(jobs := SetState(ix.jobs, id, Done),
        meta := if id in ix.meta then ix.meta[id := ix.meta[id].(completedAt := Some(now))] else ix.meta)
  }

  function Empty(): Indexer {
    Indexer([], map[], map[], map[], {})
  }

  class WorkspaceCgcIndexer {
    var jobs: seq<Job>
    var paths: map<nat, Path>
    var meta: map<nat, Meta>
    var snapshots: map<Path, Snapshot>
    var dirty: set<Path>

    ghost function Value(): Indexer
      reads this
    {
      Indexer(jobs, paths, meta, snapshots, dirty)
    }

    constructor ()
      ensures Value() == Empty()
    {
      jobs, paths, meta, snapshots, dirty := [], map[], map[], map[], {};
    }

    method PruneJobs(reserve: int, now: int)
      modifies this`jobs, this`paths, this`meta
      ensures Value() == Prune(old(Value()), reserve, now)
    {
      var completed: seq<nat> := [];
      var i := 0;
      while i < |jobs|
        invariant 0 <= i <= |jobs| && Value() == old(Value())
        invariant completed + CompletedIds(jobs[i..]) == CompletedIds(jobs)
      {
        if jobs[i].state.Done? {
          completed := completed + [jobs[i].id];
        }
        i := i + 1;
      }
      assert jobs[i..] == [] && completed == CompletedIds(jobs) && completed[0..] == completed;
      var cutoff := now - JOB_RETENTION_SECONDS;
      var limit := MAX_RETAINED_JOBS - reserve;
      i := 0;
      while i < |completed|
        invariant 0 <= i <= |completed|
        invariant PruneEach(Value(), completed[i..], limit, cutoff) == Prune(old(Value()), reserve, now)
      {
        var id := completed[i];
        var expired := id in meta && meta[id].completedAt.Some? && meta[id].completedAt.value <= cutoff;
        if expired || |jobs| > limit {
          jobs, paths, meta := WithoutJob(jobs, id), paths - {id}, meta - {id};
        }
        i := i + 1;
      }
    }

    method CountPending() returns (n: nat)
      ensures n == Pending(jobs)
    {
      n := 0;
      var i := 0;
      while i < |jobs|
        invariant 0 <= i <= |jobs| && n + Pending(jobs[i..]) == Pending(jobs)
      {
        if !jobs[i].state.Done? {
          n := n + 1;
        }
        i := i + 1;
      }
    }

    method SubmitJob(id: nat, target: Path, force: bool, disk: Snapshot, now: int) returns (accepted: bool)
      modifies this
      ensures accepted == !QueueFull(old(Value()))
      ensures Value() == Submit(old(Value()), id, target, force, disk, now)
      ensures accepted && force ==> Job(id, Queued) in jobs && id in meta && meta[id].note == NoNote
    {
      var pending := CountPending();
      if pending >= MAX_PENDING_JOBS {
        return false;
      }
      PruneJobs(1, now);
      paths := paths[id := target];
      if !force && (forall p :: p in dirty ==> !(target <= p)) && target in snapshots
         && snapshots[target] == SnapshotOf(disk, target) {
        meta := meta[id := Meta(now, Some(now), Skipped, {})];
        jobs := jobs + [Job(id, Done)];
      } else {
        meta := meta[id := Meta(now, None, NoNote, {})];
        jobs := jobs + [Job(id, Queued)];
      }
      accepted := true;
    }

    method RecordRun(id: nat, target: Path, before: Snapshot, after: Snapshot)
      modifies this`snapshots, this`dirty, this`meta
      ensures Value() == Record(old(Value()), id, target, before, after)
    {
      var changed := (before.Keys - after.Keys) + (after.Keys - before.Keys);
      changed := changed + (set p | p in before && p in after && before[p] != after[p]);
      snapshots := snapshots[target := before];
      dirty := dirty - (before.Keys + after.Keys);
      dirty := dirty + changed;
      if id in meta {
        if changed != {} {
          meta := meta[id := meta[id].(note := Dirty)];
        }
        meta := meta[id := meta[id].(changed := changed)];
      }
    }

    method CompleteJob(id: nat, now: int)
      modifies this`jobs, this`meta
      ensures Value() == Complete(old(Value()), id, now)
    {
      if id in meta {
        meta := meta[id := meta[id].(completedAt := Some(now))];
      }
      jobs := SetState(jobs, id, Done);
    }
  }
}
