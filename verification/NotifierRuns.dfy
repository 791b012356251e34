/** Runs of edits, directory moves, announced edits and polls, and what a poll re-establishes. */
module NotifierRuns {
  import opened Options
  import opened SourceTree
  import opened ChangeNotifier

  /** What runs may hold besides edits and polls: directory moves; announcements of edits that are the only change in
      their chain of directories and whose stamp is settled; hasty announcements, of unsettled edits; and crowded
      ones, of edits that are not the only change. */
  datatype Permits = Permits(moves: bool, announcements: bool, hasty: bool, crowded: bool)

  /** The file system stamps change times in steps of `tick` clock units. */
  datatype Env = Env(settings: Settings, rules: Rules, tick: int, permits: Permits)

  function Stamp(t: int, tick: int): int
    requires tick >= 1
  {
    t - t % tick
  }

  lemma {:induction false} StampMonotone(t: int, t': int, tick: int)
    requires tick >= 1 && t <= t'
    ensures Stamp(t, tick) <= Stamp(t', tick) && t - tick < Stamp(t, tick) <= t
  {
    var k, k' := t / tick, t' / tick;
    assert Stamp(t, tick) == k * tick && Stamp(t', tick) == k' * tick;
    if k' < k {
      TimesMonotone(k' + 1, k, tick);
    } else {
      TimesMonotone(k, k', tick);
    }
  }

  lemma {:induction false} TimesMonotone(a: int, b: int, c: int)
    requires a <= b && 0 <= c
    ensures a * c <= b * c
  {
  }

  /** `base` is the tree whose listings the notifier last recorded, `view` what the language server last read. */
  datatype World = World(
    fs: FileSystem, latest: int, files: Option<map<Path, FilePrint>>, dirs: Option<map<Path, DirPrint>>,
    base: FileSystem, view: map<Path, string>)

  function Start(fs: FileSystem, latest: int): World {
    World(fs, latest, None, None, map[], map[])
  }

  /** `clock` and `now` are the clock readings of a poll or announcement, none after `until`. */
  datatype Event =
    | Edits(t: int, fs: FileSystem)                          // any stamped change of the tree at time t
    | Moves(t: int, src: Path, dst: Path)                    // a directory renamed at time t
    | Announces(p: Path, clock: Path -> int, until: int)     // the server tells the notifier of its edit of `p`
    | Polls(clock: Path -> int, now: int, until: int)

  predicate Untouched(fs: FileSystem, fs': FileSystem, p: Path) {
    p in fs && p in fs' && fs[p] == fs'[p] && Listing(fs, p) == Listing(fs', p)
  }

  /** An edit at time `t` may do anything to any set of entries, forged modification times included, except
      escape the stamp: whatever it touches gets the change time of `t`. */
  ghost predicate EditOk(fs: FileSystem, fs': FileSystem, t: int, tick: int)
    requires tick >= 1
  {
    && WellFormed(fs')
    && forall p :: p in fs' ==> Untouched(fs, fs', p) || fs'[p].ctime == Stamp(t, tick)
  }

  predicate MoveOk(fs: FileSystem, src: Path, dst: Path) {
    && src != [] && src in fs && fs[src].Dir?
    && dst != [] && dst !in fs && Parent(dst) in fs && fs[Parent(dst)].Dir?
    && !(src <= dst)
  }

  /** Where a path of the tree after the move was before. */
  function Origin(src: Path, dst: Path, p: Path): Path {
    if dst <= p then src + p[|dst|..] else p
  }

  function Destinations(fs: FileSystem, src: Path, dst: Path): set<Path> {
    (set p | p in fs && !(src <= p)) + (set p | p in fs && src <= p :: dst + p[|src|..])
  }

  /** A rename stamps the directory itself and the two directories that hold its entry, nothing below it. */
  function MovedNode(node: Node, src: Path, dst: Path, p: Path, stamp: int): Node {
    if p == dst then Dir(node.mtime, stamp)
    else if IsChild(p, src) || IsChild(p, dst) then Dir(stamp, stamp)
    else node
  }

  function Moved(fs: FileSystem, src: Path, dst: Path, stamp: int): FileSystem {
    map p | p in Destinations(fs, src, dst) && Origin(src, dst, p) in fs
          :: MovedNode(fs[Origin(src, dst, p)], src, dst, p, stamp)
  }

  lemma {:induction false} NothingBelow(fs: FileSystem, d: Path, p: Path)
    requires WellFormed(fs) && d !in fs && d <= p
    ensures p !in fs
    decreases |p|
  {
    if |d| < |p| {
      NothingBelow(fs, d, Parent(p));
    } else {
      assert p == d;
    }
  }

  /** The entries after a move: those that were below `src`, now below `dst`, and those that were neither. */
  lemma {:induction false} MovedEntry(fs: FileSystem, src: Path, dst: Path, stamp: int, p: Path)
    requires WellFormed(fs) && MoveOk(fs, src, dst)
    ensures var fs' := Moved(fs, src, dst, stamp);
      && (p in fs' <==> Origin(src, dst, p) in fs && (dst <= p || !(src <= p)))
      && (p in fs' ==> fs'[p] == MovedNode(fs[Origin(src, dst, p)], src, dst, p, stamp))
  {
    var q := Origin(src, dst, p);
    if dst <= p {
      assert p == dst + q[|src|..];
      NothingBelow(fs, dst, p);
    }
  }

  lemma {:induction false} MovedWellFormed(fs: FileSystem, src: Path, dst: Path, stamp: int)
    requires WellFormed(fs) && MoveOk(fs, src, dst)
    ensures WellFormed(Moved(fs, src, dst, stamp))
  {
    var fs' := Moved(fs, src, dst, stamp);
    MovedEntry(fs, src, dst, stamp, []);
    forall p | p in fs' && p != [] ensures Parent(p) in fs' && fs'[Parent(p)].Dir? {
      MovedEntry(fs, src, dst, stamp, p);
      MovedEntry(fs, src, dst, stamp, Parent(p));
      MovedParent(src, dst, p);
    }
  }

  lemma {:induction false} MovedParent(src: Path, dst: Path, p: Path)
    requires p != [] && src != [] && dst != []
    ensures dst <= p && p != dst ==> dst <= Parent(p) && Origin(src, dst, Parent(p)) == Parent(Origin(src, dst, p))
    ensures !(dst <= p) ==> !(dst <= Parent(p))
    ensures !(src <= p) ==> !(src <= Parent(p))
  {
    if dst <= p && p != dst {
      assert Parent(p)[..|dst|] == p[..|dst|];
      assert (src + p[|dst|..])[..|src + p[|dst|..]| - 1] == src + Parent(p)[|dst|..];
    }
  }

  /** The tree whose listings are recorded once the edit of `p` is known. */
  function Rebased(w: World, p: Path): FileSystem {
    if IsFile(w.fs, p) then w.base[p := w.fs[p]] else w.base - {p}
  }

  /** The edit of `p` is the only listing change in the chain of watched directories above it, and `p`, if it
      exists now, is a file that discovery would report. */
  ghost predicate OnlyChange(env: Env, w: World, p: Path)
    requires w.dirs.Some?
  {
    && p != []
    && (p in w.base ==> !w.base[p].Dir?)
    && (IsFile(w.fs, p) ==> Wanted(env.rules, p, w.fs[p]))
    && (forall k :: 0 <= k < |p| ==>
          && p[..k] in w.dirs.value && p[..k] in w.fs && w.fs[p[..k]].Dir?
          && Listing(w.fs, p[..k]) == Listing(Rebased(w, p), p[..k]))
  }

  /** The notifier and the server's view after an edit of `p` has been announced. */
  function Known(env: Env, w: World, p: Path, clock: Path -> int, until: int): World
    requires w.files.Some? && w.dirs.Some? && p != []
  {
    if KnownChange(w.fs, w.files.value, p).None? then w.(latest := until)
    else
      w.(latest := until,
         files := Some(KnownPrints(w.fs, w.files.value, p)),
         dirs := Some(RefreshChain(env.settings, w.fs, w.dirs.value, Parent(p), clock)),
         base := Rebased(w, p),
         view := if IsFile(w.fs, p) then w.view[p := w.fs[p].content] else w.view - {p})
  }

  /** A stamp older than every later one, or nothing that could change without changing the size. */
  predicate Settled(env: Env, w: World, p: Path, until: int)
    requires env.tick >= 1
  {
    IsFile(w.fs, p) ==> w.fs[p].ctime < Stamp(until, env.tick) || w.fs[p].content == ""
  }

  ghost predicate AnnounceOk(env: Env, w: World, p: Path, until: int)
    requires env.tick >= 1
  {
    && w.files.Some? && w.dirs.Some? && p != [] && env.permits.announcements
    && (env.permits.crowded || OnlyChange(env, w, p))
    && (env.permits.hasty || Settled(env, w, p, until))
  }

  /** The clock never goes back: nothing happens before `latest`. */
  ghost predicate Enabled(env: Env, w: World, e: Event)
    requires env.tick >= 1
  {
    match e
    case Edits(t, fs') => w.latest <= t && EditOk(w.fs, fs', t, env.tick)
    case Moves(t, src, dst) => w.latest <= t && env.permits.moves && MoveOk(w.fs, src, dst)
    case Announces(p, clock, until) =>
      w.latest <= until && (forall d :: clock(d) <= until) && AnnounceOk(env, w, p, until)
    case Polls(clock, now, until) => w.latest <= until && now <= until && forall d :: clock(d) <= until
  }

  function Content(fs: FileSystem, p: Path): string {
    if IsFile(fs, p) then fs[p].content else ""
  }

  /** The language server drops deleted files and reads created and changed ones. */
  function Delivered(view: map<Path, string>, fs: FileSystem, events: set<(Path, Change)>): map<Path, string> {
    map p | p in view.Keys + (set e | e in events :: e.0) && (p, Deleted) !in events
          :: if (p, Created) in events || (p, Changed) in events then Content(fs, p)
             else if p in view then view[p] else ""
  }

  function EventSet(s: Settings, fs: FileSystem, sources: set<Path>, files: map<Path, FilePrint>, now: int):
    set<(Path, Change)>
  {
    set p, c | p in sources + files.Keys && c in {Created, Changed, Deleted}
               && Reported(s, fs, sources, files, now, p, c) :: (p, c)
  }

  ghost function Discovers(env: Env, w: World, clock: Path -> int): bool {
    w.files.None? || w.dirs.None? || !TreeStable(env.settings, w.fs, w.dirs.value, clock)
  }

  ghost function PolledSources(env: Env, w: World, clock: Path -> int): set<Path> {
    if Discovers(env, w, clock) then Sources(w.fs, env.rules, []) else w.files.value.Keys
  }

  ghost function PollEvents(env: Env, w: World, clock: Path -> int, now: int): set<(Path, Change)> {
    if w.files.None? then {} else EventSet(env.settings, w.fs, PolledSources(env, w, clock), w.files.value, now)
  }

  /** The first poll only records the baseline, against which the server has just read the files. */
  ghost function Poll(env: Env, w: World, clock: Path -> int, now: int, until: int): World {
    var sources := PolledSources(env, w, clock);
    var previous := if w.files.None? then map[] else w.files.value;
    World(
      w.fs, until,
      Some(CurrentPrints(env.settings, w.fs, sources, previous, now)),
      Some(if Discovers(env, w, clock) then FreshDirs(env.settings, w.fs, VisitedDirs(w.fs, env.rules, []), clock)
           else Refreshed(env.settings, w.fs, w.dirs.value, clock)),
      w.fs,
      if w.files.None? then (map p | p in sources :: Content(w.fs, p))
      else Delivered(w.view, w.fs, PollEvents(env, w, clock, now)))
  }

  ghost function Next(env: Env, w: World, e: Event): World
    requires env.tick >= 1
  {
    if !Enabled(env, w, e) then w
    else
      match e
      case Edits(t, fs') => w.(fs := fs', latest := t)
      case Moves(t, src, dst) => w.(fs := Moved(w.fs, src, dst, Stamp(t, env.tick)), latest := t)
      case Announces(p, clock, until) => Known(env, w, p, clock, until)
      case Polls(clock, now, until) => Poll(env, w, clock, now, until)
  }

  ghost function Run(env: Env, w: World, events: seq<Event>): World
    requires env.tick >= 1
  {
    if events == [] then w else Next(env, Run(env, w, events[..|events| - 1]), events[|events| - 1])
  }

  // ---- the invariant ----

  /** While the file still looks like its fingerprint, the server's copy is right. */
  predicate Good(fs: FileSystem, p: Path, mark: FilePrint, seen: string) {
    (&& IsFile(fs, p) && fs[p].mtime == mark.mtime && fs[p].ctime == mark.ctime && |fs[p].content| == mark.size
     && (mark.digest.Some? ==> mark.digest == Some(fs[p].content)))
    ==> fs[p].content == seen
  }

  /** No edit from now on can slip past the fingerprint. */
  predicate Lasting(mark: FilePrint, seen: string, latest: int, tick: int)
    requires tick >= 1
  {
    mark.digest == Some(seen) || mark.ctime < Stamp(latest, tick) || (mark.size == 0 && seen == "")
  }

  predicate GoodDir(fs: FileSystem, d: Path, mark: DirPrint, seen: Entries) {
    (&& d in fs && fs[d].Dir? && fs[d].mtime == mark.mtime && fs[d].ctime == mark.ctime
     && (mark.digest.Some? ==> mark.digest == Some(Listing(fs, d))))
    ==> Listing(fs, d) == seen
  }

  predicate LastingDir(mark: DirPrint, seen: Entries, latest: int, tick: int)
    requires tick >= 1
  {
    mark.digest == Some(seen) || mark.ctime < Stamp(latest, tick)
  }

  ghost predicate Inv(env: Env, w: World)
    requires env.tick >= 1
  {
    && WellFormed(w.fs) && WellFormed(w.base)
    && w.files.Some? && w.dirs.Some?
    && w.dirs.value.Keys == VisitedDirs(w.base, env.rules, [])
    && w.files.value.Keys == w.view.Keys == Sources(w.base, env.rules, [])
    && (forall p :: p in w.view ==>
          Good(w.fs, p, w.files.value[p], w.view[p]) && Lasting(w.files.value[p], w.view[p], w.latest, env.tick))
    && (forall d :: d in w.dirs.value ==>
          && GoodDir(w.fs, d, w.dirs.value[d], Listing(w.base, d))
          && LastingDir(w.dirs.value[d], Listing(w.base, d), w.latest, env.tick))
  }

  lemma {:induction false} EditInv(env: Env, w: World, t: int, fs': FileSystem)
    requires env.tick >= 1 && Inv(env, w) && w.latest <= t && EditOk(w.fs, fs', t, env.tick)
    ensures Inv(env, w.(fs := fs', latest := t))
  {
    StampMonotone(w.latest, t, env.tick);
    forall p | p in w.view ensures Good(fs', p, w.files.value[p], w.view[p]) {
      assert Good(w.fs, p, w.files.value[p], w.view[p]);
      assert Lasting(w.files.value[p], w.view[p], w.latest, env.tick);
    }
    forall d | d in w.dirs.value ensures GoodDir(fs', d, w.dirs.value[d], Listing(w.base, d)) {
      assert GoodDir(w.fs, d, w.dirs.value[d], Listing(w.base, d));
      assert LastingDir(w.dirs.value[d], Listing(w.base, d), w.latest, env.tick);
    }
  }

  /** Everything kept carries a digest, so no fingerprint can be taken for another's. */
  ghost predicate Hashed(w: World) {
    && w.files.Some? && w.dirs.Some? && w.files.value.Keys == w.view.Keys
    && (forall p :: p in w.view ==> w.files.value[p].digest == Some(w.view[p]))
    && (forall d :: d in w.dirs.value ==> w.dirs.value[d].digest == Some(Listing(w.base, d)))
  }

  /** With digests everywhere nothing slips past, stamped or not. */
  lemma {:induction false} HashedInv(env: Env, w: World, t: int, fs': FileSystem)
    requires env.tick >= 1 && Inv(env, w) && Hashed(w) && WellFormed(fs')
    ensures Inv(env, w.(fs := fs', latest := t)) && Hashed(w.(fs := fs', latest := t))
  {
    forall p | p in w.view ensures Good(fs', p, w.files.value[p], w.view[p]) {
      assert w.files.value[p].digest == Some(w.view[p]);
    }
    forall d | d in w.dirs.value ensures GoodDir(fs', d, w.dirs.value[d], Listing(w.base, d)) {
      assert w.dirs.value[d].digest == Some(Listing(w.base, d));
    }
  }

  /** An unchanged fingerprint of every watched directory means unchanged listings, from the root down. */
  lemma {:induction false} StableListing(env: Env, w: World, clock: Path -> int, d: Path)
    requires env.tick >= 1 && Inv(env, w) && TreeStable(env.settings, w.fs, w.dirs.value, clock)
    requires Visited(w.base, env.rules, [], d)
    ensures d in w.fs && w.fs[d].Dir? && Listing(w.base, d) == Listing(w.fs, d)
    decreases |d|
  {
    if d != [] {
      StableListing(env, w, clock, Parent(d));
      SameEntry(w.base, w.fs, d);
    }
    assert d in w.dirs.value;
    assert DirStable(env.settings, w.fs, d, w.dirs.value[d], clock(d));
    assert GoodDir(w.fs, d, w.dirs.value[d], Listing(w.base, d));
  }

  /** The fast path finds what a full rescan would find. */
  lemma {:induction false} FastPathRefinesRescan(env: Env, w: World, clock: Path -> int)
    requires env.tick >= 1 && Inv(env, w) && !Discovers(env, w, clock)
    ensures w.files.value.Keys == Sources(w.fs, env.rules, [])
    ensures w.dirs.value.Keys == VisitedDirs(w.fs, env.rules, [])
  {
    forall d | d in VisitedDirs(w.base, env.rules, []) ensures Listing(w.base, d) == Listing(w.fs, d) {
      StableListing(env, w, clock, d);
    }
    ListingsDetermineScan(w.base, w.fs, env.rules);
  }

  predicate Covers(env: Env) {
    env.settings.strict || env.tick <= env.settings.window + 1
  }

  /** A fingerprint kept without a digest is older than any later stamp. */
  lemma {:induction false} OldEnough(env: Env, node: Node, clock: int, until: int)
    requires env.tick >= 1 && Covers(env) && !env.settings.strict && clock <= until
    requires !Recent(env.settings, node, clock)
    ensures node.ctime < Stamp(until, env.tick)
  {
    StampMonotone(until, until, env.tick);
  }

  lemma {:induction false} PolledDirs(env: Env, w: World, clock: Path -> int, now: int, until: int)
    requires env.tick >= 1 && Covers(env) && WellFormed(w.fs) && (w.files.Some? ==> Inv(env, w))
    requires forall p :: clock(p) <= until
    ensures var w' := Poll(env, w, clock, now, until);
      && w'.dirs.value.Keys == VisitedDirs(w.fs, env.rules, [])
      && forall d :: d in w'.dirs.value ==>
           && GoodDir(w.fs, d, w'.dirs.value[d], Listing(w.fs, d))
           && LastingDir(w'.dirs.value[d], Listing(w.fs, d), until, env.tick)
           && (env.settings.strict ==> w'.dirs.value[d].digest == Some(Listing(w.fs, d)))
  {
    var w' := Poll(env, w, clock, now, until);
    forall d | Visited(w.fs, env.rules, [], d) ensures d in w.fs && w.fs[d].Dir? {
    }
    if !Discovers(env, w, clock) {
      FastPathRefinesRescan(env, w, clock);
    }
    forall d | d in w'.dirs.value
      ensures LastingDir(w'.dirs.value[d], Listing(w.fs, d), until, env.tick)
      ensures env.settings.strict ==> w'.dirs.value[d].digest == Some(Listing(w.fs, d))
    {
      assert Visited(w.fs, env.rules, [], d);
      if !env.settings.strict && !Recent(env.settings, w.fs[d], clock(d)) {
        OldEnough(env, w.fs[d], clock(d), until);
      }
    }
  }

  lemma {:induction false} MarkLasts(env: Env, fs: FileSystem, files: map<Path, FilePrint>, now: int, until: int,
                                     p: Path)
    requires env.tick >= 1 && Covers(env) && now <= until && IsFile(fs, p)
    ensures MarkAt(env.settings, fs, files, now, p).Some?
    ensures Lasting(MarkAt(env.settings, fs, files, now, p).value, Content(fs, p), until, env.tick)
    ensures env.settings.strict ==> MarkAt(env.settings, fs, files, now, p).value.digest == Some(Content(fs, p))
  {
    if !env.settings.strict && !Recent(env.settings, fs[p], now) {
      OldEnough(env, fs[p], now, until);
    }
  }

  lemma {:induction false} SourcesPolled(env: Env, w: World, clock: Path -> int)
    requires env.tick >= 1 && (w.files.Some? ==> Inv(env, w))
    ensures PolledSources(env, w, clock) == Sources(w.fs, env.rules, [])
  {
    if !Discovers(env, w, clock) {
      FastPathRefinesRescan(env, w, clock);
    }
  }

  lemma {:induction false} PolledFiles(env: Env, w: World, clock: Path -> int, now: int, until: int)
    requires env.tick >= 1 && Covers(env) && (w.files.Some? ==> Inv(env, w)) && now <= until
    ensures var w' := Poll(env, w, clock, now, until);
      && w'.files.value.Keys == Sources(w.fs, env.rules, [])
      && forall p :: p in w'.files.value ==>
           && Lasting(w'.files.value[p], Content(w.fs, p), until, env.tick)
           && (env.settings.strict ==> w'.files.value[p].digest == Some(Content(w.fs, p)))
  {
    SourcesPolled(env, w, clock);
    var previous := if w.files.None? then map[] else w.files.value;
    forall p | p in Sources(w.fs, env.rules, [])
      ensures MarkAt(env.settings, w.fs, previous, now, p).Some?
      ensures Lasting(MarkAt(env.settings, w.fs, previous, now, p).value, Content(w.fs, p), until, env.tick)
      ensures env.settings.strict ==>
                MarkAt(env.settings, w.fs, previous, now, p).value.digest == Some(Content(w.fs, p))
    {
      MarkLasts(env, w.fs, previous, now, until, p);
    }
  }

  // ---- the events of one poll ----

  predicate Names(events: set<(Path, Change)>, p: Path, c: Change) {
    (p, c) in events
  }

  lemma {:induction false} EventOfFile(s: Settings, fs: FileSystem, files: map<Path, FilePrint>, now: int, p: Path)
    requires IsFile(fs, p)
    ensures MarkAt(s, fs, files, now, p).Some?
    ensures EventAt(s, fs, files, now, p) == Some(Created) <==> p !in files
    ensures EventAt(s, fs, files, now, p) != Some(Deleted)
    ensures p in files && EventAt(s, fs, files, now, p).None? ==>
              && fs[p].mtime == files[p].mtime && fs[p].ctime == files[p].ctime && |fs[p].content| == files[p].size
              && (files[p].digest.Some? ==> files[p].digest == Some(fs[p].content))
  {
  }

  lemma {:induction false} EventNamed(env: Env, w: World, clock: Path -> int, now: int, p: Path, c: Change)
    requires env.tick >= 1 && Inv(env, w)
    ensures Names(PollEvents(env, w, clock, now), p, c) <==>
              Reported(env.settings, w.fs, Sources(w.fs, env.rules, []), w.files.value, now, p, c)
  {
    SourcesPolled(env, w, clock);
    assert c in {Created, Changed, Deleted};
  }

  /** Created and Deleted are exactly the set differences; Changed are exactly the tracked files that do not fit their
      fingerprints, every file whose content the server has wrong among them. */
  lemma {:induction false} EventsOfPoll(env: Env, w: World, clock: Path -> int, now: int, p: Path)
    requires env.tick >= 1 && Inv(env, w)
    ensures var ev := PollEvents(env, w, clock, now); var found := Sources(w.fs, env.rules, []);
      && (Names(ev, p, Created) <==> p in found && p !in w.view)
      && (Names(ev, p, Deleted) <==> p in w.view && p !in found)
      && (Names(ev, p, Changed) <==> p in found && p in w.view && !Fits(w.fs, w.files.value, p))
      && (p in found && p in w.view && w.fs[p].content != w.view[p] ==> Names(ev, p, Changed))
  {
    var s, found, files := env.settings, Sources(w.fs, env.rules, []), w.files.value;
    EventNamed(env, w, clock, now, p, Created);
    EventNamed(env, w, clock, now, p, Changed);
    EventNamed(env, w, clock, now, p, Deleted);
    if p in found {
      EventOfFile(s, w.fs, files, now, p);
      assert p in CurrentPrints(s, w.fs, found, files, now);
      if p in w.view {
        assert Good(w.fs, p, files[p], w.view[p]);
      }
    } else {
      assert p !in CurrentPrints(s, w.fs, found, files, now);
    }
  }

  lemma {:induction false} PollCurrent(env: Env, w: World, clock: Path -> int, now: int, until: int)
    requires env.tick >= 1 && WellFormed(w.fs) && (w.files.Some? ==> Inv(env, w))
    ensures Current(env, Poll(env, w, clock, now, until))
  {
    var w' := Poll(env, w, clock, now, until);
    var found := Sources(w.fs, env.rules, []);
    if w.files.Some? {
      var ev := PollEvents(env, w, clock, now);
      forall p
        ensures p in w'.view <==> p in found
        ensures p in w'.view ==> w'.view[p] == Content(w.fs, p)
      {
        EventsOfPoll(env, w, clock, now, p);
        if (exists e :: e in ev && e.0 == p) {
          var e :| e in ev && e.0 == p;
          assert e == (p, e.1) && Names(ev, p, e.1);
        }
        assert (p, Created) in ev ==> (p, Created).0 in (set e | e in ev :: e.0);
      }
    }
  }

  /** The server's view is exactly the discovered files with their contents. */
  ghost predicate Current(env: Env, w: World) {
    && w.view.Keys == Sources(w.fs, env.rules, [])
    && forall p :: p in w.view ==> w.view[p] == Content(w.fs, p)
  }

  lemma {:induction false} PollInv(env: Env, w: World, clock: Path -> int, now: int, until: int)
    requires env.tick >= 1 && Covers(env) && WellFormed(w.fs) && (w.files.Some? ==> Inv(env, w))
    requires now <= until && (forall p :: clock(p) <= until)
    ensures Inv(env, Poll(env, w, clock, now, until)) && Current(env, Poll(env, w, clock, now, until))
    ensures env.settings.strict ==> Hashed(Poll(env, w, clock, now, until))
  {
    PolledDirs(env, w, clock, now, until);
    PolledFiles(env, w, clock, now, until);
    PollCurrent(env, w, clock, now, until);
  }
}
