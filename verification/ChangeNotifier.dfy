/** Detection of changed source files by fingerprints of files and directories. */
module ChangeNotifier {
  import opened Options
  import opened Sequences
  import opened SourceTree

  /** `strict` hashes everything on every poll; `window` is the hash window in clock units. */
  datatype Settings = Settings(strict: bool, window: nat)

  type Entries = set<(string, Kind)>

  /** A digest stands for the bytes it was taken from. */
  datatype FilePrint = FilePrint(mtime: int, ctime: int, size: nat, digest: Option<string>)
  datatype DirPrint = DirPrint(mtime: int, ctime: int, digest: Option<Entries>)

  datatype Change = Created | Changed | Deleted

  function Size(node: Node): nat {
    if node.File? then |node.content| else 0
  }

  function Newest(node: Node): int {
    if node.mtime < node.ctime then node.ctime else node.mtime
  }

  predicate Recent(s: Settings, node: Node, clock: int) {
    clock - Newest(node) <= s.window
  }

  // ---- directories ----

  /** The fingerprint to keep and the entries seen; None when the directory cannot be read. */
  function DirectoryFingerprint(s: Settings, fs: FileSystem, d: Path, previous: Option<Entries>, clock: int):
    Option<(DirPrint, Option<Entries>)>
  {
    if d !in fs then None
    else
      var node := fs[d];
      var keep := s.strict || Recent(s, node, clock);
      if !keep && previous.None? then Some((DirPrint(node.mtime, node.ctime, None), None))
      else if !node.Dir? then None
      else
        var entries := Some(Listing(fs, d));
        Some((DirPrint(node.mtime, node.ctime, if keep then entries else None), entries))
  }

  predicate DirStable(s: Settings, fs: FileSystem, d: Path, mark: DirPrint, clock: int) {
    var now := DirectoryFingerprint(s, fs, d, mark.digest, clock);
    && now.Some?
    && now.value.0.mtime == mark.mtime && now.value.0.ctime == mark.ctime
    && (mark.digest.Some? ==> now.value.1 == mark.digest)
  }

  predicate TreeStable(s: Settings, fs: FileSystem, dirs: map<Path, DirPrint>, clock: Path -> int) {
    forall d :: d in dirs ==> DirStable(s, fs, d, dirs[d], clock(d))
  }

  function Refreshed(s: Settings, fs: FileSystem, dirs: map<Path, DirPrint>, clock: Path -> int): map<Path, DirPrint>
    requires TreeStable(s, fs, dirs, clock)
  {
    map d | d in dirs :: DirectoryFingerprint(s, fs, d, dirs[d].digest, clock(d)).value.0
  }

  function FreshDirs(s: Settings, fs: FileSystem, visited: set<Path>, clock: Path -> int): map<Path, DirPrint> {
    map d | d in visited && DirectoryFingerprint(s, fs, d, None, clock(d)).Some?
          :: DirectoryFingerprint(s, fs, d, None, clock(d)).value.0
  }

  // ---- files ----

  datatype Look = Gone | Unreadable | Seen(mark: FilePrint, observed: Option<string>)

  function LookAt(s: Settings, fs: FileSystem, p: Path, previous: Option<FilePrint>, now: int): Look {
    if p !in fs then Gone
    else
      var node := fs[p];
      var keep := s.strict || Recent(s, node, now);
      if !keep && (previous.None? || previous.value.digest.None?) then
        Seen(FilePrint(node.mtime, node.ctime, Size(node), None), None)
      else if !node.File? then Unreadable
      else Seen(FilePrint(node.mtime, node.ctime, Size(node), if keep then Some(node.content) else None),
                Some(node.content))
  }

  function Prior(files: map<Path, FilePrint>, p: Path): Option<FilePrint> {
    if p in files then Some(files[p]) else None
  }

  predicate SameMetadata(a: FilePrint, b: FilePrint) {
    a.mtime == b.mtime && a.ctime == b.ctime && a.size == b.size
  }

  /** The fingerprint fits the file. */
  predicate MarkOf(mark: FilePrint, node: Node) {
    && node.File? && mark.mtime == node.mtime && mark.ctime == node.ctime && mark.size == |node.content|
    && (mark.digest.Some? ==> mark.digest == Some(node.content))
  }

  /** The file is there and fits the fingerprint kept of it. */
  predicate Fits(fs: FileSystem, files: map<Path, FilePrint>, p: Path) {
    p in files && p in fs && MarkOf(files[p], fs[p])
  }

  function Kept(look: Look, previous: Option<FilePrint>): Option<FilePrint> {
    match look
    case Gone => None
    case Unreadable => previous
    case Seen(mark, _) => Some(mark)
  }

  function EventOf(look: Look, previous: Option<FilePrint>): Option<Change> {
    if !look.Seen? then None
    else if previous.None? then Some(Created)
    else if !SameMetadata(look.mark, previous.value)
            || (previous.value.digest.Some? && look.observed != previous.value.digest) then Some(Changed)
    else None
  }

  function MarkAt(s: Settings, fs: FileSystem, files: map<Path, FilePrint>, now: int, p: Path): Option<FilePrint> {
    Kept(LookAt(s, fs, p, Prior(files, p), now), Prior(files, p))
  }

  function EventAt(s: Settings, fs: FileSystem, files: map<Path, FilePrint>, now: int, p: Path): Option<Change> {
    EventOf(LookAt(s, fs, p, Prior(files, p), now), Prior(files, p))
  }

  function CurrentPrints(s: Settings, fs: FileSystem, sources: set<Path>, files: map<Path, FilePrint>, now: int):
    map<Path, FilePrint>
  {
    map p | p in sources && MarkAt(s, fs, files, now, p).Some? :: MarkAt(s, fs, files, now, p).value
  }

  predicate Reported(s: Settings, fs: FileSystem, sources: set<Path>, files: map<Path, FilePrint>, now: int, p: Path,
                     c: Change)
  {
    || (p in sources && EventAt(s, fs, files, now, p) == Some(c))
    || (p in files && p !in CurrentPrints(s, fs, sources, files, now) && c == Deleted)
  }

  /** The events of exactly these files, each file at most once. */
  ghost predicate EventsOf(s: Settings, fs: FileSystem, sources: seq<Path>, files: map<Path, FilePrint>, now: int,
                           events: seq<(Path, Change)>)
  {
    && (forall e :: e in events <==> e.0 in sources && EventAt(s, fs, files, now, e.0) == Some(e.1))
    && (forall i, j :: 0 <= i < j < |events| ==> events[i].0 != events[j].0)
  }

  lemma {:induction false} OneMoreEvent(s: Settings, fs: FileSystem, sources: seq<Path>, files: map<Path, FilePrint>,
                                        now: int, events: seq<(Path, Change)>, p: Path, event: Option<Change>)
    requires EventsOf(s, fs, sources, files, now, events) && p !in sources && event == EventAt(s, fs, files, now, p)
    ensures EventsOf(s, fs, sources + [p], files, now, if event.Some? then events + [(p, event.value)] else events)
  {
    assert forall i :: 0 <= i < |events| ==> events[i] in events && events[i].0 != p;
  }

  lemma {:induction false} OneMorePrint(s: Settings, fs: FileSystem, sources: seq<Path>, files: map<Path, FilePrint>,
                                        now: int, p: Path, mark: Option<FilePrint>)
    requires mark == MarkAt(s, fs, files, now, p)
    ensures CurrentPrints(s, fs, Elems(sources + [p]), files, now) ==
            if mark.Some? then CurrentPrints(s, fs, Elems(sources), files, now)[p := mark.value]
            else CurrentPrints(s, fs, Elems(sources), files, now)
  {
    assert Elems(sources + [p]) == Elems(sources) + {p};
  }

  // ---- an edit made through the server itself ----

  function RefreshDir(s: Settings, fs: FileSystem, dirs: map<Path, DirPrint>, d: Path, clock: Path -> int):
    map<Path, DirPrint>
  {
    var mark := DirectoryFingerprint(s, fs, d, if d in dirs then dirs[d].digest else None, clock(d));
    if mark.Some? then dirs[d := mark.value.0] else dirs - {d}
  }

  function RefreshChain(s: Settings, fs: FileSystem, dirs: map<Path, DirPrint>, d: Path, clock: Path -> int):
    map<Path, DirPrint>
    decreases |d|
  {
    var here := RefreshDir(s, fs, dirs, d, clock);
    if d == [] then here else RefreshChain(s, fs, here, Parent(d), clock)
  }

  predicate IsFile(fs: FileSystem, p: Path) {
    p in fs && fs[p].File?
  }

  function KnownChange(fs: FileSystem, files: map<Path, FilePrint>, p: Path): Option<Change> {
    if IsFile(fs, p) then Some(if p in files then Changed else Created)
    else if p in files then Some(Deleted)
    else None
  }

  /** The edited file is stamped without a digest. */
  function KnownPrints(fs: FileSystem, files: map<Path, FilePrint>, p: Path): map<Path, FilePrint> {
    if IsFile(fs, p) then files[p := FilePrint(fs[p].mtime, fs[p].ctime, Size(fs[p]), None)] else files - {p}
  }

  // ---- the notifier ----

  class LanguageServerFileChangeNotifier {
    const settings: Settings
    const rules: Rules
    var files: Option<map<Path, FilePrint>>
    var dirs: Option<map<Path, DirPrint>>

    constructor (settings: Settings, rules: Rules)
      ensures this.settings == settings && this.rules == rules && files.None? && dirs.None?
    {
      this.settings, this.rules := settings, rules;
      files, dirs := None, None;
    }

    ghost predicate NeedsDiscovery(fs: FileSystem, clock: Path -> int)
      reads this
    {
      files.None? || dirs.None? || !TreeStable(settings, fs, dirs.value, clock)
    }

    /** Compares the watched directories with their fingerprints, stopping at the first difference; without one
        the fingerprints are renewed. */
    method DirectoryTreeChanged(fs: FileSystem, clock: Path -> int) returns (changed: bool)
      modifies this`dirs
      ensures changed <==> old(dirs).None? || !TreeStable(settings, fs, old(dirs).value, clock)
      ensures dirs == if changed then old(dirs) else Some(Refreshed(settings, fs, old(dirs).value, clock))
    {
      if dirs.None? {
        return true;
      }
      var previous := dirs.value;
      var refreshed: map<Path, DirPrint> := map[];
      var rest := previous.Keys;
      while rest != {}
        invariant rest <= previous.Keys && refreshed.Keys == previous.Keys - rest
        invariant dirs == old(dirs)
        invariant forall d :: d in refreshed ==> DirStable(settings, fs, d, previous[d], clock(d))
        invariant forall d :: d in refreshed ==>
                    refreshed[d] == DirectoryFingerprint(settings, fs, d, previous[d].digest, clock(d)).value.0
        decreases rest
      {
        var d :| d in rest;
        rest := rest - {d};
        var mark := previous[d];
        var current := DirectoryFingerprint(settings, fs, d, mark.digest, clock(d));
        if current.None? {
          return true;
        }
        if current.value.0.mtime != mark.mtime || current.value.0.ctime != mark.ctime {
          return true;
        }
        if mark.digest.Some? && current.value.1 != mark.digest {
          return true;
        }
        refreshed := refreshed[d := current.value.0];
      }
      assert refreshed == Refreshed(settings, fs, previous, clock);
      dirs := Some(refreshed);
      changed := false;
    }

    method DiscoverSourceTree(fs: FileSystem, clock: Path -> int)
      returns (sources: seq<Path>, prints: map<Path, DirPrint>)
      requires WellFormed(fs)
      ensures Distinct(sources) && (forall p :: p in sources <==> p in Sources(fs, rules, []))
      ensures prints == FreshDirs(settings, fs, VisitedDirs(fs, rules, []), clock)
    {
      var scan := GatherSourceTree(fs, rules, []);
      sources := scan.files;
      prints := FingerprintAll(fs, scan.dirs, clock);
      assert Elems(scan.dirs) == VisitedDirs(fs, rules, []);
    }

    method FingerprintAll(fs: FileSystem, dirs: seq<Path>, clock: Path -> int) returns (prints: map<Path, DirPrint>)
      ensures prints == FreshDirs(settings, fs, Elems(dirs), clock)
    {
      prints := map[];
      var i := 0;
      while i < |dirs|
        invariant 0 <= i <= |dirs|
        invariant prints == FreshDirs(settings, fs, Elems(dirs[..i]), clock)
      {
        var d := dirs[i];
        var mark := DirectoryFingerprint(settings, fs, d, None, clock(d));
        assert dirs[..i + 1] == dirs[..i] + [d];
        assert Elems(dirs[..i + 1]) == Elems(dirs[..i]) + {d};
        if mark.Some? {
          prints := prints[d := mark.value.0];
        }
        i := i + 1;
      }
      assert dirs[..i] == dirs;
    }

    /** One poll. The events name each path once, and exactly the paths whose file is new, changed or gone. */
    method PollAndNotify(fs: FileSystem, clock: Path -> int, now: int) returns (events: seq<(Path, Change)>)
      requires WellFormed(fs)
      modifies this
      ensures files.Some? && dirs.Some?
      ensures var full := old(NeedsDiscovery(fs, clock));
        var sources := if full then Sources(fs, rules, []) else old(files).value.Keys;
        var previous := if old(files).None? then map[] else old(files).value;
        && files.value == CurrentPrints(settings, fs, sources, previous, now)
        && dirs.value == (if full then FreshDirs(settings, fs, VisitedDirs(fs, rules, []), clock)
                          else Refreshed(settings, fs, old(dirs).value, clock))
        && (old(files).None? ==> events == [])
        && (old(files).Some? ==>
              && (forall e :: e in events <==> Reported(settings, fs, sources, previous, now, e.0, e.1))
              && (forall i, j :: 0 <= i < j < |events| ==> events[i].0 != events[j].0)
              && (forall e :: e in events && e.0 in sources ==> !Fits(fs, previous, e.0)))
    {
      var full := files.None?;
      if !full {
        full := DirectoryTreeChanged(fs, clock);
      }
      var sources: seq<Path>;
      var prints: map<Path, DirPrint>;
      if full {
        sources, prints := DiscoverSourceTree(fs, clock);
      } else {
        sources := KeySequence(files.value);
        prints := dirs.value;
      }
      var previous := if files.None? then map[] else files.value;
      var current, changes := Compare(fs, sources, previous, now);
      if files.None? {
        events := [];
      } else {
        var deletions := FindDeleted(previous, current);
        events := changes + deletions;
        AllEvents(settings, fs, Elems(sources), previous, now, changes, deletions);
      }
      assert full ==> Elems(sources) == Sources(fs, rules, []);
      assert !full ==> Elems(sources) == previous.Keys;
      files := Some(current);
      dirs := Some(prints);
    }

    method Compare(fs: FileSystem, sources: seq<Path>, previous: map<Path, FilePrint>, now: int)
      returns (current: map<Path, FilePrint>, events: seq<(Path, Change)>)
      requires Distinct(sources)
      ensures current == CurrentPrints(settings, fs, Elems(sources), previous, now)
      ensures EventsOf(settings, fs, sources, previous, now, events)
      ensures forall e :: e in events ==> !Fits(fs, previous, e.0)
    {
      current, events := map[], [];
      var i := 0;
      while i < |sources|
        invariant 0 <= i <= |sources|
        invariant current == CurrentPrints(settings, fs, Elems(sources[..i]), previous, now)
        invariant EventsOf(settings, fs, sources[..i], previous, now, events)
        invariant forall e :: e in events ==> !Fits(fs, previous, e.0)
      {
        var p := sources[i];
        assert sources[..i + 1] == sources[..i] + [p];
        assert p !in sources[..i];
        var mark, event := CompareOne(fs, p, previous, now);
        OneMorePrint(settings, fs, sources[..i], previous, now, p, mark);
        OneMoreEvent(settings, fs, sources[..i], previous, now, events, p, event);
        if event.Some? {
          events := events + [(p, event.value)];
        }
        if mark.Some? {
          current := current[p := mark.value];
        }
        i := i + 1;
      }
      assert sources[..i] == sources;
    }

    method CompareOne(fs: FileSystem, p: Path, previous: map<Path, FilePrint>, now: int)
      returns (mark: Option<FilePrint>, event: Option<Change>)
      ensures mark == MarkAt(settings, fs, previous, now, p)
      ensures event == EventAt(settings, fs, previous, now, p)
      ensures Fits(fs, previous, p) ==> event.None?
    {
      var prior := Prior(previous, p);
      mark, event := None, None;
      match LookAt(settings, fs, p, prior, now) {
        case Gone =>
        case Unreadable => mark := prior;
        case Seen(seen, observed) =>
          if prior.None? {
            event := Some(Created);
          } else if !SameMetadata(seen, prior.value) || (prior.value.digest.Some? && observed != prior.value.digest) {
            event := Some(Changed);
          }
          mark := Some(seen);
      }
    }

    /** Records one edit the server made itself, without scanning the project. */
    method NotifyKnownChange(fs: FileSystem, p: Path, clock: Path -> int) returns (event: Option<Change>)
      requires p != []
      modifies this
      ensures var previous := if old(files).None? then map[] else old(files).value;
        && event == KnownChange(fs, previous, p)
        && (event.None? ==> files == old(files) && dirs == old(dirs))
        && (event.Some? ==>
              && files == Some(KnownPrints(fs, previous, p))
              && (var prints := if old(dirs).None? then map[] else old(dirs).value;
                  dirs == Some(RefreshChain(settings, fs, prints, Parent(p), clock))))
    {
      var existedBefore := files.Some? && p in files.value;
      if IsFile(fs, p) {
        var mark := FilePrint(fs[p].mtime, fs[p].ctime, Size(fs[p]), None);
        event := Some(if existedBefore then Changed else Created);
        if files.None? {
          files := Some(map[p := mark]);
        } else {
          files := Some(files.value[p := mark]);
        }
      } else {
        if !existedBefore {
          return None;
        }
        event := Some(Deleted);
        files := Some(files.value - {p});
      }
      RefreshDirectoryChain(fs, Parent(p), clock);
    }

    method RefreshDirectoryChain(fs: FileSystem, parent: Path, clock: Path -> int)
      modifies this`dirs
      ensures var prints := if old(dirs).None? then map[] else old(dirs).value;
        dirs == Some(RefreshChain(settings, fs, prints, parent, clock))
    {
      var prints := if dirs.None? then map[] else dirs.value;
      ghost var goal := RefreshChain(settings, fs, prints, parent, clock);
      var d := parent;
      var more := true;
      while more
        invariant more ==> RefreshChain(settings, fs, prints, d, clock) == goal
        invariant !more ==> prints == goal
        decreases more, |d|
      {
        var mark := DirectoryFingerprint(settings, fs, d, if d in prints then prints[d].digest else None, clock(d));
        if mark.Some? {
          prints := prints[d := mark.value.0];
        } else {
          prints := prints - {d};
        }
        if d == [] {
          more := false;
        } else {
          d := Parent(d);
        }
      }
      dirs := Some(prints);
    }
  }

  method KeySequence(m: map<Path, FilePrint>) returns (keys: seq<Path>)
    ensures Distinct(keys) && Elems(keys) == m.Keys
  {
    keys := [];
    var rest := m.Keys;
    while rest != {}
      invariant Distinct(keys) && Elems(keys) == m.Keys - rest && rest <= m.Keys
      decreases rest
    {
      var p :| p in rest;
      assert p !in Elems(keys);
      keys := keys + [p];
      rest := rest - {p};
    }
  }

  method FindDeleted(previous: map<Path, FilePrint>, current: map<Path, FilePrint>)
    returns (events: seq<(Path, Change)>)
    ensures forall e :: e in events <==> e.0 in previous && e.0 !in current && e.1 == Deleted
    ensures forall i, j :: 0 <= i < j < |events| ==> events[i].0 != events[j].0
  {
    events := [];
    var rest := previous.Keys;
    while rest != {}
      invariant rest <= previous.Keys
      invariant forall e :: e in events <==> e.0 in previous && e.0 !in rest && e.0 !in current && e.1 == Deleted
      invariant forall i, j :: 0 <= i < j < |events| ==> events[i].0 != events[j].0
      decreases rest
    {
      var p :| p in rest;
      assert forall e :: e in events ==> e.0 != p;
      if p !in current {
        events := events + [(p, Deleted)];
      }
      rest := rest - {p};
    }
  }

  lemma {:induction false} AllEvents(s: Settings, fs: FileSystem, sources: set<Path>, previous: map<Path, FilePrint>,
                                     now: int, changes: seq<(Path, Change)>, deletions: seq<(Path, Change)>)
    requires forall e :: e in changes <==>
               e.0 in sources && EventAt(s, fs, previous, now, e.0) == Some(e.1)
    requires forall e :: e in deletions <==>
               e.0 in previous && e.0 !in CurrentPrints(s, fs, sources, previous, now) && e.1 == Deleted
    requires forall i, j :: 0 <= i < j < |changes| ==> changes[i].0 != changes[j].0
    requires forall i, j :: 0 <= i < j < |deletions| ==> deletions[i].0 != deletions[j].0
    ensures forall e :: e in changes + deletions <==> Reported(s, fs, sources, previous, now, e.0, e.1)
    ensures forall i, j :: 0 <= i < j < |changes + deletions| ==>
              (changes + deletions)[i].0 != (changes + deletions)[j].0
  {
    forall i, j | 0 <= i < |changes| && 0 <= j < |deletions| ensures changes[i].0 != deletions[j].0 {
      assert changes[i] in changes && deletions[j] in deletions;
    }
  }
}
