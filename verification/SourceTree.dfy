/** The project's directory tree and its one-scan source discovery. */
module SourceTree {
  import opened Sequences

  type Path = seq<string>

  /** Metadata times are integers (nanoseconds); a file's size is the length of its content. */
  datatype Node =
    | File(content: string, mtime: int, ctime: int)
    | Dir(mtime: int, ctime: int)
    | Other(mtime: int, ctime: int)   // symbolic links and special files

  datatype Kind = FileKind | DirKind | OtherKind

  type FileSystem = map<Path, Node>

  /** Ignore rules and language file masks. */
  datatype Rules = Rules(ignored: (Path, Kind) -> bool, supported: Path -> bool)

  function KindOf(node: Node): Kind {
    match node
    case File(_, _, _) => FileKind
    case Dir(_, _) => DirKind
    case Other(_, _) => OtherKind
  }

  function Parent(p: Path): Path
    requires p != []
  {
    p[..|p| - 1]
  }

  ghost predicate WellFormed(fs: FileSystem) {
    && [] in fs && fs[[]].Dir?
    && forall p :: p in fs && p != [] ==> Parent(p) in fs && fs[Parent(p)].Dir?
  }

  predicate IsChild(d: Path, p: Path) {
    p != [] && Parent(p) == d
  }

  function Children(fs: FileSystem, d: Path): set<Path> {
    set p | p in fs && IsChild(d, p)
  }

  /** What scanning a directory shows: names with their kinds, links not followed. */
  function Listing(fs: FileSystem, d: Path): set<(string, Kind)> {
    set p | p in Children(fs, d) :: (p[|p| - 1], KindOf(fs[p]))
  }

  lemma {:induction false} ListingEntry(fs: FileSystem, d: Path, name: string, kind: Kind)
    ensures (name, kind) in Listing(fs, d) <==> d + [name] in fs && KindOf(fs[d + [name]]) == kind
  {
    var p := d + [name];
    assert Parent(p) == d;
    assert p in fs ==> p in Children(fs, d);
    if (name, kind) in Listing(fs, d) {
      var q :| q in Children(fs, d) && (q[|q| - 1], KindOf(fs[q])) == (name, kind);
      assert q == Parent(q) + [q[|q| - 1]];
    }
  }

  /** The directories a scan from `start` reaches: `start`, and every directory below it on a chain of
      directories that are not ignored. */
  ghost predicate Visited(fs: FileSystem, rules: Rules, start: Path, d: Path)
    decreases |d|
  {
    && d in fs
    && (d == start || (d != [] && fs[d].Dir? && !rules.ignored(d, DirKind) && Visited(fs, rules, start, Parent(d))))
  }

  ghost function VisitedDirs(fs: FileSystem, rules: Rules, start: Path): set<Path> {
    set d | d in fs && Visited(fs, rules, start, d)
  }

  predicate Wanted(rules: Rules, p: Path, node: Node) {
    node.File? && rules.supported(p) && !rules.ignored(p, FileKind)
  }

  /** The supported, not ignored files directly inside a visited directory. */
  ghost function Sources(fs: FileSystem, rules: Rules, start: Path): set<Path> {
    set p | p in fs && p != [] && Wanted(rules, p, fs[p]) && Visited(fs, rules, start, Parent(p))
  }

  lemma {:induction false} VisitedIff(fs: FileSystem, rules: Rules, d: Path)
    requires WellFormed(fs) && d in fs && fs[d].Dir?
    ensures Visited(fs, rules, [], d) <==> forall k :: 0 < k <= |d| ==> !rules.ignored(d[..k], DirKind)
    decreases |d|
  {
    if d != [] {
      VisitedIff(fs, rules, Parent(d));
      assert d[..|d|] == d;
      assert forall k :: 0 < k < |d| ==> Parent(d)[..k] == d[..k];
    }
  }

  /** The sources are the files with a supported name of which neither they nor a directory above them is ignored. */
  lemma {:induction false} SourcesAre(fs: FileSystem, rules: Rules, p: Path)
    requires WellFormed(fs)
    ensures p in Sources(fs, rules, []) <==>
              && p in fs && fs[p].File? && rules.supported(p) && !rules.ignored(p, FileKind)
              && (forall k :: 0 < k < |p| ==> !rules.ignored(p[..k], DirKind))
  {
    if p in fs && p != [] {
      VisitedIff(fs, rules, Parent(p));
      assert forall k :: 0 < k < |p| ==> Parent(p)[..k] == p[..k];
    }
  }

  // ---- the scan ----

  datatype Scan = NotFound | Found(files: seq<Path>, dirs: seq<Path>)

  /** The state between two directories: everything on the stack or already listed is reachable, nothing is
      there twice, and every reachable child of a listed directory is on the stack or listed. */
  ghost predicate ScanInv(fs: FileSystem, rules: Rules, start: Path, stack: seq<Path>, files: seq<Path>,
                          dirs: seq<Path>)
  {
    && Distinct(dirs + stack) && Distinct(files)
    && (forall d :: d in dirs || d in stack ==> Visited(fs, rules, start, d))
    && (start in dirs || start in stack)
    && (forall d :: d in dirs || d in stack ==> d == start || (d != [] && Parent(d) in dirs))
    && (forall d ::
          d in fs && d != [] && d != start && fs[d].Dir? && !rules.ignored(d, DirKind) && Parent(d) in dirs ==>
          d in dirs || d in stack)
    && (forall p :: p in files <==> p in fs && p != [] && Wanted(rules, p, fs[p]) && Parent(p) in dirs)
  }

  lemma {:induction false} ScanComplete(fs: FileSystem, rules: Rules, start: Path, files: seq<Path>, dirs: seq<Path>,
                                        d: Path)
    requires ScanInv(fs, rules, start, [], files, dirs) && Visited(fs, rules, start, d)
    ensures d in dirs
    decreases |d|
  {
    if d != start {
      ScanComplete(fs, rules, start, files, dirs, Parent(d));
    }
  }

  /** One directory: its entries in whatever order the system returns them. */
  method ScanDirectory(fs: FileSystem, rules: Rules, d: Path) returns (subdirs: seq<Path>, found: seq<Path>)
    ensures Distinct(subdirs) && Distinct(found)
    ensures forall p :: p in subdirs <==> p in fs && IsChild(d, p) && fs[p].Dir? && !rules.ignored(p, DirKind)
    ensures forall p :: p in found <==> p in fs && IsChild(d, p) && Wanted(rules, p, fs[p])
  {
    subdirs, found := [], [];
    var entries := Children(fs, d);
    while entries != {}
      invariant entries <= Children(fs, d)
      invariant Distinct(subdirs) && Distinct(found)
      invariant forall p :: p in subdirs <==>
                  p in Children(fs, d) && p !in entries && fs[p].Dir? && !rules.ignored(p, DirKind)
      invariant forall p :: p in found <==> p in Children(fs, d) && p !in entries && Wanted(rules, p, fs[p])
      decreases entries
    {
      var p :| p in entries;
      entries := entries - {p};
      if fs[p].Other? {
      } else if fs[p].Dir? {
        if !rules.ignored(p, DirKind) {
          subdirs := subdirs + [p];
        }
      } else if rules.supported(p) {
        if !rules.ignored(p, FileKind) {
          found := found + [p];
        }
      }
    }
  }

  lemma {:induction false} VisitedBelow(fs: FileSystem, rules: Rules, start: Path, d: Path)
    requires Visited(fs, rules, start, d)
    ensures |start| <= |d|
    decreases |d|
  {
    if d != start {
      VisitedBelow(fs, rules, start, Parent(d));
    }
  }

  lemma {:induction false} DistinctSplit(dirs: seq<Path>, stack: seq<Path>)
    ensures Distinct(dirs + stack) <==>
              Distinct(dirs) && Distinct(stack) && (forall x :: x in dirs ==> x !in stack)
  {
    var all := dirs + stack;
    if Distinct(all) {
      assert forall i :: 0 <= i < |dirs| ==> all[i] == dirs[i];
      assert forall i :: 0 <= i < |stack| ==> all[|dirs| + i] == stack[i];
    }
    if Distinct(dirs) && Distinct(stack) && (forall x :: x in dirs ==> x !in stack) {
      forall i, j | 0 <= i < j < |all| ensures all[i] != all[j] {
        assert i < |dirs| ==> all[i] in dirs;
        assert j >= |dirs| ==> all[j] in stack;
      }
    }
  }

  /** Moving one directory from the stack to the list and its subdirectories onto the stack. */
  lemma {:induction false} ScanStep(fs: FileSystem, rules: Rules, start: Path, stack: seq<Path>, files: seq<Path>,
                                    dirs: seq<Path>, d: Path, subdirs: seq<Path>, found: seq<Path>)
    requires ScanInv(fs, rules, start, stack + [d], files, dirs)
    requires Distinct(subdirs) && Distinct(found)
    requires forall p :: p in subdirs <==> p in fs && IsChild(d, p) && fs[p].Dir? && !rules.ignored(p, DirKind)
    requires forall p :: p in found <==> p in fs && IsChild(d, p) && Wanted(rules, p, fs[p])
    ensures ScanInv(fs, rules, start, stack + subdirs, files + found, dirs + [d])
  {
    assert d in stack + [d];
    VisitedBelow(fs, rules, start, d);
    DistinctSplit(dirs, stack + [d]);
    DistinctSplit(stack, [d]);
    DistinctSplit(dirs, [d]);
    DistinctSplit(stack, subdirs);
    DistinctSplit(files, found);
    assert forall x :: x in dirs || x in stack ==> x in dirs || x in stack + [d];
    forall p | p in subdirs ensures p !in dirs && p !in stack && p != d && p != start {
    }
    DistinctSplit(dirs + [d], stack + subdirs);
  }

  /** The scan from `start`: an error if it does not exist, its own entry if it is a file, and otherwise exactly
      the reachable directories and the wanted files inside them, each once, whatever order entries come in. */
  method GatherSourceTree(fs: FileSystem, rules: Rules, start: Path) returns (scan: Scan)
    ensures scan.NotFound? <==> start !in fs
    ensures scan.Found? ==> Distinct(scan.files) && Distinct(scan.dirs)
    ensures scan.Found? && fs[start].File? ==>
              && scan.dirs == [if start == [] then [] else Parent(start)]
              && scan.files == if Wanted(rules, start, fs[start]) then [start] else []
    ensures scan.Found? && !fs[start].File? ==>
              && (forall d :: d in scan.dirs <==> d in VisitedDirs(fs, rules, start))
              && (forall p :: p in scan.files <==> p in Sources(fs, rules, start))
  {
    if start !in fs {
      return NotFound;
    }
    if fs[start].File? {
      var parent := if start == [] then [] else Parent(start);
      if !rules.supported(start) {
        return Found([], [parent]);
      }
      return Found(if rules.ignored(start, FileKind) then [] else [start], [parent]);
    }
    var files: seq<Path>, dirs: seq<Path>, stack: seq<Path> := [], [], [start];
    while stack != []
      invariant ScanInv(fs, rules, start, stack, files, dirs)
      decreases VisitedDirs(fs, rules, start) - Elems(dirs)
    {
      var d := stack[|stack| - 1];
      assert stack == stack[..|stack| - 1] + [d];
      stack := stack[..|stack| - 1];
      var subdirs, found := ScanDirectory(fs, rules, d);
      ScanStep(fs, rules, start, stack, files, dirs, d, subdirs, found);
      DistinctSplit(dirs, stack + [d]);
      assert d in stack + [d] && d !in Elems(dirs) && d in Elems(dirs + [d]);
      assert d in VisitedDirs(fs, rules, start) - Elems(dirs);
      stack, files, dirs := stack + subdirs, files + found, dirs + [d];
    }
    forall d | Visited(fs, rules, start, d) ensures d in dirs {
      ScanComplete(fs, rules, start, files, dirs, d);
    }
    scan := Found(files, dirs);
    assert dirs + stack == dirs;
  }

  // ---- what a scan depends on ----

  ghost predicate SameListings(fs: FileSystem, fs': FileSystem, dirs: set<Path>) {
    forall d :: d in dirs ==> Listing(fs, d) == Listing(fs', d)
  }

  lemma {:induction false} SameVisited(fs: FileSystem, fs': FileSystem, rules: Rules, d: Path)
    requires WellFormed(fs) && WellFormed(fs')
    requires SameListings(fs, fs', VisitedDirs(fs, rules, []))
    ensures Visited(fs, rules, [], d) <==> Visited(fs', rules, [], d)
    decreases |d|
  {
    if d != [] {
      SameVisited(fs, fs', rules, Parent(d));
      if Visited(fs, rules, [], Parent(d)) {
        SameEntry(fs, fs', d);
      }
    }
  }

  lemma {:induction false} SameEntry(fs: FileSystem, fs': FileSystem, p: Path)
    requires p != [] && Listing(fs, Parent(p)) == Listing(fs', Parent(p))
    ensures p in fs <==> p in fs'
    ensures p in fs ==> KindOf(fs[p]) == KindOf(fs'[p])
  {
    var d, name := Parent(p), p[|p| - 1];
    assert p == d + [name];
    forall kind ensures (name, kind) in Listing(fs, d) <==> p in fs && KindOf(fs[p]) == kind {
      ListingEntry(fs, d, name, kind);
    }
    forall kind ensures (name, kind) in Listing(fs', d) <==> p in fs' && KindOf(fs'[p]) == kind {
      ListingEntry(fs', d, name, kind);
    }
    if p in fs {
      assert (name, KindOf(fs[p])) in Listing(fs', d);
    }
    if p in fs' {
      assert (name, KindOf(fs'[p])) in Listing(fs, d);
    }
  }

  /** Discovery looks at nothing but the listings of the directories it visits: if those are the same in two
      trees, the scan of either gives the same directories and the same files. */
  lemma {:induction false} ListingsDetermineScan(fs: FileSystem, fs': FileSystem, rules: Rules)
    requires WellFormed(fs) && WellFormed(fs')
    requires SameListings(fs, fs', VisitedDirs(fs, rules, []))
    ensures VisitedDirs(fs, rules, []) == VisitedDirs(fs', rules, [])
    ensures Sources(fs, rules, []) == Sources(fs', rules, [])
  {
    forall d ensures Visited(fs, rules, [], d) <==> Visited(fs', rules, [], d) {
      SameVisited(fs, fs', rules, d);
    }
    assert forall d :: Visited(fs, rules, [], d) ==> d in fs;
    assert forall d :: Visited(fs', rules, [], d) ==> d in fs';
    forall p | p != [] && Visited(fs, rules, [], Parent(p))
      ensures p in fs <==> p in fs'
      ensures p in fs ==> KindOf(fs[p]) == KindOf(fs'[p])
    {
      assert Parent(p) in VisitedDirs(fs, rules, []);
      SameEntry(fs, fs', p);
    }
    forall p ensures p in Sources(fs, rules, []) <==> p in Sources(fs', rules, []) {
    }
  }
}
