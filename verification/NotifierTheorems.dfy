/** What the language server believes after each poll of a run, and when that is right. */
module NotifierTheorems {
  import opened Options
  import opened SourceTree
  import opened ChangeNotifier
  import opened NotifierRuns
  import opened KnownChanges

  /** What keeps the baseline trustworthy: with directory moves only digests everywhere do, which announcements do not
      leave; without moves a tick within the hash window does, and announcements of settled edits, one at a time. */
  predicate Reliable(settings: Settings, tick: int, d: Permits) {
    && (settings.strict || (!d.moves && tick <= settings.window + 1))
    && (d.announcements ==> !d.moves && !d.hasty && !d.crowded)
  }

  ghost predicate Trusted(env: Env, w: World)
    requires env.tick >= 1
  {
    WellFormed(w.fs) && (w.files.Some? ==> Inv(env, w) && (env.permits.moves ==> Hashed(w)))
  }

  lemma {:induction false} NextTrusted(env: Env, w: World, e: Event)
    requires env.tick >= 1 && Reliable(env.settings, env.tick, env.permits) && Trusted(env, w)
    ensures Trusted(env, Next(env, w, e))
  {
    if Enabled(env, w, e) {
      match e {
        case Edits(t, fs') => if w.files.Some? { EditInv(env, w, t, fs'); }
        case Moves(t, src, dst) =>
          MovedWellFormed(w.fs, src, dst, Stamp(t, env.tick));
          if w.files.Some? { HashedInv(env, w, t, Moved(w.fs, src, dst, Stamp(t, env.tick))); }
        case Announces(p, clock, until) => KnownChangeInv(env, w, p, clock, until);
        case Polls(clock, now, until) => PollInv(env, w, clock, now, until);
      }
    }
  }

  /** The baseline stays trustworthy in every run of edits, moves, announcements and polls that are permitted. */
  lemma {:induction false} RunInv(env: Env, w: World, events: seq<Event>)
    requires env.tick >= 1 && Reliable(env.settings, env.tick, env.permits) && Trusted(env, w)
    ensures Trusted(env, Run(env, w, events))
  {
    if events != [] {
      RunInv(env, w, events[..|events| - 1]);
      NextTrusted(env, Run(env, w, events[..|events| - 1]), events[|events| - 1]);
    }
  }

  lemma {:induction false} RunStep(env: Env, w: World, events: seq<Event>, e: Event)
    requires env.tick >= 1
    ensures Run(env, w, events + [e]) == Next(env, Run(env, w, events), e)
  {
    assert (events + [e])[..|events|] == events;
  }

  // ---- the guarantee ----

  ghost predicate AlwaysCurrent(settings: Settings, tick: int, permits: Permits)
    requires tick >= 1
  {
    forall rules, fs, start, events: seq<Event>, clock, now, until :: WellFormed(fs) ==>
      CurrentAfter(Env(settings, rules, tick, permits), fs, start, events, clock, now, until)
  }

  /** If a poll can follow the events, it leaves the server's view right. */
  ghost predicate CurrentAfter(
    env: Env, fs: FileSystem, start: int, events: seq<Event>, clock: Path -> int, now: int, until: int)
    requires env.tick >= 1
  {
    var w := Run(env, Start(fs, start), events);
    Enabled(env, w, Polls(clock, now, until)) ==> Current(env, Next(env, w, Polls(clock, now, until)))
  }

  // ---- runs that end with a wrong view ----

  /** A poll does not report a file whose metadata still match a fingerprint without a digest. */
  lemma {:induction false} StaleCopyStays(env: Env, w: World, p: Path, clock: Path -> int, until: int)
    requires env.tick >= 1 && w.files.Some? && w.dirs.Some? && p in w.files.value && p in w.view
    requires w.latest <= until && (forall d :: clock(d) <= until)
    requires IsFile(w.fs, p) && p in Sources(w.fs, env.rules, [])
    requires w.files.value[p] == FilePrint(w.fs[p].mtime, w.fs[p].ctime, Size(w.fs[p]), None)
    requires w.view[p] != w.fs[p].content
    ensures Enabled(env, w, Polls(clock, until, until))
    ensures !Current(env, Next(env, w, Polls(clock, until, until)))
  {
    var sources := PolledSources(env, w, clock);
    assert p in sources;
    EventOfFile(env.settings, w.fs, w.files.value, until, p);
    assert EventAt(env.settings, w.fs, w.files.value, until, p).None?;
    assert p in CurrentPrints(env.settings, w.fs, sources, w.files.value, until);
    forall c ensures (p, c) !in PollEvents(env, w, clock, until) {
    }
    var w' := Next(env, w, Polls(clock, until, until));
    assert p in w'.view && w'.view[p] == w.view[p];
  }

  function PlainRules(): Rules {
    Rules((p: Path, k: Kind) => false, (p: Path) => true)
  }

  function OneFile(content: string): FileSystem {
    map[[] := Dir(0, 0), ["a"] := File(content, 0, 0)]
  }

  lemma {:induction false} OneFileTree(content: string)
    ensures WellFormed(OneFile(content))
    ensures VisitedDirs(OneFile(content), PlainRules(), []) == {[]}
    ensures Sources(OneFile(content), PlainRules(), []) == {["a"]}
    ensures Listing(OneFile(content), []) == {("a", FileKind)} && Listing(OneFile(content), ["a"]) == {}
  {
    var fs := OneFile(content);
    assert Children(fs, []) == {["a"]};
    assert Children(fs, ["a"]) == {};
    assert Listing(fs, []) == set p | p in {["a"]} :: (p[|p| - 1], KindOf(fs[p]));
    assert ["a"][|["a"]| - 1] == "a";
    assert Parent(["a"]) == [];
    assert Visited(fs, PlainRules(), [], []);
  }

  /** The first poll of the one-file tree, after the hash window: metadata only. */
  function Baseline(t: int): World {
    World(OneFile("x"), t, Some(map[["a"] := FilePrint(0, 0, 1, None)]), Some(map[[] := DirPrint(0, 0, None)]),
          OneFile("x"), map[["a"] := "x"])
  }

  lemma {:induction false} BaselinePoll(env: Env, clock: Path -> int, t: int)
    requires env.tick >= 1 && env.rules == PlainRules() && !env.settings.strict && t == env.settings.window + 1
    requires forall p :: clock(p) == t
    ensures Next(env, Start(OneFile("x"), 0), Polls(clock, t, t)) == Baseline(t)
  {
    var w0 := Start(OneFile("x"), 0);
    OneFileTree("x");
    var w1 := Next(env, w0, Polls(clock, t, t));
    assert PolledSources(env, w0, clock) == {["a"]};
    assert MarkAt(env.settings, OneFile("x"), map[], t, ["a"]) == Some(FilePrint(0, 0, 1, None));
    assert w1.files.value == map[["a"] := FilePrint(0, 0, 1, None)];
    assert DirectoryFingerprint(env.settings, OneFile("x"), [], None, clock([])) == Some((DirPrint(0, 0, None), None));
    assert w1.dirs.value == map[[] := DirPrint(0, 0, None)];
    assert w1.view == map[["a"] := "x"];
  }

  function Steady(t: int): Path -> int {
    _ => t
  }

  lemma {:induction false} ThreeSteps(env: Env, w: World, a: Event, b: Event, c: Event)
    requires env.tick >= 1
    ensures Run(env, w, [a, b]) == Next(env, Next(env, w, a), b)
    ensures Run(env, w, [a, b, c]) == Next(env, Run(env, w, [a, b]), c)
  {
    RunStep(env, w, [], a);
    RunStep(env, w, [a], b);
    RunStep(env, w, [a, b], c);
    assert [] + [a] == [a] && [a] + [b] == [a, b] && [a, b] + [c] == [a, b, c];
  }

  /** The run of `events` from `fs`, all clocks of its last poll showing `t`, ends with a wrong view. */
  ghost predicate Misses(env: Env, fs: FileSystem, events: seq<Event>, t: int)
    requires env.tick >= 1
  {
    WellFormed(fs) && !CurrentAfter(env, fs, 0, events, Steady(t), t, t)
  }

  lemma {:induction false} Refuted(env: Env, fs: FileSystem, events: seq<Event>, t: int)
    requires env.tick >= 1 && Misses(env, fs, events, t)
    ensures !AlwaysCurrent(env.settings, env.tick, env.permits)
  {
    assert env == Env(env.settings, env.rules, env.tick, env.permits);
  }

  function LongTickEvents(t: int): seq<Event> {
    [Polls(Steady(t), t, t), Edits(t, OneFile("y"))]
  }

  /** With ticks longer than the window (by more than one unit) a same-size edit within the tick of the
      previous stamp, its modification time put back, is never noticed. */
  lemma {:induction false} LongTickMissesEdit(env: Env, t: int)
    requires env.tick >= 1 && env.rules == PlainRules() && !env.settings.strict
    requires t == env.settings.window + 1 && t < env.tick
    ensures Misses(env, OneFile("x"), LongTickEvents(t), t)
  {
    var w0, e1, e2 := Start(OneFile("x"), 0), Polls(Steady(t), t, t), Edits(t, OneFile("y"));
    OneFileTree("x");
    BaselinePoll(env, Steady(t), t);
    ThreeSteps(env, w0, e1, e2, e2);
    EditInTickMissed(env, t);
  }

  lemma {:induction false} EditInTickMissed(env: Env, t: int)
    requires env.tick >= 1 && env.rules == PlainRules() && !env.settings.strict
    requires t == env.settings.window + 1 && t < env.tick
    ensures var w := Next(env, Baseline(t), Edits(t, OneFile("y")));
      Enabled(env, w, Polls(Steady(t), t, t)) && !Current(env, Next(env, w, Polls(Steady(t), t, t)))
  {
    OneFileTree("x");
    OneFileTree("y");
    assert Stamp(t, env.tick) == 0 && EditOk(OneFile("x"), OneFile("y"), t, env.tick);
    StaleCopyStays(env, Baseline(t).(fs := OneFile("y")), ["a"], Steady(t), t);
  }

  /** A poll at the moment of the stamps: with digests. */
  function FreshBaseline(): World {
    World(OneFile("x"), 0, Some(map[["a"] := FilePrint(0, 0, 1, Some("x"))]),
          Some(map[[] := DirPrint(0, 0, Some({("a", FileKind)}))]), OneFile("x"), map[["a"] := "x"])
  }

  lemma {:induction false} FreshBaselinePoll(env: Env, clock: Path -> int)
    requires env.tick >= 1 && env.rules == PlainRules() && forall p :: clock(p) == 0
    ensures Next(env, Start(OneFile("x"), 0), Polls(clock, 0, 0)) == FreshBaseline()
  {
    var w0 := Start(OneFile("x"), 0);
    OneFileTree("x");
    var w1 := Next(env, w0, Polls(clock, 0, 0));
    assert PolledSources(env, w0, clock) == {["a"]};
    assert MarkAt(env.settings, OneFile("x"), map[], 0, ["a"]) == Some(FilePrint(0, 0, 1, Some("x")));
    assert w1.files.value == map[["a"] := FilePrint(0, 0, 1, Some("x"))];
    assert w1.dirs.value == map[[] := DirPrint(0, 0, Some({("a", FileKind)}))];
    assert w1.view == map[["a"] := "x"];
  }

  lemma {:induction false} AnnouncedAlone(env: Env, w: World, p: Path)
    requires w.dirs.Some? && w.base == w.fs && p != [] && IsFile(w.fs, p) && Wanted(env.rules, p, w.fs[p])
    requires forall k :: 0 <= k < |p| ==> p[..k] in w.dirs.value && p[..k] in w.fs && w.fs[p[..k]].Dir?
    ensures OnlyChange(env, w, p)
  {
    assert Rebased(w, p) == w.fs;
  }

  lemma {:induction false} KnownFile(env: Env, w: World, p: Path, clock: Path -> int, until: int)
    requires w.files.Some? && w.dirs.Some? && p != [] && IsFile(w.fs, p)
    ensures var w' := Known(env, w, p, clock, until);
      && w'.fs == w.fs && w'.latest == until && w'.dirs.Some?
      && w'.files == Some(w.files.value[p := FilePrint(w.fs[p].mtime, w.fs[p].ctime, Size(w.fs[p]), None)])
      && w'.view == w.view[p := w.fs[p].content]
  {
  }

  function HastyEvents(): seq<Event> {
    [Polls(Steady(0), 0, 0), Announces(["a"], Steady(0), 0), Edits(0, OneFile("y"))]
  }

  /** A file announced in the tick of its stamp and overwritten in the same tick stays unread. */
  lemma {:induction false} HastyAnnouncementMissed(env: Env)
    requires env.tick >= 1 && env.rules == PlainRules() && env.permits.announcements && env.permits.hasty
    ensures Misses(env, OneFile("x"), HastyEvents(), 0)
  {
    var e2, e3 := Announces(["a"], Steady(0), 0), Edits(0, OneFile("y"));
    OneFileTree("x");
    FreshBaselinePoll(env, Steady(0));
    FreshAnnounced(env, Steady(0));
    ThreeSteps(env, Start(OneFile("x"), 0), Polls(Steady(0), 0, 0), e2, e3);
    OverwrittenMissed(env, Next(env, FreshBaseline(), e2));
  }

  lemma {:induction false} FreshAnnounced(env: Env, clock: Path -> int)
    requires env.tick >= 1 && env.rules == PlainRules() && env.permits.announcements && env.permits.hasty
    requires forall d :: clock(d) == 0
    ensures var w := Next(env, FreshBaseline(), Announces(["a"], clock, 0));
      && w.fs == OneFile("x") && w.latest == 0 && w.dirs.Some?
      && w.files == Some(map[["a"] := FilePrint(0, 0, 1, None)]) && w.view == map[["a"] := "x"]
  {
    var w := FreshBaseline();
    assert ["a"][..0] == [];
    AnnouncedAlone(env, w, ["a"]);
    KnownFile(env, w, ["a"], clock, 0);
    assert w.files.value[["a"] := FilePrint(0, 0, 1, None)] == map[["a"] := FilePrint(0, 0, 1, None)];
    assert w.view[["a"] := "x"] == map[["a"] := "x"];
    assert Enabled(env, w, Announces(["a"], clock, 0));
  }

  lemma {:induction false} OverwrittenMissed(env: Env, w: World)
    requires env.tick >= 1 && env.rules == PlainRules() && w.fs == OneFile("x") && w.latest == 0 && w.dirs.Some?
    requires w.files == Some(map[["a"] := FilePrint(0, 0, 1, None)]) && w.view == map[["a"] := "x"]
    ensures var w' := Next(env, w, Edits(0, OneFile("y")));
      Enabled(env, w', Polls(Steady(0), 0, 0)) && !Current(env, Next(env, w', Polls(Steady(0), 0, 0)))
  {
    OneFileTree("x");
    OneFileTree("y");
    assert Stamp(0, env.tick) == 0 && EditOk(w.fs, OneFile("y"), 0, env.tick);
    StaleCopyStays(env, w.(fs := OneFile("y")), ["a"], Steady(0), 0);
  }

  function TwoFiles(): FileSystem {
    OneFile("x")[["b"] := File("z", 0, 0)]
  }

  lemma {:induction false} TwoFilesTree(tick: int)
    requires tick >= 1
    ensures WellFormed(TwoFiles()) && EditOk(OneFile("x"), TwoFiles(), 0, tick)
    ensures ["b"] in Sources(TwoFiles(), PlainRules(), [])
  {
    OneFileTree("x");
    assert Stamp(0, tick) == 0;
    assert Parent(["a"]) == [] && Parent(["b"]) == [];
    assert Visited(TwoFiles(), PlainRules(), [], []);
  }

  function CrowdedEvents(tick: int): seq<Event> {
    [Polls(Steady(0), 0, 0), Edits(0, TwoFiles()), Announces(["a"], Steady(tick), tick)]
  }

  /** A file created beside the announced one is taken for known and never discovered. */
  lemma {:induction false} CrowdedAnnouncementMissed(env: Env)
    requires env.tick >= 1 && env.rules == PlainRules() && env.permits.announcements && env.permits.crowded
    ensures Misses(env, OneFile("x"), CrowdedEvents(env.tick), env.tick)
  {
    var w1, e2, e3 := FreshBaseline(), Edits(0, TwoFiles()), Announces(["a"], Steady(env.tick), env.tick);
    OneFileTree("x");
    FreshBaselinePoll(env, Steady(0));
    TwoFilesTree(env.tick);
    var w2 := w1.(fs := TwoFiles());
    assert Next(env, w1, e2) == w2;
    ThreeSteps(env, Start(OneFile("x"), 0), Polls(Steady(0), 0, 0), e2, e3);
    NeighbourMissed(env, w2, Steady(env.tick), env.tick);
  }

  lemma {:induction false} NeighbourMissed(env: Env, w: World, clock: Path -> int, t: int)
    requires env.tick >= 1 && env.rules == PlainRules() && env.permits.announcements && env.permits.crowded
    requires t == env.tick && w.latest <= t && (forall d :: clock(d) == t)
    requires w == FreshBaseline().(fs := TwoFiles())
    ensures var w' := Next(env, w, Announces(["a"], clock, t));
      Enabled(env, w', Polls(clock, t, t)) && !Current(env, Next(env, w', Polls(clock, t, t)))
  {
    assert Stamp(t, env.tick) == t;
    assert Settled(env, w, ["a"], t);
    var w' := Known(env, w, ["a"], clock, t);
    assert Next(env, w, Announces(["a"], clock, t)) == w';
    KnownFile(env, w, ["a"], clock, t);
    assert Parent(["a"]) == [];
    RenewedStable(env.settings, w.fs, w.dirs.value, clock);
    TwoFilesTree(env.tick);
    UndiscoveredStays(env, w', clock, t, ["b"]);
  }

  lemma {:induction false} RenewedStable(s: Settings, fs: FileSystem, dirs: map<Path, DirPrint>, clock: Path -> int)
    requires dirs.Keys == {[]} && [] in fs && fs[[]].Dir?
    ensures TreeStable(s, fs, RefreshChain(s, fs, dirs, [], clock), clock)
  {
    var dirs' := RefreshChain(s, fs, dirs, [], clock);
    assert dirs' == RefreshDir(s, fs, dirs, [], clock);
    assert forall d :: d in dirs' ==> d == [];
  }

  /** While the watched directories keep their fingerprints an untracked file stays unknown. */
  lemma {:induction false} UndiscoveredStays(env: Env, w: World, clock: Path -> int, until: int, p: Path)
    requires env.tick >= 1 && w.files.Some? && w.dirs.Some? && w.files.value.Keys == w.view.Keys && p !in w.view
    requires w.latest <= until && (forall d :: clock(d) <= until)
    requires TreeStable(env.settings, w.fs, w.dirs.value, clock)
    requires p in Sources(w.fs, env.rules, [])
    ensures Enabled(env, w, Polls(clock, until, until))
    ensures !Current(env, Next(env, w, Polls(clock, until, until)))
  {
    assert PolledSources(env, w, clock) == w.files.value.Keys;
    assert forall c :: (p, c) !in PollEvents(env, w, clock, until);
    assert p !in Next(env, w, Polls(clock, until, until)).view;
  }

  function TwoDirs(): FileSystem {
    map[[] := Dir(0, 0), ["a"] := Dir(0, 0), ["b"] := Dir(0, 0),
        ["a", "f"] := File("x", 0, 0), ["b", "f"] := File("y", 0, 0)]
  }

  lemma {:induction false} TwoDirsTree()
    ensures WellFormed(TwoDirs())
    ensures Visited(TwoDirs(), PlainRules(), [], ["a"]) && ["a", "f"] in Sources(TwoDirs(), PlainRules(), [])
  {
    var fs := TwoDirs();
    assert ["a"][0] == "a" && ["b"][0] == "b";
    assert Parent(["a"]) == [] && Parent(["b"]) == [];
    assert Parent(["a", "f"]) == ["a"] && Parent(["b", "f"]) == ["b"];
    assert Visited(fs, PlainRules(), [], []);
  }

  lemma {:induction false} FirstMoveOk()
    ensures WellFormed(TwoDirs()) && MoveOk(TwoDirs(), ["a"], ["c"])
    ensures Parent(["a"]) == Parent(["b"]) == Parent(["c"]) == [] && Parent(["b", "f"]) == ["b"]
    ensures !(["a"] <= ["b"]) && !(["c"] <= ["b"]) && !(["c"] <= ["a"])
    ensures !(["a"] <= ["b", "f"]) && !(["c"] <= ["b", "f"])
  {
    TwoDirsTree();
    assert ["a"][0] == "a" && ["b"][0] == "b" && ["c"][0] == "c" && ["b", "f"][0] == "b";
  }

  /** The first directory makes room. */
  lemma {:induction false} FirstMove(stamp: int)
    ensures var fs, fs1 := TwoDirs(), Moved(TwoDirs(), ["a"], ["c"], stamp);
      && WellFormed(fs) && MoveOk(fs, ["a"], ["c"]) && WellFormed(fs1) && MoveOk(fs1, ["b"], ["a"])
      && ["b", "f"] in fs1 && fs1[["b", "f"]] == File("y", 0, 0)
  {
    var fs := TwoDirs();
    FirstMoveOk();
    MovedWellFormed(fs, ["a"], ["c"], stamp);
    MovedEntry(fs, ["a"], ["c"], stamp, []);
    MovedEntry(fs, ["a"], ["c"], stamp, ["a"]);
    MovedEntry(fs, ["a"], ["c"], stamp, ["b"]);
    MovedEntry(fs, ["a"], ["c"], stamp, ["b", "f"]);
  }

  /** The second takes its place. */
  lemma {:induction false} SecondMove(fs: FileSystem, stamp: int)
    requires WellFormed(fs) && MoveOk(fs, ["b"], ["a"]) && ["b", "f"] in fs && fs[["b", "f"]] == File("y", 0, 0)
    ensures var fs' := Moved(fs, ["b"], ["a"], stamp);
      && ["a", "f"] in fs' && fs'[["a", "f"]] == File("y", 0, 0)
      && ["a", "f"] in Sources(fs', PlainRules(), [])
  {
    var fs' := Moved(fs, ["b"], ["a"], stamp);
    assert ["a"][0] == "a" && ["b"][0] == "b" && ["a", "f"][0] == "a";
    assert Parent(["a"]) == [] && Parent(["a", "f"]) == ["a"] && Parent(["b"]) == [];
    MovedWellFormed(fs, ["b"], ["a"], stamp);
    MovedEntry(fs, ["b"], ["a"], stamp, ["a", "f"]);
    assert ["b"] + ["a", "f"][1..] == ["b", "f"];
    assert Visited(fs', PlainRules(), [], []);
    assert Visited(fs', PlainRules(), [], ["a"]);
  }

  function AfterMoves(env: Env, w: World, t: int): World
    requires env.tick >= 1
  {
    var fs1 := Moved(w.fs, ["a"], ["c"], Stamp(t, env.tick));
    w.(fs := Moved(fs1, ["b"], ["a"], Stamp(t, env.tick)), latest := t)
  }

  lemma {:induction false} TwoMoves(env: Env, w: World, t: int)
    requires env.tick >= 1 && env.permits.moves && w.fs == TwoDirs() && w.latest == t
    ensures Next(env, Next(env, w, Moves(t, ["a"], ["c"])), Moves(t, ["b"], ["a"])) == AfterMoves(env, w, t)
    ensures var fs' := AfterMoves(env, w, t).fs;
      && ["a", "f"] in fs' && fs'[["a", "f"]] == File("y", 0, 0)
      && ["a", "f"] in Sources(fs', PlainRules(), [])
  {
    FirstMove(Stamp(t, env.tick));
    SecondMove(Moved(TwoDirs(), ["a"], ["c"], Stamp(t, env.tick)), Stamp(t, env.tick));
  }

  /** Two directories change places by renames; their files have equal stamps and sizes. A fingerprint without a
      digest takes the new file for the old one. */
  lemma {:induction false} SwapMissed(env: Env, w: World, clock: Path -> int, t: int)
    requires env.tick >= 1 && env.rules == PlainRules() && env.permits.moves
    requires w.fs == TwoDirs() && w.latest == t && (forall p :: clock(p) == t) && w.files.Some? && w.dirs.Some?
    requires ["a", "f"] in w.files.value && w.files.value[["a", "f"]] == FilePrint(0, 0, 1, None)
    requires ["a", "f"] in w.view && w.view[["a", "f"]] == "x"
    ensures var w2 := Next(env, Next(env, w, Moves(t, ["a"], ["c"])), Moves(t, ["b"], ["a"]));
      Enabled(env, w2, Polls(clock, t, t)) && !Current(env, Next(env, w2, Polls(clock, t, t)))
  {
    TwoMoves(env, w, t);
    StaleCopyStays(env, AfterMoves(env, w, t), ["a", "f"], clock, t);
  }

  /** A moment at which the stamps of `TwoDirs` are outside the hash window and of an earlier tick. */
  function LongAfter(env: Env): int {
    env.settings.window + 1 + env.tick
  }

  /** What the first poll records. */
  lemma {:induction false} FirstPoll(env: Env, fs: FileSystem, clock: Path -> int, t: int, p: Path)
    requires env.tick >= 1 && 0 <= t && (forall d :: clock(d) <= t)
    requires p in Sources(fs, env.rules, []) && MarkAt(env.settings, fs, map[], t, p).Some?
    ensures var w := Next(env, Start(fs, 0), Polls(clock, t, t));
      && w.fs == w.base == fs && w.latest == t && w.files.Some? && w.dirs.Some?
      && p in w.files.value && Some(w.files.value[p]) == MarkAt(env.settings, fs, map[], t, p)
      && p in w.view && w.view[p] == Content(fs, p)
      && (forall d :: Visited(fs, env.rules, [], d) && fs[d].Dir? ==> d in w.dirs.value)
  {
  }

  lemma {:induction false} TwoDirsPoll(env: Env, clock: Path -> int, t: int)
    requires env.tick >= 1 && env.rules == PlainRules() && t == LongAfter(env) && (forall d :: clock(d) == t)
    ensures WellFormed(TwoDirs())
    ensures var w := Next(env, Start(TwoDirs(), 0), Polls(clock, t, t)); var p := ["a", "f"];
      && w.fs == w.base == TwoDirs() && w.latest == t && w.files.Some? && w.dirs.Some?
      && p in w.files.value && w.files.value[p] == FilePrint(0, 0, 1, if env.settings.strict then Some("x") else None)
      && p in w.view && w.view[p] == "x" && [] in w.dirs.value && ["a"] in w.dirs.value
  {
    var fs, p := TwoDirs(), ["a", "f"];
    TwoDirsTree();
    assert fs[p] == File("x", 0, 0);
    assert Visited(fs, PlainRules(), [], []);
    FirstPoll(env, fs, clock, t, p);
  }

  function MoveEvents(t: int): seq<Event> {
    [Polls(Steady(t), t, t), Moves(t, ["a"], ["c"]), Moves(t, ["b"], ["a"])]
  }

  /** When not everything is hashed, a poll misses two directories that change places by renames. */
  lemma {:induction false} MoveMissed(env: Env)
    requires env.tick >= 1 && env.rules == PlainRules() && !env.settings.strict && env.permits.moves
    ensures Misses(env, TwoDirs(), MoveEvents(LongAfter(env)), LongAfter(env))
  {
    var t, w0 := LongAfter(env), Start(TwoDirs(), 0);
    var e1 := Polls(Steady(t), t, t);
    TwoDirsPoll(env, Steady(t), t);
    ThreeSteps(env, w0, e1, Moves(t, ["a"], ["c"]), Moves(t, ["b"], ["a"]));
    SwapMissed(env, Next(env, w0, e1), Steady(t), t);
  }

  function AnnouncedMoveEvents(t: int): seq<Event> {
    [Polls(Steady(t), t, t), Announces(["a", "f"], Steady(t), t), Moves(t, ["a"], ["c"])] + [Moves(t, ["b"], ["a"])]
  }

  /** Even with everything hashed it does for an announced file, whose fingerprint has no digest. */
  lemma {:induction false} AnnouncedMoveMissed(env: Env)
    requires env.tick >= 1 && env.rules == PlainRules() && env.permits.moves && env.permits.announcements
    requires env.settings.strict
    ensures Misses(env, TwoDirs(), AnnouncedMoveEvents(LongAfter(env)), LongAfter(env))
  {
    var t, w0, p := LongAfter(env), Start(TwoDirs(), 0), ["a", "f"];
    var e1, e2, e3 := Polls(Steady(t), t, t), Announces(p, Steady(t), t), Moves(t, ["a"], ["c"]);
    TwoDirsPoll(env, Steady(t), t);
    var w1 := Next(env, w0, e1);
    AnnouncedLater(env, w1, Steady(t), t);
    ThreeSteps(env, w0, e1, e2, e3);
    RunStep(env, w0, [e1, e2, e3], Moves(t, ["b"], ["a"]));
    SwapMissed(env, Next(env, w1, e2), Steady(t), t);
  }

  lemma {:induction false} AnnouncedLater(env: Env, w: World, clock: Path -> int, t: int)
    requires env.tick >= 1 && env.rules == PlainRules() && env.permits.announcements
    requires w.fs == w.base == TwoDirs() && w.latest == t == LongAfter(env) && (forall d :: clock(d) == t)
    requires w.files.Some? && w.dirs.Some? && [] in w.dirs.value && ["a"] in w.dirs.value
    ensures var p := ["a", "f"]; var w' := Next(env, w, Announces(p, clock, t));
      && w'.fs == TwoDirs() && w'.latest == t && w'.files.Some? && w'.dirs.Some?
      && p in w'.files.value && w'.files.value[p] == FilePrint(0, 0, 1, None)
      && p in w'.view && w'.view[p] == "x"
  {
    var p := ["a", "f"];
    assert p[..0] == [] && p[..1] == ["a"];
    AnnouncedAlone(env, w, p);
    StampMonotone(t, t, env.tick);
    KnownFile(env, w, p, clock, t);
    assert Enabled(env, w, Announces(p, clock, t));
  }

  // ---- the exact condition ----

  lemma {:induction false} ReliableIsEnough(env: Env, fs: FileSystem, start: int, events: seq<Event>,
                                            clock: Path -> int, now: int, until: int)
    requires env.tick >= 1 && Reliable(env.settings, env.tick, env.permits) && WellFormed(fs)
    ensures CurrentAfter(env, fs, start, events, clock, now, until)
  {
    RunInv(env, Start(fs, start), events);
    PollCurrent(env, Run(env, Start(fs, start), events), clock, now, until);
  }

  lemma {:induction false} ReliableIsAlwaysCurrent(settings: Settings, tick: int, permits: Permits)
    requires tick >= 1 && Reliable(settings, tick, permits)
    ensures AlwaysCurrent(settings, tick, permits)
  {
    forall rules, fs, start, events: seq<Event>, clock, now, until | WellFormed(fs)
      ensures CurrentAfter(Env(settings, rules, tick, permits), fs, start, events, clock, now, until)
    {
      ReliableIsEnough(Env(settings, rules, tick, permits), fs, start, events, clock, now, until);
    }
  }

  lemma {:induction false} MovesRefute(env: Env)
    requires env.tick >= 1 && env.rules == PlainRules() && env.permits.moves
    requires !env.settings.strict || env.permits.announcements
    ensures !AlwaysCurrent(env.settings, env.tick, env.permits)
  {
    if env.settings.strict {
      AnnouncedMoveMissed(env);
      Refuted(env, TwoDirs(), AnnouncedMoveEvents(LongAfter(env)), LongAfter(env));
    } else {
      MoveMissed(env);
      Refuted(env, TwoDirs(), MoveEvents(LongAfter(env)), LongAfter(env));
    }
  }

  lemma {:induction false} LongTickRefutes(env: Env)
    requires env.tick >= 1 && env.rules == PlainRules() && !env.settings.strict && env.settings.window + 1 < env.tick
    ensures !AlwaysCurrent(env.settings, env.tick, env.permits)
  {
    var t := env.settings.window + 1;
    LongTickMissesEdit(env, t);
    Refuted(env, OneFile("x"), LongTickEvents(t), t);
  }

  lemma {:induction false} AnnouncementsRefute(env: Env)
    requires env.tick >= 1 && env.rules == PlainRules() && env.permits.announcements
    requires env.permits.hasty || env.permits.crowded
    ensures !AlwaysCurrent(env.settings, env.tick, env.permits)
  {
    if env.permits.hasty {
      HastyAnnouncementMissed(env);
      Refuted(env, OneFile("x"), HastyEvents(), 0);
    } else {
      CrowdedAnnouncementMissed(env);
      Refuted(env, OneFile("x"), CrowdedEvents(env.tick), env.tick);
    }
  }

  /** With a clock that never goes back, after every poll of every run the server's view is the discovered files with
      their contents, exactly when everything is hashed, or directories are not moved and the clock tick exceeds the
      hash window by at most one unit; and edits are announced, if at all, without moves, one at a time and with
      settled stamps. */
  lemma {:induction false} PollsAlwaysCurrentIff(settings: Settings, tick: int, permits: Permits)
    requires tick >= 1
    ensures AlwaysCurrent(settings, tick, permits) <==> Reliable(settings, tick, permits)
  {
    if Reliable(settings, tick, permits) {
      ReliableIsAlwaysCurrent(settings, tick, permits);
    } else {
      var env := Env(settings, PlainRules(), tick, permits);
      if permits.moves && (!settings.strict || permits.announcements) {
        MovesRefute(env);
      } else if permits.announcements && (permits.hasty || permits.crowded) {
        AnnouncementsRefute(env);
      } else {
        LongTickRefutes(env);
      }
    }
  }

  // ---- one announcement ----

  /** Whatever permitted events follow, the next poll leaves the server's view right. */
  ghost predicate TrustedFrom(env: Env, w: World)
    requires env.tick >= 1
  {
    forall events: seq<Event>, clock, now, until :: Enabled(env, Run(env, w, events), Polls(clock, now, until)) ==>
      Current(env, Next(env, Run(env, w, events), Polls(clock, now, until)))
  }

  function OtherContent(content: string): (other: string)
    requires content != ""
    ensures |other| == |content| && other != content
  {
    var c := if content[0] == 'x' then 'y' else 'x';
    assert content[0 := c][0] != content[0];
    content[0 := c]
  }

  /** Within the tick of its stamp an announced edit can be overwritten unseen. */
  lemma {:induction false} UnsettledEditMissed(env: Env, w: World, p: Path, clock: Path -> int, until: int)
    requires env.tick >= 1 && Inv(env, w) && OnlyChange(env, w, p)
    requires w.latest <= until && !Settled(env, w, p, until) && w.fs[p].ctime <= Stamp(until, env.tick)
    ensures !TrustedFrom(env, Known(env, w, p, clock, until))
  {
    var w0 := Known(env, w, p, clock, until);
    var fs' := w.fs[p := w.fs[p].(content := OtherContent(w.fs[p].content))];
    var steady: Path -> int := _ => until;
    SameTreeEdit(env, w.fs, fs', p, until);
    var e := Edits(until, fs');
    var w1 := w0.(fs := fs');
    assert Next(env, w0, e) == w1;
    RunStep(env, w0, [], e);
    assert [] + [e] == [e];
    SourceInChain(env, w, p);
    ListingsDetermineScan(w.fs, fs', env.rules);
    StaleCopyStays(env, w1, p, steady, until);
    Distrust(env, w0, [e], steady, until, until);
  }

  lemma {:induction false} Distrust(env: Env, w: World, events: seq<Event>, clock: Path -> int, now: int, until: int)
    requires env.tick >= 1 && Enabled(env, Run(env, w, events), Polls(clock, now, until))
    requires !Current(env, Next(env, Run(env, w, events), Polls(clock, now, until)))
    ensures !TrustedFrom(env, w)
  {
  }

  lemma {:induction false} SameTreeEdit(env: Env, fs: FileSystem, fs': FileSystem, p: Path, t: int)
    requires env.tick >= 1 && WellFormed(fs) && IsFile(fs, p) && p != []
    requires p in fs' && fs' == fs[p := fs'[p]] && fs'[p].File? && fs'[p].ctime == Stamp(t, env.tick)
    ensures EditOk(fs, fs', t, env.tick) && WellFormed(fs')
    ensures forall d :: Listing(fs, d) == Listing(fs', d)
  {
    forall d ensures Listing(fs, d) == Listing(fs', d) {
      assert Children(fs, d) == Children(fs', d);
      assert forall x :: x in Children(fs, d) ==> KindOf(fs[x]) == KindOf(fs'[x]);
    }
    forall x | x in fs' ensures Untouched(fs, fs', x) || fs'[x].ctime == Stamp(t, env.tick) {
    }
  }

  lemma {:induction false} SourceInChain(env: Env, w: World, p: Path)
    requires env.tick >= 1 && Inv(env, w) && OnlyChange(env, w, p) && IsFile(w.fs, p)
    ensures p in Sources(w.fs, env.rules, [])
  {
    assert forall k :: 0 <= k < |p| ==> p[..k] in VisitedDirs(w.base, env.rules, []);
    ChainVisited(env, w, p, |p| - 1);
    assert p[..|p| - 1] == Parent(p);
  }

  lemma {:induction false} ChainVisited(env: Env, w: World, p: Path, k: nat)
    requires env.tick >= 1 && Inv(env, w) && OnlyChange(env, w, p) && k < |p|
    ensures Visited(w.fs, env.rules, [], p[..k])
    decreases k
  {
    assert p[..k] in VisitedDirs(w.base, env.rules, []);
    if k > 0 {
      ChainVisited(env, w, p, k - 1);
      assert Parent(p[..k]) == p[..k - 1];
    }
  }

  /** An announced edit of the only changed file in its chain leaves every later poll right, whatever else is
      edited or announced, exactly when the clock tick of the file's stamp has passed or the file is empty or gone. */
  lemma {:induction false} KnownChangeSafeIff(env: Env, w: World, p: Path, clock: Path -> int, until: int)
    requires env.tick >= 1 && Reliable(env.settings, env.tick, env.permits) && !env.permits.moves
    requires Inv(env, w) && OnlyChange(env, w, p)
    requires w.latest <= until && (forall d :: clock(d) <= until)
    requires IsFile(w.fs, p) ==> w.fs[p].ctime <= Stamp(until, env.tick)
    ensures TrustedFrom(env, Known(env, w, p, clock, until)) <==> Settled(env, w, p, until)
  {
    var w0 := Known(env, w, p, clock, until);
    if Settled(env, w, p, until) {
      KnownChangeInv(env, w, p, clock, until);
      forall events: seq<Event>, c, now, u | Enabled(env, Run(env, w0, events), Polls(c, now, u))
        ensures Current(env, Next(env, Run(env, w0, events), Polls(c, now, u)))
      {
        RunInv(env, w0, events);
        PollCurrent(env, Run(env, w0, events), c, now, u);
      }
    } else {
      UnsettledEditMissed(env, w, p, clock, until);
    }
  }
}
