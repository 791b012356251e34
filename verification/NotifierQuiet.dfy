/** What a poll leaves unsaid: files that stayed as they were are not reported, and what is recorded of the others. */
module NotifierQuiet {
  import opened Options
  import opened SourceTree
  import opened ChangeNotifier
  import opened NotifierRuns
  import opened NotifierTheorems

  lemma {:induction false} QuietFile(env: Env, w: World, clock: Path -> int, now: int, p: Path)
    requires w.files.Some? && p in w.files.value && p in w.fs && MarkOf(w.files.value[p], w.fs[p])
    requires p in PolledSources(env, w, clock)
    ensures forall c :: !Names(PollEvents(env, w, clock, now), p, c)
  {
    var sources := PolledSources(env, w, clock);
    assert EventAt(env.settings, w.fs, w.files.value, now, p).None?;
    assert p in CurrentPrints(env.settings, w.fs, sources, w.files.value, now);
  }

  /** A file is discovered as long as it and the ignore rules stay, whatever happens to the directories above it. */
  lemma {:induction false} DirsStayVisited(fs: FileSystem, fs': FileSystem, rules: Rules, d: Path)
    requires WellFormed(fs') && d in fs' && fs'[d].Dir? && Visited(fs, rules, [], d)
    ensures Visited(fs', rules, [], d)
    decreases |d|
  {
    if d != [] {
      DirsStayVisited(fs, fs', rules, Parent(d));
    }
  }

  lemma {:induction false} SourceStays(fs: FileSystem, fs': FileSystem, rules: Rules, p: Path)
    requires WellFormed(fs') && p in Sources(fs, rules, []) && p in fs' && fs'[p] == fs[p]
    ensures p in Sources(fs', rules, [])
  {
    DirsStayVisited(fs, fs', rules, Parent(p));
  }

  lemma {:induction false} RunWellFormed(env: Env, w: World, events: seq<Event>)
    requires env.tick >= 1 && WellFormed(w.fs)
    ensures WellFormed(Run(env, w, events).fs)
  {
    if events != [] {
      var before, e := Run(env, w, events[..|events| - 1]), events[|events| - 1];
      RunWellFormed(env, w, events[..|events| - 1]);
      if e.Moves? && Enabled(env, before, e) {
        MovedWellFormed(before.fs, e.src, e.dst, Stamp(e.t, env.tick));
      }
    }
  }

  /** The event takes the fingerprint of `p`. */
  ghost predicate Notes(env: Env, w: World, e: Event, p: Path)
    requires env.tick >= 1
  {
    && Enabled(env, w, e)
    && match e
       case Polls(_, _, _) => p in Next(env, w, e).files.value
       case Announces(q, _, _) => q == p && IsFile(w.fs, p)
       case _ => false
  }

  lemma {:induction false} NotedMark(env: Env, w: World, e: Event, p: Path)
    requires env.tick >= 1 && Notes(env, w, e, p) && IsFile(w.fs, p)
    ensures var w' := Next(env, w, e);
      w'.fs == w.fs && w'.files.Some? && p in w'.files.value && MarkOf(w'.files.value[p], w.fs[p])
  {
  }

  /** No poll, and no announcement of `p`. */
  predicate Silent(events: seq<Event>, p: Path) {
    forall i :: 0 <= i < |events| ==> !events[i].Polls? && !(events[i].Announces? && events[i].p == p)
  }

  lemma {:induction false} MarkStays(env: Env, w: World, events: seq<Event>, p: Path)
    requires env.tick >= 1 && Silent(events, p) && w.files.Some? && p in w.files.value
    ensures var w' := Run(env, w, events);
      w'.files.Some? && p in w'.files.value && w'.files.value[p] == w.files.value[p]
  {
    if events != [] {
      assert Silent(events[..|events| - 1], p);
      MarkStays(env, w, events[..|events| - 1], p);
      StepKeepsMark(env, Run(env, w, events[..|events| - 1]), events[|events| - 1], p);
    }
  }

  lemma {:induction false} StepKeepsMark(env: Env, w: World, e: Event, p: Path)
    requires env.tick >= 1 && !e.Polls? && !(e.Announces? && e.p == p) && w.files.Some? && p in w.files.value
    ensures var w' := Next(env, w, e);
      w'.files.Some? && p in w'.files.value && w'.files.value[p] == w.files.value[p]
  {
  }

  /** A poll names no file that is as it was when it was last polled or announced, whatever was edited, moved or
      announced in between, itself included. */
  lemma {:induction false} UnchangedIsNotNamed(
    env: Env, w0: World, e: Event, between: seq<Event>, clock: Path -> int, now: int, p: Path)
    requires env.tick >= 1 && WellFormed(w0.fs) && Notes(env, w0, e, p) && p in Sources(w0.fs, env.rules, [])
    requires Silent(between, p)
    requires var w := Run(env, Next(env, w0, e), between); p in w.fs && w.fs[p] == w0.fs[p]
    ensures var w := Run(env, Next(env, w0, e), between);
      forall c :: !Names(PollEvents(env, w, clock, now), p, c)
  {
    var w1 := Next(env, w0, e);
    var w := Run(env, w1, between);
    NotedMark(env, w0, e, p);
    MarkStays(env, w1, between, p);
    RunWellFormed(env, w1, between);
    SourceStays(w0.fs, w.fs, env.rules, p);
    QuietFile(env, w, clock, now, p);
  }

  /** In runs that can be relied on, a second poll of the same tree reports nothing at all. */
  lemma {:induction false} SecondPollIsSilent(
    env: Env, fs: FileSystem, start: int, pre: seq<Event>, e: Event, between: seq<Event>, clock: Path -> int, now: int)
    requires env.tick >= 1 && Reliable(env.settings, env.tick, env.permits) && WellFormed(fs)
    requires e.Polls? && Enabled(env, Run(env, Start(fs, start), pre), e)
    requires forall p :: Silent(between, p)
    requires var w0 := Run(env, Start(fs, start), pre); Run(env, Next(env, w0, e), between).fs == w0.fs
    ensures PollEvents(env, Run(env, Next(env, Run(env, Start(fs, start), pre), e), between), clock, now) == {}
  {
    var w0 := Run(env, Start(fs, start), pre);
    var w1 := Next(env, w0, e);
    var w := Run(env, w1, between);
    RunInv(env, Start(fs, start), pre);
    NextTrusted(env, w0, e);
    RunInv(env, w1, between);
    SourcesPolled(env, w0, e.clock);
    forall p, c ensures !Names(PollEvents(env, w, clock, now), p, c) {
      if p in Sources(w0.fs, env.rules, []) {
        MarkStays(env, w1, between, p);
        UnchangedIsNotNamed(env, w0, e, between, clock, now, p);
      } else {
        SourcesPolled(env, w, clock);
        SameFiles(env, w1, between);
      }
    }
    assert forall x :: x in PollEvents(env, w, clock, now) ==> Names(PollEvents(env, w, clock, now), x.0, x.1);
  }

  lemma {:induction false} SameFiles(env: Env, w: World, events: seq<Event>)
    requires env.tick >= 1 && (forall p :: Silent(events, p)) && w.files.Some?
    ensures Run(env, w, events).files == w.files && Run(env, w, events).dirs == w.dirs
  {
    if events != [] {
      var last := events[|events| - 1];
      assert last.Announces? ==> !Silent(events, last.p);
      var before := events[..|events| - 1];
      forall p ensures Silent(before, p) {
        assert Silent(events, p);
      }
      SameFiles(env, w, before);
      assert Silent(events, []);
    }
  }

  /** Nor does it scan: when the tree is as the last poll found it, no watched directory looks changed. */
  lemma {:induction false} QuietTreeIsNotScanned(
    env: Env, w0: World, e: Event, between: seq<Event>, clock: Path -> int)
    requires env.tick >= 1 && Enabled(env, w0, e) && e.Polls? && forall p :: Silent(between, p)
    requires var w := Run(env, Next(env, w0, e), between);
      && w.fs == w0.fs && w.dirs.Some?
      && forall d :: d in w.dirs.value ==> d in w.fs && w.fs[d].Dir?
    ensures var w := Run(env, Next(env, w0, e), between); TreeStable(env.settings, w.fs, w.dirs.value, clock)
  {
    var w1 := Next(env, w0, e);
    SameFiles(env, w1, between);
    forall d | d in w1.dirs.value ensures DirStable(env.settings, w0.fs, d, w1.dirs.value[d], clock(d)) {
      PollRecords(env, w0, e.clock, e.now, e.until, d);
    }
  }

  // ---- what is recorded ----

  /** A digest is kept exactly when everything is hashed or a stamp lies within the window; without one the next poll
      reads nothing of a file or directory whose stamps are old. */
  predicate KeepsDigest(s: Settings, node: Node, clock: int) {
    s.strict || clock - node.mtime <= s.window || clock - node.ctime <= s.window
  }

  lemma {:induction false} PollRecords(env: Env, w: World, clock: Path -> int, now: int, until: int, p: Path)
    requires env.tick >= 1 && Enabled(env, w, Polls(clock, now, until))
    ensures var w' := Next(env, w, Polls(clock, now, until));
      && (p in PolledSources(env, w, clock) && IsFile(w.fs, p) ==>
            && p in w'.files.value
            && w'.files.value[p] == FilePrint(w.fs[p].mtime, w.fs[p].ctime, |w.fs[p].content|,
                                              if KeepsDigest(env.settings, w.fs[p], now) then Some(w.fs[p].content)
                                              else None))
      && (p in w'.dirs.value && p in w.fs && w.fs[p].Dir? ==>
            w'.dirs.value[p] == DirPrint(w.fs[p].mtime, w.fs[p].ctime,
                                         if KeepsDigest(env.settings, w.fs[p], clock(p)) then Some(Listing(w.fs, p))
                                         else None))
  {
  }

  /** A tracked path that cannot be read keeps its fingerprint and is not reported. */
  lemma {:induction false} UnreadableIsKept(env: Env, w: World, clock: Path -> int, now: int, until: int, p: Path)
    requires env.tick >= 1 && Enabled(env, w, Polls(clock, now, until)) && w.files.Some? && p in w.files.value
    requires p in PolledSources(env, w, clock) && p in w.fs && !w.fs[p].File?
    requires KeepsDigest(env.settings, w.fs[p], now) || w.files.value[p].digest.Some?
    ensures var w' := Next(env, w, Polls(clock, now, until));
      p in w'.files.value && w'.files.value[p] == w.files.value[p]
    ensures forall c :: !Names(PollEvents(env, w, clock, now), p, c)
  {
    assert p in CurrentPrints(env.settings, w.fs, PolledSources(env, w, clock), w.files.value, now);
  }

  /** Without a digest to compare or to keep nothing is read, and the stamps are all that counts. */
  lemma {:induction false} OldStampsAreNotRead(env: Env, w: World, clock: Path -> int, now: int, until: int, p: Path)
    requires env.tick >= 1 && Enabled(env, w, Polls(clock, now, until)) && w.files.Some? && p in w.files.value
    requires p in PolledSources(env, w, clock) && p in w.fs && !w.fs[p].File?
    requires !KeepsDigest(env.settings, w.fs[p], now) && w.files.value[p].digest.None?
    ensures var node, mark := w.fs[p], w.files.value[p]; var w' := Next(env, w, Polls(clock, now, until));
      && p in w'.files.value && w'.files.value[p] == FilePrint(node.mtime, node.ctime, 0, None)
      && (Names(PollEvents(env, w, clock, now), p, Changed) <==>
            mark.mtime != node.mtime || mark.ctime != node.ctime || mark.size != 0)
  {
    assert p in CurrentPrints(env.settings, w.fs, PolledSources(env, w, clock), w.files.value, now);
  }

  /** A watched directory that is gone, or cannot be listed when it must be, looks changed. */
  lemma {:induction false} LostDirectoryIsNoticed(
    s: Settings, fs: FileSystem, dirs: map<Path, DirPrint>, clock: Path -> int, d: Path)
    requires d in dirs
    requires d in fs ==> !fs[d].Dir? && (KeepsDigest(s, fs[d], clock(d)) || dirs[d].digest.Some?)
    ensures !TreeStable(s, fs, dirs, clock)
  {
    assert !DirStable(s, fs, d, dirs[d], clock(d));
  }

  /** What the server is told of its own edit: the difference between what it knows and what is there. */
  lemma {:induction false} AnnouncedKind(env: Env, w: World, p: Path)
    requires env.tick >= 1 && Inv(env, w)
    ensures var kind := KnownChange(w.fs, w.files.value, p);
      && (kind == Some(Created) <==> IsFile(w.fs, p) && p !in w.view)
      && (kind == Some(Changed) <==> IsFile(w.fs, p) && p in w.view)
      && (kind == Some(Deleted) <==> !IsFile(w.fs, p) && p in w.view)
  {
  }
}
