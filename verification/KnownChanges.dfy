/** Edits the server makes itself: recorded without a scan, and when later polls can still be trusted. */
module KnownChanges {
  import opened Options
  import opened SourceTree
  import opened ChangeNotifier
  import opened NotifierRuns

  /** Every directory of the chain is renewed once, from its own old fingerprint; no other is touched. */
  lemma {:induction false} ChainRefreshed(s: Settings, fs: FileSystem, dirs: map<Path, DirPrint>, d: Path,
                                          clock: Path -> int)
    requires forall k :: 0 <= k <= |d| ==> d[..k] in dirs && d[..k] in fs && fs[d[..k]].Dir?
    ensures var dirs' := RefreshChain(s, fs, dirs, d, clock);
      && dirs'.Keys == dirs.Keys
      && (forall k :: 0 <= k <= |d| ==>
            DirectoryFingerprint(s, fs, d[..k], dirs[d[..k]].digest, clock(d[..k])).Some?
            && dirs'[d[..k]] == DirectoryFingerprint(s, fs, d[..k], dirs[d[..k]].digest, clock(d[..k])).value.0)
      && (forall x :: x in dirs && (forall k :: 0 <= k <= |d| ==> x != d[..k]) ==> dirs'[x] == dirs[x])
    decreases |d|
  {
    assert d[..|d|] == d;
    var here := RefreshDir(s, fs, dirs, d, clock);
    assert d in dirs && DirectoryFingerprint(s, fs, d, dirs[d].digest, clock(d)).Some?;
    assert here.Keys == dirs.Keys;
    if d != [] {
      assert forall k :: 0 <= k <= |Parent(d)| ==> Parent(d)[..k] == d[..k];
      ChainRefreshed(s, fs, here, Parent(d), clock);
    }
  }

  /** No directory outside the chain is touched. */
  lemma {:induction false} ChainFrame(s: Settings, fs: FileSystem, dirs: map<Path, DirPrint>, d: Path,
                                      clock: Path -> int, x: Path)
    requires forall k :: 0 <= k <= |d| ==> x != d[..k]
    ensures var dirs' := RefreshChain(s, fs, dirs, d, clock);
      (x in dirs' <==> x in dirs) && (x in dirs' ==> dirs'[x] == dirs[x])
    decreases |d|
  {
    assert d[..|d|] == d;
    if d != [] {
      assert forall k :: 0 <= k <= |Parent(d)| ==> Parent(d)[..k] == d[..k];
      ChainFrame(s, fs, RefreshDir(s, fs, dirs, d, clock), Parent(d), clock, x);
    }
  }

  /** After an announcement a directory of the chain is watched exactly when it can be read, under a fingerprint taken
      now from its own old one; whatever was watched before. */
  lemma {:induction false} ChainRenewed(s: Settings, fs: FileSystem, dirs: map<Path, DirPrint>, d: Path,
                                        clock: Path -> int, k: nat)
    requires k <= |d|
    ensures var x := d[..k]; var dirs' := RefreshChain(s, fs, dirs, d, clock);
      var mark := DirectoryFingerprint(s, fs, x, if x in dirs then dirs[x].digest else None, clock(x));
      (x in dirs' <==> mark.Some?) && (x in dirs' ==> dirs'[x] == mark.value.0)
    decreases |d|
  {
    assert d[..|d|] == d;
    if d != [] {
      var here := RefreshDir(s, fs, dirs, d, clock);
      if k == |d| {
        ChainFrame(s, fs, here, Parent(d), clock, d);
      } else {
        assert Parent(d)[..k] == d[..k] && d[..k] != d;
        ChainRenewed(s, fs, here, Parent(d), clock, k);
      }
    }
  }

  lemma {:induction false} RebasedListing(w: World, p: Path, d: Path)
    requires p != [] && d != Parent(p)
    ensures Listing(Rebased(w, p), d) == Listing(w.base, d)
  {
    assert Children(Rebased(w, p), d) == Children(w.base, d);
  }

  lemma {:induction false} RebasedWellFormed(env: Env, w: World, p: Path)
    requires env.tick >= 1 && Inv(env, w) && OnlyChange(env, w, p)
    ensures WellFormed(Rebased(w, p)) && Visited(w.base, env.rules, [], Parent(p))
  {
    assert p[..|p| - 1] == Parent(p);
    assert Visited(w.base, env.rules, [], Parent(p));
    VisitedIsDir(w.base, env.rules, Parent(p));
  }

  /** A file has no children, so the tree of directories is the same before and after. */
  lemma {:induction false} RebasedTree(env: Env, w: World, p: Path)
    requires env.tick >= 1 && Inv(env, w) && OnlyChange(env, w, p)
    ensures WellFormed(Rebased(w, p))
    ensures VisitedDirs(Rebased(w, p), env.rules, []) == VisitedDirs(w.base, env.rules, [])
    ensures Sources(Rebased(w, p), env.rules, []) ==
              if IsFile(w.fs, p) then Sources(w.base, env.rules, []) + {p} else Sources(w.base, env.rules, []) - {p}
  {
    RebasedWellFormed(env, w, p);
    RebasedScan(env.rules, w.base, w.fs, Rebased(w, p), p);
  }

  lemma {:induction false} RebasedScan(rules: Rules, base: FileSystem, fs: FileSystem, base': FileSystem, p: Path)
    requires p != [] && (p in base ==> !base[p].Dir?)
             && base' == (if IsFile(fs, p) then base[p := fs[p]] else base - {p})
    requires Visited(base, rules, [], Parent(p)) && (IsFile(fs, p) ==> Wanted(rules, p, fs[p]))
    ensures VisitedDirs(base', rules, []) == VisitedDirs(base, rules, [])
    ensures Sources(base', rules, []) ==
              if IsFile(fs, p) then Sources(base, rules, []) + {p} else Sources(base, rules, []) - {p}
  {
    forall d ensures Visited(base', rules, [], d) <==> Visited(base, rules, [], d) {
      RebasedVisited(rules, base, fs, base', p, d);
    }
    assert forall d :: Visited(base', rules, [], d) ==> d in base';
    assert forall d :: Visited(base, rules, [], d) ==> d in base;
  }

  lemma {:induction false} VisitedIsDir(fs: FileSystem, rules: Rules, d: Path)
    requires WellFormed(fs) && Visited(fs, rules, [], d)
    ensures fs[d].Dir?
  {
  }

  lemma {:induction false} RebasedVisited(rules: Rules, base: FileSystem, fs: FileSystem, base': FileSystem, p: Path,
                                          d: Path)
    requires p != [] && (p in base ==> !base[p].Dir?)
             && base' == (if IsFile(fs, p) then base[p := fs[p]] else base - {p})
    ensures Visited(base', rules, [], d) <==> Visited(base, rules, [], d)
    decreases |d|
  {
    if d != [] {
      RebasedVisited(rules, base, fs, base', p, Parent(d));
    }
  }

  lemma {:induction false} KnownDirs(env: Env, w: World, p: Path, clock: Path -> int, until: int)
    requires env.tick >= 1 && Covers(env) && Inv(env, w) && OnlyChange(env, w, p)
    requires w.latest <= until && (forall d :: clock(d) <= until)
    ensures var dirs' := RefreshChain(env.settings, w.fs, w.dirs.value, Parent(p), clock);
      && dirs'.Keys == w.dirs.value.Keys
      && forall d :: d in dirs' ==>
           && GoodDir(w.fs, d, dirs'[d], Listing(Rebased(w, p), d))
           && LastingDir(dirs'[d], Listing(Rebased(w, p), d), until, env.tick)
  {
    var chain, dirs := Parent(p), w.dirs.value;
    assert forall k :: 0 <= k <= |chain| ==> chain[..k] == p[..k];
    ChainRefreshed(env.settings, w.fs, dirs, chain, clock);
    var dirs' := RefreshChain(env.settings, w.fs, dirs, chain, clock);
    StampMonotone(w.latest, until, env.tick);
    forall d | d in dirs'
      ensures GoodDir(w.fs, d, dirs'[d], Listing(Rebased(w, p), d))
      ensures LastingDir(dirs'[d], Listing(Rebased(w, p), d), until, env.tick)
    {
      if k :| 0 <= k <= |chain| && d == chain[..k] {
        assert d == p[..k];
        if !env.settings.strict && !Recent(env.settings, w.fs[d], clock(d)) {
          OldEnough(env, w.fs[d], clock(d), until);
        }
      } else {
        assert chain == chain[..|chain|];
        RebasedListing(w, p, d);
        assert GoodDir(w.fs, d, dirs[d], Listing(w.base, d));
        assert LastingDir(dirs[d], Listing(w.base, d), w.latest, env.tick);
      }
    }
  }

  lemma {:induction false} KnownFiles(env: Env, w: World, p: Path, until: int)
    requires env.tick >= 1 && Inv(env, w) && OnlyChange(env, w, p) && w.latest <= until && Settled(env, w, p, until)
    ensures var files' := KnownPrints(w.fs, w.files.value, p);
      var view' := if IsFile(w.fs, p) then w.view[p := w.fs[p].content] else w.view - {p};
      && files'.Keys == view'.Keys
      && forall x :: x in view' ==>
           Good(w.fs, x, files'[x], view'[x]) && Lasting(files'[x], view'[x], until, env.tick)
  {
    StampMonotone(w.latest, until, env.tick);
    forall x | x in w.view && x != p
      ensures Good(w.fs, x, w.files.value[x], w.view[x]) && Lasting(w.files.value[x], w.view[x], until, env.tick)
    {
      assert Lasting(w.files.value[x], w.view[x], w.latest, env.tick);
    }
  }

  /** Announcing an edit keeps the baseline trustworthy when the edited file's stamp is settled. */
  lemma {:induction false} KnownChangeInv(env: Env, w: World, p: Path, clock: Path -> int, until: int)
    requires env.tick >= 1 && Covers(env) && Inv(env, w) && OnlyChange(env, w, p)
    requires w.latest <= until && (forall d :: clock(d) <= until) && Settled(env, w, p, until)
    ensures Inv(env, Known(env, w, p, clock, until))
  {
    if KnownChange(w.fs, w.files.value, p).None? {
      StampMonotone(w.latest, until, env.tick);
      assert EditOk(w.fs, w.fs, until, env.tick);
      EditInv(env, w, until, w.fs);
    } else {
      RebasedTree(env, w, p);
      KnownDirs(env, w, p, clock, until);
      KnownFiles(env, w, p, until);
    }
  }
}
