/** `InstallerRollback` and the installer steps that feed it. */
module InstallerSteps {
  import opened InstallerFiles

  // ---------------------------------------------------------------- what rollback is about

  /** The tree shrank: no path is new, and every file left has its content. */
  predicate Shrunk(old_: Tree, new_: Tree)
  {
    && new_.dirs <= old_.dirs && new_.files.Keys <= old_.files.Keys
    && forall p :: p in new_.files ==> new_.files[p] == old_.files[p]
  }

  /** Neither `q` nor anything below it is there. */
  ghost predicate Gone(t: Tree, q: Path) { forall p :: t.Exists(p) ==> !(q <= p) }

  /** A tracked path that was not there before the attempt. */
  predicate AllNew(before: Tree, tracked: seq<Path>) { forall q :: q in tracked ==> !before.Exists(q) }

  predicate AtOrBelow(tracked: seq<Path>, p: Path) { exists q :: q in tracked && q <= p }

  /** A removal below a new path takes nothing that was there before. */
  lemma RemovalKeeps(before: Tree, now: Tree, d: Path, gone: set<Path>)
    requires Closed(before) && Kept(before, now) && !before.Exists(d) && gone <= now.Subtree(d)
    ensures Kept(before, now.Without(gone)) && Shrunk(now, now.Without(gone))
  {
    forall p | before.Exists(p) ensures p !in gone {
      if d <= p { NothingBelow(before, d, p); }
    }
  }

  lemma AbsentIsGone(t: Tree, q: Path)
    requires Closed(t) && !t.Exists(q)
    ensures Gone(t, q)
  {
    forall p | t.Exists(p) ensures !(q <= p) {
      if q <= p { NothingBelow(t, q, p); }
    }
  }

  /** Nothing lies below a file. */
  lemma UnlinkedIsGone(t: Tree, f: Path)
    requires Closed(t) && f in t.files
    ensures f in t.Subtree(f) && forall p :: t.Without({f}).Exists(p) <==> t.Exists(p) && !(f <= p)
  {
    forall p | t.Exists(p) && f <= p ensures p == f {
      assert p[..|f|] == f;
    }
  }

  lemma GoneStays(t: Tree, t': Tree, removed: seq<Path>)
    requires Shrunk(t, t') && forall q :: q in removed ==> Gone(t, q)
    ensures forall q :: q in removed ==> Gone(t', q)
  {
    forall q, p | q in removed && t'.Exists(p) ensures !(q <= p) {
      assert t.Exists(p);
    }
  }

  // ---------------------------------------------------------------- the tracker

  class InstallerRollback {
    var files: seq<Path>
    var dirs: seq<Path>

    constructor ()
      ensures files == [] && dirs == []
    {
      files, dirs := [], [];
    }

    /** `track_file`. */
    method TrackFile(path: Path)
      modifies this`files
      ensures files == if path in old(files) then old(files) else old(files) + [path]
    {
      if path !in files { files := files + [path]; }
    }

    /** `track_dir`. */
    method TrackDir(path: Path)
      modifies this`dirs
      ensures dirs == if path in old(dirs) then old(dirs) else old(dirs) + [path]
    {
      if path !in dirs { dirs := dirs + [path]; }
    }

    /** The first loop of `rollback`: `failed` says whether some removal raised. */
    method RemoveFiles(fs: FileSystem, ghost before: Tree) returns (removed: seq<Path>, failed: bool)
      requires Closed(before) && Closed(fs.tree) && Kept(before, fs.tree) && AllNew(before, files)
      modifies fs
      ensures Closed(fs.tree) && Kept(before, fs.tree) && Shrunk(old(fs.tree), fs.tree)
      ensures forall q :: q in removed ==> q in files && Gone(fs.tree, q)
      ensures !failed ==> forall p :: fs.tree.Exists(p) <==> old(fs.tree).Exists(p) && !AtOrBelow(files, p)
      ensures fs.reliable && (forall f :: f in files ==> f !in old(fs.tree).dirs) ==> !failed
    {
      removed, failed := [], false;
      var i := |files|;
      while i > 0
        invariant 0 <= i <= |files|
        invariant Closed(fs.tree) && Kept(before, fs.tree) && Shrunk(old(fs.tree), fs.tree)
        invariant forall q :: q in removed ==> q in files && Gone(fs.tree, q)
        invariant !failed ==> forall p :: fs.tree.Exists(p) <==> old(fs.tree).Exists(p) && !AtOrBelow(files[i..], p)
        invariant fs.reliable && (forall f :: f in files ==> f !in old(fs.tree).dirs) ==> !failed
      {
        i := i - 1;
        var f := files[i];
        ghost var t := fs.tree;
        if fs.tree.Exists(f) {
          var ok := fs.Unlink(f);
          if ok {
            UnlinkedIsGone(t, f);
            RemovalKeeps(before, t, f, {f});
            GoneStays(t, fs.tree, removed);
            removed := removed + [f];
          } else {
            failed := true;
          }
        } else {
          AbsentIsGone(t, f);
        }
        OneMore(files, i);
      }
    }

    /** The second loop of `rollback`. */
    method RemoveDirs(fs: FileSystem, ghost before: Tree) returns (removed: seq<Path>, failed: bool)
      requires Closed(before) && Closed(fs.tree) && Kept(before, fs.tree) && AllNew(before, dirs)
      modifies fs
      ensures Closed(fs.tree) && Kept(before, fs.tree) && Shrunk(old(fs.tree), fs.tree)
      ensures forall q :: q in removed ==> q in dirs && Gone(fs.tree, q)
      ensures !failed ==> forall p :: fs.tree.Exists(p) <==> old(fs.tree).Exists(p) && !AtOrBelow(dirs, p)
      ensures fs.reliable && (forall d :: d in dirs ==> d !in old(fs.tree).files) ==> !failed
    {
      removed, failed := [], false;
      var i := |dirs|;
      while i > 0
        invariant 0 <= i <= |dirs|
        invariant Closed(fs.tree) && Kept(before, fs.tree) && Shrunk(old(fs.tree), fs.tree)
        invariant forall q :: q in removed ==> q in dirs && Gone(fs.tree, q)
        invariant !failed ==> forall p :: fs.tree.Exists(p) <==> old(fs.tree).Exists(p) && !AtOrBelow(dirs[i..], p)
        invariant fs.reliable && (forall d :: d in dirs ==> d !in old(fs.tree).files) ==> !failed
      {
        i := i - 1;
        var d := dirs[i];
        ghost var t := fs.tree;
        assert !before.Exists(d);
        if fs.tree.Exists(d) {
          var ok := fs.RemoveTree(d);
          assert forall p :: t.Without(t.Subtree(d)).Exists(p) <==> t.Exists(p) && !(d <= p);
          ghost var gone :| gone <= t.Subtree(d) && fs.tree == t.Without(gone);
          RemovalKeeps(before, t, d, gone);
          GoneStays(t, fs.tree, removed);
          if ok { removed := removed + [d]; } else { failed := true; }
        } else {
          AbsentIsGone(t, d);
        }
        OneMore(dirs, i);
      }
    }

    /** `rollback`. For every tree, whatever was tracked since `before` and whichever
        removals fail: nothing that existed before is removed, not even by a recursive
        removal; every path reported as removed is gone with all below it; and if no
        removal failed, exactly the tracked paths and what lies below them are gone. */
    method Rollback(fs: FileSystem, ghost before: Tree) returns (removed: seq<Path>, failed: bool)
      requires Closed(before) && Closed(fs.tree) && Kept(before, fs.tree) && AllNew(before, files)
               && AllNew(before, dirs)
      modifies fs
      ensures Closed(fs.tree) && Kept(before, fs.tree) && Shrunk(old(fs.tree), fs.tree)
      ensures forall q :: q in removed ==> (q in files || q in dirs) && Gone(fs.tree, q)
      ensures !failed ==> forall p :: fs.tree.Exists(p) <==>
                            old(fs.tree).Exists(p) && !AtOrBelow(files, p) && !AtOrBelow(dirs, p)
      ensures (&& fs.reliable
               && (forall f :: f in files ==> f !in old(fs.tree).dirs)
               && (forall d :: d in dirs ==> d !in old(fs.tree).files)) ==> !failed
    {
      var removedFiles, failedFiles := RemoveFiles(fs, before);
      ghost var t := fs.tree;
      var removedDirs, failedDirs := RemoveDirs(fs, before);
      GoneStays(t, fs.tree, removedFiles);
      removed := removedFiles + removedDirs;
      failed := failedFiles || failedDirs;
    }
  }

  lemma OneMore(tracked: seq<Path>, i: nat)
    requires i < |tracked|
    ensures forall p :: AtOrBelow(tracked[i..], p) <==> tracked[i] <= p || AtOrBelow(tracked[i + 1..], p)
  {
    var x, rest := tracked[i], tracked[i + 1..];
    assert tracked[i..] == [x] + rest;
    forall p ensures AtOrBelow([x] + rest, p) <==> x <= p || AtOrBelow(rest, p) {
      if x <= p { assert x in [x] + rest; }
      if AtOrBelow(rest, p) {
        var q :| q in rest && q <= p;
        assert q in [x] + rest;
      }
    }
  }

  // ---------------------------------------------------------------- the steps

  /** What the steps keep: the rollback's preconditions. */
  predicate Safe(before: Tree, now: Tree, files: seq<Path>, dirs: seq<Path>)
  {
    Closed(before) && Closed(now) && Kept(before, now) && AllNew(before, files) && AllNew(before, dirs)
  }

  predicate AtOrAbove(dirs: seq<Path>, p: Path) { exists d :: d in dirs && p <= d }

  /** What is new are the tracked files, and the tracked directories with their ancestors. */
  ghost predicate Accounted(before: Tree, now: Tree, files: seq<Path>, dirs: seq<Path>)
  {
    && (forall p :: p in now.files <==> p in before.files || p in files)
    && (forall p :: p in now.dirs <==> p in before.dirs || AtOrAbove(dirs, p))
  }

  // ---------------------------------------------------------------- what the steps will track

  /** The files and directories that a sequence of steps tracks. */
  datatype Plan = Plan(files: seq<Path>, dirs: seq<Path>)

  /** The path exists before, or once the plan is carried out. */
  predicate There(before: Tree, plan: Plan, p: Path)
  {
    before.Exists(p) || p in plan.files || AtOrAbove(plan.dirs, p)
  }

  function AddFile(before: Tree, plan: Plan, p: Path): Plan
  {
    if There(before, plan, p) then plan else plan.(files := plan.files + [p])
  }

  function AddDirs(before: Tree, plan: Plan, todo: seq<Path>): Plan
  {
    if todo == [] then plan
    else
      var n := |todo| - 1;
      var so := AddDirs(before, plan, todo[..n]);
      if There(before, so, todo[n]) then so else so.(dirs := so.dirs + [todo[n]])
  }

  const SUBDIRS := ["logs", "config", "plugins", "uploads", "diagnostics"]

  /** `dirs_to_create`. */
  function StorageDirs(storage: Path, backup: Path): seq<Path>
  {
    seq(|SUBDIRS|, (i: nat) requires i < |SUBDIRS| => storage + [SUBDIRS[i]]) + [backup]
  }

  /** Five directories below the storage directory, and the one for backups. */
  lemma SixDirectories(storage: Path, backup: Path)
    ensures StorageDirs(storage, backup) ==
            [storage + ["logs"], storage + ["config"], storage + ["plugins"], storage + ["uploads"],
             storage + ["diagnostics"], backup]
  {
  }

  datatype Step =
    | WriteEnv(path: Path, content: string)
    | WriteToml(configDir: Path, content: string)
    | Storage(storage: Path, backup: Path, dryRun: bool)
  {
    function Target(): Path
    {
      match this case WriteEnv(p, _) => p case WriteToml(d, _) => d + ["flowhub.toml"] case _ => []
    }
  }

  function AddStep(before: Tree, plan: Plan, step: Step): Plan
  {
    match step
    case Storage(storage, backup, dryRun) => if dryRun then plan
         else AddDirs(before, plan, StorageDirs(storage, backup))
    case _ => AddFile(before, plan, step.Target())
  }

  function PlanOf(before: Tree, steps: seq<Step>): Plan
  {
    if steps == [] then Plan([], []) else AddStep(before, PlanOf(before, steps[..|steps| - 1]), steps[|steps| - 1])
  }

  /** Every proper ancestor of a directory to create is there already, or lies at or below
      another one. */
  ghost predicate Prepared(before: Tree, dirs: seq<Path>)
  {
    forall d, k :: d in dirs && 0 <= k < |d| ==> d[..k] in before.dirs || AtOrBelow(dirs, d[..k])
  }

  // ---------------------------------------------------------------- the steps themselves

  /** The common part of `write_env_file` and `write_toml_config`; `sets` says whether the
      mode is changed too. */
  method WriteTracked(fs: FileSystem, rb: InstallerRollback, path: Path, content: string, sets: bool,
                      ghost before: Tree)
    returns (ok: bool)
    requires Safe(before, fs.tree, rb.files, rb.dirs)
    modifies fs, rb`files
    ensures Safe(before, fs.tree, rb.files, rb.dirs)
    ensures ok ==> path in fs.tree.files && fs.tree.files[path] == content
    ensures forall q :: q in old(fs.tree).files && q != path ==>
              q in fs.tree.files && fs.tree.files[q] == old(fs.tree).files[q]
    ensures ok && Accounted(before, old(fs.tree), old(rb.files), rb.dirs) ==>
              && Accounted(before, fs.tree, rb.files, rb.dirs)
              && rb.files == AddFile(before, Plan(old(rb.files), rb.dirs), path).files
  {
    var alreadyExisted := fs.tree.Exists(path);
    ghost var t, files := fs.tree, rb.files;
    ok := fs.WriteText(path, content);
    if ok && sets { ok := *; }
    if ok && !alreadyExisted { rb.TrackFile(path); }
    if ok && Accounted(before, t, files, rb.dirs) { ThereMeans(before, t, Plan(files, rb.dirs), path); }
  }

  lemma ThereMeans(before: Tree, now: Tree, plan: Plan, p: Path)
    requires Accounted(before, now, plan.files, plan.dirs)
    ensures now.Exists(p) <==> There(before, plan, p)
  {
  }

  lemma AccountedGrows(before: Tree, now: Tree, now': Tree, files: seq<Path>, dirs: seq<Path>, d: Path)
    requires Accounted(before, now, files, dirs) && now'.files == now.files
    requires Closed(now') && now.dirs <= now'.dirs && d in now'.dirs
    requires forall q :: q in now'.dirs && q !in now.dirs ==> q <= d
    ensures Accounted(before, now', files, dirs + [d])
  {
    forall p ensures p in now'.dirs <==> p in before.dirs || AtOrAbove(dirs + [d], p) {
      OneMoreAbove(dirs, d, p);
      if p <= d && p != d { assert d in now'.files.Keys + now'.dirs && p == d[..|p|]; }
    }
  }

  lemma OneMoreAbove(dirs: seq<Path>, d: Path, p: Path)
    ensures AtOrAbove(dirs + [d], p) <==> AtOrAbove(dirs, p) || p <= d
  {
    if AtOrAbove(dirs, p) {
      var e :| e in dirs && p <= e;
      assert e in dirs + [d];
    }
    if p <= d { assert d in dirs + [d]; }
  }

  /** `setup_storage`. */
  method SetupStorage(fs: FileSystem, rb: InstallerRollback, storage: Path, backup: Path, dryRun: bool,
                      ghost before: Tree)
    returns (ok: bool, created: seq<Path>)
    requires Safe(before, fs.tree, rb.files, rb.dirs)
    modifies fs, rb`dirs
    ensures Safe(before, fs.tree, rb.files, rb.dirs) && fs.tree.files == old(fs.tree).files
    ensures dryRun ==>
              ok && created == StorageDirs(storage, backup) && fs.tree == old(fs.tree) && rb.dirs == old(rb.dirs)
    ensures !dryRun && ok ==> forall d :: d in StorageDirs(storage, backup) ==> fs.tree.Exists(d)
    ensures !dryRun ==> forall d :: d in created ==> d in rb.dirs && !old(fs.tree).Exists(d)
    ensures ok && !dryRun && Accounted(before, old(fs.tree), rb.files, old(rb.dirs)) ==>
              && Accounted(before, fs.tree, rb.files, rb.dirs)
              && Plan(rb.files, rb.dirs) == AddDirs(before, Plan(rb.files, old(rb.dirs)), StorageDirs(storage, backup))
    ensures fs.reliable && old(fs.tree).files == map[] ==> ok
  {
    hide Closed, Accounted, There;
    var todo := StorageDirs(storage, backup);
    if dryRun { return true, todo; }
    created := [];
    ghost var plan := Plan(rb.files, rb.dirs);
    ghost var accounted := Accounted(before, fs.tree, rb.files, rb.dirs);
    for i := 0 to |todo|
      invariant Safe(before, fs.tree, rb.files, rb.dirs) && fs.tree.files == old(fs.tree).files
                && old(fs.tree).dirs <= fs.tree.dirs
      invariant forall k :: 0 <= k < i ==> fs.tree.Exists(todo[k])
      invariant forall d :: d in created ==> d in rb.dirs && !old(fs.tree).Exists(d)
      invariant accounted ==> Accounted(before, fs.tree, rb.files, rb.dirs)
      invariant accounted ==> Plan(rb.files, rb.dirs) == AddDirs(before, plan, todo[..i])
    {
      var d := todo[i];
      assert todo[..i + 1][..i] == todo[..i];
      ghost var t, tracked := fs.tree, rb.dirs;
      if accounted { ThereMeans(before, t, Plan(rb.files, tracked), d); }
      if !fs.tree.Exists(d) {
        var made := fs.MakeDirs(d);
        if !made { return false, created; }
        created := created + [d];
        if accounted {
          NotTrackedYet(before, t, rb.files, tracked, d);
          AccountedGrows(before, t, fs.tree, rb.files, tracked, d);
        }
        rb.TrackDir(d);
      }
    }
    assert todo[..|todo|] == todo;
    return true, created;
  }

  lemma NotTrackedYet(before: Tree, now: Tree, files: seq<Path>, dirs: seq<Path>, d: Path)
    requires Accounted(before, now, files, dirs) && !now.Exists(d)
    ensures d !in dirs
  {
    assert d <= d;
  }

  /** Any sequence of steps, broken off at the first one that raises, and the rollback
      after it. Every path from before is still there, and every file from before that no
      step wrote has its content. If nothing failed on the way, what is left over are
      exactly the directories above a tracked one that are not at or below another: so the
      tree has its old paths exactly when the directories to create were prepared, which a
      caller can tell from the tree and the steps beforehand. */
  method Attempt(fs: FileSystem, steps: seq<Step>)
    returns (completed: bool, removed: seq<Path>, failed: bool, rb: InstallerRollback)
    requires Closed(fs.tree)
    modifies fs
    ensures Closed(fs.tree) && Kept(old(fs.tree), fs.tree)
    ensures forall q :: q in removed ==> !old(fs.tree).Exists(q) && Gone(fs.tree, q)
    ensures forall q :: q in old(fs.tree).files && (forall i :: 0 <= i < |steps| ==> steps[i].Target() != q) ==>
              fs.tree.files[q] == old(fs.tree).files[q]
    ensures completed ==> Plan(rb.files, rb.dirs) == PlanOf(old(fs.tree), steps)
    ensures completed && !failed ==> LeftOver(old(fs.tree), fs.tree, PlanOf(old(fs.tree), steps).dirs)
    ensures completed && !failed ==>
              (fs.tree.dirs == old(fs.tree).dirs <==> Prepared(old(fs.tree), PlanOf(old(fs.tree), steps).dirs))
    ensures fs.reliable && old(fs.tree).files == map[] && (forall i :: 0 <= i < |steps| ==> steps[i].Storage?) ==>
              completed && !failed
  {
    hide Closed, Accounted, AddStep, Prepared, LeftOver;
    ghost var before := fs.tree;
    rb := new InstallerRollback();
    completed := true;
    var i := 0;
    ghost var simple := fs.reliable && before.files == map[] && forall k :: 0 <= k < |steps| ==> steps[k].Storage?;
    NothingTracked(before);
    while i < |steps| && completed
      invariant 0 <= i <= |steps|
      invariant Safe(before, fs.tree, rb.files, rb.dirs)
      invariant completed ==> Accounted(before, fs.tree, rb.files, rb.dirs)
      invariant completed ==> Plan(rb.files, rb.dirs) == PlanOf(before, steps[..i])
      invariant simple ==> completed && rb.files == [] && fs.tree.files == map[]
      invariant forall q :: q in before.files && (forall k :: 0 <= k < |steps| ==> steps[k].Target() != q) ==>
                  fs.tree.files[q] == before.files[q]
      decreases |steps| - i
    {
      assert steps[..i + 1][..i] == steps[..i];
      ghost var plan := Plan(rb.files, rb.dirs);
      completed := Take(fs, rb, steps[i], before);
      i := i + 1;
    }
    assert completed ==> steps[..i] == steps;
    ghost var after := fs.tree;
    if completed { TrackedKinds(before, after, rb.files, rb.dirs); }
    removed, failed := rb.Rollback(fs, before);
    if completed && !failed { LeftOverExactly(before, after, fs.tree, rb.files, rb.dirs); }
  }

  /** One step. */
  method Take(fs: FileSystem, rb: InstallerRollback, step: Step, ghost before: Tree) returns (ok: bool)
    requires Safe(before, fs.tree, rb.files, rb.dirs)
    modifies fs, rb
    ensures Safe(before, fs.tree, rb.files, rb.dirs)
    ensures forall q :: q in old(fs.tree).files && q != step.Target() ==>
              q in fs.tree.files && fs.tree.files[q] == old(fs.tree).files[q]
    ensures ok && Accounted(before, old(fs.tree), old(rb.files), old(rb.dirs)) ==>
              && Accounted(before, fs.tree, rb.files, rb.dirs)
              && Plan(rb.files, rb.dirs) == AddStep(before, Plan(old(rb.files), old(rb.dirs)), step)
    ensures ok && step.WriteEnv? ==> step.path in fs.tree.files && fs.tree.files[step.path] == step.content
    ensures ok && step.WriteToml? ==>
              var path := step.configDir + ["flowhub.toml"];
              path in fs.tree.files && fs.tree.files[path] == step.content
    ensures step.Storage? ==> rb.files == old(rb.files) && fs.tree.files == old(fs.tree).files
    ensures step.Storage? && fs.reliable && old(fs.tree).files == map[] ==> ok
  {
    hide Closed, Accounted, There, StorageDirs;
    match step {
      case WriteEnv(path, content) => ok := WriteTracked(fs, rb, path, content, true, before);
      case WriteToml(configDir, content) =>
        ok := WriteTracked(fs, rb, configDir + ["flowhub.toml"], content, false, before);
      case Storage(storage, backup, dryRun) =>
        var created;
        ok, created := SetupStorage(fs, rb, storage, backup, dryRun, before);
    }
  }

  lemma NothingTracked(before: Tree)
    ensures Accounted(before, before, [], [])
  {
  }

  lemma TrackedKinds(before: Tree, now: Tree, files: seq<Path>, dirs: seq<Path>)
    requires Accounted(before, now, files, dirs) && Closed(now)
    ensures (forall f :: f in files ==> f !in now.dirs) && (forall d :: d in dirs ==> d !in now.files)
  {
    forall d | d in dirs ensures d in now.dirs {
      assert d <= d;
    }
  }

  // ---------------------------------------------------------------- what is left over

  /** Beside the old paths, exactly the untracked ancestors of tracked directories. */
  ghost predicate LeftOver(before: Tree, final: Tree, dirs: seq<Path>)
  {
    && final.files.Keys == before.files.Keys
    && forall p :: p in final.dirs <==> p in before.dirs || (StrictlyAbove(dirs, p) && !AtOrBelow(dirs, p))
  }

  predicate StrictlyAbove(dirs: seq<Path>, p: Path) { exists d :: d in dirs && p < d }

  lemma AboveIsDir(now: Tree, f: Path, p: Path)
    requires Closed(now) && p in now.dirs && f <= p
    ensures f in now.dirs
  {
    if f != p { assert p in now.files.Keys + now.dirs && p[..|f|] == f; }
  }

  lemma LeftOverExactly(before: Tree, after: Tree, final: Tree, files: seq<Path>, dirs: seq<Path>)
    requires Accounted(before, after, files, dirs) && Kept(before, final) && Closed(before) && Closed(after)
             && Closed(final)
    requires forall p :: final.Exists(p) <==> after.Exists(p) && !AtOrBelow(files, p) && !AtOrBelow(dirs, p)
    requires Shrunk(after, final)
    ensures LeftOver(before, final, dirs)
    ensures final.dirs == before.dirs <==> Prepared(before, dirs)
  {
    forall p | p in final.files ensures p in before.files {
      assert final.Exists(p) && p <= p;
    }
    forall p ensures p in final.dirs <==> p in before.dirs || (StrictlyAbove(dirs, p) && !AtOrBelow(dirs, p)) {
      if p in final.dirs && p !in before.dirs {
        assert final.Exists(p);
        var d :| d in dirs && p <= d;
        assert d == p ==> AtOrBelow(dirs, p);
      }
      if StrictlyAbove(dirs, p) && !AtOrBelow(dirs, p) {
        StaysThere(before, after, final, files, dirs, p);
      }
    }
    PreparedMeans(before, final, dirs);
  }

  lemma StaysThere(before: Tree, after: Tree, final: Tree, files: seq<Path>, dirs: seq<Path>, p: Path)
    requires Accounted(before, after, files, dirs) && Closed(after) && Shrunk(after, final)
    requires forall q :: final.Exists(q) <==> after.Exists(q) && !AtOrBelow(files, q) && !AtOrBelow(dirs, q)
    requires StrictlyAbove(dirs, p) && !AtOrBelow(dirs, p)
    ensures p in final.dirs
  {
    var d :| d in dirs && p < d;
    assert p <= d && AtOrAbove(dirs, p);
    forall f | f in files ensures !(f <= p) {
      if f <= p { AboveIsDir(after, f, p); }
    }
    assert final.Exists(p);
  }

  lemma PreparedMeans(before: Tree, final: Tree, dirs: seq<Path>)
    requires LeftOver(before, final, dirs) && before.dirs <= final.dirs
    ensures final.dirs == before.dirs <==> Prepared(before, dirs)
  {
    if Prepared(before, dirs) {
      forall p | p in final.dirs ensures p in before.dirs {
        if StrictlyAbove(dirs, p) {
          var d :| d in dirs && p < d;
          assert p == d[..|p|];
        }
      }
    }
    if final.dirs == before.dirs {
      forall d, k | d in dirs && 0 <= k < |d| ensures d[..k] in before.dirs || AtOrBelow(dirs, d[..k]) {
        assert d[..k] < d;
        assert StrictlyAbove(dirs, d[..k]);
      }
    }
  }

  /** ... of any set-up of a storage directory that was not there, unless the backup
      directory is it or above it: rolled back without a failure, the directory stays. */
  lemma StorageDirectoryStays(before: Tree, storage: Path, backup: Path)
    requires Closed(before) && !before.Exists(storage) && !(backup <= storage)
    ensures !Prepared(before, PlanOf(before, [Storage(storage, backup, false)]).dirs)
  {
    var steps := [Storage(storage, backup, false)];
    var todo := StorageDirs(storage, backup);
    var first := storage + ["logs"];
    assert steps[..0] == [];
    assert todo[0] == first && first[..|storage|] == storage;
    NothingBelow(before, storage, first);
    PlannedDirs(before, todo, |todo|);
    var dirs := PlanOf(before, steps).dirs;
    assert todo[..|todo|] == todo;
    assert PlanOf(before, steps) == AddDirs(before, Plan([], []), todo);
    forall d | d in dirs ensures !(d <= storage) {
      assert d in todo;
      assert d == backup || |d| == |storage| + 1;
    }
    assert first in dirs;
  }

  /** Planned directories are among those asked for, the first one if it is not there. */
  lemma {:induction false} PlannedDirs(before: Tree, todo: seq<Path>, n: nat)
    requires n <= |todo|
    ensures forall d :: d in AddDirs(before, Plan([], []), todo[..n]).dirs ==> d in todo
    ensures n > 0 && !before.Exists(todo[0]) ==> todo[0] in AddDirs(before, Plan([], []), todo[..n]).dirs
    ensures AddDirs(before, Plan([], []), todo[..n]).files == []
  {
    if n > 0 {
      PlannedDirs(before, todo, n - 1);
      assert todo[..n][..n - 1] == todo[..n - 1];
    }
  }

  /** A run that leaves something over: storage and backups set up below the root, on a
      file system that does not fail, and rolled back. */
  method StorageRun() returns (fs: FileSystem)
    ensures fs.tree == Tree(map[], {[], ["storage"]})
  {
    fs := new FileSystem(Tree(map[], {[]}), true);
    var steps := [Storage(["storage"], ["backups"], false)];
    var completed, removed, failed, rb := Attempt(fs, steps);
    ghost var before := Tree(map[], {[]});
    StorageRunPlan(before);
    RootAndStorage(before, fs.tree, PlanOf(before, steps).dirs);
  }

  /** What the run is going to track. */
  lemma StorageRunPlan(before: Tree)
    requires before == Tree(map[], {[]})
    ensures var dirs := PlanOf(before, [Storage(["storage"], ["backups"], false)]).dirs;
            && ["storage", "logs"] in dirs && ["backups"] in dirs
            && forall d :: d in dirs ==> d == ["backups"] || (|d| == 2 && d[0] == "storage")
  {
    var todo := StorageDirs(["storage"], ["backups"]);
    var steps := [Storage(["storage"], ["backups"], false)];
    assert steps[..0] == [];
    assert PlanOf(before, steps) == AddDirs(before, Plan([], []), todo);
    assert todo[..|todo|] == todo;
    assert todo[0] == ["storage", "logs"];
    PlannedDirs(before, todo, |todo|);
    forall i | 0 <= i < |todo| - 1 ensures !(todo[|todo| - 1] <= todo[i]) {
      assert todo[i][0] == "storage" && todo[|todo| - 1][0] == "backups";
    }
    LastPlanned(before, todo);
  }

  lemma LastPlanned(before: Tree, todo: seq<Path>)
    requires todo != [] && !before.Exists(todo[|todo| - 1])
    requires forall i :: 0 <= i < |todo| - 1 ==> !(todo[|todo| - 1] <= todo[i])
    ensures todo[|todo| - 1] in AddDirs(before, Plan([], []), todo).dirs
  {
    var n := |todo| - 1;
    PlannedDirs(before, todo, n);
    var so := AddDirs(before, Plan([], []), todo[..n]);
    assert todo[..n][..n] == todo[..n];
    PlannedDirs(before, todo[..n], n);
  }

  lemma RootAndStorage(before: Tree, final: Tree, dirs: seq<Path>)
    requires before == Tree(map[], {[]}) && LeftOver(before, final, dirs)
    requires ["storage", "logs"] in dirs && ["backups"] in dirs
    requires forall d :: d in dirs ==> d == ["backups"] || (|d| == 2 && d[0] == "storage")
    ensures final == Tree(map[], {[], ["storage"]})
  {
    forall p ensures p in final.dirs <==> p == [] || p == ["storage"] {
      if p in final.dirs && p != [] {
        var d :| d in dirs && p < d;
        assert p == d[..|p|];
      }
      if p == ["storage"] {
        assert p < ["storage", "logs"];
        assert StrictlyAbove(dirs, p) && !AtOrBelow(dirs, p);
      }
    }
    assert final.files.Keys == {};
    assert final.files == map[];
  }
}
