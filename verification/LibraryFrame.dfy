/** What a call leaves alone: the rows of other animes, and of its own all but the paths. */
module LibraryFrame {
  import opened Text
  import opened Numbering
  import opened Disk
  import opened Episodes
  import opened Rollback
  import opened Naming
  import opened Catalog
  import opened RenamePlan
  import opened Library
  import opened LibraryInvariant
  import opened RelocationInvariant
  import opened LibraryRuns

  /** The rows `keep` picks are there as they were. */
  ghost predicate RowsKept(t: Table, t': Table, gone: set<nat>) {
    forall i | i in t.rows && i !in gone :: i in t'.rows && t'.rows[i] == t.rows[i]
  }

  lemma {:induction false} MergeLoopKeepsOthers(w: World, target: nat, dir: Dir, title: string, tasks: seq<Task>, turns: nat -> Turn, k: nat)
    requires Inv(w) && target in w.animes && w.animes[target].dir == dir
    requires Pending(w.table, tasks, k) && MergeFits(w, target, dir, title, tasks, turns, k)
    ensures RowsKept(w.table, MergeLoop(w, target, dir, title, tasks, turns, k).0.table, Behind(tasks, k))
    decreases |tasks| - k
  {
    hide Videos, IsEpisodeName, Spell, Inv, MoveEpisode, Target, Fits, Upsert, DeleteByPath, OneVideoMoved, Normalize;
    if k < |tasks| {
      var task := tasks[k];
      var (disk, r) := MoveEpisode(w.disk, task.src, Target(dir, title, task), turns(k).script);
      MergeStep(w, task, target, dir, title, turns(k));
      BehindHas(tasks, k, k);
      InvDistinct(w);
      OnlyRowOf(w, task.id);
      if r.Some? && turns(k).stat && disk.Exists(r.value) {
        var table := Record(DeleteByPath(w.table, task.src), target, disk, r.value, Normalize(Some(task.episode.epNumber)));
        MergeLoopKeepsOthers(w.(disk := disk, table := table), target, dir, title, tasks, turns, k + 1);
        LaterBehind(tasks, k);
      }
    }
  }

  lemma InvDistinct(w: World)
    requires Inv(w)
    ensures RowsDistinct(w.disk, w.table)
  {
    hide RowsDistinct;
  }

  lemma LaterBehind(tasks: seq<Task>, k: nat)
    ensures Behind(tasks, k + 1) <= Behind(tasks, k)
  {
  }

  lemma {:induction false} RecordKeepsOthers(w: World, source: nat, dir: Dir, moves: seq<Job>, tasks: seq<Task>, turns: nat -> Turn, k: nat)
    requires |moves| == |tasks| && k <= |moves| && source in w.animes && Following(w, source, dir, moves, tasks, k)
    ensures RowsKept(w.table, RecordMoves(w, source, moves, tasks, turns, k).0.table, Behind(tasks, k))
    decreases |moves| - k
  {
    hide Following, FollowOne, Normalize, Upsert, Behind;
    if k < |moves| {
      FollowStep(w, source, dir, moves, tasks, k);
      FollowedRows(w, source, dir, moves, tasks, k);
      FollowingBelow(w, source, dir, moves, tasks, k);
      BehindHas(tasks, k, k);
      if turns(k).stat {
        FollowOneIs(w, source, moves[k], tasks[k]);
        RecordKeepsOthers(w.(table := FollowOne(w, source, moves[k], tasks[k])), source, dir, moves, tasks, turns, k + 1);
        LaterBehind(tasks, k);
      }
    }
  }

  lemma FollowingBelow(w: World, source: nat, dir: Dir, moves: seq<Job>, tasks: seq<Task>, k: nat)
    requires |moves| == |tasks| && Following(w, source, dir, moves, tasks, k)
    ensures IdsBelow(w.table)
  {
    hide RowsDistinct, RowsFollow, PlacesWait, PlacedBut;
  }

  lemma MergeKeepsOthers(w: World, source: nat, target: nat, tasks: seq<Task>, turns: nat -> Turn, unlinks: nat)
    requires Inv(w) && source in w.animes && target in w.animes && Pending(w.table, tasks, 0)
    requires MergeFits(w, target, w.animes[target].dir, w.animes[target].folderTitle, tasks, turns)
    ensures RowsKept(w.table, Merge(w, source, target, tasks, turns, unlinks).0.table, Behind(tasks, 0) + IdsOf(w.table, source))
  {
    hide MergeLoop, RemoveSidecars, HasVideos, Inv, Pending, Behind;
    MergeLoopKeepsOthers(w, target, w.animes[target].dir, w.animes[target].folderTitle, tasks, turns, 0);
  }

  lemma RelocateKeepsOthers(w: World, source: nat, folder: nat, tasks: seq<Task>, turns: nat -> Turn, back: nat -> Turn, leftovers: seq<CompanionMove>)
    requires Inv(w) && source in w.animes && folder in w.folders && Unclaimed(w, NewDir(w, source, folder))
    requires Pending(w.table, tasks, 0)
    requires forall k | 0 <= k < |tasks| :: w.table.rows[tasks[k].id].anime == source
    requires forall i | i in w.table.rows && w.table.rows[i].anime == source :: i in Behind(tasks, 0)
    requires RelocationLists(w, source, folder, tasks, turns, back, leftovers)
    ensures RowsKept(w.table, Relocate(w, source, folder, tasks, turns, back, leftovers).0.table, Behind(tasks, 0))
  {
    hide IsEpisodeName, Spell, Videos, MoveLeftovers, Forward, Back, RecordMoves, HaveMoved, Inbound, Following, ForwardLists, BackReturns, NewDir, Target, RowsOnDisk, RowsDistinct, RowsPlaced, Behind, Pending, Unclaimed;
    var anime := w.animes[source];
    var dir := NewDir(w, source, folder);
    var jobs := Jobs(dir, anime.folderTitle, tasks);
    var (disk, moves, all) := Forward(w.disk, jobs, Scripts(turns, |tasks|));
    if all {
      JobsInbound(w, source, dir, anime.folderTitle, tasks);
      ForwardVideos(w.disk, jobs, Scripts(turns, |tasks|), dir);
      MovedAreFollowing(w, disk, source, dir, moves, tasks);
      RecordKeepsOthers(w.(disk := disk), source, dir, moves, tasks, turns, 0);
    }
  }

  lemma BehindIsOwn(w: World, tasks: seq<Task>, source: nat)
    requires Pending(w.table, tasks, 0) && forall k | 0 <= k < |tasks| :: w.table.rows[tasks[k].id].anime == source
    ensures Behind(tasks, 0) <= IdsOf(w.table, source)
  {
  }

  /** A sort leaves every row of every other anime alone, those of the anime it merges into
      included, whichever branch it takes and wherever it stops. */
  lemma SortKeepsOtherRows(w: World, source: nat, folder: nat, env: SortEnv)
    requires Inv(w) && (forall i | i in env.ids :: i in w.table.rows) && folder in w.folders
    requires source in w.animes && SortAllowed(w, source, folder, env)
    ensures
      var w' := SortAnime(w, source, folder, env).0;
      forall i | i in w.table.rows && w.table.rows[i].anime != source :: i in w'.table.rows && w'.table.rows[i] == w.table.rows[i]
  {
    hide Inv, Merge, Relocate, MergeFits, RelocationLists, Unclaimed, Tasks, Lists, Pending, Behind, Match, Twins;
    if w.animes[source].anidb.Some? {
      var anime := w.animes[source];
      var tasks := Tasks(w.table.rows, env.ids, anime.expected);
      var twins := Twins(w, anime.anidb.value, folder);
      TasksPending(w, env.ids, source, anime.expected);
      forall k | 0 <= k < |tasks| ensures w.table.rows[tasks[k].id].anime == source { assert tasks[k].id in env.ids; }
      BehindIsOwn(w, tasks, source);
      if |twins| == 1 {
        TwinIsAnime(w, anime.anidb.value, folder);
        MergeKeepsOthers(w, source, TheElement(twins), tasks, env.turns, env.unlinks);
      } else if |twins| == 0 && |tasks| == |env.ids| {
        EveryRowIsBehind(w, source, env.ids, anime.expected);
        RelocateKeepsOthers(w, source, folder, tasks, env.turns, env.back, env.leftovers);
      }
    }
  }

  // ------------------------------------------------------------ renaming

  /** Only paths have changed, and only of the rows of one anime. */
  ghost predicate OnlyPaths(t: Table, t': Table, id: nat) {
    && t'.rows.Keys == t.rows.Keys && t'.next == t.next
    && forall i | i in t.rows ::
         && t'.rows[i] == t.rows[i].(path := t'.rows[i].path)
         && (t.rows[i].anime != id ==> t'.rows[i] == t.rows[i])
  }

  lemma {:induction false} RenameLoopOnlyPaths(w: World, id: nat, ids: seq<nat>, renames: seq<Rename>, turns: nat -> Turn, k: nat)
    requires forall r | r in renames :: r.index < |ids| && ids[r.index] in w.table.rows && w.table.rows[ids[r.index]].anime == id
    ensures OnlyPaths(w.table, RenameLoop(w, ids, renames, turns, k).0.table, id)
    ensures RenameLoop(w, ids, renames, turns, k).0.animes == w.animes
    decreases |renames| - k
  {
    hide MoveEpisode;
    if k < |renames| {
      assert renames[k] in renames;
      var row := ids[renames[k].index];
      var src := w.table.rows[row].path;
      var (disk, r) := MoveEpisode(w.disk, src, Path(src.dir, renames[k].name), turns(k).script);
      if r.Some? {
        var w1 := w.(disk := disk, table := w.table.(rows := w.table.rows[row := w.table.rows[row].(path := r.value)]));
        RenameLoopOnlyPaths(w1, id, ids, renames, turns, k + 1);
      }
    }
  }

  /** The two ways a rename call can go: nothing is touched, or the file loop runs, after
      the directory was renamed or without that. */
  lemma RenameCases(w: World, id: nat, env: RenameEnv) returns (loops: bool, w1: World, renames: seq<Rename>)
    requires (forall i | i in env.ids :: i in w.table.rows) && id in w.animes && w.animes[id].dir != []
    ensures !loops ==> RenameAnime(w, id, env).0 == w
    ensures loops ==> w1 == w || exists to :: w1 == RenameDir(w, id, to)
    ensures loops ==> forall r | r in renames :: r.index < |env.ids| && env.ids[r.index] in w1.table.rows
    ensures loops ==> RenameAnime(w, id, env) == RenameLoop(w1, env.ids, renames, env.turns)
  {
    hide PlanFor, RenameLoop, RebaseDisk, RebasePath, DirTaken, RenamedDir;
    loops, w1, renames := false, w, [];
    if w.animes[id].anidb.Some? && w.animes[id].variantsKnown {
      var anime := w.animes[id];
      var locals := LocalsOf(w.table.rows, env.ids);
      var plan := PlanFor(anime.dir, anime.folderTitle, locals, anime.expected);
      PlannedIndices(anime.dir, anime.folderTitle, locals, anime.expected);
      var to := RenamedDir(anime.dir, plan);
      forall r | r in plan.fileRenames ensures env.ids[r.index] in w.table.rows { assert env.ids[r.index] in env.ids; }
      if !plan.dirNeedsRename {
        loops, w1, renames := true, w, plan.fileRenames;
      } else if !(env.emptyDirThere || DirTaken(w.disk, to) || !env.dirRenamed) {
        loops, w1, renames := true, RenameDir(w, id, to), plan.fileRenames;
      }
    }
  }

  /** A rename changes nothing in the catalog but the directory of the anime and the paths
      of its rows. */
  lemma RenameOnlyPaths(w: World, id: nat, env: RenameEnv)
    requires (forall i | i in env.ids :: i in w.table.rows) && id in w.animes && w.animes[id].dir != []
    requires Lists(env.ids, w.table, id)
    ensures
      var w' := RenameAnime(w, id, env).0;
      && OnlyPaths(w.table, w'.table, id)
      && id in w'.animes && w'.animes == w.animes[id := w.animes[id].(dir := w'.animes[id].dir)]
  {
    hide RenameAnime, RenameLoop, RenameDir, OnlyPaths, Lists;
    NothingChanged(w, id);
    ListedAreOwn(env.ids, w.table, id);
    var loops, w1, renames := RenameCases(w, id, env);
    if loops {
      if w1 != w {
        var to :| w1 == RenameDir(w, id, to);
        RenameDirOnlyPaths(w, id, to);
      }
      SameOwners(w.table, w1.table, id);
      forall r | r in renames ensures w1.table.rows[env.ids[r.index]].anime == id { assert env.ids[r.index] in env.ids; }
      RenameLoopOnlyPaths(w1, id, env.ids, renames, env.turns, 0);
      OnlyPathsTwice(w.table, w1.table, RenameLoop(w1, env.ids, renames, env.turns).0.table, id);
    }
  }

  lemma NothingChanged(w: World, id: nat)
    requires id in w.animes
    ensures OnlyPaths(w.table, w.table, id) && w.animes == w.animes[id := w.animes[id].(dir := w.animes[id].dir)]
  {
  }

  lemma RenameDirOnlyPaths(w: World, id: nat, to: Dir)
    requires id in w.animes
    ensures OnlyPaths(w.table, RenameDir(w, id, to).table, id)
    ensures RenameDir(w, id, to).animes == w.animes[id := w.animes[id].(dir := to)]
  {
    hide RebasePath, RebaseDisk;
  }

  lemma SameOwners(t: Table, t': Table, id: nat)
    requires OnlyPaths(t, t', id)
    ensures t'.rows.Keys == t.rows.Keys && forall i | i in t.rows :: t'.rows[i].anime == t.rows[i].anime
  {
  }

  lemma OnlyPathsTwice(a: Table, b: Table, c: Table, id: nat)
    requires OnlyPaths(a, b, id) && OnlyPaths(b, c, id)
    ensures OnlyPaths(a, c, id)
  {
  }
}
