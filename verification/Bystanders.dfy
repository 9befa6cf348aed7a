/** Rows an operation has no business with, wherever their files are: it does the same with
    them as without, and leaves them as they were. So a library some of whose animes are out
    of step is kept consistent in all the rest. */
module Bystanders {
  import opened Text
  import opened Numbering
  import opened Disk
  import opened Episodes
  import opened Rollback
  import opened Naming
  import opened Catalog
  import opened RenamePlan
  import opened Library
  import opened LibraryInvariant
  import opened RelocationInvariant
  import opened RenameInvariant

  // ------------------------------------------------------------ setting rows aside

  function With(t: Table, aside: map<nat, Row>): Table {
    t.(rows := t.rows + aside)
  }

  function Plus(w: World, aside: map<nat, Row>): World {
    w.(table := With(w.table, aside))
  }

  /** Rows of certain animes beside a table of the others': ids of their own, already handed
      out. */
  predicate Beside(t: Table, aside: map<nat, Row>, stale: set<nat>) {
    && t.rows.Keys !! aside.Keys
    && (forall i | i in aside :: i < t.next && aside[i].anime in stale)
    && (forall i | i in t.rows :: t.rows[i].anime !in stale)
  }

  /** None of them lies under the directory. */
  predicate ClearOf(aside: map<nat, Row>, dir: Dir) {
    forall i | i in aside :: !(dir <= aside[i].path.dir)
  }

  /** The rows of animes that may be out of step, and the library without them. */
  function Aside(w: World, stale: set<nat>): map<nat, Row> {
    map i | i in w.table.rows && w.table.rows[i].anime in stale :: w.table.rows[i]
  }

  function Core(w: World, stale: set<nat>): World {
    w.(table := w.table.(rows := map i | i in w.table.rows && w.table.rows[i].anime !in stale :: w.table.rows[i]))
  }

  lemma CoreAndAside(w: World, stale: set<nat>)
    requires IdsBelow(w.table)
    ensures Plus(Core(w, stale), Aside(w, stale)) == w && Beside(Core(w, stale).table, Aside(w, stale), stale)
  {
    assert (Core(w, stale).table.rows + Aside(w, stale)) == w.table.rows;
  }

  /** What is in step is consistent. */
  lemma CoreIsConsistent(w: World, stale: set<nat>)
    requires InvBut(w, stale)
    ensures Inv(Core(w, stale))
  {
    hide OnDisk, Spell, DirsApart;
  }

  lemma AsideIsClear(w: World, stale: set<nat>, a: nat)
    requires InvBut(w, stale) && a in w.animes && a !in stale
    ensures ClearOf(Aside(w, stale), w.animes[a].dir)
  {
    hide OnDisk, RowsDistinct, DirsApart;
  }

  lemma CoreLists(w: World, stale: set<nat>, ids: seq<nat>, anime: nat)
    requires Lists(ids, w.table, anime) && anime !in stale
    ensures Lists(ids, Core(w, stale).table, anime)
    ensures forall i | i in ids :: i in Core(w, stale).table.rows && Core(w, stale).table.rows[i] == w.table.rows[i]
  {
    ListedAreOwn(ids, w.table, anime);
    assert IdsOf(Core(w, stale).table, anime) == IdsOf(w.table, anime);
  }

  // ------------------------------------------------------------ the table

  lemma DeleteBeside(t: Table, aside: map<nat, Row>, stale: set<nat>, path: Path)
    requires Beside(t, aside, stale) && forall i | i in aside :: aside[i].path != path
    ensures DeleteByPath(With(t, aside), path) == With(DeleteByPath(t, path), aside) && Beside(DeleteByPath(t, path), aside, stale)
  {
    assert DeleteByPath(With(t, aside), path).rows == With(DeleteByPath(t, path), aside).rows;
  }

  lemma UpsertBeside(t: Table, aside: map<nat, Row>, stale: set<nat>, anime: nat, path: Path, size: nat, mtime: int, number: Option<string>)
    requires Beside(t, aside, stale) && anime !in stale && forall i | i in aside :: aside[i].path != path
    ensures Upsert(With(t, aside), anime, path, size, mtime, number) == With(Upsert(t, anime, path, size, mtime, number), aside)
    ensures Beside(Upsert(t, anime, path, size, mtime, number), aside, stale)
  {
    HasBeside(t, aside, stale, path);
    assert Upsert(With(t, aside), anime, path, size, mtime, number).rows == With(Upsert(t, anime, path, size, mtime, number), aside).rows;
  }

  lemma HasBeside(t: Table, aside: map<nat, Row>, stale: set<nat>, path: Path)
    requires Beside(t, aside, stale) && forall i | i in aside :: aside[i].path != path
    ensures With(t, aside).Has(path) == t.Has(path)
  {
    if t.Has(path) {
      var i := t.Find(path);
      assert With(t, aside).rows[i].path == path;
    }
  }

  lemma {:induction false} TasksBeside(rows: map<nat, Row>, aside: map<nat, Row>, ids: seq<nat>, expected: seq<Expected>)
    requires rows.Keys !! aside.Keys && forall i | i in ids :: i in rows
    ensures Tasks(rows + aside, ids, expected) == Tasks(rows, ids, expected)
    decreases |ids|
  {
    hide Match;
    if ids != [] { TasksBeside(rows, aside, ids[1..], expected); }
  }

  lemma SourcesInside(w: World, source: nat, ids: seq<nat>)
    requires Inv(w) && source in w.animes && Lists(ids, w.table, source)
    ensures
      var tasks := (ListedAreOwn(ids, w.table, source); Tasks(w.table.rows, ids, w.animes[source].expected));
      forall k | 0 <= k < |tasks| :: w.animes[source].dir <= tasks[k].src.dir
  {
    hide Match, Tasks, RowsOnDisk, RowsDistinct;
    ListedAreOwn(ids, w.table, source);
  }

  // ------------------------------------------------------------ sorting

  lemma {:induction false} MergeLoopBeside(w: World, aside: map<nat, Row>, stale: set<nat>, target: nat, from: Dir, dir: Dir, title: string, tasks: seq<Task>, turns: nat -> Turn, k: nat)
    requires Beside(w.table, aside, stale) && target !in stale && ClearOf(aside, from) && ClearOf(aside, dir)
    requires forall j | k <= j < |tasks| :: from <= tasks[j].src.dir
    ensures MergeFits(Plus(w, aside), target, dir, title, tasks, turns, k) == MergeFits(w, target, dir, title, tasks, turns, k)
    ensures
      var (w', end) := MergeLoop(w, target, dir, title, tasks, turns, k);
      && MergeLoop(Plus(w, aside), target, dir, title, tasks, turns, k) == (Plus(w', aside), end) && Beside(w'.table, aside, stale)
      && w'.animes == w.animes && w'.disk.foldCase == w.disk.foldCase
    decreases |tasks| - k
  {
    hide MoveEpisode, Target, Fits, Upsert, DeleteByPath, Normalize, Beside, With;
    if k < |tasks| {
      var (disk, r) := MoveEpisode(w.disk, tasks[k].src, Target(dir, title, tasks[k]), turns(k).script);
      EpisodeFolds(w.disk, tasks[k].src, Target(dir, title, tasks[k]), turns(k).script);
      NotAside(aside, from, tasks[k].src);
      DeleteBeside(w.table, aside, stale, tasks[k].src);
      if r.Some? && turns(k).stat && disk.Exists(r.value) {
        LandsAt(w.disk, tasks[k].src, Target(dir, title, tasks[k]), turns(k).script);
        TargetDir(dir, title, tasks[k]);
        NotAside(aside, dir, r.value);
        var table := DeleteByPath(w.table, tasks[k].src);
        var number := Normalize(Some(tasks[k].episode.epNumber));
        UpsertBeside(table, aside, stale, target, r.value, |disk.FileAt(r.value).content|, disk.FileAt(r.value).mtime, number);
        MergeLoopBeside(w.(disk := disk, table := Record(table, target, disk, r.value, number)), aside, stale, target, from, dir, title, tasks, turns, k + 1);
      }
    }
  }

  lemma NotAside(aside: map<nat, Row>, dir: Dir, p: Path)
    requires ClearOf(aside, dir) && dir <= p.dir
    ensures forall i | i in aside :: aside[i].path != p
  {
  }

  lemma MergeBeside(w: World, aside: map<nat, Row>, stale: set<nat>, source: nat, target: nat, tasks: seq<Task>, turns: nat -> Turn, unlinks: nat)
    requires source in w.animes && target in w.animes
    requires Beside(w.table, aside, stale) && ClearOf(aside, w.animes[source].dir) && ClearOf(aside, w.animes[target].dir)
    requires source !in stale && target !in stale
    requires forall j | 0 <= j < |tasks| :: w.animes[source].dir <= tasks[j].src.dir
    ensures
      var (w', end) := Merge(w, source, target, tasks, turns, unlinks);
      && Merge(Plus(w, aside), source, target, tasks, turns, unlinks) == (Plus(w', aside), end) && Beside(w'.table, aside, stale)
      && w'.disk.foldCase == w.disk.foldCase && (forall a | a in w'.animes :: a in w.animes && w'.animes[a] == w.animes[a])
  {
    hide MergeLoop, HasVideos, RemoveSidecars, Beside;
    MergeLoopBeside(w, aside, stale, target, w.animes[source].dir, w.animes[target].dir, w.animes[target].folderTitle, tasks, turns, 0);
    var w1 := MergeLoop(w, target, w.animes[target].dir, w.animes[target].folderTitle, tasks, turns).0;
    SidecarsFold(w1.disk, w.animes[source].dir, |Sidecars|);
    SidecarsFold(w1.disk, w.animes[source].dir, unlinks);
    AnimeBeside(w1.(disk := RemoveSidecars(w1.disk, w.animes[source].dir, |Sidecars|)), aside, stale, source);
  }

  lemma AnimeBeside(w: World, aside: map<nat, Row>, stale: set<nat>, id: nat)
    requires Beside(w.table, aside, stale) && id !in stale
    ensures DeleteAnime(Plus(w, aside), id) == Plus(DeleteAnime(w, id), aside) && Beside(DeleteAnime(w, id).table, aside, stale)
  {
    assert DeleteAnime(Plus(w, aside), id).table.rows == Plus(DeleteAnime(w, id), aside).table.rows;
  }

  lemma {:induction false} RecordMovesBeside(w: World, aside: map<nat, Row>, stale: set<nat>, source: nat, from: Dir, dir: Dir, moves: seq<Job>, tasks: seq<Task>, turns: nat -> Turn, k: nat)
    requires |moves| == |tasks| && source !in stale && Beside(w.table, aside, stale) && ClearOf(aside, from) && ClearOf(aside, dir)
    requires AllGo(moves, from, dir)
    ensures
      var (w', end) := RecordMoves(w, source, moves, tasks, turns, k);
      && RecordMoves(Plus(w, aside), source, moves, tasks, turns, k) == (Plus(w', aside), end) && Beside(w'.table, aside, stale)
      && w' == w.(table := w'.table)
    decreases |moves| - k
  {
    hide Upsert, DeleteByPath, Normalize, Beside, With;
    if k < |moves| {
      NotAside(aside, from, moves[k].src);
      DeleteBeside(w.table, aside, stale, moves[k].src);
      if turns(k).stat && w.disk.Exists(moves[k].dest) {
        NotAside(aside, dir, moves[k].dest);
        var table := DeleteByPath(w.table, moves[k].src);
        var number := Normalize(Some(tasks[k].episode.epNumber));
        var f := w.disk.FileAt(moves[k].dest);
        UpsertBeside(table, aside, stale, source, moves[k].dest, |f.content|, f.mtime, number);
        RecordMovesBeside(w.(table := Record(table, source, w.disk, moves[k].dest, number)), aside, stale, source, from, dir, moves, tasks, turns, k + 1);
      }
    }
  }

  /** Files on their way from below one directory into another. */
  predicate AllGo(jobs: seq<Job>, from: Dir, dir: Dir) {
    forall i | 0 <= i < |jobs| :: from <= jobs[i].src.dir && jobs[i].dest.dir == dir
  }

  lemma {:induction false} MovesGo(d: Disk, jobs: seq<Job>, scripts: seq<Script>, from: Dir, dir: Dir)
    requires |scripts| == |jobs| && AllGo(jobs, from, dir)
    ensures AllGo(Forward(d, jobs, scripts).1, from, dir) && Forward(d, jobs, scripts).0.foldCase == d.foldCase
    decreases |jobs|
  {
    hide MoveEpisode;
    if jobs != [] {
      var (d1, r) := MoveEpisode(d, jobs[0].src, jobs[0].dest, scripts[0]);
      EpisodeFolds(d, jobs[0].src, jobs[0].dest, scripts[0]);
      if r.Some? {
        LandsAt(d, jobs[0].src, jobs[0].dest, scripts[0]);
        MovesGo(d1, jobs[1..], scripts[1..], from, dir);
      }
    }
  }

  lemma JobsGo(tasks: seq<Task>, from: Dir, dir: Dir, title: string)
    requires forall j | 0 <= j < |tasks| :: from <= tasks[j].src.dir
    ensures AllGo(Jobs(dir, title, tasks), from, dir)
  {
  }

  lemma {:induction false} WayBackFolds(d: Disk, moves: seq<Job>, scripts: seq<Script>)
    requires |scripts| == |moves|
    ensures Back(d, moves, scripts).foldCase == d.foldCase
    decreases |moves|
  {
    hide MoveEpisode;
    if moves != [] {
      WayBackFolds(d, moves[1..], scripts[1..]);
      EpisodeFolds(Back(d, moves[1..], scripts[1..]), moves[0].dest, moves[0].src, scripts[0]);
    }
  }

  lemma {:induction false} LeftoversFold(d: Disk, from: Dir, to: Dir, leftovers: seq<CompanionMove>)
    ensures MoveLeftovers(d, from, to, leftovers).foldCase == d.foldCase
    decreases |leftovers|
  {
    hide MoveFile;
    if leftovers != [] {
      var p := leftovers[0].path;
      var dest := Path(if from <= p.dir then Rebase(from, to, p.dir) else p.dir, p.name);
      MoveFileOnlyLeaves(d, p, dest, leftovers[0].fates);
      LeftoversFold(MoveFile(d, p, dest, leftovers[0].fates).0, from, to, leftovers[1..]);
    }
  }

  lemma RelocateBeside(w: World, aside: map<nat, Row>, stale: set<nat>, source: nat, folder: nat, tasks: seq<Task>, turns: nat -> Turn, back: nat -> Turn, leftovers: seq<CompanionMove>)
    requires source in w.animes && folder in w.folders
    requires source !in stale && Beside(w.table, aside, stale) && ClearOf(aside, w.animes[source].dir) && ClearOf(aside, NewDir(w, source, folder))
    requires forall j | 0 <= j < |tasks| :: w.animes[source].dir <= tasks[j].src.dir
    ensures
      var (w', end) := Relocate(w, source, folder, tasks, turns, back, leftovers);
      && Relocate(Plus(w, aside), source, folder, tasks, turns, back, leftovers) == (Plus(w', aside), end) && Beside(w'.table, aside, stale)
      && w'.disk.foldCase == w.disk.foldCase
      && (w'.animes == w.animes || w'.animes == w.animes[source := w.animes[source].(folder := folder, dir := NewDir(w, source, folder))])
  {
    hide Forward, Back, RecordMoves, MoveLeftovers, Beside, With, Jobs, Sanitize;
    var dir := NewDir(w, source, folder);
    var jobs := Jobs(dir, w.animes[source].folderTitle, tasks);
    assert NewDir(Plus(w, aside), source, folder) == dir;
    JobsGo(tasks, w.animes[source].dir, dir, w.animes[source].folderTitle);
    MovesGo(w.disk, jobs, Scripts(turns, |tasks|), w.animes[source].dir, dir);
    var (disk, moves, all) := Forward(w.disk, jobs, Scripts(turns, |tasks|));
    if all {
      RecordMovesBeside(w.(disk := disk), aside, stale, source, w.animes[source].dir, dir, moves, tasks, turns, 0);
      LeftoversFold(disk, w.animes[source].dir, dir, leftovers);
    } else {
      WayBackFolds(disk, moves, Scripts(back, |moves|));
    }
  }

  // ------------------------------------------------------------ renaming

  lemma {:induction false} RenameLoopBeside(w: World, aside: map<nat, Row>, stale: set<nat>, ids: seq<nat>, renames: seq<Rename>, turns: nat -> Turn, k: nat)
    requires Beside(w.table, aside, stale)
    requires forall r | r in renames :: r.index < |ids| && ids[r.index] in w.table.rows
    ensures RenameFits(Plus(w, aside), ids, renames, turns, k) == RenameFits(w, ids, renames, turns, k)
    ensures
      var (w', end) := RenameLoop(w, ids, renames, turns, k);
      && RenameLoop(Plus(w, aside), ids, renames, turns, k) == (Plus(w', aside), end) && Beside(w'.table, aside, stale)
      && w'.animes == w.animes && w'.disk.foldCase == w.disk.foldCase
    decreases |renames| - k
  {
    hide MoveEpisode, Fits;
    if k < |renames| {
      assert renames[k] in renames;
      var id := ids[renames[k].index];
      var src := w.table.rows[id].path;
      var (disk, r) := MoveEpisode(w.disk, src, Path(src.dir, renames[k].name), turns(k).script);
      EpisodeFolds(w.disk, src, Path(src.dir, renames[k].name), turns(k).script);
      if r.Some? {
        var row := w.table.rows[id].(path := r.value);
        assert (w.table.rows + aside)[id := row] == w.table.rows[id := row] + aside;
        RenameLoopBeside(w.(disk := disk, table := w.table.(rows := w.table.rows[id := row])), aside, stale, ids, renames, turns, k + 1);
      }
    }
  }

  lemma RenameDirBeside(w: World, aside: map<nat, Row>, stale: set<nat>, id: nat, to: Dir)
    requires id in w.animes && Beside(w.table, aside, stale) && id !in stale
    ensures RenameDir(Plus(w, aside), id, to) == Plus(RenameDir(w, id, to), aside) && Beside(RenameDir(w, id, to).table, aside, stale)
  {
    hide RebaseDisk, RebasePath;
    var from := w.animes[id].dir;
    assert RebaseTable(With(w.table, aside), id, from, to).rows == With(RebaseTable(w.table, id, from, to), aside).rows;
  }

  lemma LocalsBeside(rows: map<nat, Row>, aside: map<nat, Row>, ids: seq<nat>)
    requires rows.Keys !! aside.Keys && forall i | i in ids :: i in rows
    ensures LocalsOf(rows + aside, ids) == LocalsOf(rows, ids)
  {
  }

  /** What the directory is to be called. */
  function NewName(w: World, id: nat, env: RenameEnv): Dir
    requires id in w.animes && w.animes[id].dir != [] && forall i | i in env.ids :: i in w.table.rows
  {
    RenamedDir(w.animes[id].dir, PlanFor(w.animes[id].dir, w.animes[id].folderTitle, LocalsOf(w.table.rows, env.ids), w.animes[id].expected))
  }

  lemma RenameBeside(w: World, aside: map<nat, Row>, stale: set<nat>, id: nat, env: RenameEnv)
    requires Beside(w.table, aside, stale) && (forall i | i in env.ids :: i in w.table.rows) && id !in stale
    requires id in w.animes ==> w.animes[id].dir != []
    ensures RenameAllowed(Plus(w, aside), id, env) == RenameAllowed(w, id, env)
    ensures
      var (w', end) := RenameAnime(w, id, env);
      && RenameAnime(Plus(w, aside), id, env) == (Plus(w', aside), end) && Beside(w'.table, aside, stale)
      && w'.disk.foldCase == w.disk.foldCase
      && (w'.animes == w.animes || (id in w.animes && w'.animes == w.animes[id := w.animes[id].(dir := NewName(w, id, env))]))
  {
    hide PlanFor, RenameLoop, RenameFits, RenameDir, DirTaken, LocalsOf;
    if id in w.animes && w.animes[id].anidb.Some? && w.animes[id].variantsKnown {
      var anime := w.animes[id];
      LocalsBeside(w.table.rows, aside, env.ids);
      var locals := LocalsOf(w.table.rows, env.ids);
      var plan := PlanFor(anime.dir, anime.folderTitle, locals, anime.expected);
      PlannedIndices(anime.dir, anime.folderTitle, locals, anime.expected);
      forall r | r in plan.fileRenames ensures r.index < |env.ids| && env.ids[r.index] in w.table.rows { assert env.ids[r.index] in env.ids; }
      var to := RenamedDir(anime.dir, plan);
      RenameDirBeside(w, aside, stale, id, to);
      RenamedKeys(w, id, to);
      RenameLoopBeside(w, aside, stale, env.ids, plan.fileRenames, env.turns, 0);
      RenameLoopBeside(RenameDir(w, id, to), aside, stale, env.ids, plan.fileRenames, env.turns, 0);
    }
  }

  lemma RenamedKeys(w: World, id: nat, to: Dir)
    requires id in w.animes
    ensures RenameDir(w, id, to).table.rows.Keys == w.table.rows.Keys && RenameDir(w, id, to).disk.foldCase == w.disk.foldCase
    ensures RenameDir(w, id, to).animes == w.animes[id := w.animes[id].(dir := to)]
  {
    hide RebaseDisk;
    RebaseFolds(w.disk, w.animes[id].dir, to);
  }

  // ------------------------------------------------------------ putting them back

  /** Each row lies under its anime's directory, or else in the one given. */
  ghost predicate PlacedOr(w: World, dir: Dir) {
    forall i | i in w.table.rows ::
      && w.table.rows[i].anime in w.animes
      && (w.animes[w.table.rows[i].anime].dir <= w.table.rows[i].path.dir || dir <= w.table.rows[i].path.dir)
  }

  /** They lie under no directory of another anime. */
  ghost predicate Lawful(aside: map<nat, Row>, animes: map<nat, Anime>) {
    forall i, a | i in aside && a in animes && a != aside[i].anime :: !(animes[a].dir <= aside[i].path.dir)
  }

  ghost predicate AsideDistinct(d: Disk, aside: map<nat, Row>) {
    forall i, j | i in aside && j in aside && d.Slot(aside[i].path) == d.Slot(aside[j].path) :: i == j
  }

  /** They name no file a row of the rest names. */
  lemma NoClash(w: World, aside: map<nat, Row>, stale: set<nat>, dir: Dir, i: nat, j: nat)
    requires PlacedOr(w, dir) && ClearOf(aside, dir) && Lawful(aside, w.animes)
    requires i in w.table.rows && w.table.rows[i].anime !in stale && j in aside && aside[j].anime in stale
    ensures w.disk.Slot(w.table.rows[i].path) != w.disk.Slot(aside[j].path)
  {
    hide Spell;
    var a := w.table.rows[i].anime;
    assert !(w.animes[a].dir <= aside[j].path.dir);
    assert w.table.rows[i].path.dir != aside[j].path.dir;
  }

  lemma StillDistinct(w: World, aside: map<nat, Row>, stale: set<nat>, dir: Dir)
    requires RowsDistinct(w.disk, w.table) && Beside(w.table, aside, stale) && AsideDistinct(w.disk, aside)
    requires PlacedOr(w, dir) && ClearOf(aside, dir) && Lawful(aside, w.animes)
    ensures RowsDistinct(w.disk, With(w.table, aside))
  {
    hide Disk.Slot, PlacedOr, ClearOf, Lawful;
    var t := With(w.table, aside);
    forall i, j | i in t.rows && j in t.rows && w.disk.Slot(t.rows[i].path) == w.disk.Slot(t.rows[j].path) ensures i == j {
      if i in aside && j !in aside { NoClash(w, aside, stale, dir, j, i); }
      if j in aside && i !in aside { NoClash(w, aside, stale, dir, i, j); }
    }
  }

  /** So they can be put back beside whatever an operation has made of the rest. */
  lemma PutBack(w: World, aside: map<nat, Row>, stale: set<nat>, left: set<nat>, dir: Dir)
    requires InvBut(w, left) && Beside(w.table, aside, stale) && AsideDistinct(w.disk, aside)
    requires PlacedOr(w, dir) && ClearOf(aside, dir) && Lawful(aside, w.animes)
    ensures InvBut(Plus(w, aside), stale + left)
  {
    hide OnDisk, Disk.Slot, DirsApart, RowsDistinct, AsideDistinct, PlacedOr, ClearOf, Disk.Valid;
    StillDistinct(w, aside, stale, dir);
  }

  lemma AsideIsDistinct(w: World, stale: set<nat>)
    requires InvBut(w, stale)
    ensures AsideDistinct(w.disk, Aside(w, stale)) && Lawful(Aside(w, stale), w.animes)
  {
    hide OnDisk, Spell, DirsApart;
  }

  lemma LawfulElsewhere(aside: map<nat, Row>, animes: map<nat, Anime>, animes': map<nat, Anime>, dir: Dir)
    requires Lawful(aside, animes) && ClearOf(aside, dir)
    requires forall a | a in animes' :: animes'[a].dir == dir || (a in animes && animes'[a].dir == animes[a].dir)
    ensures Lawful(aside, animes')
  {
  }

  lemma ConsistentIsPlaced(w: World, dir: Dir)
    requires Inv(w)
    ensures PlacedOr(w, dir)
  {
    hide RowsOnDisk, RowsDistinct, DirsApart;
  }

  /** What a relocation that leaves rows behind has written is in its new directory. */
  lemma StrandedIsPlaced(w: World, w': World, source: nat, dir: Dir)
    requires Inv(w) && source in w.animes && OldOrNew(w.table, w'.table, source, dir)
    requires forall a | a in w.animes :: a in w'.animes && w'.animes[a].dir == w.animes[a].dir
    ensures PlacedOr(w', dir)
  {
    hide RowsOnDisk, RowsDistinct, DirsApart;
  }

  lemma InvButBelow(w: World, stale: set<nat>)
    requires InvBut(w, stale)
    ensures IdsBelow(w.table)
  {
    hide OnDisk, RowsDistinct, DirsApart, NoTrespass;
  }

  lemma SameAside(d: Disk, d': Disk, aside: map<nat, Row>)
    requires AsideDistinct(d, aside) && d'.foldCase == d.foldCase
    ensures AsideDistinct(d', aside)
  {
    hide Spell;
  }

  lemma CoreIs(w: World, stale: set<nat>)
    ensures Core(w, stale).animes == w.animes && Core(w, stale).disk == w.disk && Core(w, stale).folders == w.folders
  {
  }

  lemma BesideIsDisjoint(t: Table, aside: map<nat, Row>, stale: set<nat>)
    requires Beside(t, aside, stale)
    ensures t.rows.Keys !! aside.Keys
  {
  }

  lemma CoreNewName(w: World, stale: set<nat>, id: nat, env: RenameEnv)
    requires IdsBelow(w.table) && id in w.animes && w.animes[id].dir != [] && forall i | i in env.ids :: i in w.table.rows && w.table.rows[i].anime !in stale
    ensures (forall i | i in env.ids :: i in Core(w, stale).table.rows) && NewName(Core(w, stale), id, env) == NewName(w, id, env)
  {
    hide PlanFor, RenamedDir;
    assert LocalsOf(w.table.rows, env.ids) == LocalsOf(Core(w, stale).table.rows, env.ids);
  }

  /** What the outside contributes to a relocation is no matter of rows. */
  lemma SameOutside(w: World, core: World, source: nat, folder: nat, tasks: seq<Task>, env: SortEnv)
    requires source in w.animes && folder in w.folders && core.animes == w.animes && core.disk == w.disk && core.folders == w.folders
    ensures NewDir(core, source, folder) == NewDir(w, source, folder)
    ensures Unclaimed(core, NewDir(w, source, folder)) == Unclaimed(w, NewDir(w, source, folder))
    ensures RelocationLists(core, source, folder, tasks, env.turns, env.back, env.leftovers)
      == RelocationLists(w, source, folder, tasks, env.turns, env.back, env.leftovers)
    ensures RelocationStrands(core, source, folder, tasks, env.turns, env.back) == RelocationStrands(w, source, folder, tasks, env.turns, env.back)
  {
    hide Forward, ForwardLists, BackLists, BackReturns, Jobs, Sanitize;
  }
}
