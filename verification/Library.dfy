/** The disk and the catalog together: what sorting, renaming and scanning an anime do to
    both, step by step, for every answer the operating system can give. */
module Library {
  import opened Text
  import opened Disk
  import opened Episodes
  import opened Rollback
  import opened Naming
  import opened Catalog
  import opened RenamePlan

  /** `folderTitle` is the title resolved by the user's folder order. */
  datatype Anime = Anime(folder: nat, dir: Dir, anidb: Option<nat>, folderTitle: string, variantsKnown: bool, expected: seq<Expected>)

  datatype World = World(disk: Disk, folders: map<nat, Dir>, animes: map<nat, Anime>, table: Table)

  datatype Outcome = Done | Conflict | Raised

  /** What is outside the program's control while one episode is handled: the moves, and
      whether the moved file can be looked at. */
  datatype Turn = Turn(script: Script, stat: bool)

  /** The order in which the database returns an anime's rows. */
  predicate Lists(ids: seq<nat>, t: Table, anime: nat) {
    && (forall i, j | 0 <= i < j < |ids| :: ids[i] != ids[j])
    && (set i | i in ids) == IdsOf(t, anime)
  }

  lemma ListedAreOwn(ids: seq<nat>, t: Table, anime: nat)
    requires Lists(ids, t, anime)
    ensures forall i | i in ids :: i in t.rows && t.rows[i].anime == anime
  {
    forall i | i in ids ensures i in IdsOf(t, anime) { assert i in (set j | j in ids); }
  }

  /** An expected episode that local numbers can match. */
  type Episode = e: Expected | IsNumeral(e.epNumber) witness Expected("1", None)

  datatype Task = Task(id: nat, src: Path, episode: Episode)

  function EpisodeOf(expected: seq<Expected>, number: Option<string>): (e: Episode)
    requires Match(expected, number).Some?
  {
    Match(expected, number).value
  }

  /** The matched rows, in the order listed. */
  function Tasks(rows: map<nat, Row>, ids: seq<nat>, expected: seq<Expected>): (tasks: seq<Task>)
    requires forall i | i in ids :: i in rows
    ensures |tasks| <= |ids|
    ensures forall k | 0 <= k < |tasks| :: tasks[k].id in ids && tasks[k].src == rows[tasks[k].id].path
  {
    if ids == [] then []
    else
      var rest := Tasks(rows, ids[1..], expected);
      if Match(expected, rows[ids[0]].number).Some?
      then [Task(ids[0], rows[ids[0]].path, EpisodeOf(expected, rows[ids[0]].number))] + rest
      else rest
  }

  /** Where an episode is sent. */
  function Target(dir: Dir, title: string, task: Task): Path {
    Path(dir, BuildEpisodeFilename(title, task.episode.epNumber, task.episode.title, Suffix(task.src.name)))
  }

  function Record(t: Table, anime: nat, d: Disk, at: Path, number: Option<string>): Table
    requires d.Exists(at)
  {
    Upsert(t, anime, at, |d.FileAt(at).content|, d.FileAt(at).mtime, number)
  }

  // ------------------------------------------------------------ sorting: merge

  /** The merge loop: every episode moved is recorded under the target before the next
      one is touched. A failed move ends it with a conflict, a failed look at the moved
      file with an error nobody catches. */
  function MergeLoop(w: World, target: nat, dir: Dir, title: string, tasks: seq<Task>, turns: nat -> Turn, k: nat := 0): (World, Outcome)
    decreases |tasks| - k
  {
    if k >= |tasks| then (w, Done)
    else
      var (disk, r) := MoveEpisode(w.disk, tasks[k].src, Target(dir, title, tasks[k]), turns(k).script);
      if r.None? then (w.(disk := disk), Conflict)
      else
        var table := DeleteByPath(w.table, tasks[k].src);
        if !turns(k).stat || !disk.Exists(r.value) then (w.(disk := disk, table := table), Raised)
        else
          var number := Normalize(Some(tasks[k].episode.epNumber));
          MergeLoop(w.(disk := disk, table := Record(table, target, disk, r.value, number)), target, dir, title, tasks, turns, k + 1)
  }

  /** `has_video_files` */
  predicate HasVideos(d: Disk, dir: Dir) {
    exists s | s in Videos(d) :: dir <= s.dir
  }

  const Sidecars: seq<string> := ["poster.jpg", "tvshow.nfo", "aniinfo.json"]

  /** `_remove_sidecars`, of which the first `k` unlinks go through. */
  function RemoveSidecars(d: Disk, dir: Dir, k: nat): Disk {
    if k == 0 || k > |Sidecars| then d else RemoveSidecars(d, dir, k - 1).Drop(Path(dir, Sidecars[k - 1]))
  }

  lemma {:induction false} SidecarsFold(d: Disk, dir: Dir, k: nat)
    ensures RemoveSidecars(d, dir, k).foldCase == d.foldCase
    decreases k
  {
    if k != 0 && k <= |Sidecars| { SidecarsFold(d, dir, k - 1); }
  }

  /** `AnimeRepo.delete`, as far as the episodes are concerned */
  function DeleteAnime(w: World, id: nat): World {
    w.(animes := w.animes - {id},
       table := w.table.(rows := map i | i in w.table.rows && w.table.rows[i].anime != id :: w.table.rows[i]))
  }

  function Merge(w: World, source: nat, target: nat, tasks: seq<Task>, turns: nat -> Turn, unlinks: nat): (World, Outcome)
    requires source in w.animes && target in w.animes
  {
    var (w1, end) := MergeLoop(w, target, w.animes[target].dir, w.animes[target].folderTitle, tasks, turns);
    if end != Done || HasVideos(w1.disk, w.animes[source].dir) then (w1, end)
    else if unlinks < |Sidecars| then (w1.(disk := RemoveSidecars(w1.disk, w.animes[source].dir, unlinks)), Raised)
    else (DeleteAnime(w1.(disk := RemoveSidecars(w1.disk, w.animes[source].dir, |Sidecars|)), source), Done)
  }

  // ------------------------------------------------------------ sorting: relocate

  function Jobs(dir: Dir, title: string, tasks: seq<Task>): (jobs: seq<Job>)
    ensures |jobs| == |tasks|
  {
    seq(|tasks|, i requires 0 <= i < |tasks| => Job(tasks[i].src, Target(dir, title, tasks[i])))
  }

  function Scripts(turns: nat -> Turn, n: nat): (scripts: seq<Script>)
    ensures |scripts| == n
  {
    seq(n, i requires 0 <= i < n => turns(i).script)
  }

  /** The rows follow once all files have moved. */
  function RecordMoves(w: World, anime: nat, moves: seq<Job>, tasks: seq<Task>, turns: nat -> Turn, k: nat := 0): (World, Outcome)
    requires |moves| == |tasks|
    decreases |moves| - k
  {
    if k >= |moves| then (w, Done)
    else
      var table := DeleteByPath(w.table, moves[k].src);
      if !turns(k).stat || !w.disk.Exists(moves[k].dest) then (w.(table := table), Raised)
      else
        var number := Normalize(Some(tasks[k].episode.epNumber));
        RecordMoves(w.(table := Record(table, anime, w.disk, moves[k].dest, number)), anime, moves, tasks, turns, k + 1)
  }

  /** `_move_remaining_files`: whatever is left under the source goes along if it can. */
  function MoveLeftovers(d: Disk, from: Dir, to: Dir, leftovers: seq<CompanionMove>): Disk
    decreases |leftovers|
  {
    if leftovers == [] then d
    else
      var p := leftovers[0].path;
      var dest := Path(if from <= p.dir then Rebase(from, to, p.dir) else p.dir, p.name);
      MoveLeftovers(MoveFile(d, p, dest, leftovers[0].fates).0, from, to, leftovers[1..])
  }

  function NewDir(w: World, source: nat, folder: nat): Dir
    requires source in w.animes && folder in w.folders
  {
    w.folders[folder] + [Sanitize(w.animes[source].folderTitle)]
  }

  function Relocate(w: World, source: nat, folder: nat, tasks: seq<Task>, turns: nat -> Turn, back: nat -> Turn, leftovers: seq<CompanionMove>): (World, Outcome)
    requires source in w.animes && folder in w.folders
  {
    var anime := w.animes[source];
    var dir := NewDir(w, source, folder);
    var (disk, moves, all) := Forward(w.disk, Jobs(dir, anime.folderTitle, tasks), Scripts(turns, |tasks|));
    if !all then (w.(disk := Back(disk, moves, Scripts(back, |moves|))), Conflict)
    else
      var (w1, end) := RecordMoves(w.(disk := disk), source, moves, tasks, turns);
      if end != Done then (w1, end)
      else
        (w1.(disk := MoveLeftovers(w1.disk, anime.dir, dir, leftovers),
             animes := w1.animes[source := anime.(folder := folder, dir := dir)]), Done)
  }

  // ------------------------------------------------------------ sorting

  /** Everything one `sort_anime` call leaves to the database and the operating system;
      `mkdir` is whether the new directory of a relocation can be made. */
  datatype SortEnv = SortEnv(ids: seq<nat>, mkdir: bool, turns: nat -> Turn, back: nat -> Turn, unlinks: nat, leftovers: seq<CompanionMove>)

  /** The anime already in the target folder under the same AniDB id. */
  function Twins(w: World, anidb: nat, folder: nat): set<nat> {
    set a | a in w.animes && w.animes[a].anidb == Some(anidb) && w.animes[a].folder == folder
  }

  lemma TwinIsAnime(w: World, anidb: nat, folder: nat)
    requires |Twins(w, anidb, folder)| == 1
    ensures TheElement(Twins(w, anidb, folder)) in w.animes
    ensures w.animes[TheElement(Twins(w, anidb, folder))].folder == folder
  {
    assert TheElement(Twins(w, anidb, folder)) in Twins(w, anidb, folder);
  }

  /** `sort_anime` */
  function SortAnime(w: World, source: nat, folder: nat, env: SortEnv): (World, Outcome)
    requires forall i | i in env.ids :: i in w.table.rows
    requires folder in w.folders
  {
    if source !in w.animes || w.animes[source].anidb.None? || env.ids == [] then (w, Conflict)
    else
      var tasks := Tasks(w.table.rows, env.ids, w.animes[source].expected);
      if tasks == [] then (w, Conflict)
      else
        var twins := Twins(w, w.animes[source].anidb.value, folder);
        if |twins| > 1 then (w, Raised)
        else if |twins| == 1 then Merge(w, source, TheElement(twins), tasks, env.turns, env.unlinks)
        else if |tasks| < |env.ids| then (w, Conflict)
        else if !env.mkdir then (w, Raised)
        else Relocate(w, source, folder, tasks, env.turns, env.back, env.leftovers)
  }

  // ------------------------------------------------------------ renaming

  /** Everything one `rename_anime` call leaves to the outside: the order of the rows,
      whether the target directory exists without holding files, whether the directory
      can be renamed, and the moves. */
  datatype RenameEnv = RenameEnv(ids: seq<nat>, emptyDirThere: bool, dirRenamed: bool, turns: nat -> Turn)

  function LocalsOf(rows: map<nat, Row>, ids: seq<nat>): (locals: seq<Local>)
    requires forall i | i in ids :: i in rows
    ensures |locals| == |ids|
  {
    seq(|ids|, k requires 0 <= k < |ids| => Local(rows[ids[k]].path, rows[ids[k]].number))
  }

  predicate DirTaken(d: Disk, dir: Dir) {
    exists s | s in d.files :: dir <= s.dir
  }

  function RebasePath(from: Dir, to: Dir, p: Path): Path {
    if from <= p.dir then Path(Rebase(from, to, p.dir), p.name) else p
  }

  /** A directory rename takes every file under it along. */
  function RebaseDisk(d: Disk, from: Dir, to: Dir): Disk {
    var moved := set s | s in d.files && from <= s.dir :: RebasePath(from, to, s);
    d.(files := (map s | s in d.files && !(from <= s.dir) :: d.files[s])
              + (map p | p in moved && RebasePath(to, from, p) in d.files :: d.files[RebasePath(to, from, p)]))
  }

  function RebaseTable(t: Table, anime: nat, from: Dir, to: Dir): Table {
    t.(rows := map i | i in t.rows ::
         if t.rows[i].anime == anime then t.rows[i].(path := RebasePath(from, to, t.rows[i].path)) else t.rows[i])
  }

  /** The loop over the planned files; the first one that cannot be moved ends it. */
  function RenameLoop(w: World, ids: seq<nat>, renames: seq<Rename>, turns: nat -> Turn, k: nat := 0): (World, Outcome)
    requires forall r | r in renames :: r.index < |ids| && ids[r.index] in w.table.rows
    decreases |renames| - k
  {
    if k >= |renames| then (w, Done)
    else
      assert renames[k] in renames;
      var id := ids[renames[k].index];
      var src := w.table.rows[id].path;
      var (disk, r) := MoveEpisode(w.disk, src, Path(src.dir, renames[k].name), turns(k).script);
      if r.None? then (w.(disk := disk), Conflict)
      else
        RenameLoop(w.(disk := disk, table := w.table.(rows := w.table.rows[id := w.table.rows[id].(path := r.value)])), ids, renames, turns, k + 1)
  }

  /** The directory part of a rename. */
  function RenameDir(w: World, id: nat, to: Dir): World
    requires id in w.animes
  {
    var from := w.animes[id].dir;
    w.(disk := RebaseDisk(w.disk, from, to), animes := w.animes[id := w.animes[id].(dir := to)], table := RebaseTable(w.table, id, from, to))
  }

  lemma PlannedIndices(dir: Dir, title: string, locals: seq<Local>, expected: seq<Expected>)
    ensures forall r | r in PlanFor(dir, title, locals, expected).fileRenames :: r.index < |locals|
  {
    hide Sanitize, Match, Renames, Finals;
    var items := Items(Sanitize(title), locals, expected);
    InnerIndices(items);
    var indices := Matched(locals, expected);
    forall r | r in Reindexed(Renames(items), indices) ensures r.index < |locals| {
      var k :| 0 <= k < |Renames(items)| && Reindexed(Renames(items), indices)[k] == r;
      assert Renames(items)[k] in Renames(items);
    }
  }

  /** `rename_anime` */
  function RenameAnime(w: World, id: nat, env: RenameEnv): (World, Outcome)
    requires forall i | i in env.ids :: i in w.table.rows
    requires id in w.animes ==> w.animes[id].dir != []
  {
    if id !in w.animes || w.animes[id].anidb.None? then (w, Done)
    else if !w.animes[id].variantsKnown then (w, Conflict)
    else
      var anime := w.animes[id];
      var locals := LocalsOf(w.table.rows, env.ids);
      var plan := PlanFor(anime.dir, anime.folderTitle, locals, anime.expected);
      PlannedIndices(anime.dir, anime.folderTitle, locals, anime.expected);
      var to := RenamedDir(anime.dir, plan);
      if !plan.dirNeedsRename then RenameLoop(w, env.ids, plan.fileRenames, env.turns)
      else if env.emptyDirThere || DirTaken(w.disk, to) || !env.dirRenamed then (w, Conflict)
      else RenameLoop(RenameDir(w, id, to), env.ids, plan.fileRenames, env.turns)
  }
}
