/** The sorter and the renamer as they run, over a file system and an episode repository
    that change under them. */
module Sorter {
  import opened Text
  import opened Disk
  import opened Episodes
  import opened Rollback
  import opened Naming
  import opened Catalog
  import opened RenamePlan
  import opened Library
  import opened FileMover
  import opened EpisodeRepository

  class SortService {
    const fs: FileSystem
    const episodes: EpisodeRepo
    const folders: map<nat, Dir>
    var animes: map<nat, Anime>

    ghost function W(): World
      reads this, fs, episodes
    {
      World(fs.disk, folders, animes, episodes.T())
    }

    constructor (fs: FileSystem, episodes: EpisodeRepo, folders: map<nat, Dir>, animes: map<nat, Anime>)
      ensures this.fs == fs && this.episodes == episodes && this.folders == folders && this.animes == animes
    {
      this.fs, this.episodes, this.folders, this.animes := fs, episodes, folders, animes;
    }

    /** Recording a moved file under an anime, from a look at it. */
    method RecordAt(anime: nat, at: Path, number: Option<string>)
      requires episodes.T().Valid() && fs.disk.Exists(at)
      modifies episodes
      ensures episodes.T() == Record(old(episodes.T()), anime, fs.disk, at, number) && episodes.T().Valid()
    {
      episodes.Upsert(anime, at, |fs.disk.FileAt(at).content|, fs.disk.FileAt(at).mtime, number);
    }

    /** The loop of the merging branch. */
    method MergeEpisodes(target: nat, dir: Dir, title: string, tasks: seq<Task>, turns: nat -> Turn) returns (end: Outcome)
      requires episodes.T().Valid()
      modifies fs, episodes
      ensures (W(), end) == MergeLoop(old(W()), target, dir, title, tasks, turns)
      ensures episodes.T().Valid()
    {
      hide MoveEpisode, Catalog.DeleteByPath, Target, Normalize, Catalog.Upsert;
      ghost var w := W();
      for k := 0 to |tasks|
        invariant episodes.T().Valid()
        invariant MergeLoop(w, target, dir, title, tasks, turns) == MergeLoop(W(), target, dir, title, tasks, turns, k)
      {
        var r := fs.MoveEpisodeFile(tasks[k].src, Target(dir, title, tasks[k]), turns(k).script);
        if r.None? {
          return Conflict;
        }
        episodes.DeleteByPath(tasks[k].src);
        if !turns(k).stat || !fs.disk.Exists(r.value) {
          return Raised;
        }
        RecordAt(target, r.value, Normalize(Some(tasks[k].episode.epNumber)));
      }
      return Done;
    }

    /** The merging branch. */
    method MergeInto(source: nat, target: nat, tasks: seq<Task>, turns: nat -> Turn, unlinks: nat) returns (end: Outcome)
      requires episodes.T().Valid() && source in animes && target in animes
      modifies this, fs, episodes
      ensures (W(), end) == Merge(old(W()), source, target, tasks, turns, unlinks)
    {
      hide MergeLoop, Library.RemoveSidecars;
      var dir := animes[source].dir;
      end := MergeEpisodes(target, animes[target].dir, animes[target].folderTitle, tasks, turns);
      if end != Done || HasVideos(fs.disk, dir) {
        return;
      }
      var removed := fs.RemoveSidecars(dir, unlinks);
      if !removed {
        return Raised;
      }
      animes := animes - {source};
      episodes.DeleteByAnime(source);
    }

    /** The first loop of a relocation: moving every file. */
    method MoveAll(jobs: seq<Job>, turns: nat -> Turn) returns (moves: seq<Job>, all: bool)
      modifies fs
      ensures (fs.disk, moves, all) == Forward(old(fs.disk), jobs, Scripts(turns, |jobs|))
    {
      hide MoveEpisode;
      ghost var d, scripts := fs.disk, Scripts(turns, |jobs|);
      moves := [];
      assert jobs[0..] == jobs && scripts[0..] == scripts;
      assert [] + Forward(d, jobs, scripts).1 == Forward(d, jobs, scripts).1;
      for k := 0 to |jobs|
        invariant var (d', more, all') := Forward(fs.disk, jobs[k..], scripts[k..]); Forward(d, jobs, scripts) == (d', moves + more, all')
      {
        assert jobs[k..][1..] == jobs[k + 1..] && scripts[k..][1..] == scripts[k + 1..];
        var r := fs.MoveEpisodeFile(jobs[k].src, jobs[k].dest, turns(k).script);
        if r.None? {
          assert moves + [] == moves;
          return moves, false;
        }
        ghost var more := Forward(fs.disk, jobs[k + 1..], scripts[k + 1..]).1;
        assert moves + ([Job(jobs[k].src, r.value)] + more) == (moves + [Job(jobs[k].src, r.value)]) + more;
        moves := moves + [Job(jobs[k].src, r.value)];
      }
      assert moves + [] == moves;
      return moves, true;
    }

    /** The compensation: the moves are undone in reverse; one that cannot be is passed over. */
    method UndoMoves(moves: seq<Job>, back: nat -> Turn)
      modifies fs
      ensures fs.disk == Back(old(fs.disk), moves, Scripts(back, |moves|))
    {
      hide MoveEpisode;
      ghost var d, scripts := fs.disk, Scripts(back, |moves|);
      for k := |moves| downto 0
        invariant fs.disk == Back(d, moves[k..], scripts[k..])
      {
        assert moves[k..][1..] == moves[k + 1..] && scripts[k..][1..] == scripts[k + 1..];
        var r := fs.MoveEpisodeFile(moves[k].dest, moves[k].src, back(k).script);
      }
    }

    /** The second loop of a relocation: the rows follow. */
    method FollowMoves(anime: nat, moves: seq<Job>, tasks: seq<Task>, turns: nat -> Turn) returns (end: Outcome)
      requires |moves| == |tasks| && episodes.T().Valid()
      modifies episodes
      ensures (W(), end) == RecordMoves(old(W()), anime, moves, tasks, turns)
      ensures episodes.T().Valid()
    {
      hide Catalog.DeleteByPath, Normalize, Catalog.Upsert;
      ghost var w := W();
      for k := 0 to |moves|
        invariant episodes.T().Valid()
        invariant RecordMoves(w, anime, moves, tasks, turns) == RecordMoves(W(), anime, moves, tasks, turns, k)
      {
        episodes.DeleteByPath(moves[k].src);
        if !turns(k).stat || !fs.disk.Exists(moves[k].dest) {
          return Raised;
        }
        RecordAt(anime, moves[k].dest, Normalize(Some(tasks[k].episode.epNumber)));
      }
      return Done;
    }

    /** The relocating branch. */
    method RelocateTo(source: nat, folder: nat, tasks: seq<Task>, turns: nat -> Turn, back: nat -> Turn, leftovers: seq<CompanionMove>) returns (end: Outcome)
      requires episodes.T().Valid() && source in animes && folder in folders
      modifies this, fs, episodes
      ensures (W(), end) == Relocate(old(W()), source, folder, tasks, turns, back, leftovers)
    {
      hide Forward, Back, RecordMoves, MoveLeftovers, Target, Sanitize;
      var anime := animes[source];
      var dir := folders[folder] + [Sanitize(anime.folderTitle)];
      var moves, all := MoveAll(Jobs(dir, anime.folderTitle, tasks), turns);
      if !all {
        UndoMoves(moves, back);
        return Conflict;
      }
      end := FollowMoves(source, moves, tasks, turns);
      if end != Done {
        return;
      }
      fs.MoveRemainingFiles(anime.dir, dir, leftovers);
      animes := animes[source := anime.(folder := folder, dir := dir)];
    }

    /** `sort_anime` */
    method SortAnime(source: nat, folder: nat, env: SortEnv) returns (end: Outcome)
      requires episodes.T().Valid() && folder in folders
      requires forall i | i in env.ids :: i in episodes.rows
      modifies this, fs, episodes
      ensures (W(), end) == Library.SortAnime(old(W()), source, folder, env)
    {
      hide Merge, Relocate, Tasks;
      if source !in animes || animes[source].anidb.None? || env.ids == [] {
        return Conflict;
      }
      var tasks := Tasks(episodes.rows, env.ids, animes[source].expected);
      if tasks == [] {
        return Conflict;
      }
      var anidb := animes[source].anidb.value;
      var twins := set a | a in animes && animes[a].anidb == Some(anidb) && animes[a].folder == folder;
      assert twins == Twins(W(), anidb, folder);
      if |twins| > 1 {
        return Raised;
      }
      if |twins| == 1 {
        TwinIsAnime(W(), anidb, folder);
        end := MergeInto(source, TheElement(twins), tasks, env.turns, env.unlinks);
      } else if |tasks| < |env.ids| {
        return Conflict;
      } else if !env.mkdir {
        end := Raised;
      } else {
        end := RelocateTo(source, folder, tasks, env.turns, env.back, env.leftovers);
      }
    }

    // ---------------------------------------------------------- renaming

    /** Every row of the anime follows its renamed directory, path by path. */
    method RebaseRows(anime: nat, ids: seq<nat>, from: Dir, to: Dir)
      requires Lists(ids, episodes.T(), anime) && forall i | i in ids :: i in episodes.rows
      modifies episodes
      ensures episodes.T() == RebaseTable(old(episodes.T()), anime, from, to)
    {
      hide RebasePath;
      ghost var rows := episodes.rows;
      for k := 0 to |ids|
        invariant episodes.next == old(episodes.next) && episodes.rows.Keys == rows.Keys
        invariant forall i | i in rows :: episodes.rows[i] == if i in ids[..k] then rows[i].(path := RebasePath(from, to, rows[i].path)) else rows[i]
      {
        assert ids[k] in ids;
        assert ids[..k + 1] == ids[..k] + [ids[k]];
        assert ids[k] !in ids[..k];
        episodes.SetPath(ids[k], RebasePath(from, to, episodes.rows[ids[k]].path));
      }
      assert ids[..|ids|] == ids;
      forall i | i in rows ensures i in ids <==> rows[i].anime == anime {
        assert i in (set j | j in ids) <==> i in IdsOf(Table(rows, episodes.next), anime);
      }
    }

    /** The loop over the planned files. */
    method RenameFiles(ids: seq<nat>, renames: seq<Rename>, turns: nat -> Turn) returns (end: Outcome)
      requires forall r | r in renames :: r.index < |ids| && ids[r.index] in episodes.rows
      modifies fs, episodes
      ensures (W(), end) == RenameLoop(old(W()), ids, renames, turns)
    {
      hide MoveEpisode;
      ghost var w := W();
      for k := 0 to |renames|
        invariant episodes.rows.Keys == old(episodes.rows.Keys)
        invariant RenameLoop(w, ids, renames, turns) == RenameLoop(W(), ids, renames, turns, k)
      {
        assert renames[k] in renames;
        var id := ids[renames[k].index];
        var src := episodes.rows[id].path;
        var r := fs.MoveEpisodeFile(src, Path(src.dir, renames[k].name), turns(k).script);
        if r.None? {
          return Conflict;
        }
        episodes.SetPath(id, r.value);
      }
      return Done;
    }

    /** `rename_anime` */
    method RenameAnime(id: nat, env: RenameEnv) returns (end: Outcome)
      requires (forall i | i in env.ids :: i in episodes.rows) && (id in animes ==> animes[id].dir != [])
      requires id in animes ==> Lists(env.ids, episodes.T(), id)
      modifies this, fs, episodes
      ensures (W(), end) == Library.RenameAnime(old(W()), id, env)
    {
      hide PlanFor, RenameLoop, RebaseDisk, RebaseTable, DirTaken;
      if id !in animes || animes[id].anidb.None? {
        return Done;
      }
      if !animes[id].variantsKnown {
        return Conflict;
      }
      var anime := animes[id];
      var locals := LocalsOf(episodes.rows, env.ids);
      var plan := ComputeRenamePlan(anime.dir, anime.folderTitle, locals, anime.expected);
      PlannedIndices(anime.dir, anime.folderTitle, locals, anime.expected);
      forall r | r in plan.fileRenames ensures env.ids[r.index] in episodes.rows { assert env.ids[r.index] in env.ids; }
      if plan.dirNeedsRename {
        var to := RenamedDir(anime.dir, plan);
        if env.emptyDirThere || DirTaken(fs.disk, to) || !env.dirRenamed {
          return Conflict;
        }
        fs.RenameDir(anime.dir, to);
        animes := animes[id := anime.(dir := to)];
        RebaseRows(id, env.ids, anime.dir, to);
        RebasedKeys(old(episodes.T()), id, anime.dir, to);
      }
      end := RenameFiles(env.ids, plan.fileRenames, env.turns);
    }
  }

  lemma RebasedKeys(t: Table, anime: nat, from: Dir, to: Dir)
    ensures RebaseTable(t, anime, from, to).rows.Keys == t.rows.Keys
  {
  }
}
