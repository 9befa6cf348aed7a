/** A relocation moves all files first and touches the rows afterwards. This module shows
    that rows and disk agree again at its end, and also when it had to be taken back. */
module RelocationInvariant {
  import opened Text
  import opened Numbering
  import opened Disk
  import opened Episodes
  import opened Rollback
  import opened Naming
  import opened Catalog
  import opened RenamePlan
  import opened Library
  import opened LibraryInvariant

  // ------------------------------------------------------------ the rows follow

  /** The rows whose files have moved but which have not followed yet. */
  function Behind(tasks: seq<Task>, k: nat): set<nat> {
    set j | k <= j < |tasks| :: tasks[j].id
  }

  /** Half-way through the rows: those behind name places just left; their files are in
      the new places, which no row names yet; all other rows are right. */
  ghost predicate Following(w: World, source: nat, dir: Dir, moves: seq<Job>, tasks: seq<Task>, k: nat)
    requires |moves| == |tasks|
  {
    && w.disk.Valid() && IdsBelow(w.table) && RowsDistinct(w.disk, w.table) && DistinctIds(tasks)
    && RowsFollow(w, moves, tasks, k)
    && PlacesWait(w, dir, moves, k)
    && PlacedBut(w, source, dir, Behind(tasks, k))
  }

  ghost predicate RowsFollow(w: World, moves: seq<Job>, tasks: seq<Task>, k: nat)
    requires |moves| == |tasks|
  {
    && (forall i | i in w.table.rows && i !in Behind(tasks, k) :: OnDisk(w.disk, w.table.rows[i].path))
    && (forall j | k <= j < |moves| :: tasks[j].id in w.table.rows && w.table.rows[tasks[j].id].path == moves[j].src)
  }

  ghost predicate PlacesWait(w: World, dir: Dir, moves: seq<Job>, k: nat) {
    && (forall j | k <= j < |moves| :: OnDisk(w.disk, moves[j].dest) && moves[j].dest.dir == dir)
    && (forall i, j | i in w.table.rows && k <= j < |moves| :: w.disk.Slot(w.table.rows[i].path) != w.disk.Slot(moves[j].dest))
    && (forall i, j | k <= i < j < |moves| :: w.disk.Slot(moves[i].dest) != w.disk.Slot(moves[j].dest))
  }

  ghost predicate PlacedBut(w: World, source: nat, dir: Dir, behind: set<nat>) {
    forall i | i in w.table.rows ::
      && w.table.rows[i].anime in w.animes
      && (w.table.rows[i].anime != source ==> w.animes[w.table.rows[i].anime].dir <= w.table.rows[i].path.dir)
      && (w.table.rows[i].anime == source ==> i in behind || dir <= w.table.rows[i].path.dir)
  }

  /** The table after one row has followed its file. */
  function FollowOne(w: World, source: nat, move: Job, task: Task): Table
    requires w.disk.Exists(move.dest)
  {
    Record(DeleteByPath(w.table, move.src), source, w.disk, move.dest, Normalize(Some(task.episode.epNumber)))
  }

  lemma FollowedRows(w: World, source: nat, dir: Dir, moves: seq<Job>, tasks: seq<Task>, k: nat)
    requires |moves| == |tasks| && k < |moves| && Following(w, source, dir, moves, tasks, k)
    ensures w.disk.Exists(moves[k].dest) && moves[k].dest.dir == dir
    ensures
      var f := w.disk.FileAt(moves[k].dest);
      var row := Row(source, moves[k].dest, Normalize(Some(tasks[k].episode.epNumber)), false, |f.content|, f.mtime);
      && DeleteByPath(w.table, moves[k].src).rows == w.table.rows - {tasks[k].id}
      && FollowOne(w, source, moves[k], tasks[k]) == Table((w.table.rows - {tasks[k].id})[w.table.next := row], w.table.next + 1)
  {
    hide IsEpisodeName, Spell, Normalize, HasVideoExtension, DistinctIds, Behind;
    var id := tasks[k].id;
    OnlyRowOf(w, id);
    var table := DeleteByPath(w.table, moves[k].src);
    assert table.rows == w.table.rows - {id};
    assert !table.Has(moves[k].dest) by {
      forall i | i in table.rows ensures table.rows[i].path != moves[k].dest {
        assert w.disk.Slot(w.table.rows[i].path) != w.disk.Slot(moves[k].dest);
      }
    }
  }

  lemma BehindStep(tasks: seq<Task>, k: nat)
    requires k < |tasks| && DistinctIds(tasks)
    ensures Behind(tasks, k) == Behind(tasks, k + 1) + {tasks[k].id} && tasks[k].id !in Behind(tasks, k + 1)
  {
  }

  lemma FollowStep(w: World, source: nat, dir: Dir, moves: seq<Job>, tasks: seq<Task>, k: nat)
    requires |moves| == |tasks| && k < |moves| && source in w.animes && Following(w, source, dir, moves, tasks, k)
    ensures w.disk.Exists(moves[k].dest)
    ensures Following(w.(table := FollowOne(w, source, moves[k], tasks[k])), source, dir, moves, tasks, k + 1)
  {
    hide IsEpisodeName, Spell, Normalize, HasVideoExtension, DistinctIds, Behind, FollowOne, Videos, RowsFollow, PlacesWait, PlacedBut;
    FollowedRows(w, source, dir, moves, tasks, k);
    BehindStep(tasks, k);
    var f := w.disk.FileAt(moves[k].dest);
    var row := Row(source, moves[k].dest, Normalize(Some(tasks[k].episode.epNumber)), false, |f.content|, f.mtime);
    var t := Table((w.table.rows - {tasks[k].id})[w.table.next := row], w.table.next + 1);
    FollowedDistinct(w, dir, moves, k, tasks[k].id, row, t);
    FollowedOnDisk(w, dir, moves, tasks, k, row, t);
    FollowedPlaces(w, dir, moves, k, tasks[k].id, row, t);
    FollowedPlaced(w, source, dir, Behind(tasks, k), tasks[k].id, row, t);
    assert Behind(tasks, k) - {tasks[k].id} == Behind(tasks, k + 1);
  }

  lemma FollowedDistinct(w: World, dir: Dir, moves: seq<Job>, k: nat, id: nat, row: Row, t: Table)
    requires IdsBelow(w.table) && RowsDistinct(w.disk, w.table) && k < |moves| && PlacesWait(w, dir, moves, k) && row.path == moves[k].dest
    requires t == Table((w.table.rows - {id})[w.table.next := row], w.table.next + 1)
    ensures IdsBelow(t) && RowsDistinct(w.disk, t)
  {
    hide IsEpisodeName, Spell, Videos;
  }

  lemma FollowedOnDisk(w: World, dir: Dir, moves: seq<Job>, tasks: seq<Task>, k: nat, row: Row, t: Table)
    requires |moves| == |tasks| && k < |moves| && IdsBelow(w.table) && DistinctIds(tasks)
    requires RowsFollow(w, moves, tasks, k) && PlacesWait(w, dir, moves, k) && row.path == moves[k].dest
    requires t == Table((w.table.rows - {tasks[k].id})[w.table.next := row], w.table.next + 1)
    ensures RowsFollow(w.(table := t), moves, tasks, k + 1)
  {
    hide IsEpisodeName, Spell, Videos, OnDisk;
    BehindStep(tasks, k);
    forall j | k + 1 <= j < |moves| ensures tasks[j].id in t.rows && t.rows[tasks[j].id].path == moves[j].src {
      assert tasks[j].id in w.table.rows && tasks[j].id != tasks[k].id;
    }
  }

  lemma FollowedPlaces(w: World, dir: Dir, moves: seq<Job>, k: nat, id: nat, row: Row, t: Table)
    requires k < |moves| && IdsBelow(w.table) && PlacesWait(w, dir, moves, k) && row.path == moves[k].dest
    requires t == Table((w.table.rows - {id})[w.table.next := row], w.table.next + 1)
    ensures PlacesWait(w.(table := t), dir, moves, k + 1)
  {
    hide IsEpisodeName, Spell, Videos, OnDisk;
  }

  lemma FollowedPlaced(w: World, source: nat, dir: Dir, behind: set<nat>, id: nat, row: Row, t: Table)
    requires source in w.animes && IdsBelow(w.table) && PlacedBut(w, source, dir, behind) && row.anime == source && row.path.dir == dir
    requires t == Table((w.table.rows - {id})[w.table.next := row], w.table.next + 1)
    ensures PlacedBut(w.(table := t), source, dir, behind - {id})
  {
  }

  lemma BehindHas(tasks: seq<Task>, k: nat, j: nat)
    requires k <= j < |tasks|
    ensures tasks[j].id in Behind(tasks, k)
  {
  }

  lemma {:induction false} RecordMovesFollows(w: World, source: nat, dir: Dir, moves: seq<Job>, tasks: seq<Task>, turns: nat -> Turn, k: nat)
    requires |moves| == |tasks| && k <= |moves| && source in w.animes && Following(w, source, dir, moves, tasks, k)
    requires forall j | k <= j < |moves| :: turns(j).stat
    ensures
      var (w', end) := RecordMoves(w, source, moves, tasks, turns, k);
      && end == Done && w'.disk == w.disk && w'.animes == w.animes && w'.folders == w.folders
      && Following(w', source, dir, moves, tasks, |moves|)
    decreases |moves| - k
  {
    hide Following, FollowOne, Normalize, Upsert, DeleteByPath;
    if k < |moves| {
      FollowStep(w, source, dir, moves, tasks, k);
      var w1 := w.(table := FollowOne(w, source, moves[k], tasks[k]));
      FollowOneIs(w, source, moves[k], tasks[k]);
      RecordMovesFollows(w1, source, dir, moves, tasks, turns, k + 1);
    }
  }

  lemma FollowOneIs(w: World, source: nat, move: Job, task: Task)
    requires w.disk.Exists(move.dest)
    ensures FollowOne(w, source, move, task) == Record(DeleteByPath(w.table, move.src), source, w.disk, move.dest, Normalize(Some(task.episode.epNumber)))
  {
  }

  /** Some row of the anime is in the new directory already. */
  ghost predicate HasFollowed(t: Table, source: nat, dir: Dir) {
    exists i :: i in t.rows && t.rows[i].anime == source && t.rows[i].path.dir == dir
  }

  lemma FollowOneLeads(w: World, source: nat, dir: Dir, moves: seq<Job>, tasks: seq<Task>, k: nat)
    requires |moves| == |tasks| && k < |moves| && Following(w, source, dir, moves, tasks, k)
    ensures w.disk.Exists(moves[k].dest) && HasFollowed(FollowOne(w, source, moves[k], tasks[k]), source, dir)
  {
    hide Following, FollowOne, Normalize, Spell;
    FollowedRows(w, source, dir, moves, tasks, k);
    var t' := FollowOne(w, source, moves[k], tasks[k]);
    assert t'.rows[w.table.next].anime == source;
  }

  /** Taking out the row of a file that was elsewhere leaves those in the new directory. */
  lemma FollowedStay(t: Table, source: nat, dir: Dir, src: Path)
    requires HasFollowed(t, source, dir) && src.dir != dir
    ensures HasFollowed(DeleteByPath(t, src), source, dir)
  {
    var i :| i in t.rows && t.rows[i].anime == source && t.rows[i].path.dir == dir;
    assert i in DeleteByPath(t, src).rows;
  }

  /** The row loop with a moved file that cannot be looked at. Every row names an episode
      that is there if and only if it was the last file: the rows still behind name places
      that are empty. */
  lemma {:induction false} RowsBehindAreStranded(w: World, source: nat, dir: Dir, moves: seq<Job>, tasks: seq<Task>, turns: nat -> Turn, k: nat, failing: nat)
    requires |moves| == |tasks| && k <= failing < |moves| && source in w.animes && Following(w, source, dir, moves, tasks, k)
    requires forall j | k <= j < |moves| :: w.disk.Slot(moves[j].src) !in Videos(w.disk) && moves[j].src.dir != dir
    requires (forall j | k <= j < failing :: turns(j).stat) && !turns(failing).stat
    ensures
      var (w', end) := RecordMoves(w, source, moves, tasks, turns, k);
      && end == Raised && w'.disk == w.disk && w'.animes == w.animes && w'.folders == w.folders
      && IdsBelow(w'.table) && RowsDistinct(w'.disk, w'.table)
      && (RowsOnDisk(w') <==> failing == |moves| - 1)
      && (failing == k ==> w'.table == DeleteByPath(w.table, moves[k].src))
      && (k < failing || HasFollowed(w.table, source, dir) ==> HasFollowed(w'.table, source, dir))
    decreases |moves| - k
  {
    hide FollowOne, Normalize, Upsert, DeleteByPath, Following, RowsOnDisk, RowsDistinct, Videos, Spell, HasFollowed;
    if k < failing {
      FollowStep(w, source, dir, moves, tasks, k);
      FollowOneIs(w, source, moves[k], tasks[k]);
      FollowOneLeads(w, source, dir, moves, tasks, k);
      RowsBehindAreStranded(w.(table := FollowOne(w, source, moves[k], tasks[k])), source, dir, moves, tasks, turns, k + 1, failing);
    } else {
      StrandedHere(w, source, dir, moves, tasks, k);
      if HasFollowed(w.table, source, dir) { FollowedStay(w.table, source, dir, moves[k].src); }
    }
  }

  /** The turn that fails. */
  lemma StrandedHere(w: World, source: nat, dir: Dir, moves: seq<Job>, tasks: seq<Task>, k: nat)
    requires |moves| == |tasks| && k < |moves| && Following(w, source, dir, moves, tasks, k)
    requires forall j | k <= j < |moves| :: w.disk.Slot(moves[j].src) !in Videos(w.disk)
    ensures
      var w' := w.(table := DeleteByPath(w.table, moves[k].src));
      IdsBelow(w'.table) && RowsDistinct(w'.disk, w'.table) && (RowsOnDisk(w') <==> k == |moves| - 1)
  {
    hide FollowOne, Normalize, IsEpisodeName, HasVideoExtension, Spell, Behind, Videos, DeleteByPath;
    FollowedRows(w, source, dir, moves, tasks, k);
    var w' := w.(table := DeleteByPath(w.table, moves[k].src));
    DeletedIds(w.table, moves[k].src);
    BehindStep(tasks, k);
    if k < |moves| - 1 {
      BehindHas(tasks, k + 1, k + 1);
      assert tasks[k].id != tasks[k + 1].id;
      assert tasks[k + 1].id in w'.table.rows && w'.table.rows[tasks[k + 1].id].path == moves[k + 1].src;
      assert !OnDisk(w'.disk, moves[k + 1].src);
    } else {
      NobodyBehind(tasks, k + 1);
    }
  }

  lemma DeletedIds(t: Table, src: Path)
    ensures DeleteByPath(t, src).next == t.next
  {
  }

  lemma NobodyBehind(tasks: seq<Task>, k: nat)
    requires k >= |tasks|
    ensures Behind(tasks, k) == {}
  {
  }

  // ------------------------------------------------------------ the compensation

  /** Every compensating move brings its video back; companions may be lost on the way. */
  predicate BackReturns(d: Disk, moves: seq<Job>, scripts: seq<Script>)
    requires |scripts| == |moves|
    decreases |moves|
  {
    moves == [] ||
    (&& BackReturns(d, moves[1..], scripts[1..])
     && Fits(Back(d, moves[1..], scripts[1..]), moves[0].dest, scripts[0])
     && MoveEpisode(Back(d, moves[1..], scripts[1..]), moves[0].dest, moves[0].src, scripts[0]).1.Some?)
  }

  /** Episodes sitting in their new places, the old ones empty. */
  ghost predicate Returnable(d: Disk, moves: seq<Job>, into: Dir) {
    && (forall m | m in moves :: IsEpisodeName(m.src.name) && IsEpisodeName(m.dest.name) && m.src.dir != into && m.dest.dir == into)
    && (forall i | 0 <= i < |moves| :: d.Slot(moves[i].dest) in Videos(d) && d.Slot(moves[i].src) !in Videos(d))
    && (forall i, j | 0 <= i < j < |moves| :: d.Slot(moves[i].dest) != d.Slot(moves[j].dest) && d.Slot(moves[i].src) != d.Slot(moves[j].src))
  }

  /** Each is back where it came from, and the other episodes are where they were. */
  ghost predicate HaveReturned(d: Disk, d': Disk, moves: seq<Job>) {
    && d'.foldCase == d.foldCase
    && (forall i | 0 <= i < |moves| :: d.Slot(moves[i].src) in Videos(d'))
    && (forall s | s in Videos(d) && (forall i | 0 <= i < |moves| :: s != d.Slot(moves[i].dest)) :: s in Videos(d'))
    && (forall s | s in Videos(d') :: s in Videos(d) || exists i | 0 <= i < |moves| :: s == d.Slot(moves[i].src))
  }

  lemma RestReturnable(d: Disk, moves: seq<Job>, into: Dir)
    requires moves != [] && Returnable(d, moves, into)
    ensures Returnable(d, moves[1..], into)
    ensures IsEpisodeName(moves[0].src.name) && IsEpisodeName(moves[0].dest.name) && moves[0].src.dir != into && moves[0].dest.dir == into
  {
    hide IsEpisodeName, Spell, Videos;
    assert moves[0] in moves;
  }

  /** The last one to come back finds its old place empty. */
  lemma PlaceIsFree(d: Disk, d1: Disk, moves: seq<Job>, into: Dir)
    requires moves != [] && Returnable(d, moves, into) && HaveReturned(d, d1, moves[1..])
    ensures d1.Slot(moves[0].src) !in Videos(d1)
  {
    hide IsEpisodeName, Spell, Videos;
    assert forall i | 0 <= i < |moves[1..]| :: moves[1..][i] == moves[i + 1];
  }

  /** Which slots hold an episode after one has moved. */
  lemma SlotsAfterMove(d: Disk, d': Disk, src: Path, to: Path)
    requires d'.foldCase == d.foldCase && OneVideoMoved(d, d', src, Some(to))
    ensures forall s :: s in Videos(d') <==> (s in Videos(d) && s != d.Slot(src)) || s == d.Slot(to)
  {
    hide Spell, Videos, HasVideoExtension;
  }

  lemma OneMoreReturned(d: Disk, d1: Disk, d2: Disk, moves: seq<Job>, into: Dir)
    requires moves != [] && Returnable(d, moves, into) && HaveReturned(d, d1, moves[1..])
    requires d2.foldCase == d1.foldCase && OneVideoMoved(d1, d2, moves[0].dest, Some(moves[0].src))
    ensures HaveReturned(d, d2, moves)
  {
    hide IsEpisodeName, Spell, Videos, HasVideoExtension, OneVideoMoved;
    SlotsAfterMove(d1, d2, moves[0].dest, moves[0].src);
    var rest := moves[1..];
    assert forall i | 0 <= i < |rest| :: rest[i] == moves[i + 1];
    forall i | 0 <= i < |moves| ensures d.Slot(moves[i].src) in Videos(d2) {
      assert moves[i] in moves && moves[0] in moves;
      if i > 0 { assert d.Slot(rest[i - 1].src) in Videos(d1); }
    }
    forall s | s in Videos(d) && (forall i | 0 <= i < |moves| :: s != d.Slot(moves[i].dest)) ensures s in Videos(d2) {
      assert s != d.Slot(moves[0].dest);
      assert forall i | 0 <= i < |rest| :: s != d.Slot(rest[i].dest);
      assert s in Videos(d1);
    }
    forall s | s in Videos(d2) ensures s in Videos(d) || exists i | 0 <= i < |moves| :: s == d.Slot(moves[i].src) {
      if s != d.Slot(moves[0].src) && s !in Videos(d) {
        var i :| 0 <= i < |rest| && s == d.Slot(rest[i].src);
        assert s == d.Slot(moves[i + 1].src);
      }
    }
  }

  lemma {:induction false} BackVideos(d: Disk, moves: seq<Job>, scripts: seq<Script>, into: Dir)
    requires d.Valid() && |scripts| == |moves| && Returnable(d, moves, into) && BackReturns(d, moves, scripts)
    ensures Back(d, moves, scripts).Valid() && HaveReturned(d, Back(d, moves, scripts), moves)
    decreases |moves|
  {
    hide IsEpisodeName, Spell, Videos, HasVideoExtension, MoveEpisode, Returnable, HaveReturned, Fits;
    if moves == [] {
      NoneReturned(d);
    } else {
      RestReturnable(d, moves, into);
      BackVideos(d, moves[1..], scripts[1..], into);
      var d1 := Back(d, moves[1..], scripts[1..]);
      PlaceIsFree(d, d1, moves, into);
      EpisodeName(moves[0].src.name);
      EpisodeName(moves[0].dest.name);
      FreeIfNoVideo(d1, moves[0].src);
      EpisodeMovesOneVideo(d1, moves[0].dest, moves[0].src, scripts[0]);
      EpisodeOnlyLeaves(d1, moves[0].dest, moves[0].src, scripts[0]);
      OneMoreReturned(d, d1, Back(d, moves, scripts), moves, into);
    }
  }

  lemma NoneReturned(d: Disk)
    ensures HaveReturned(d, d, [])
  {
  }

  // ------------------------------------------------------------ leftovers

  /** Files outside the source directory stay as they are. */
  lemma {:induction false} LeftoversSpare(d: Disk, from: Dir, to: Dir, leftovers: seq<CompanionMove>, slot: Path)
    requires d.Valid() && (forall c | c in leftovers :: from <= c.path.dir)
    requires slot in d.files && !(from <= slot.dir)
    ensures
      var d' := MoveLeftovers(d, from, to, leftovers);
      d'.Valid() && d'.foldCase == d.foldCase && slot in d'.files && d'.files[slot] == d.files[slot]
    decreases |leftovers|
  {
    hide MoveFile, Spell;
    if leftovers != [] {
      var p := leftovers[0].path;
      assert leftovers[0] in leftovers;
      var dest := Path(Rebase(from, to, p.dir), p.name);
      MoveNeverOverwrites(d, p, dest, leftovers[0].fates, slot);
      MoveKeepsValid(d, p, dest, leftovers[0].fates);
      LeftoversSpare(MoveFile(d, p, dest, leftovers[0].fates).0, from, to, leftovers[1..], slot);
    }
  }

  lemma {:induction false} LeftoversValid(d: Disk, from: Dir, to: Dir, leftovers: seq<CompanionMove>)
    requires d.Valid()
    ensures MoveLeftovers(d, from, to, leftovers).Valid() && MoveLeftovers(d, from, to, leftovers).foldCase == d.foldCase
    decreases |leftovers|
  {
    hide MoveFile, Spell;
    if leftovers != [] {
      var p := leftovers[0].path;
      var dest := Path(if from <= p.dir then Rebase(from, to, p.dir) else p.dir, p.name);
      MoveKeepsValid(d, p, dest, leftovers[0].fates);
      LeftoversValid(MoveFile(d, p, dest, leftovers[0].fates).0, from, to, leftovers[1..]);
    }
  }

  lemma LeftoversKeepRow(d: Disk, from: Dir, to: Dir, leftovers: seq<CompanionMove>, p: Path)
    requires d.Valid() && (forall c | c in leftovers :: from <= c.path.dir)
    requires OnDisk(d, p) && !(from <= p.dir)
    ensures OnDisk(MoveLeftovers(d, from, to, leftovers), p)
  {
    hide MoveLeftovers, IsEpisodeName, HasVideoExtension, Spell;
    LeftoversSpare(d, from, to, leftovers, d.Slot(p));
  }

  // ------------------------------------------------------------ the whole relocation

  /** The directories are listed completely or not at all on the way back. */
  predicate BackLists(d: Disk, moves: seq<Job>, scripts: seq<Script>)
    requires |scripts| == |moves|
    decreases |moves|
  {
    moves == [] || (BackLists(d, moves[1..], scripts[1..]) && Fits(Back(d, moves[1..], scripts[1..]), moves[0].dest, scripts[0]))
  }

  /** Listings are complete or fail, on the way out and on the way back. */
  ghost predicate RelocationLists(w: World, source: nat, folder: nat, tasks: seq<Task>, turns: nat -> Turn, back: nat -> Turn, leftovers: seq<CompanionMove>)
    requires source in w.animes && folder in w.folders
  {
    var jobs := Jobs(NewDir(w, source, folder), w.animes[source].folderTitle, tasks);
    var (disk, moves, all) := Forward(w.disk, jobs, Scripts(turns, |tasks|));
    && ForwardLists(w.disk, jobs, Scripts(turns, |tasks|))
    && (!all ==> BackLists(disk, moves, Scripts(back, |moves|)))
    && (forall c | c in leftovers :: w.animes[source].dir <= c.path.dir)
  }

  /** The two ways in which a relocation leaves rows behind: all files have moved and one of
      them cannot be looked at, or one has not moved and some compensating move leaves a
      video where it is. */
  ghost predicate RelocationStrands(w: World, source: nat, folder: nat, tasks: seq<Task>, turns: nat -> Turn, back: nat -> Turn)
    requires source in w.animes && folder in w.folders
  {
    var jobs := Jobs(NewDir(w, source, folder), w.animes[source].folderTitle, tasks);
    var (disk, moves, all) := Forward(w.disk, jobs, Scripts(turns, |tasks|));
    if all then exists k | 0 <= k < |tasks| :: !turns(k).stat else !BackReturns(disk, moves, Scripts(back, |moves|))
  }

  lemma FitsIffNotStranded(w: World, source: nat, folder: nat, tasks: seq<Task>, turns: nat -> Turn, back: nat -> Turn, leftovers: seq<CompanionMove>)
    requires source in w.animes && folder in w.folders
    ensures RelocationFits(w, source, folder, tasks, turns, back, leftovers)
      <==> RelocationLists(w, source, folder, tasks, turns, back, leftovers) && !RelocationStrands(w, source, folder, tasks, turns, back)
  {
    hide Forward, ForwardLists, BackReturns, BackLists, NewDir, Jobs;
    var jobs := Jobs(NewDir(w, source, folder), w.animes[source].folderTitle, tasks);
    var (disk, moves, all) := Forward(w.disk, jobs, Scripts(turns, |tasks|));
    if BackReturns(disk, moves, Scripts(back, |moves|)) { ReturnsAreLists(disk, moves, Scripts(back, |moves|)); }
  }

  lemma {:induction false} ReturnsAreLists(d: Disk, moves: seq<Job>, scripts: seq<Script>)
    requires |scripts| == |moves| && BackReturns(d, moves, scripts)
    ensures BackLists(d, moves, scripts)
    decreases |moves|
  {
    hide MoveEpisode, Fits;
    if moves != [] { ReturnsAreLists(d, moves[1..], scripts[1..]); }
  }

  /** Listings are complete or fail; and either everything moves, and then each moved file
      can be looked at, or the compensating moves bring the videos back. */
  ghost predicate RelocationFits(w: World, source: nat, folder: nat, tasks: seq<Task>, turns: nat -> Turn, back: nat -> Turn, leftovers: seq<CompanionMove>)
    requires source in w.animes && folder in w.folders
  {
    var dir := NewDir(w, source, folder);
    var jobs := Jobs(dir, w.animes[source].folderTitle, tasks);
    var (disk, moves, all) := Forward(w.disk, jobs, Scripts(turns, |tasks|));
    && ForwardLists(w.disk, jobs, Scripts(turns, |tasks|))
    && (all ==> forall k | 0 <= k < |tasks| :: turns(k).stat)
    && (!all ==> BackReturns(disk, moves, Scripts(back, |moves|)))
    && (forall c | c in leftovers :: w.animes[source].dir <= c.path.dir)
  }

  /** The relocation target is nobody's directory. */
  ghost predicate Unclaimed(w: World, dir: Dir) {
    dir != [] && forall a | a in w.animes :: Apart(w.animes[a].dir, dir)
  }

  lemma JobsInbound(w: World, source: nat, dir: Dir, title: string, tasks: seq<Task>)
    requires Inv(w) && source in w.animes && Unclaimed(w, dir) && Pending(w.table, tasks, 0)
    requires forall k | 0 <= k < |tasks| :: w.table.rows[tasks[k].id].anime == source
    ensures Inbound(w.disk, Jobs(dir, title, tasks), dir)
    ensures forall j | j in Jobs(dir, title, tasks) :: IsEpisodeName(j.src.name)
  {
    hide IsEpisodeName, Spell, HasVideoExtension, Target, Videos;
    var jobs := Jobs(dir, title, tasks);
    forall k | 0 <= k < |tasks|
      ensures HasVideoExtension(jobs[k].src.name) && IsEpisodeName(jobs[k].src.name) && IsEpisodeName(jobs[k].dest.name)
      ensures jobs[k].src.dir != dir && jobs[k].dest.dir == dir
    {
      assert OnDisk(w.disk, w.table.rows[tasks[k].id].path);
      EpisodeName(tasks[k].src.name);
      TargetIsEpisode(dir, title, tasks[k]);
      TargetDir(dir, title, tasks[k]);
    }
  }

  /** Where a row's file is after a relocation was taken back: where it was. */
  lemma FileIsBack(d: Disk, d1: Disk, d2: Disk, moves: seq<Job>, into: Dir, p: Path)
    requires HaveMoved(d, d1, moves, into) && HaveReturned(d1, d2, moves) && OnDisk(d, p)
    ensures OnDisk(d2, p)
  {
    hide IsEpisodeName, Spell, Videos;
    var s := d.Slot(p);
    if forall k | 0 <= k < |moves| :: s != d.Slot(moves[k].src) {
      assert s in Videos(d1);
    }
  }

  /** What a relocation that had to be taken back leaves behind. */
  lemma TakenBackKeepsInv(w: World, d1: Disk, d2: Disk, moves: seq<Job>, into: Dir)
    requires Inv(w) && HaveMoved(w.disk, d1, moves, into) && HaveReturned(d1, d2, moves) && d2.Valid()
    ensures Inv(w.(disk := d2))
  {
    hide Spell, OnDisk, HaveMoved, HaveReturned;
    forall i | i in w.table.rows ensures OnDisk(d2, w.table.rows[i].path) {
      FileIsBack(w.disk, d1, d2, moves, into, w.table.rows[i].path);
    }
    BackFolds(w.disk, d1, d2, moves, into);
  }

  lemma BackFolds(d: Disk, d1: Disk, d2: Disk, moves: seq<Job>, into: Dir)
    requires HaveMoved(d, d1, moves, into) && HaveReturned(d1, d2, moves)
    ensures d2.foldCase == d.foldCase
  {
  }

  lemma MovedAreReturnable(d: Disk, d1: Disk, jobs: seq<Job>, moves: seq<Job>, into: Dir)
    requires HaveMoved(d, d1, moves, into) && Inbound(d, jobs, into) && |moves| <= |jobs|
    requires forall i | 0 <= i < |moves| :: moves[i].src == jobs[i].src
    requires forall j | j in jobs :: IsEpisodeName(j.src.name)
    ensures Returnable(d1, moves, into)
  {
    hide IsEpisodeName, Spell, Videos, HasVideoExtension;
    forall m | m in moves ensures IsEpisodeName(m.src.name) && IsEpisodeName(m.dest.name) && m.src.dir != into && m.dest.dir == into {
      var i :| 0 <= i < |moves| && moves[i] == m;
      assert jobs[i] in jobs;
    }
  }

  lemma MovedAreFollowing(w: World, d1: Disk, source: nat, dir: Dir, moves: seq<Job>, tasks: seq<Task>)
    requires Inv(w) && source in w.animes && Unclaimed(w, dir) && Pending(w.table, tasks, 0)
    requires |moves| == |tasks| && d1.Valid() && HaveMoved(w.disk, d1, moves, dir)
    requires forall i | 0 <= i < |moves| :: moves[i].src == tasks[i].src
    requires forall i | i in w.table.rows && w.table.rows[i].anime == source :: i in Behind(tasks, 0)
    ensures Following(w.(disk := d1), source, dir, moves, tasks, 0)
  {
    hide IsEpisodeName, Spell, Videos, HasVideoExtension;
    forall i | i in w.table.rows && i !in Behind(tasks, 0) ensures OnDisk(d1, w.table.rows[i].path) {
      var s := w.disk.Slot(w.table.rows[i].path);
      assert OnDisk(w.disk, w.table.rows[i].path);
      forall k | 0 <= k < |moves| ensures s != w.disk.Slot(moves[k].src) {
        BehindHas(tasks, 0, k);
        assert w.table.rows[tasks[k].id].path == moves[k].src;
      }
    }
    forall i, j | i in w.table.rows && 0 <= j < |moves| ensures d1.Slot(w.table.rows[i].path) != d1.Slot(moves[j].dest) {
      assert OnDisk(w.disk, w.table.rows[i].path);
    }
  }

  /** All rows have followed and the leftovers have been dealt with. */
  lemma RelocatedKeepsInv(w: World, source: nat, dir: Dir, anime: Anime, moves: seq<Job>, tasks: seq<Task>, leftovers: seq<CompanionMove>)
    requires |moves| == |tasks| && Following(w, source, dir, moves, tasks, |moves|)
    requires source in w.animes && DirsApart(w.animes) && Unclaimed(w, dir) && anime.dir == dir
    requires forall c | c in leftovers :: w.animes[source].dir <= c.path.dir
    ensures Inv(w.(disk := MoveLeftovers(w.disk, w.animes[source].dir, dir, leftovers), animes := w.animes[source := anime]))
  {
    hide IsEpisodeName, Spell, Videos, HasVideoExtension, MoveLeftovers;
    var from := w.animes[source].dir;
    NobodyBehind(tasks, |moves|);
    LeftoversValid(w.disk, from, dir, leftovers);
    forall i | i in w.table.rows ensures OnDisk(MoveLeftovers(w.disk, from, dir, leftovers), w.table.rows[i].path) {
      var p := w.table.rows[i].path;
      assert OnDisk(w.disk, p);
      if from <= p.dir {
        var own := if w.table.rows[i].anime == source then dir else w.animes[w.table.rows[i].anime].dir;
        PrefixesCompare(from, own, p.dir);
      }
      LeftoversKeepRow(w.disk, from, dir, leftovers, p);
    }
  }

  /** A relocating sort leaves the library consistent, whether it goes through or is
      taken back. */
  lemma RelocateKeepsInv(w: World, source: nat, folder: nat, tasks: seq<Task>, turns: nat -> Turn, back: nat -> Turn, leftovers: seq<CompanionMove>)
    requires Inv(w) && source in w.animes && folder in w.folders && Unclaimed(w, NewDir(w, source, folder))
    requires Pending(w.table, tasks, 0)
    requires forall k | 0 <= k < |tasks| :: w.table.rows[tasks[k].id].anime == source
    requires forall i | i in w.table.rows && w.table.rows[i].anime == source :: i in Behind(tasks, 0)
    requires RelocationFits(w, source, folder, tasks, turns, back, leftovers)
    ensures Inv(Relocate(w, source, folder, tasks, turns, back, leftovers).0)
  {
    hide IsEpisodeName, Spell, Videos, HasVideoExtension, MoveLeftovers, Forward, Back, RecordMoves, HaveMoved, Inbound, HaveReturned, Returnable, Following, ForwardLists, BackReturns, NewDir, Target, RowsOnDisk, RowsDistinct, RowsPlaced, Behind, Pending;
    var anime := w.animes[source];
    var dir := NewDir(w, source, folder);
    var jobs := Jobs(dir, anime.folderTitle, tasks);
    JobsInbound(w, source, dir, anime.folderTitle, tasks);
    ForwardVideos(w.disk, jobs, Scripts(turns, |tasks|), dir);
    var (disk, moves, all) := Forward(w.disk, jobs, Scripts(turns, |tasks|));
    if !all {
      MovedAreReturnable(w.disk, disk, jobs, moves, dir);
      BackVideos(disk, moves, Scripts(back, |moves|), dir);
      TakenBackKeepsInv(w, disk, Back(disk, moves, Scripts(back, |moves|)), moves, dir);
    } else {
      MovedAreFollowing(w, disk, source, dir, moves, tasks);
      RecordMovesFollows(w.(disk := disk), source, dir, moves, tasks, turns, 0);
      var w1 := RecordMoves(w.(disk := disk), source, moves, tasks, turns).0;
      RelocatedKeepsInv(w1, source, dir, anime.(folder := folder, dir := dir), moves, tasks, leftovers);
    }
  }

  // ------------------------------------------------------------ a relocation nobody catches

  /** All files of the relocation have moved, and looking at the `failing`-th is the first
      look that fails. */
  ghost predicate LookFails(w: World, source: nat, folder: nat, tasks: seq<Task>, turns: nat -> Turn, failing: nat)
    requires source in w.animes && folder in w.folders
  {
    var jobs := Jobs(NewDir(w, source, folder), w.animes[source].folderTitle, tasks);
    && ForwardLists(w.disk, jobs, Scripts(turns, |tasks|)) && Forward(w.disk, jobs, Scripts(turns, |tasks|)).2
    && failing < |tasks| && (forall j | 0 <= j < failing :: turns(j).stat) && !turns(failing).stat
  }

  /** A relocation in which a moved file cannot be looked at ends there, with an error nobody
      catches. Every row then names an episode that is there if and only if it was the last
      file's turn; every row lies under its anime's directory, still the old one, if and only
      if it was the first file's. So the library is consistent if and only if there was only
      one file. No two rows ever name the same file. */
  lemma StatFailureStrandsRows(w: World, source: nat, folder: nat, tasks: seq<Task>, turns: nat -> Turn, back: nat -> Turn, leftovers: seq<CompanionMove>, failing: nat)
    requires Inv(w) && source in w.animes && folder in w.folders && Unclaimed(w, NewDir(w, source, folder))
    requires Pending(w.table, tasks, 0)
    requires forall k | 0 <= k < |tasks| :: w.table.rows[tasks[k].id].anime == source
    requires forall i | i in w.table.rows && w.table.rows[i].anime == source :: i in Behind(tasks, 0)
    requires LookFails(w, source, folder, tasks, turns, failing)
    ensures
      var (w', end) := Relocate(w, source, folder, tasks, turns, back, leftovers);
      && end == Raised && w'.animes == w.animes
      && (RowsOnDisk(w') <==> failing == |tasks| - 1)
      && (RowsPlaced(w') <==> failing == 0)
      && (Inv(w') <==> |tasks| == 1)
      && RowsDistinct(w'.disk, w'.table)
  {
    hide IsEpisodeName, Spell, Videos, HasVideoExtension, MoveLeftovers, Forward, Back, RecordMoves, HaveMoved, Inbound, Following, ForwardLists, NewDir, Target, RowsOnDisk, RowsDistinct, RowsPlaced, Behind, Pending, Unclaimed, HasFollowed, DeleteByPath;
    var anime := w.animes[source];
    var dir := NewDir(w, source, folder);
    var jobs := Jobs(dir, anime.folderTitle, tasks);
    JobsInbound(w, source, dir, anime.folderTitle, tasks);
    ForwardVideos(w.disk, jobs, Scripts(turns, |tasks|), dir);
    var (disk, moves, all) := Forward(w.disk, jobs, Scripts(turns, |tasks|));
    MovedAreFollowing(w, disk, source, dir, moves, tasks);
    SourcesLeft(w, disk, source, dir, moves, tasks);
    var w1 := w.(disk := disk);
    RowsBehindAreStranded(w1, source, dir, moves, tasks, turns, 0, failing);
    var w' := RecordMoves(w1, source, moves, tasks, turns).0;
    if failing == 0 {
      DeletedArePlaced(w, w', moves[0].src);
    } else {
      StrayIsNotPlaced(w', source, dir);
    }
  }

  lemma SourcesLeft(w: World, disk: Disk, source: nat, dir: Dir, moves: seq<Job>, tasks: seq<Task>)
    requires Inv(w) && source in w.animes && Unclaimed(w, dir) && Pending(w.table, tasks, 0) && |moves| == |tasks|
    requires forall k | 0 <= k < |tasks| :: w.table.rows[tasks[k].id].anime == source
    requires HaveMoved(w.disk, disk, moves, dir) && forall i | 0 <= i < |moves| :: moves[i].src == tasks[i].src
    ensures forall j | 0 <= j < |moves| :: disk.Slot(moves[j].src) !in Videos(disk) && moves[j].src.dir != dir
    ensures !(w.animes[source].dir <= dir)
  {
    hide RowsOnDisk, RowsDistinct, Spell, Videos, IsEpisodeName;
  }

  lemma DeletedArePlaced(w: World, w': World, src: Path)
    requires RowsPlaced(w) && w'.animes == w.animes && w'.table == DeleteByPath(w.table, src)
    ensures RowsPlaced(w')
  {
  }

  lemma StrayIsNotPlaced(w: World, source: nat, dir: Dir)
    requires source in w.animes && HasFollowed(w.table, source, dir) && !(w.animes[source].dir <= dir)
    ensures !RowsPlaced(w)
  {
  }

  // ------------------------------------------------------------ whatever happens

  /** Videos outside the target stay through the way back, however it goes. */
  lemma {:induction false} BackSpares(d: Disk, moves: seq<Job>, scripts: seq<Script>, into: Dir, s: Path)
    requires d.Valid() && |scripts| == |moves| && BackLists(d, moves, scripts)
    requires forall m | m in moves :: HasVideoExtension(m.src.name) && HasVideoExtension(m.dest.name) && m.dest.dir == into
    requires s in Videos(d) && s.dir != into
    ensures var e := Back(d, moves, scripts); s in Videos(e)
    decreases |moves|
  {
    hide MoveEpisode, Spell, Videos, HasVideoExtension, Fits;
    if moves != [] {
      forall m | m in moves[1..] ensures HasVideoExtension(m.src.name) && HasVideoExtension(m.dest.name) && m.dest.dir == into { assert m in moves; }
      BackSpares(d, moves[1..], scripts[1..], into, s);
      assert moves[0] in moves;
      EpisodeMovesOneVideo(Back(d, moves[1..], scripts[1..]), moves[0].dest, moves[0].src, scripts[0]);
    }
  }

  lemma {:induction false} BackValid(d: Disk, moves: seq<Job>, scripts: seq<Script>)
    requires d.Valid() && |scripts| == |moves|
    ensures Back(d, moves, scripts).Valid() && Back(d, moves, scripts).foldCase == d.foldCase
    decreases |moves|
  {
    hide MoveEpisode, Disk.Valid;
    if moves != [] {
      BackValid(d, moves[1..], scripts[1..]);
      EpisodeOnlyLeaves(Back(d, moves[1..], scripts[1..]), moves[0].dest, moves[0].src, scripts[0]);
    }
  }

  /** Every row is one there was, or one the relocation has written. */
  ghost predicate OldOrNew(t: Table, t': Table, source: nat, dir: Dir) {
    forall i | i in t'.rows :: (i in t.rows && t'.rows[i] == t.rows[i]) || (t'.rows[i].anime == source && t'.rows[i].path.dir == dir)
  }

  lemma {:induction false} RecordMovesOldOrNew(w: World, source: nat, dir: Dir, moves: seq<Job>, tasks: seq<Task>, turns: nat -> Turn, k: nat)
    requires |moves| == |tasks| && k <= |moves| && source in w.animes && Following(w, source, dir, moves, tasks, k)
    ensures OldOrNew(w.table, RecordMoves(w, source, moves, tasks, turns, k).0.table, source, dir)
    ensures
      var w' := RecordMoves(w, source, moves, tasks, turns, k).0;
      IdsBelow(w'.table) && RowsDistinct(w'.disk, w'.table) && w'.disk == w.disk && w'.animes == w.animes
    decreases |moves| - k
  {
    hide Following, FollowOne, Normalize, Upsert, RowsDistinct, Behind, DeleteByPath;
    FollowingIs(w, source, dir, moves, tasks, k);
    if k < |moves| {
      FollowedRows(w, source, dir, moves, tasks, k);
      DeletedIds(w.table, moves[k].src);
      DeletedDistinct(w, moves[k].src);
      if turns(k).stat {
        FollowStep(w, source, dir, moves, tasks, k);
        FollowOneIs(w, source, moves[k], tasks[k]);
        RecordMovesOldOrNew(w.(table := FollowOne(w, source, moves[k], tasks[k])), source, dir, moves, tasks, turns, k + 1);
      }
    }
  }

  lemma FollowingIs(w: World, source: nat, dir: Dir, moves: seq<Job>, tasks: seq<Task>, k: nat)
    requires |moves| == |tasks| && Following(w, source, dir, moves, tasks, k)
    ensures IdsBelow(w.table) && RowsDistinct(w.disk, w.table)
  {
    hide RowsFollow, PlacesWait, PlacedBut, RowsDistinct;
  }

  lemma DeletedDistinct(w: World, src: Path)
    requires IdsBelow(w.table) && RowsDistinct(w.disk, w.table)
    ensures IdsBelow(DeleteByPath(w.table, src)) && RowsDistinct(w.disk, DeleteByPath(w.table, src))
  {
    hide Spell;
  }

  /** Where only rows of one anime have changed, and only into a directory nobody claims, the
      others' are as right as they were. */
  lemma OthersStayRight(w: World, d': Disk, t': Table, source: nat, dir: Dir)
    requires Inv(w) && source in w.animes && Unclaimed(w, dir) && d'.Valid() && d'.foldCase == w.disk.foldCase
    requires OldOrNew(w.table, t', source, dir) && IdsBelow(t') && RowsDistinct(d', t')
    requires forall i | i in w.table.rows && w.table.rows[i].anime != source :: OnDisk(d', w.table.rows[i].path)
    ensures InvBut(w.(disk := d', table := t'), {source})
  {
    hide OnDisk, RowsOnDisk, RowsDistinct, Disk.Valid;
    var w' := w.(disk := d', table := t');
    forall i, a | i in t'.rows && a in w.animes && a != t'.rows[i].anime ensures !(w.animes[a].dir <= t'.rows[i].path.dir) {
      if i in w.table.rows && t'.rows[i] == w.table.rows[i] { PlacedUnder(w, a, i); }
    }
  }

  lemma SameRowsDistinct(d: Disk, d': Disk, t: Table)
    requires RowsDistinct(d, t) && d'.foldCase == d.foldCase
    ensures RowsDistinct(d', t)
  {
    hide Spell;
  }

  lemma SameRowsOldOrNew(t: Table, source: nat, dir: Dir)
    ensures OldOrNew(t, t, source, dir)
  {
  }

  /** The rows of other animes name files the relocation has not moved. */
  lemma OthersNotMoved(w: World, d1: Disk, source: nat, dir: Dir, moves: seq<Job>, tasks: seq<Task>, i: nat)
    requires Inv(w) && source in w.animes && Unclaimed(w, dir) && Pending(w.table, tasks, 0) && |moves| <= |tasks|
    requires HaveMoved(w.disk, d1, moves, dir) && forall k | 0 <= k < |moves| :: moves[k].src == tasks[k].src
    requires forall k | 0 <= k < |tasks| :: w.table.rows[tasks[k].id].anime == source
    requires i in w.table.rows && w.table.rows[i].anime != source
    ensures OnDisk(d1, w.table.rows[i].path) && w.table.rows[i].path.dir != dir
  {
    hide IsEpisodeName, Spell, Videos, HasVideoExtension;
    var s := w.disk.Slot(w.table.rows[i].path);
    assert OnDisk(w.disk, w.table.rows[i].path);
    forall k | 0 <= k < |moves| ensures s != w.disk.Slot(moves[k].src) {
      assert w.table.rows[tasks[k].id].path == moves[k].src;
    }
  }

  /** However a relocation ends -- through, taken back, taken back in part, or with an error
      nobody catches -- the rows of all other animes are right, no two rows name one file, and
      none lies in a directory of another anime. */
  lemma RelocateSparesOthers(w: World, source: nat, folder: nat, tasks: seq<Task>, turns: nat -> Turn, back: nat -> Turn, leftovers: seq<CompanionMove>)
    requires Inv(w) && source in w.animes && folder in w.folders && Unclaimed(w, NewDir(w, source, folder))
    requires Pending(w.table, tasks, 0)
    requires forall k | 0 <= k < |tasks| :: w.table.rows[tasks[k].id].anime == source
    requires forall i | i in w.table.rows && w.table.rows[i].anime == source :: i in Behind(tasks, 0)
    requires RelocationLists(w, source, folder, tasks, turns, back, leftovers)
    ensures InvBut(Relocate(w, source, folder, tasks, turns, back, leftovers).0, {source})
    ensures RelocationStrands(w, source, folder, tasks, turns, back) ==>
      var w' := Relocate(w, source, folder, tasks, turns, back, leftovers).0;
      OldOrNew(w.table, w'.table, source, NewDir(w, source, folder)) && w'.animes == w.animes
  {
    hide IsEpisodeName, Spell, Videos, HasVideoExtension, MoveLeftovers, Forward, Back, RecordMoves, HaveMoved, Inbound, Following, ForwardLists, BackLists, BackReturns, NewDir, Target, RowsOnDisk, RowsDistinct, RowsPlaced, Behind, Pending, Unclaimed, InvBut, Inv, Disk.Valid, OldOrNew, RelocationFits, RelocationStrands;
    var dir := NewDir(w, source, folder);
    var jobs := Jobs(dir, w.animes[source].folderTitle, tasks);
    InvIsValid(w);
    JobsInbound(w, source, dir, w.animes[source].folderTitle, tasks);
    ForwardVideos(w.disk, jobs, Scripts(turns, |tasks|), dir);
    var (disk, moves, all) := Forward(w.disk, jobs, Scripts(turns, |tasks|));
    forall i | i in w.table.rows && w.table.rows[i].anime != source ensures OnDisk(disk, w.table.rows[i].path) && w.table.rows[i].path.dir != dir {
      OthersNotMoved(w, disk, source, dir, moves, tasks, i);
    }
    MovedFold(w.disk, disk, moves, dir);
    FitsIffNotStranded(w, source, folder, tasks, turns, back, leftovers);
    if !RelocationStrands(w, source, folder, tasks, turns, back) {
      RelocateKeepsInv(w, source, folder, tasks, turns, back, leftovers);
      NothingStale(Relocate(w, source, folder, tasks, turns, back, leftovers).0);
      StaleGrows(Relocate(w, source, folder, tasks, turns, back, leftovers).0, {}, {source});
    } else if all {
      MovedAreFollowing(w, disk, source, dir, moves, tasks);
      RecordMovesOldOrNew(w.(disk := disk), source, dir, moves, tasks, turns, 0);
      StrandedIsRaised(w, source, folder, tasks, turns, back, leftovers);
      OthersStayRight(w, disk, RecordMoves(w.(disk := disk), source, moves, tasks, turns).0.table, source, dir);
    } else {
      MovedAreReturnable(w.disk, disk, jobs, moves, dir);
      HalfBackSparesOthers(w, disk, source, dir, moves, Scripts(back, |moves|));
      SameRowsOldOrNew(w.table, source, dir);
    }
  }

  lemma MovedFold(d: Disk, d': Disk, moves: seq<Job>, into: Dir)
    requires HaveMoved(d, d', moves, into)
    ensures d'.foldCase == d.foldCase
  {
  }

  lemma StaleGrows(w: World, stale: set<nat>, more: set<nat>)
    requires InvBut(w, stale) && stale <= more
    ensures InvBut(w, more)
  {
    hide OnDisk, RowsDistinct, NoTrespass, DirsApart;
  }

  /** A relocation that moved everything and cannot look at some file ends with the rows. */
  lemma StrandedIsRaised(w: World, source: nat, folder: nat, tasks: seq<Task>, turns: nat -> Turn, back: nat -> Turn, leftovers: seq<CompanionMove>)
    requires source in w.animes && folder in w.folders && RelocationStrands(w, source, folder, tasks, turns, back)
    requires Forward(w.disk, Jobs(NewDir(w, source, folder), w.animes[source].folderTitle, tasks), Scripts(turns, |tasks|)).2
    ensures
      var (disk, moves, _) := Forward(w.disk, Jobs(NewDir(w, source, folder), w.animes[source].folderTitle, tasks), Scripts(turns, |tasks|));
      Relocate(w, source, folder, tasks, turns, back, leftovers).0
        == w.(disk := disk, table := RecordMoves(w.(disk := disk), source, moves, tasks, turns).0.table)
  {
    hide Forward, NewDir, Jobs, MoveLeftovers, BackReturns;
    var (disk, moves, all) := Forward(w.disk, Jobs(NewDir(w, source, folder), w.animes[source].folderTitle, tasks), Scripts(turns, |tasks|));
    var k :| 0 <= k < |tasks| && !turns(k).stat;
    RecordMovesStops(w.(disk := disk), source, moves, tasks, turns, 0, k);
  }

  lemma {:induction false} RecordMovesStops(w: World, source: nat, moves: seq<Job>, tasks: seq<Task>, turns: nat -> Turn, k: nat, failing: nat)
    requires |moves| == |tasks| && k <= failing < |moves| && !turns(failing).stat
    ensures
      var (w', end) := RecordMoves(w, source, moves, tasks, turns, k);
      end == Raised && w' == w.(table := w'.table)
    decreases |moves| - k
  {
    hide Upsert, DeleteByPath, Normalize;
    if k < failing && turns(k).stat && w.disk.Exists(moves[k].dest) {
      var table := Record(DeleteByPath(w.table, moves[k].src), source, w.disk, moves[k].dest, Normalize(Some(tasks[k].episode.epNumber)));
      RecordMovesStops(w.(table := table), source, moves, tasks, turns, k + 1, failing);
    }
  }

  lemma HalfBackSparesOthers(w: World, disk: Disk, source: nat, dir: Dir, moves: seq<Job>, scripts: seq<Script>)
    requires Inv(w) && source in w.animes && Unclaimed(w, dir) && disk.Valid() && disk.foldCase == w.disk.foldCase
    requires |scripts| == |moves| && Returnable(disk, moves, dir) && BackLists(disk, moves, scripts)
    requires forall i | i in w.table.rows && w.table.rows[i].anime != source :: OnDisk(disk, w.table.rows[i].path) && w.table.rows[i].path.dir != dir
    ensures InvBut(w.(disk := Back(disk, moves, scripts)), {source})
  {
    hide Spell, Videos, HasVideoExtension, Back, BackLists, RowsOnDisk, RowsDistinct, RowsPlaced, Unclaimed, InvBut, Disk.Valid, OldOrNew, IsEpisodeName;
    var e := Back(disk, moves, scripts);
    BackValid(disk, moves, scripts);
    forall m | m in moves ensures HasVideoExtension(m.src.name) && HasVideoExtension(m.dest.name) && m.dest.dir == dir {
      EpisodeName(m.src.name);
      EpisodeName(m.dest.name);
    }
    forall i | i in w.table.rows && w.table.rows[i].anime != source ensures OnDisk(e, w.table.rows[i].path) {
      BackSpares(disk, moves, scripts, dir, disk.Slot(w.table.rows[i].path));
    }
    SameRowsDistinct(w.disk, e, w.table);
    SameRowsOldOrNew(w.table, source, dir);
    OthersStayRight(w, e, w.table, source, dir);
  }
}
