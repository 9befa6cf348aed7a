/** Rows and disk agree, whatever happens: over every run of sorts, renames and scans,
    at every return and every raise, each row names an episode that is there, and no two
    rows name the same one. */
module LibraryInvariant {
  import opened Text
  import opened Numbering
  import opened Disk
  import opened Episodes
  import opened Rollback
  import opened Naming
  import opened Catalog
  import opened Library

  /** A video name `splitext` and `PurePath` split alike: its stem is not all dots. */
  predicate IsEpisodeName(name: string) {
    HasVideoExtension(name) && Extension(name) == Suffix(name)
  }

  predicate Apart(a: Dir, b: Dir) {
    !(a <= b) && !(b <= a)
  }

  predicate OnDisk(d: Disk, p: Path) {
    d.Slot(p) in Videos(d) && IsEpisodeName(p.name)
  }

  ghost predicate RowsOnDisk(w: World) {
    forall i | i in w.table.rows :: OnDisk(w.disk, w.table.rows[i].path)
  }

  /** Not even two spellings of one file. */
  ghost predicate RowsDistinct(d: Disk, t: Table) {
    forall i, j | i in t.rows && j in t.rows && d.Slot(t.rows[i].path) == d.Slot(t.rows[j].path) :: i == j
  }

  ghost predicate RowsPlaced(w: World) {
    forall i | i in w.table.rows ::
      w.table.rows[i].anime in w.animes && w.animes[w.table.rows[i].anime].dir <= w.table.rows[i].path.dir
  }

  ghost predicate DirsApart(animes: map<nat, Anime>) {
    && (forall a | a in animes :: animes[a].dir != [])
    && (forall a, b | a in animes && b in animes && a != b :: Apart(animes[a].dir, animes[b].dir))
  }

  ghost predicate IdsBelow(t: Table) {
    forall i | i in t.rows :: i < t.next
  }

  /** The library is consistent. */
  ghost predicate Inv(w: World) {
    && w.disk.Valid()
    && IdsBelow(w.table)
    && RowsOnDisk(w)
    && RowsDistinct(w.disk, w.table)
    && RowsPlaced(w)
    && DirsApart(w.animes)
  }

  /** No row lies under another anime's directory. */
  ghost predicate NoTrespass(w: World) {
    forall i, a | i in w.table.rows && a in w.animes && a != w.table.rows[i].anime :: !(w.animes[a].dir <= w.table.rows[i].path.dir)
  }

  /** The library is consistent but for rows of some animes, which may name episodes that
      are not there or not in their place. */
  ghost predicate InvBut(w: World, stale: set<nat>) {
    && w.disk.Valid()
    && IdsBelow(w.table)
    && (forall i | i in w.table.rows && w.table.rows[i].anime !in stale ::
          && OnDisk(w.disk, w.table.rows[i].path)
          && w.table.rows[i].anime in w.animes && w.animes[w.table.rows[i].anime].dir <= w.table.rows[i].path.dir)
    && RowsDistinct(w.disk, w.table)
    && NoTrespass(w)
    && DirsApart(w.animes)
  }

  lemma NothingStale(w: World)
    ensures Inv(w) <==> InvBut(w, {})
  {
    hide OnDisk, RowsDistinct;
    if RowsPlaced(w) && DirsApart(w.animes) {
      forall i, a | i in w.table.rows && a in w.animes && a != w.table.rows[i].anime ensures !(w.animes[a].dir <= w.table.rows[i].path.dir) {
        PlacedUnder(w, a, i);
      }
    }
  }

  lemma PlacedUnder(w: World, id: nat, i: nat)
    requires RowsPlaced(w) && DirsApart(w.animes) && id in w.animes && i in w.table.rows
    ensures w.animes[id].dir <= w.table.rows[i].path.dir <==> w.table.rows[i].anime == id
  {
    var other := w.table.rows[i].anime;
    if w.animes[id].dir <= w.table.rows[i].path.dir && other != id {
      PrefixesCompare(w.animes[id].dir, w.animes[other].dir, w.table.rows[i].path.dir);
    }
  }

  lemma DistinctIsValid(d: Disk, t: Table)
    requires IdsBelow(t) && RowsDistinct(d, t)
    ensures t.Valid()
  {
    hide Spell;
  }

  // ------------------------------------------------------------ names built keep their kind

  lemma TargetIsEpisode(dir: Dir, title: string, task: Task)
    requires HasVideoExtension(task.src.name)
    ensures IsEpisodeName(Target(dir, title, task).name) && Suffix(Target(dir, title, task).name) == Suffix(task.src.name)
    ensures Stem(Target(dir, title, task).name) == EpisodeStem(Sanitize(title), task.episode.epNumber, task.episode.title)
  {
    hide EpisodeStem, HasVideoExtension, Stem, Suffix, Extension, Root, Sanitize;
    VideoHasExtension(task.src.name);
    var stem := EpisodeStem(Sanitize(title), task.episode.epNumber, task.episode.title);
    SplitBuilt(stem, Suffix(task.src.name));
    SameKind(stem + Suffix(task.src.name), task.src.name);
  }

  /** A numbered copy of an episode name is an episode name. */
  lemma DedupeIsEpisode(d: Disk, src: Path, dest: Path)
    requires IsEpisodeName(dest.name)
    ensures IsEpisodeName(d.Dedupe(src, dest).name)
  {
    DedupeKeepsKind(d, src, dest);
    if !d.IsFreeFor(src, dest) {
      hide HasVideoExtension;
      var n := LowestFree(d.Occupied(src, dest.dir), d.foldCase, Stem(dest.name), Suffix(dest.name), 2);
      VideoHasExtension(dest.name);
      var stem := Stem(dest.name) + " (" + Decimal(n) + ")";
      assert stem[|Stem(dest.name)|] == ' ';
      SplitBuilt(stem, Suffix(dest.name));
      assert Numbered(Stem(dest.name), n, Suffix(dest.name)) == stem + Suffix(dest.name);
    }
  }

  /** Where no episode is, the place for one is free. */
  lemma FreeIfNoVideo(d: Disk, p: Path)
    requires HasVideoExtension(p.name) && d.Slot(p) !in Videos(d)
    ensures !d.Exists(p)
  {
    SpellKeepsKind(d.foldCase, p.name);
  }

  // ------------------------------------------------------------ one episode, one row

  lemma KeptOnDisk(d: Disk, d': Disk, p: Path)
    requires OnDisk(d, p) && d'.foldCase == d.foldCase && Kept(Videos(d), Videos(d'))
    ensures OnDisk(d', p)
  {
    hide Videos, IsEpisodeName, Spell;
  }

  /** A failed move, however messy, does no harm to the rows. */
  lemma FailedMoveKeepsInv(w: World, d': Disk)
    requires Inv(w) && d'.Valid() && d'.foldCase == w.disk.foldCase && Kept(Videos(w.disk), Videos(d'))
    ensures Inv(w.(disk := d'))
  {
    hide Videos, IsEpisodeName, Spell, OnDisk, Disk.Valid;
    forall i | i in w.table.rows ensures OnDisk(d', w.table.rows[i].path) {
      KeptOnDisk(w.disk, d', w.table.rows[i].path);
    }
  }

  /** The one row whose file has moved is taken out. */
  lemma ForgetMoved(w: World, d': Disk, id: nat, to: Path)
    requires Inv(w) && id in w.table.rows && d'.Valid() && d'.foldCase == w.disk.foldCase
    requires OneVideoMoved(w.disk, d', w.table.rows[id].path, Some(to))
    ensures
      var table := DeleteByPath(w.table, w.table.rows[id].path);
      && table.rows == w.table.rows - {id} && table.next == w.table.next
      && Inv(w.(disk := d', table := table))
      && d'.Slot(to) in Videos(d')
      && forall i | i in table.rows :: d'.Slot(table.rows[i].path) != d'.Slot(to)
  {
    hide Videos, IsEpisodeName, Spell, OneVideoMoved, RowsOnDisk, RowsDistinct, DeleteByPath;
    var src := w.table.rows[id].path;
    var table := DeleteByPath(w.table, src);
    OnlyRowOf(w, id);
    ForgottenStaysOnDisk(w, d', id, to);
    ForgottenStaysDistinct(w, d', id);
  }

  lemma OnlyRowOf(w: World, id: nat)
    requires RowsDistinct(w.disk, w.table) && id in w.table.rows
    ensures DeleteByPath(w.table, w.table.rows[id].path) == w.table.(rows := w.table.rows - {id})
  {
    hide Spell;
    var src := w.table.rows[id].path;
    forall i | i in w.table.rows && i != id ensures w.table.rows[i].path != src {
      assert w.disk.Slot(w.table.rows[i].path) != w.disk.Slot(src);
    }
  }

  lemma ForgottenStaysOnDisk(w: World, d': Disk, id: nat, to: Path)
    requires RowsOnDisk(w) && RowsDistinct(w.disk, w.table) && id in w.table.rows && d'.foldCase == w.disk.foldCase
    requires OneVideoMoved(w.disk, d', w.table.rows[id].path, Some(to))
    ensures RowsOnDisk(w.(disk := d', table := w.table.(rows := w.table.rows - {id})))
    ensures d'.Slot(to) in Videos(d')
    ensures forall i | i in w.table.rows - {id} :: d'.Slot(w.table.rows[i].path) != d'.Slot(to)
  {
    hide Videos, IsEpisodeName, Spell;
    forall i | i in w.table.rows && i != id
      ensures OnDisk(d', w.table.rows[i].path) && d'.Slot(w.table.rows[i].path) != d'.Slot(to)
    {
      assert OnDisk(w.disk, w.table.rows[i].path);
      assert w.disk.Slot(w.table.rows[i].path) != w.disk.Slot(w.table.rows[id].path);
    }
  }

  lemma ForgottenStaysDistinct(w: World, d': Disk, id: nat)
    requires RowsDistinct(w.disk, w.table) && d'.foldCase == w.disk.foldCase
    ensures RowsDistinct(d', w.table.(rows := w.table.rows - {id}))
  {
    hide Spell;
  }

  /** A file that is there and that no row names gets a row. */
  lemma RecordKeepsInv(w: World, anime: nat, at: Path, number: Option<string>)
    requires Inv(w) && anime in w.animes && w.animes[anime].dir <= at.dir
    requires OnDisk(w.disk, at) && w.disk.Exists(at)
    requires forall i | i in w.table.rows :: w.disk.Slot(w.table.rows[i].path) != w.disk.Slot(at)
    ensures Inv(w.(table := Record(w.table, anime, w.disk, at, number)))
    ensures
      var f := w.disk.FileAt(at);
      Record(w.table, anime, w.disk, at, number)
        == Table(w.table.rows[w.table.next := Row(anime, at, number, false, |f.content|, f.mtime)], w.table.next + 1)
  {
    hide Videos, IsEpisodeName, Spell;
    assert !w.table.Has(at);
  }

  // ------------------------------------------------------------ merging

  /** The environment lists each directory completely or not at all, all along. */
  predicate MergeFits(w: World, target: nat, dir: Dir, title: string, tasks: seq<Task>, turns: nat -> Turn, k: nat := 0)
    decreases |tasks| - k
  {
    k >= |tasks| ||
    (&& Fits(w.disk, tasks[k].src, turns(k).script)
     && var (disk, r) := MoveEpisode(w.disk, tasks[k].src, Target(dir, title, tasks[k]), turns(k).script);
        r.Some? && turns(k).stat && disk.Exists(r.value) ==>
          MergeFits(w.(disk := disk, table := Record(DeleteByPath(w.table, tasks[k].src), target, disk, r.value, Normalize(Some(tasks[k].episode.epNumber)))),
                    target, dir, title, tasks, turns, k + 1))
  }

  /** The rows still to be handled are as they were read. */
  ghost predicate Pending(t: Table, tasks: seq<Task>, k: nat) {
    && (forall i | k <= i < |tasks| :: tasks[i].id in t.rows && t.rows[tasks[i].id].path == tasks[i].src)
    && (forall i, j | k <= i < j < |tasks| :: tasks[i].id != tasks[j].id)
  }

  lemma {:induction false} MergeLoopKeepsInv(w: World, target: nat, dir: Dir, title: string, tasks: seq<Task>, turns: nat -> Turn, k: nat)
    requires Inv(w) && target in w.animes && w.animes[target].dir == dir
    requires Pending(w.table, tasks, k) && MergeFits(w, target, dir, title, tasks, turns, k)
    ensures
      var w' := MergeLoop(w, target, dir, title, tasks, turns, k).0;
      Inv(w') && w'.animes == w.animes && w'.folders == w.folders && w'.disk.foldCase == w.disk.foldCase
    decreases |tasks| - k
  {
    hide Videos, IsEpisodeName, Spell, Inv, MoveEpisode, Target, Fits, Upsert, DeleteByPath, OneVideoMoved, Normalize;
    if k < |tasks| {
      var task := tasks[k];
      var (disk, r) := MoveEpisode(w.disk, task.src, Target(dir, title, task), turns(k).script);
      MergeStep(w, task, target, dir, title, turns(k));
      if r.Some? && turns(k).stat && disk.Exists(r.value) {
        var table := Record(DeleteByPath(w.table, task.src), target, disk, r.value, Normalize(Some(task.episode.epNumber)));
        MergeLoopKeepsInv(w.(disk := disk, table := table), target, dir, title, tasks, turns, k + 1);
      }
    }
  }

  /** One turn of the merge loop, at each of its three ways out. */
  lemma MergeStep(w: World, task: Task, target: nat, dir: Dir, title: string, turn: Turn)
    requires Inv(w) && target in w.animes && w.animes[target].dir == dir
    requires task.id in w.table.rows && w.table.rows[task.id].path == task.src
    requires Fits(w.disk, task.src, turn.script)
    ensures
      var (disk, r) := MoveEpisode(w.disk, task.src, Target(dir, title, task), turn.script);
      var table := DeleteByPath(w.table, task.src);
      && disk.foldCase == w.disk.foldCase
      && (r.None? ==> Inv(w.(disk := disk)))
      && (r.Some? ==>
          && disk.Exists(r.value)
          && Inv(w.(disk := disk, table := table)))
      && (r.Some? ==>
          var recorded := Record(table, target, disk, r.value, Normalize(Some(task.episode.epNumber)));
          && Inv(w.(disk := disk, table := recorded))
          && forall i | i in w.table.rows && i != task.id :: i in recorded.rows && recorded.rows[i] == w.table.rows[i])
  {
    hide MoveEpisode, Target, Spell, Upsert, Fits, HasVideoExtension, Normalize;
    var dest := Target(dir, title, task);
    var (disk, r) := MoveEpisode(w.disk, task.src, dest, turn.script);
    assert OnDisk(w.disk, w.table.rows[task.id].path);
    TargetIsEpisode(dir, title, task);
    EpisodeMovesOneVideo(w.disk, task.src, dest, turn.script);
    EpisodeOnlyLeaves(w.disk, task.src, dest, turn.script);
    DedupeIsEpisode(w.disk, task.src, dest);
    if r.None? {
      FailedMoveKeepsInv(w, disk);
    } else {
      ForgetMoved(w, disk, task.id, r.value);
      TargetDir(dir, title, task);
      RecordKeepsInv(w.(disk := disk, table := DeleteByPath(w.table, task.src)), target, r.value, Normalize(Some(task.episode.epNumber)));
    }
  }

  lemma TargetDir(dir: Dir, title: string, task: Task)
    ensures Target(dir, title, task).dir == dir
  {
  }

  predicate DistinctIds(tasks: seq<Task>) {
    forall i, j | 0 <= i < j < |tasks| :: tasks[i].id != tasks[j].id
  }

  lemma {:induction false} TasksDistinct(rows: map<nat, Row>, ids: seq<nat>, expected: seq<Expected>)
    requires forall i | i in ids :: i in rows
    requires forall i, j | 0 <= i < j < |ids| :: ids[i] != ids[j]
    ensures DistinctIds(Tasks(rows, ids, expected))
    decreases |ids|
  {
    hide Match;
    if ids != [] {
      TasksDistinct(rows, ids[1..], expected);
      var rest := Tasks(rows, ids[1..], expected);
      if Match(expected, rows[ids[0]].number).Some? {
        var first := Task(ids[0], rows[ids[0]].path, EpisodeOf(expected, rows[ids[0]].number));
        forall j | 0 <= j < |rest| ensures rest[j].id != first.id {
          var k :| 0 <= k < |ids[1..]| && ids[1..][k] == rest[j].id;
          assert ids[k + 1] != ids[0];
        }
        assert DistinctIds([first] + rest);
      }
    }
  }

  lemma TasksPending(w: World, ids: seq<nat>, source: nat, expected: seq<Expected>)
    requires Lists(ids, w.table, source)
    ensures forall i | i in ids :: i in w.table.rows && w.table.rows[i].anime == source
    ensures Pending(w.table, Tasks(w.table.rows, ids, expected), 0)
  {
    hide Match;
    forall i | i in ids ensures i in IdsOf(w.table, source) {
      assert i in (set j | j in ids);
    }
    TasksDistinct(w.table.rows, ids, expected);
  }

  lemma SidecarIsNoVideo(k: nat)
    requires k < |Sidecars|
    ensures !HasVideoExtension(Sidecars[k])
  {
    LastDotIs("poster.jpg", 6);
    LastDotIs("tvshow.nfo", 6);
    LastDotIs("aniinfo.json", 7);
    assert "poster.jpg"[6..] == ".jpg" && "tvshow.nfo"[6..] == ".nfo" && "aniinfo.json"[7..] == ".json";
    assert Lower(".jpg")[1] == 'j' && Lower(".nfo")[1] == 'n' && Lower(".json")[1] == 'j';
    assert forall e | e in VideoExtensions :: e[1] != 'j' && e[1] != 'n';
  }

  lemma DropOtherKeepsVideos(d: Disk, p: Path)
    requires !HasVideoExtension(p.name)
    ensures Videos(d.Drop(p)) == Videos(d) && (d.Valid() ==> d.Drop(p).Valid())
  {
    SpellKeepsKind(d.foldCase, p.name);
    hide HasVideoExtension, Spell;
  }

  lemma {:induction false} SidecarsKeepVideos(d: Disk, dir: Dir, k: nat)
    requires d.Valid()
    ensures RemoveSidecars(d, dir, k).Valid() && RemoveSidecars(d, dir, k).foldCase == d.foldCase
    ensures Videos(RemoveSidecars(d, dir, k)) == Videos(d)
    decreases k
  {
    hide HasVideoExtension, Videos, Spell;
    if 0 < k <= |Sidecars| {
      SidecarsKeepVideos(d, dir, k - 1);
      SidecarIsNoVideo(k - 1);
      DropOtherKeepsVideos(RemoveSidecars(d, dir, k - 1), Path(dir, Sidecars[k - 1]));
    }
  }

  lemma DeleteAnimeKeepsInv(w: World, id: nat)
    requires Inv(w)
    ensures Inv(DeleteAnime(w, id))
  {
    hide Videos, IsEpisodeName, Spell;
    var w' := DeleteAnime(w, id);
    assert forall i | i in w'.table.rows :: w'.table.rows[i] == w.table.rows[i];
  }

  /** A merging sort leaves the library consistent, wherever it stops. */
  lemma MergeKeepsInv(w: World, source: nat, target: nat, tasks: seq<Task>, turns: nat -> Turn, unlinks: nat)
    requires Inv(w) && source in w.animes && target in w.animes
    requires Pending(w.table, tasks, 0)
    requires MergeFits(w, target, w.animes[target].dir, w.animes[target].folderTitle, tasks, turns)
    ensures Inv(Merge(w, source, target, tasks, turns, unlinks).0)
  {
    hide Videos, IsEpisodeName, Spell, MergeLoop, RemoveSidecars, DeleteAnime, HasVideos, Inv, RowsOnDisk;
    var dir := w.animes[source].dir;
    MergeLoopKeepsInv(w, target, w.animes[target].dir, w.animes[target].folderTitle, tasks, turns, 0);
    var w1 := MergeLoop(w, target, w.animes[target].dir, w.animes[target].folderTitle, tasks, turns).0;
    var k := if unlinks < |Sidecars| then unlinks else |Sidecars|;
    InvIsValid(w1);
    SidecarsKeepVideos(w1.disk, dir, k);
    FailedMoveKeepsInv(w1, RemoveSidecars(w1.disk, dir, k));
    DeleteAnimeKeepsInv(w1.(disk := RemoveSidecars(w1.disk, dir, k)), source);
  }

  lemma InvIsValid(w: World)
    requires Inv(w)
    ensures w.disk.Valid() && w.table.Valid()
  {
    DistinctIsValid(w.disk, w.table);
  }

  // ------------------------------------------------------------ relocating: the files

  /** The environment's directory listings during the first loop of a relocation. */
  predicate ForwardLists(d: Disk, jobs: seq<Job>, scripts: seq<Script>)
    requires |scripts| == |jobs|
    decreases |jobs|
  {
    jobs == [] ||
    (&& Fits(d, jobs[0].src, scripts[0])
     && ForwardLists(MoveEpisode(d, jobs[0].src, jobs[0].dest, scripts[0]).0, jobs[1..], scripts[1..]))
  }

  /** Episodes on their way from other directories into `into`. */
  ghost predicate Inbound(d: Disk, jobs: seq<Job>, into: Dir) {
    && (forall j | j in jobs :: HasVideoExtension(j.src.name) && IsEpisodeName(j.dest.name) && j.src.dir != into && j.dest.dir == into)
    && (forall i, j | 0 <= i < j < |jobs| :: d.Slot(jobs[i].src) != d.Slot(jobs[j].src))
  }

  /** Where the episodes are after `moves`: each in its new place, nowhere else, and no
      other episode has been touched. */
  ghost predicate HaveMoved(d: Disk, d': Disk, moves: seq<Job>, into: Dir) {
    && d'.foldCase == d.foldCase
    && (forall i | 0 <= i < |moves| :: moves[i].dest.dir == into && IsEpisodeName(moves[i].dest.name))
    && (forall i | 0 <= i < |moves| :: d'.Slot(moves[i].dest) in Videos(d') && d'.Slot(moves[i].src) !in Videos(d'))
    && (forall i, j | 0 <= i < j < |moves| :: d'.Slot(moves[i].dest) != d'.Slot(moves[j].dest))
    && (forall s | s in Videos(d) && (forall i | 0 <= i < |moves| :: s != d.Slot(moves[i].src)) :: s in Videos(d'))
    && (forall i | 0 <= i < |moves| :: d.Slot(moves[i].dest) !in Videos(d))
    && (forall s | s in Videos(d') && s.dir != into :: s in Videos(d))
  }

  lemma {:induction false} ForwardVideos(d: Disk, jobs: seq<Job>, scripts: seq<Script>, into: Dir)
    requires d.Valid() && |scripts| == |jobs| && Inbound(d, jobs, into) && ForwardLists(d, jobs, scripts)
    ensures
      var (d', moves, all) := Forward(d, jobs, scripts);
      && d'.Valid() && |moves| <= |jobs|
      && (forall i | 0 <= i < |moves| :: moves[i].src == jobs[i].src)
      && HaveMoved(d, d', moves, into)
    decreases |jobs|
  {
    hide Videos, IsEpisodeName, Spell, MoveEpisode, Fits, HasVideoExtension, HaveMoved, Inbound;
    if jobs == [] {
      NoneMoved(d, into);
    } else {
      var j := jobs[0];
      FirstInbound(d, jobs, into);
      var (d1, r) := MoveEpisode(d, j.src, j.dest, scripts[0]);
      EpisodeName(j.dest.name);
      EpisodeMovesOneVideo(d, j.src, j.dest, scripts[0]);
      EpisodeOnlyLeaves(d, j.src, j.dest, scripts[0]);
      if r.None? {
        NoneMovedButMessy(d, d1, into);
      } else {
        RestInbound(d, d1, jobs, into);
        DedupeIsEpisode(d, j.src, j.dest);
        ForwardVideos(d1, jobs[1..], scripts[1..], into);
        var (d', moves, all) := Forward(d1, jobs[1..], scripts[1..]);
        RestSources(d, jobs, moves, into);
        OneMoreMoved(d, d1, d', Job(j.src, r.value), moves, into);
      }
    }
  }

  lemma EpisodeName(name: string)
    requires IsEpisodeName(name)
    ensures HasVideoExtension(name)
  {
  }

  lemma NoneMoved(d: Disk, into: Dir)
    ensures HaveMoved(d, d, [], into)
  {
  }

  lemma NoneMovedButMessy(d: Disk, d1: Disk, into: Dir)
    requires OnlyLeaves(d, d1, into) && Kept(Videos(d), Videos(d1))
    ensures HaveMoved(d, d1, [], into)
  {
    hide HasVideoExtension, Spell;
  }

  lemma FirstInbound(d: Disk, jobs: seq<Job>, into: Dir)
    requires jobs != [] && Inbound(d, jobs, into)
    ensures HasVideoExtension(jobs[0].src.name) && IsEpisodeName(jobs[0].dest.name) && jobs[0].src.dir != into && jobs[0].dest.dir == into
  {
    assert jobs[0] in jobs;
  }

  lemma RestInbound(d: Disk, d1: Disk, jobs: seq<Job>, into: Dir)
    requires jobs != [] && Inbound(d, jobs, into) && d1.foldCase == d.foldCase
    ensures Inbound(d1, jobs[1..], into)
  {
    hide HasVideoExtension, IsEpisodeName, Spell;
  }

  lemma RestSources(d: Disk, jobs: seq<Job>, moves: seq<Job>, into: Dir)
    requires jobs != [] && Inbound(d, jobs, into) && |moves| < |jobs|
    requires forall i | 0 <= i < |moves| :: moves[i].src == jobs[1..][i].src
    ensures forall i | 0 <= i < |moves| :: moves[i].src.dir != into && d.Slot(moves[i].src) != d.Slot(jobs[0].src)
  {
    hide HasVideoExtension, IsEpisodeName, Spell;
    forall i | 0 <= i < |moves| ensures moves[i].src.dir != into && d.Slot(moves[i].src) != d.Slot(jobs[0].src) {
      assert jobs[i + 1] in jobs;
    }
  }

  lemma OneMoreMoved(d: Disk, d1: Disk, d': Disk, first: Job, moves: seq<Job>, into: Dir)
    requires d1.foldCase == d.foldCase && OneVideoMoved(d, d1, first.src, Some(first.dest))
    requires first.src.dir != into && first.dest.dir == into && IsEpisodeName(first.dest.name)
    requires HaveMoved(d1, d', moves, into)
    requires forall i | 0 <= i < |moves| :: moves[i].src.dir != into && d.Slot(moves[i].src) != d.Slot(first.src)
    ensures HaveMoved(d, d', [first] + moves, into)
  {
    hide Videos, IsEpisodeName, Spell, HaveMoved;
    FirstLeft(d, d1, first);
    MovedStayOut(d1, d', moves, into, first.src);
    FirstStays(d, d1, d', first, moves, into);
    FirstApart(d, d1, d', first, moves, into);
    Prepended(d, d', first, moves, into, d1);
  }

  lemma FirstLeft(d: Disk, d1: Disk, first: Job)
    requires d1.foldCase == d.foldCase && OneVideoMoved(d, d1, first.src, Some(first.dest)) && first.src.dir != first.dest.dir
    ensures d1.Slot(first.src) !in Videos(d1)
    ensures d.Slot(first.dest) !in Videos(d)
  {
    hide Videos, IsEpisodeName, Spell;
  }

  lemma FirstApart(d: Disk, d1: Disk, d': Disk, first: Job, moves: seq<Job>, into: Dir)
    requires d1.foldCase == d.foldCase && OneVideoMoved(d, d1, first.src, Some(first.dest))
    requires first.src.dir != into && first.dest.dir == into
    requires HaveMoved(d1, d', moves, into)
    ensures forall i | 0 <= i < |moves| :: d.Slot(moves[i].dest) !in Videos(d) && d'.Slot(moves[i].dest) != d'.Slot(first.dest)
  {
    hide Videos, IsEpisodeName, Spell;
    forall i | 0 <= i < |moves| ensures d.Slot(moves[i].dest) !in Videos(d) && d'.Slot(moves[i].dest) != d'.Slot(first.dest) {
      assert d1.Slot(moves[i].dest) !in Videos(d1);
    }
  }

  lemma Prepended(d: Disk, d': Disk, first: Job, moves: seq<Job>, into: Dir, d1: Disk)
    requires HaveMoved(d1, d', moves, into) && d1.foldCase == d.foldCase
    requires first.dest.dir == into && IsEpisodeName(first.dest.name)
    requires d'.Slot(first.dest) in Videos(d') && d'.Slot(first.src) !in Videos(d') && d.Slot(first.dest) !in Videos(d)
    requires forall i | 0 <= i < |moves| :: d.Slot(moves[i].dest) !in Videos(d) && d'.Slot(moves[i].dest) != d'.Slot(first.dest)
    requires
      var all := [first] + moves;
      forall s | s in Videos(d) && (forall i | 0 <= i < |all| :: s != d.Slot(all[i].src)) :: s in Videos(d')
    requires forall s | s in Videos(d') && s.dir != into :: s in Videos(d)
    ensures HaveMoved(d, d', [first] + moves, into)
  {
    hide Videos, IsEpisodeName, Spell;
    var all := [first] + moves;
    assert forall i | 0 < i < |all| :: all[i] == moves[i - 1];
    assert forall i | 0 <= i < |all| :: d'.Slot(all[i].dest) in Videos(d') && d'.Slot(all[i].src) !in Videos(d');
    assert forall i, j | 0 <= i < j < |all| :: d'.Slot(all[i].dest) != d'.Slot(all[j].dest);
  }

  lemma FirstStays(d: Disk, d1: Disk, d': Disk, first: Job, moves: seq<Job>, into: Dir)
    requires d1.foldCase == d.foldCase && OneVideoMoved(d, d1, first.src, Some(first.dest))
    requires first.src.dir != into && first.dest.dir == into
    requires HaveMoved(d1, d', moves, into)
    requires forall i | 0 <= i < |moves| :: moves[i].src.dir != into && d.Slot(moves[i].src) != d.Slot(first.src)
    ensures d'.Slot(first.dest) in Videos(d')
    ensures
      var all := [first] + moves;
      forall s | s in Videos(d) && (forall i | 0 <= i < |all| :: s != d.Slot(all[i].src)) :: s in Videos(d')
    ensures forall s | s in Videos(d') && s.dir != into :: s in Videos(d)
  {
    hide Videos, IsEpisodeName, Spell;
    var all := [first] + moves;
    assert d1.Slot(first.dest) in Videos(d1);
    forall s | s in Videos(d) && (forall i | 0 <= i < |all| :: s != d.Slot(all[i].src)) ensures s in Videos(d') {
      assert all[0] == first;
      assert s in Videos(d1);
      forall i | 0 <= i < |moves| ensures s != d1.Slot(moves[i].src) { assert all[i + 1] == moves[i]; }
    }
  }

  /** Nothing moves to a place outside the target directory. */
  lemma MovedStayOut(d: Disk, d': Disk, moves: seq<Job>, into: Dir, p: Path)
    requires HaveMoved(d, d', moves, into) && p.dir != into && d.Slot(p) !in Videos(d)
    ensures d'.Slot(p) !in Videos(d')
  {
  }
}
