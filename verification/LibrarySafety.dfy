/** What a sort never does to the user's files, and exactly when a relocation that has to be
    taken back leaves no trace. */
module LibrarySafety {
  import opened Text
  import opened Numbering
  import opened Disk
  import opened Conservation
  import opened Episodes
  import opened Rollback
  import opened Naming
  import opened Catalog
  import opened RenamePlan
  import opened Library
  import opened LibraryInvariant
  import opened RelocationInvariant
  import opened LibrarySettled
  import opened RollbackExact
  import opened RollbackBeforehand

  // ------------------------------------------------------------ nothing is lost

  lemma {:induction false} ForwardKeepsContents(d: Disk, jobs: seq<Job>, scripts: seq<Script>)
    requires |scripts| == |jobs|
    ensures KeepsContents(d.files, Forward(d, jobs, scripts).0.files)
    decreases |jobs|
  {
    hide MoveEpisode, KeepsContents;
    ContentsReflexive(d.files);
    if jobs != [] {
      var (d1, r) := MoveEpisode(d, jobs[0].src, jobs[0].dest, scripts[0]);
      EpisodeKeepsContents(d, jobs[0].src, jobs[0].dest, scripts[0]);
      if r.Some? {
        ForwardKeepsContents(d1, jobs[1..], scripts[1..]);
        KeepsTransitive(d.files, d1.files, Forward(d1, jobs[1..], scripts[1..]).0.files);
      }
    }
  }

  lemma ContentsReflexive(files: map<Path, File>)
    ensures KeepsContents(files, files)
  {
  }

  lemma {:induction false} BackKeepsContents(d: Disk, moves: seq<Job>, scripts: seq<Script>)
    requires |scripts| == |moves|
    ensures KeepsContents(d.files, Back(d, moves, scripts).files)
    decreases |moves|
  {
    hide MoveEpisode, KeepsContents;
    ContentsReflexive(d.files);
    if moves != [] {
      var d1 := Back(d, moves[1..], scripts[1..]);
      BackKeepsContents(d, moves[1..], scripts[1..]);
      EpisodeKeepsContents(d1, moves[0].dest, moves[0].src, scripts[0]);
      KeepsTransitive(d.files, d1.files, Back(d, moves, scripts).files);
    }
  }

  lemma {:induction false} LeftoversKeepContents(d: Disk, from: Dir, to: Dir, leftovers: seq<CompanionMove>)
    ensures KeepsContents(d.files, MoveLeftovers(d, from, to, leftovers).files)
    decreases |leftovers|
  {
    hide MoveFile, KeepsContents;
    ContentsReflexive(d.files);
    if leftovers != [] {
      var p := leftovers[0].path;
      var dest := Path(if from <= p.dir then Rebase(from, to, p.dir) else p.dir, p.name);
      var d1 := MoveFile(d, p, dest, leftovers[0].fates).0;
      MoveKeepsContents(d, p, dest, leftovers[0].fates);
      LeftoversKeepContents(d1, from, to, leftovers[1..]);
      KeepsTransitive(d.files, d1.files, MoveLeftovers(d, from, to, leftovers).files);
    }
  }

  lemma {:induction false} MergeLoopKeepsContents(w: World, target: nat, dir: Dir, title: string, tasks: seq<Task>, turns: nat -> Turn, k: nat)
    ensures
      var w' := MergeLoop(w, target, dir, title, tasks, turns, k).0;
      KeepsContents(w.disk.files, w'.disk.files) && OnlyLeaves(w.disk, w'.disk, dir)
    decreases |tasks| - k
  {
    hide MoveEpisode, KeepsContents, Normalize, Upsert, DeleteByPath, Target;
    ContentsReflexive(w.disk.files);
    if k < |tasks| {
      var dest := Target(dir, title, tasks[k]);
      var (disk, r) := MoveEpisode(w.disk, tasks[k].src, dest, turns(k).script);
      EpisodeKeepsContents(w.disk, tasks[k].src, dest, turns(k).script);
      EpisodeOnlyLeaves(w.disk, tasks[k].src, dest, turns(k).script);
      TargetDir(dir, title, tasks[k]);
      if r.Some? && turns(k).stat && disk.Exists(r.value) {
        var table := Record(DeleteByPath(w.table, tasks[k].src), target, disk, r.value, Normalize(Some(tasks[k].episode.epNumber)));
        var w1 := w.(disk := disk, table := table);
        MergeLoopKeepsContents(w1, target, dir, title, tasks, turns, k + 1);
        KeepsTransitive(w.disk.files, disk.files, MergeLoop(w1, target, dir, title, tasks, turns, k + 1).0.disk.files);
      }
    }
  }

  /** The slots of the application's own files at the top of a directory. */
  function SidecarSlots(d: Disk, dir: Dir): set<Path> {
    set k | 0 <= k < |Sidecars| :: d.Slot(Path(dir, Sidecars[k]))
  }

  lemma {:induction false} OnlySidecarsRemoved(d: Disk, dir: Dir, k: nat)
    requires k <= |Sidecars|
    ensures RemoveSidecars(d, dir, k).foldCase == d.foldCase
    ensures Kept(d.files - SidecarSlots(d, dir), RemoveSidecars(d, dir, k).files)
    decreases k
  {
    hide Spell;
    if k > 0 {
      OnlySidecarsRemoved(d, dir, k - 1);
      assert d.Slot(Path(dir, Sidecars[k - 1])) in SidecarSlots(d, dir);
    }
  }

  lemma KeptKeepsContents(a: map<Path, File>, b: map<Path, File>)
    requires Kept(a, b)
    ensures KeepsContents(a, b)
  {
    forall c ensures |Holders(a, c)| <= |Holders(b, c)| {
      SubsetSize(Holders(a, c), Holders(b, c));
    }
  }

  lemma WithoutKeepsContents(a: map<Path, File>, b: map<Path, File>, gone: set<Path>)
    requires KeepsContents(a, b)
    ensures KeepsContents(a - gone, b)
  {
    hide KeepsContents;
    KeptKeepsContents(a - gone, a);
    KeepsTransitive(a - gone, a, b);
  }

  lemma MergeKeepsContents(w: World, source: nat, target: nat, tasks: seq<Task>, turns: nat -> Turn, unlinks: nat)
    requires source in w.animes && target in w.animes && w.animes[source].dir != w.animes[target].dir
    ensures KeepsContents(w.disk.files - SidecarSlots(w.disk, w.animes[source].dir), Merge(w, source, target, tasks, turns, unlinks).0.disk.files)
  {
    hide KeepsContents, MergeLoop, RemoveSidecars, HasVideos, Spell;
    var dir := w.animes[source].dir;
    var gone := SidecarSlots(w.disk, dir);
    var w1 := MergeLoop(w, target, w.animes[target].dir, w.animes[target].folderTitle, tasks, turns).0;
    MergeLoopKeepsContents(w, target, w.animes[target].dir, w.animes[target].folderTitle, tasks, turns, 0);
    WithoutKeepsContents(w.disk.files, w1.disk.files, gone);
    var k := if unlinks < |Sidecars| then unlinks else |Sidecars|;
    OnlySidecarsRemoved(w1.disk, dir, k);
    DeletingKeepsTheRest(w.disk.files, w1.disk.files, gone);
    KeptKeepsContents(w1.disk.files - gone, RemoveSidecars(w1.disk, dir, k).files);
    KeepsTransitive(w.disk.files - gone, w1.disk.files - gone, RemoveSidecars(w1.disk, dir, k).files);
  }

  lemma RelocateKeepsContents(w: World, source: nat, folder: nat, tasks: seq<Task>, turns: nat -> Turn, back: nat -> Turn, leftovers: seq<CompanionMove>)
    requires source in w.animes && folder in w.folders
    ensures KeepsContents(w.disk.files, Relocate(w, source, folder, tasks, turns, back, leftovers).0.disk.files)
  {
    hide KeepsContents, Forward, Back, RecordMoves, MoveLeftovers, NewDir, Target;
    var anime := w.animes[source];
    var dir := NewDir(w, source, folder);
    var jobs := Jobs(dir, anime.folderTitle, tasks);
    var (disk, moves, all) := Forward(w.disk, jobs, Scripts(turns, |tasks|));
    ForwardKeepsContents(w.disk, jobs, Scripts(turns, |tasks|));
    if !all {
      BackKeepsContents(disk, moves, Scripts(back, |moves|));
      KeepsTransitive(w.disk.files, disk.files, Back(disk, moves, Scripts(back, |moves|)).files);
    } else {
      RecordKeepsDisk(w.(disk := disk), source, moves, tasks, turns, 0);
      LeftoversKeepContents(disk, anime.dir, dir, leftovers);
      KeepsTransitive(w.disk.files, disk.files, MoveLeftovers(disk, anime.dir, dir, leftovers).files);
    }
  }

  lemma {:induction false} RecordKeepsDisk(w: World, anime: nat, moves: seq<Job>, tasks: seq<Task>, turns: nat -> Turn, k: nat)
    requires |moves| == |tasks|
    ensures RecordMoves(w, anime, moves, tasks, turns, k).0.disk == w.disk
    ensures RecordMoves(w, anime, moves, tasks, turns, k).0.animes == w.animes
    decreases |moves| - k
  {
    hide Normalize, Upsert, DeleteByPath;
    if k < |moves| && turns(k).stat && w.disk.Exists(moves[k].dest) {
      var table := Record(DeleteByPath(w.table, moves[k].src), anime, w.disk, moves[k].dest, Normalize(Some(tasks[k].episode.epNumber)));
      RecordKeepsDisk(w.(table := table), anime, moves, tasks, turns, k + 1);
    }
  }

  /** Through a whole sort, in either branch, whatever the operating system answers and
      wherever the call stops, no content is lost: every file other than the three the
      application itself put at the top of the source directory is still there in full
      somewhere, as many times as before. */
  lemma SortLosesNothing(w: World, source: nat, folder: nat, env: SortEnv)
    requires (forall i | i in env.ids :: i in w.table.rows) && folder in w.folders
    requires Inv(w) && source in w.animes && w.animes[source].folder != folder
    ensures KeepsContents(w.disk.files - SidecarSlots(w.disk, w.animes[source].dir), SortAnime(w, source, folder, env).0.disk.files)
  {
    hide KeepsContents, Merge, Relocate, Tasks, Match, SidecarSlots, RowsOnDisk, RowsDistinct, RowsPlaced;
    var gone := SidecarSlots(w.disk, w.animes[source].dir);
    ContentsReflexive(w.disk.files);
    WithoutKeepsContents(w.disk.files, w.disk.files, gone);
    if w.animes[source].anidb.Some? {
      var tasks := Tasks(w.table.rows, env.ids, w.animes[source].expected);
      var twins := Twins(w, w.animes[source].anidb.value, folder);
      if |twins| == 1 {
        TwinIsAnime(w, w.animes[source].anidb.value, folder);
        MergeKeepsContents(w, source, TheElement(twins), tasks, env.turns, env.unlinks);
      } else {
        RelocateKeepsContents(w, source, folder, tasks, env.turns, env.back, env.leftovers);
        WithoutKeepsContents(w.disk.files, Relocate(w, source, folder, tasks, env.turns, env.back, env.leftovers).0.disk.files, gone);
      }
    }
  }

  /** A video below the directory, however deep. */
  ghost predicate VideoBelow(d: Disk, dir: Dir) {
    exists s :: s in d.files && HasVideoExtension(s.name) && dir <= s.dir
  }

  lemma VideosAreBelow(d: Disk, dir: Dir)
    ensures HasVideos(d, dir) <==> VideoBelow(d, dir)
  {
    hide HasVideoExtension;
    if VideoBelow(d, dir) {
      var s :| s in d.files && HasVideoExtension(s.name) && dir <= s.dir;
      assert s in Videos(d);
    }
  }

  lemma SidecarsLeaveVideos(d: Disk, dir: Dir, k: nat, at: Dir)
    requires d.Valid()
    ensures VideoBelow(RemoveSidecars(d, dir, k), at) <==> VideoBelow(d, at)
  {
    hide VideoBelow, Videos, RemoveSidecars;
    SidecarsKeepVideos(d, dir, k);
    VideosAreBelow(d, at);
    VideosAreBelow(RemoveSidecars(d, dir, k), at);
    SameVideosSameBelow(d, RemoveSidecars(d, dir, k), at);
  }

  lemma SameVideosSameBelow(d: Disk, d': Disk, dir: Dir)
    requires Videos(d') == Videos(d)
    ensures HasVideos(d', dir) == HasVideos(d, dir)
  {
    hide Videos;
  }

  /** What decides over the source's catalog entry at the end of a merge. */
  lemma MergeDropsIff(w: World, source: nat, target: nat, tasks: seq<Task>, turns: nat -> Turn, unlinks: nat)
    requires w.disk.Valid() && source in w.animes && target in w.animes
    ensures
      var (w', end) := Merge(w, source, target, tasks, turns, unlinks);
      && (source !in w'.animes ==> end == Done && !VideoBelow(w'.disk, w.animes[source].dir))
      && (end == Done && !VideoBelow(w'.disk, w.animes[source].dir) ==> source !in w'.animes)
      && (source !in w'.animes ==> forall i | i in w'.table.rows :: w'.table.rows[i].anime != source)
  {
    hide MergeLoop, RemoveSidecars, HasVideos, VideoBelow;
    var title, dir := w.animes[target].folderTitle, w.animes[target].dir;
    MergeLoopKeepsAnimes(w, target, dir, title, tasks, turns, 0);
    MergeLoopValid(w, target, dir, title, tasks, turns, 0);
    var w1 := MergeLoop(w, target, dir, title, tasks, turns).0;
    VideosAreBelow(w1.disk, w.animes[source].dir);
    SidecarsLeaveVideos(w1.disk, w.animes[source].dir, |Sidecars|, w.animes[source].dir);
  }

  lemma RelocateKeepsAnimes(w: World, source: nat, folder: nat, tasks: seq<Task>, turns: nat -> Turn, back: nat -> Turn, leftovers: seq<CompanionMove>)
    requires source in w.animes && folder in w.folders
    ensures source in Relocate(w, source, folder, tasks, turns, back, leftovers).0.animes
  {
    hide Forward, Back, RecordMoves, MoveLeftovers, NewDir, Jobs;
    var (disk, moves, all) := Forward(w.disk, Jobs(NewDir(w, source, folder), w.animes[source].folderTitle, tasks), Scripts(turns, |tasks|));
    if all { RecordKeepsDisk(w.(disk := disk), source, moves, tasks, turns, 0); }
  }

  /** The source's catalog entry, and with it what rows it still has, goes only when no video
      file is left below its directory, at whatever depth; and a merge that has gone through
      with none left has taken it out. */
  lemma SortDropsOnlyEmptied(w: World, source: nat, folder: nat, env: SortEnv)
    requires (forall i | i in env.ids :: i in w.table.rows) && folder in w.folders
    requires w.disk.Valid() && source in w.animes
    ensures
      var (w', end) := SortAnime(w, source, folder, env);
      source !in w'.animes ==>
        && end == Done && (forall i | i in w'.table.rows :: w'.table.rows[i].anime != source)
        && forall s | s in w'.disk.files :: !(HasVideoExtension(s.name) && w.animes[source].dir <= s.dir)
    ensures
      var (w', end) := SortAnime(w, source, folder, env);
      && end == Done && w.animes[source].anidb.Some? && |Twins(w, w.animes[source].anidb.value, folder)| == 1
      && (forall s | s in w'.disk.files :: !(HasVideoExtension(s.name) && w.animes[source].dir <= s.dir))
      ==> source !in w'.animes
  {
    hide Merge, Tasks, Relocate, Twins, HasVideoExtension;
    if w.animes[source].anidb.Some? {
      var tasks := Tasks(w.table.rows, env.ids, w.animes[source].expected);
      var twins := Twins(w, w.animes[source].anidb.value, folder);
      if |twins| == 1 {
        TwinIsAnime(w, w.animes[source].anidb.value, folder);
        MergeDropsIff(w, source, TheElement(twins), tasks, env.turns, env.unlinks);
      } else {
        RelocateKeepsAnimes(w, source, folder, tasks, env.turns, env.back, env.leftovers);
      }
    }
  }

  /** With the entry the application's own three files go. */
  lemma SidecarsGo(w: World, source: nat, folder: nat, env: SortEnv)
    requires (forall i | i in env.ids :: i in w.table.rows) && folder in w.folders && source in w.animes
    requires source !in SortAnime(w, source, folder, env).0.animes
    ensures forall name | name in ["poster.jpg", "tvshow.nfo", "aniinfo.json"] :: !SortAnime(w, source, folder, env).0.disk.Exists(Path(w.animes[source].dir, name))
  {
    hide MergeLoop, Tasks, Relocate, Twins, HasVideos, Spell;
    var tasks := Tasks(w.table.rows, env.ids, w.animes[source].expected);
    var twins := Twins(w, w.animes[source].anidb.value, folder);
    if |twins| == 1 {
      TwinIsAnime(w, w.animes[source].anidb.value, folder);
      var target := TheElement(twins);
      MergeLoopKeepsAnimes(w, target, w.animes[target].dir, w.animes[target].folderTitle, tasks, env.turns, 0);
      ThreeAreGone(MergeLoop(w, target, w.animes[target].dir, w.animes[target].folderTitle, tasks, env.turns).0.disk, w.animes[source].dir);
    } else {
      RelocateKeepsAnimes(w, source, folder, tasks, env.turns, env.back, env.leftovers);
    }
  }

  lemma ThreeAreGone(d: Disk, dir: Dir)
    ensures forall name | name in ["poster.jpg", "tvshow.nfo", "aniinfo.json"] :: !RemoveSidecars(d, dir, |Sidecars|).Exists(Path(dir, name))
  {
    hide Spell;
    var d1 := RemoveSidecars(d, dir, 1);
    var d2 := RemoveSidecars(d, dir, 2);
    assert d1 == d.Drop(Path(dir, "poster.jpg")) by { assert RemoveSidecars(d, dir, 0) == d; }
    assert d2 == d1.Drop(Path(dir, "tvshow.nfo"));
    assert RemoveSidecars(d, dir, 3) == d2.Drop(Path(dir, "aniinfo.json"));
  }

  lemma {:induction false} MergeLoopKeepsAnimes(w: World, target: nat, dir: Dir, title: string, tasks: seq<Task>, turns: nat -> Turn, k: nat)
    ensures MergeLoop(w, target, dir, title, tasks, turns, k).0.animes == w.animes
    decreases |tasks| - k
  {
    hide MoveEpisode, Normalize, Upsert, DeleteByPath, Target;
    if k < |tasks| {
      var (disk, r) := MoveEpisode(w.disk, tasks[k].src, Target(dir, title, tasks[k]), turns(k).script);
      if r.Some? && turns(k).stat && disk.Exists(r.value) {
        var table := Record(DeleteByPath(w.table, tasks[k].src), target, disk, r.value, Normalize(Some(tasks[k].episode.epNumber)));
        MergeLoopKeepsAnimes(w.(disk := disk, table := table), target, dir, title, tasks, turns, k + 1);
      }
    }
  }

  lemma {:induction false} MergeLoopValid(w: World, target: nat, dir: Dir, title: string, tasks: seq<Task>, turns: nat -> Turn, k: nat)
    requires w.disk.Valid()
    ensures MergeLoop(w, target, dir, title, tasks, turns, k).0.disk.Valid()
    decreases |tasks| - k
  {
    hide MoveEpisode, Normalize, Upsert, DeleteByPath, Target, Spell;
    if k < |tasks| {
      var (disk, r) := MoveEpisode(w.disk, tasks[k].src, Target(dir, title, tasks[k]), turns(k).script);
      EpisodeOnlyLeaves(w.disk, tasks[k].src, Target(dir, title, tasks[k]), turns(k).script);
      if r.Some? && turns(k).stat && disk.Exists(r.value) {
        var table := Record(DeleteByPath(w.table, tasks[k].src), target, disk, r.value, Normalize(Some(tasks[k].episode.epNumber)));
        MergeLoopValid(w.(disk := disk, table := table), target, dir, title, tasks, turns, k + 1);
      }
    }
  }

  // ------------------------------------------------------------ all or nothing

  predicate DifferentEpisodes(tasks: seq<Task>) {
    forall i, j | 0 <= i < j < |tasks| :: Value(tasks[i].episode.epNumber) != Value(tasks[j].episode.epNumber)
  }

  /** The stem a file has landed under: the one built for its episode, perhaps numbered. */
  lemma LandedStem(name: string, title: string, e: Episode, suffix: string) returns (more: string)
    requires NamedFor(name, title, e, suffix) && IsExtension(suffix)
    ensures Stem(name) == EpisodeStem(Sanitize(title), e.epNumber, e.title) + more
  {
    hide EpisodeStem, Sanitize, Stem, Suffix, Decimal;
    var stem := EpisodeStem(Sanitize(title), e.epNumber, e.title);
    if name == stem + suffix {
      more := "";
      SplitBuilt(stem, suffix);
      assert stem + more == stem;
    } else {
      var n: nat :| name == Numbered(stem, n, suffix);
      more := " (" + Decimal(n) + ")";
      assert name == (stem + more) + suffix;
      SplitBuilt(stem + more, suffix);
    }
  }

  /** Files of different episodes land apart. */
  lemma EpisodesLandApart(title: string, tasks: seq<Task>, moves: seq<Job>)
    requires |moves| <= |tasks| && DifferentEpisodes(tasks)
    requires forall k | 0 <= k < |moves| ::
      IsExtension(Suffix(tasks[k].src.name)) && NamedFor(moves[k].dest.name, title, tasks[k].episode, Suffix(tasks[k].src.name))
    ensures LandedApart(moves)
  {
    hide NamedFor, EpisodeStem, Sanitize, Stem, Suffix, Value, Unrelated;
    forall i, j | 0 <= i < j < |moves| ensures Unrelated(Stem(moves[i].dest.name), Stem(moves[j].dest.name)) {
      var a, b := tasks[i].episode, tasks[j].episode;
      var p := LandedStem(moves[i].dest.name, title, a, Suffix(tasks[i].src.name));
      var q := LandedStem(moves[j].dest.name, title, b, Suffix(tasks[j].src.name));
      BuiltStemsUnrelated(Sanitize(title), a.epNumber, b.epNumber, a.title, b.title, p, q);
    }
  }

  /** A relocation that cannot go through: one episode refuses, listings are complete or
      fail, failed copies are cleaned up, and the compensating moves all go through. */
  ghost predicate StopsAndGoesBack(w: World, source: nat, folder: nat, tasks: seq<Task>, turns: nat -> Turn, back: nat -> Turn)
    requires source in w.animes && folder in w.folders
  {
    var jobs, scripts := Jobs(NewDir(w, source, folder), w.animes[source].folderTitle, tasks), Scripts(turns, |tasks|);
    var (disk, moves, all) := Forward(w.disk, jobs, scripts);
    !all && ForwardFits(w.disk, jobs, scripts) && BackGoesThrough(disk, moves, Scripts(back, |moves|))
  }

  /** What the way back needs to know of the way out. */
  lemma RelocationStops(w: World, source: nat, folder: nat, tasks: seq<Task>, turns: nat -> Turn, back: nat -> Turn)
    requires Inv(w) && source in w.animes && folder in w.folders && Unclaimed(w, NewDir(w, source, folder))
    requires Pending(w.table, tasks, 0) && forall k | 0 <= k < |tasks| :: w.table.rows[tasks[k].id].anime == source
    requires StopsAndGoesBack(w, source, folder, tasks, turns, back)
    ensures
      var dir := NewDir(w, source, folder);
      var jobs, scripts := Jobs(dir, w.animes[source].folderTitle, tasks), Scripts(turns, |tasks|);
      var (disk, moves, _) := Forward(w.disk, jobs, scripts);
      && Stopped(w.disk, jobs, dir, scripts) && Returnable(disk, moves, dir) && (DifferentEpisodes(tasks) ==> LandedApart(moves))
  {
    hide IsEpisodeName, Spell, Videos, HasVideoExtension, Forward, HaveMoved, Inbound, Returnable, ForwardLists, ForwardFits, BackGoesThrough, NewDir, Target, RowsOnDisk, RowsDistinct, RowsPlaced, Pending, Unclaimed, NamedFor, Suffix, LandedApart, DifferentEpisodes, Disk.Valid;
    var dir, title := NewDir(w, source, folder), w.animes[source].folderTitle;
    var jobs, scripts := Jobs(dir, title, tasks), Scripts(turns, |tasks|);
    JobsInbound(w, source, dir, title, tasks);
    FitsAreLists(w.disk, jobs, scripts);
    ForwardVideos(w.disk, jobs, scripts, dir);
    MovedAreReturnable(w.disk, Forward(w.disk, jobs, scripts).0, jobs, Forward(w.disk, jobs, scripts).1, dir);
    SourcesAreVideos(w, tasks);
    ForwardNames(w.disk, dir, title, tasks, scripts);
    forall k | 0 <= k < |tasks| ensures IsExtension(Suffix(tasks[k].src.name)) { VideoSuffix(tasks[k].src.name); }
    if DifferentEpisodes(tasks) { EpisodesLandApart(title, tasks, Forward(w.disk, jobs, scripts).1); }
    TheyTravel(w, dir, title, tasks);
  }

  lemma {:induction false} FitsAreLists(d: Disk, jobs: seq<Job>, scripts: seq<Script>)
    requires |scripts| == |jobs| && ForwardFits(d, jobs, scripts)
    ensures ForwardLists(d, jobs, scripts)
    decreases |jobs|
  {
    hide MoveEpisode, Fits, AllTidy;
    if jobs != [] { FitsAreLists(MoveEpisode(d, jobs[0].src, jobs[0].dest, scripts[0]).0, jobs[1..], scripts[1..]); }
  }

  lemma TheyTravel(w: World, dir: Dir, title: string, tasks: seq<Task>)
    requires Inbound(w.disk, Jobs(dir, title, tasks), dir)
    ensures AllTravel(Jobs(dir, title, tasks), dir)
  {
    hide IsEpisodeName, HasVideoExtension, Target, Suffix, Spell;
    var jobs := Jobs(dir, title, tasks);
    forall j | j in jobs ensures Travels(j.src, j.dest) && j.dest.dir == dir {
      var k :| 0 <= k < |jobs| && jobs[k] == j;
      TargetIsEpisode(dir, title, tasks[k]);
    }
  }

  /** Where the files of a relocation have got to when it stops. */
  function Halfway(w: World, source: nat, folder: nat, tasks: seq<Task>, turns: nat -> Turn): (result: (Disk, seq<Job>, bool))
    requires source in w.animes && folder in w.folders
  {
    Forward(w.disk, Jobs(NewDir(w, source, folder), w.animes[source].folderTitle, tasks), Scripts(turns, |tasks|))
  }

  /** A relocation that has to be taken back ends in a conflict and touches no row. It is all
      or nothing -- afterwards the disk, every path, spelling and content, is what it was --
      if and only if every episode that had moved was one that leaves no trace: it and the
      companions it took along were spelled on disk as its row says, and no file lay in the new
      directory that could be taken for its companion. */
  lemma RelocationIsAllOrNothingIff(w: World, source: nat, folder: nat, tasks: seq<Task>, turns: nat -> Turn, back: nat -> Turn, leftovers: seq<CompanionMove>)
    requires Inv(w) && source in w.animes && folder in w.folders && Unclaimed(w, NewDir(w, source, folder))
    requires Pending(w.table, tasks, 0) && forall k | 0 <= k < |tasks| :: w.table.rows[tasks[k].id].anime == source
    requires StopsAndGoesBack(w, source, folder, tasks, turns, back)
    requires
      var (disk, moves, _) := Halfway(w, source, folder, tasks, turns);
      NoneShared(w.disk, disk, moves) && KnowTheirVideo(w.disk, moves)
    ensures
      var jobs, scripts := Jobs(NewDir(w, source, folder), w.animes[source].folderTitle, tasks), Scripts(turns, |tasks|);
      var (w', end) := Relocate(w, source, folder, tasks, turns, back, leftovers);
      && end == Conflict && w' == w.(disk := w'.disk)
      && (w'.disk == w.disk <==> NoTraces(w.disk, jobs, scripts))
  {
    hide Forward, Back, BackGoesThrough, Stopped, Returnable, LandedApart, NoneShared, KnowTheirVideo, NoTraces, NewDir, Target, Inv, Pending, Unclaimed, DifferentEpisodes, ForwardFits;
    var dir := NewDir(w, source, folder);
    var jobs, scripts := Jobs(dir, w.animes[source].folderTitle, tasks), Scripts(turns, |tasks|);
    RelocationStops(w, source, folder, tasks, turns, back);
    var (disk, moves, all) := Forward(w.disk, jobs, scripts);
    RollbackIsExactIff(w.disk, jobs, dir, scripts, Scripts(back, |moves|));
  }

  /** For different episodes it can be read off the disk before the call: the disk will be
      what it was if and only if each episode that moves is there and spelled as its row says,
      so are those of its companions that go along, and no file lies where it will land that
      could be taken for one. */
  lemma RelocationIsAllOrNothingBeforehand(w: World, source: nat, folder: nat, tasks: seq<Task>, turns: nat -> Turn, back: nat -> Turn, leftovers: seq<CompanionMove>)
    requires Inv(w) && source in w.animes && folder in w.folders && Unclaimed(w, NewDir(w, source, folder))
    requires Pending(w.table, tasks, 0) && forall k | 0 <= k < |tasks| :: w.table.rows[tasks[k].id].anime == source
    requires StopsAndGoesBack(w, source, folder, tasks, turns, back) && DifferentEpisodes(tasks)
    requires KnowTheirVideo(w.disk, Halfway(w, source, folder, tasks, turns).1)
    ensures
      var jobs := Jobs(NewDir(w, source, folder), w.animes[source].folderTitle, tasks);
      var (disk, moves, _) := Halfway(w, source, folder, tasks, turns);
      var w' := Relocate(w, source, folder, tasks, turns, back, leftovers).0;
      && |moves| <= |jobs|
      && (w'.disk == w.disk <==> StartsTidy(w.disk, jobs[..|moves|], w.disk.files.Keys - disk.files.Keys))
      && (StartsTidy(w.disk, jobs, w.disk.files.Keys) ==> w'.disk == w.disk)
  {
    hide Forward, Back, BackGoesThrough, Stopped, Returnable, LandedApart, NoneShared, KnowTheirVideo, NoTraces, NewDir, Target, Inv, Pending, Unclaimed, DifferentEpisodes, ForwardFits, StartsTidy, SentApart, Relocate, Jobs, Disk.Valid;
    var dir := NewDir(w, source, folder);
    var jobs, scripts := Jobs(dir, w.animes[source].folderTitle, tasks), Scripts(turns, |tasks|);
    RelocationStops(w, source, folder, tasks, turns, back);
    var (disk, moves, all) := Forward(w.disk, jobs, scripts);
    StopsPart(w, source, folder, tasks, turns, back);
    ApartShareNothing(w.disk, disk, moves);
    RelocationIsAllOrNothingIff(w, source, folder, tasks, turns, back, leftovers);
    EpisodesSentApart(w, source, dir, w.animes[source].folderTitle, tasks);
    TracelessIffTidy(w.disk, jobs, dir, scripts);
    InvIsValid(w);
    if StartsTidy(w.disk, jobs, w.disk.files.Keys) {
      TidyAnyhow(w.disk, jobs, |moves|, w.disk.files.Keys - disk.files.Keys);
    }
  }

  lemma StopsPart(w: World, source: nat, folder: nat, tasks: seq<Task>, turns: nat -> Turn, back: nat -> Turn)
    requires source in w.animes && folder in w.folders && StopsAndGoesBack(w, source, folder, tasks, turns, back)
    ensures |Halfway(w, source, folder, tasks, turns).1| <= |tasks|
  {
    hide Forward, Jobs, NewDir, ForwardFits, BackGoesThrough;
  }

  lemma EpisodesSentApart(w: World, source: nat, dir: Dir, title: string, tasks: seq<Task>)
    requires Inv(w) && Pending(w.table, tasks, 0) && DifferentEpisodes(tasks)
    ensures SentApart(Jobs(dir, title, tasks))
  {
    hide Inv, Pending, Stem, Suffix, EpisodeStem, Sanitize, Value, Unrelated, HasVideoExtension;
    SourcesAreVideos(w, tasks);
    var jobs := Jobs(dir, title, tasks);
    forall i, j | 0 <= i < j < |jobs| ensures Unrelated(Stem(jobs[i].dest.name), Stem(jobs[j].dest.name)) {
      var a, b := tasks[i].episode, tasks[j].episode;
      TargetIsEpisode(dir, title, tasks[i]);
      TargetIsEpisode(dir, title, tasks[j]);
      BuiltStemsUnrelated(Sanitize(title), a.epNumber, b.epNumber, a.title, b.title, "", "");
      NothingBehind(Sanitize(title), a.epNumber, a.title);
      NothingBehind(Sanitize(title), b.epNumber, b.title);
    }
  }

  lemma NothingBehind(title: string, number: string, epTitle: Option<string>)
    requires IsNumeral(number)
    ensures EpisodeStem(title, number, epTitle) + "" == EpisodeStem(title, number, epTitle)
  {
  }
}
