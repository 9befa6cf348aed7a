/** What a sort leaves is settled: a later scan reads every moved file as the episode it
    was moved for and leaves its row alone, and a relocated anime needs no renaming. */
module LibrarySettled {
  import opened Text
  import opened Numbering
  import opened Disk
  import opened Episodes
  import opened Rollback
  import opened ReleaseName
  import opened Naming
  import opened Catalog
  import opened RenamePlan
  import opened Library
  import opened LibraryInvariant
  import opened RelocationInvariant
  import opened LibraryRuns
  import opened RenameSettled
  import opened RenameQueue

  // ------------------------------------------------------------ names

  /** The name built for an episode, or a " (n)" copy of it. */
  ghost predicate NamedFor(name: string, title: string, e: Episode, suffix: string) {
    || name == EpisodeStem(Sanitize(title), e.epNumber, e.title) + suffix
    || exists n: nat :: name == Numbered(EpisodeStem(Sanitize(title), e.epNumber, e.title), n, suffix)
  }

  lemma ArrivesNamed(d: Disk, src: Path, dir: Dir, title: string, task: Task)
    requires HasVideoExtension(task.src.name)
    ensures NamedFor(d.Dedupe(src, Target(dir, title, task)).name, title, task.episode, Suffix(task.src.name))
  {
    hide HasVideoExtension, EpisodeStem, Stem, Suffix, LowestFree, Spell, Numbered, Sanitize, IsEpisodeName;
    var dest := Target(dir, title, task);
    TargetIsEpisode(dir, title, task);
    StemAndSuffix(dest.name);
  }

  /** No bracket opened in the title is closed by one of the episodes' names. */
  predicate MarkersStand(title: string, tasks: seq<Task>) {
    forall k | 0 <= k < |tasks| :: MarkerStands(Sanitize(title), Value(tasks[k].episode.epNumber), tasks[k].episode.title)
  }

  lemma NamedIsBuilt(name: string, title: string, e: Episode, suffix: string)
    requires NamedFor(name, title, e, suffix)
    ensures BuiltOn(name, EpisodeStem(Sanitize(title), e.epNumber, e.title), suffix)
  {
    hide BuiltOn, EpisodeStem, Sanitize, Numbered;
    var stem := EpisodeStem(Sanitize(title), e.epNumber, e.title);
    PlainIsBuilt(stem, suffix);
    if name != stem + suffix {
      var n: nat :| name == Numbered(stem, n, suffix);
      NumberedIsBuilt(stem, n, stem, suffix);
    }
  }

  lemma NamedIsRead(name: string, title: string, e: Episode, suffix: string)
    requires NamedFor(name, title, e, suffix) && IsExtension(suffix) && MarkerStands(Sanitize(title), Value(e.epNumber), e.title)
    ensures Guess(name) == Normalize(Some(e.epNumber)) <==> ReadsAs(Sanitize(title), Value(e.epNumber))
  {
    hide Guess, EpisodeStem, MarkerStands, ReadsAs, Sanitize, BuiltOn, NamedFor, Value;
    NamedIsBuilt(name, title, e, suffix);
    NameReadsBack(name, Sanitize(title), e.epNumber, e.title, suffix);
  }

  // ------------------------------------------------------------ rescanning after a merge

  /** A walk that meets this row's file finds nothing to do, and reads its number off the
      name as the row has it. */
  predicate Current(d: Disk, row: Row) {
    && d.Exists(row.path)
    && Unchanged(row, Listed(row.path, |d.FileAt(row.path).content|, d.FileAt(row.path).mtime))
    && row.number == Guess(row.path.name)
  }

  /** As a sort leaves it: size and time are the file's, the number was not set by hand,
      and it is what the name says exactly if the title and the number allow it. */
  predicate Written(d: Disk, title: string, row: Row) {
    && d.Exists(row.path)
    && row.size == |d.FileAt(row.path).content| && row.mtime == d.FileAt(row.path).mtime && !row.manual
    && row.number.Some? && IsNumeral(row.number.value)
    && (row.number == Guess(row.path.name) <==> ReadsAs(Sanitize(title), Value(row.number.value)))
  }

  /** A walk finds nothing to do about the row if and only if the title and its number are
      such that names built of them are read back. */
  predicate CurrentIffReadable(d: Disk, title: string, row: Row) {
    && row.number.Some? && IsNumeral(row.number.value)
    && (Current(d, row) <==> ReadsAs(Sanitize(title), Value(row.number.value)))
  }

  /** A scan leaves a row a sort has written alone if and only if the title and the number
      allow it. */
  lemma WrittenIsCurrentIff(d: Disk, title: string, row: Row)
    requires Written(d, title, row)
    ensures CurrentIffReadable(d, title, row)
  {
    hide Guess, Spell, ReadsAs, Sanitize, Value;
  }

  lemma StaysWritten(d: Disk, d': Disk, src: Path, to: Path, title: string, row: Row)
    requires Written(d, title, row) && OnDisk(d, row.path) && d'.foldCase == d.foldCase
    requires OneVideoMoved(d, d', src, Some(to)) && d.Slot(row.path) != d.Slot(src)
    ensures Written(d', title, row)
  {
    hide Guess, IsEpisodeName, Spell, HasVideoExtension, ReadsAs, Sanitize, Value;
    var s := d.Slot(row.path);
    assert s in Videos(d') && Videos(d')[s] == Videos(d)[s];
  }

  /** One turn of the merge: the new row is as a sort writes it and named for its episode;
      the others stay as they are, and as written. */
  lemma MergeStepWritten(w: World, task: Task, target: nat, dir: Dir, title: string, turn: Turn)
    requires Inv(w) && target in w.animes && w.animes[target].dir == dir
    requires task.id in w.table.rows && w.table.rows[task.id].path == task.src
    requires Fits(w.disk, task.src, turn.script)
    requires MoveEpisode(w.disk, task.src, Target(dir, title, task), turn.script).1.Some?
    ensures
      var (disk, r) := MoveEpisode(w.disk, task.src, Target(dir, title, task), turn.script);
      var number := Normalize(Some(task.episode.epNumber));
      && disk.Exists(r.value) && disk.foldCase == w.disk.foldCase
      && var t' := Record(DeleteByPath(w.table, task.src), target, disk, r.value, number);
      && t'.next == w.table.next + 1 && w.table.next in t'.rows
      && IsExtension(Suffix(task.src.name)) && NamedFor(r.value.name, title, task.episode, Suffix(task.src.name))
      && t'.rows[w.table.next] == Row(target, r.value, number, false, |disk.FileAt(r.value).content|, disk.FileAt(r.value).mtime)
      && (MarkerStands(Sanitize(title), Value(task.episode.epNumber), task.episode.title) ==> Written(disk, title, t'.rows[w.table.next]))
      && forall i | i in t'.rows && i != w.table.next ::
           i in w.table.rows && t'.rows[i] == w.table.rows[i] && (Written(w.disk, title, w.table.rows[i]) ==> Written(disk, title, t'.rows[i]))
  {
    hide MoveEpisode, Target, Spell, Fits, HasVideoExtension, Normalize, Guess, Videos, Suffix, EpisodeStem, NamedFor, Sanitize, MarkerStands, OneVideoMoved, IsEpisodeName, Written, Value;
    var dest := Target(dir, title, task);
    var (disk, r) := MoveEpisode(w.disk, task.src, dest, turn.script);
    var number := Normalize(Some(task.episode.epNumber));
    RowHasVideo(w, task.id);
    TargetIsEpisode(dir, title, task);
    EpisodeName(dest.name);
    EpisodeMovesOneVideo(w.disk, task.src, dest, turn.script);
    EpisodeOnlyLeaves(w.disk, task.src, dest, turn.script);
    DedupeIsEpisode(w.disk, task.src, dest);
    TargetDir(dir, title, task);
    ForgetMoved(w, disk, task.id, r.value);
    var table := DeleteByPath(w.table, task.src);
    OnDiskExists(disk, r.value);
    RecordKeepsInv(w.(disk := disk, table := table), target, r.value, number);
    ArrivesNamed(w.disk, task.src, dir, title, task);
    VideoHasExtension(task.src.name);
    var row := Record(table, target, disk, r.value, number).rows[w.table.next];
    assert row == Row(target, r.value, number, false, |disk.FileAt(r.value).content|, disk.FileAt(r.value).mtime);
    if MarkerStands(Sanitize(title), Value(task.episode.epNumber), task.episode.title) {
      NewRowIsWritten(disk, title, row, r.value, task.episode, Suffix(task.src.name));
    }
    forall i | i in table.rows && Written(w.disk, title, w.table.rows[i]) ensures Written(disk, title, w.table.rows[i]) {
      OtherSlot(w, task.id, i);
      StaysWritten(w.disk, disk, task.src, r.value, title, w.table.rows[i]);
    }
  }

  lemma RowHasVideo(w: World, id: nat)
    requires Inv(w) && id in w.table.rows
    ensures HasVideoExtension(w.table.rows[id].path.name) && OnDisk(w.disk, w.table.rows[id].path)
  {
    hide Videos, HasVideoExtension;
    assert OnDisk(w.disk, w.table.rows[id].path);
  }

  lemma OtherSlot(w: World, id: nat, i: nat)
    requires Inv(w) && id in w.table.rows && i in w.table.rows && i != id
    ensures w.disk.Slot(w.table.rows[i].path) != w.disk.Slot(w.table.rows[id].path) && OnDisk(w.disk, w.table.rows[i].path)
  {
    hide Spell, Videos, IsEpisodeName;
  }

  lemma OnDiskExists(d: Disk, p: Path)
    requires d.Slot(p) in Videos(d)
    ensures d.Exists(p)
  {
    hide HasVideoExtension, Spell;
  }

  lemma NewRowIsWritten(d: Disk, title: string, row: Row, at: Path, e: Episode, suffix: string)
    requires d.Exists(at) && row.path == at && row.size == |d.FileAt(at).content| && row.mtime == d.FileAt(at).mtime
    requires row.number == Normalize(Some(e.epNumber)) && !row.manual
    requires NamedFor(at.name, title, e, suffix) && IsExtension(suffix) && MarkerStands(Sanitize(title), Value(e.epNumber), e.title)
    ensures Written(d, title, row) && Value(row.number.value) == Value(e.epNumber)
  {
    hide Guess, Spell, NamedFor, MarkerStands, ReadsAs, Sanitize, Value, Decimal;
    NamedIsRead(at.name, title, e, suffix);
    ValueOfDecimal(Value(e.epNumber));
  }

  /** Every row a merging sort has written, wherever it stopped, is as written; so scanning
      the target directory afterwards leaves it alone, and reads the same number off the new
      name, if and only if the title and the number allow it. */
  lemma {:induction false} MergedRowsAreCurrent(w: World, base: nat, target: nat, dir: Dir, title: string, tasks: seq<Task>, turns: nat -> Turn, k: nat)
    requires Inv(w) && target in w.animes && w.animes[target].dir == dir
    requires Pending(w.table, tasks, k) && MergeFits(w, target, dir, title, tasks, turns, k) && MarkersStand(title, tasks)
    requires base <= w.table.next && forall i | i in w.table.rows && i >= base :: Written(w.disk, title, w.table.rows[i])
    ensures
      var w' := MergeLoop(w, target, dir, title, tasks, turns, k).0;
      forall i | i in w'.table.rows && i >= base ::
        Written(w'.disk, title, w'.table.rows[i]) && CurrentIffReadable(w'.disk, title, w'.table.rows[i])
    decreases |tasks| - k
  {
    hide Videos, IsEpisodeName, Spell, Inv, MoveEpisode, Target, Fits, Upsert, DeleteByPath, OneVideoMoved, Normalize, CurrentIffReadable, Written, MarkerStands, Sanitize, NamedFor, Suffix, Value;
    if k < |tasks| {
      var task := tasks[k];
      var (disk, r) := MoveEpisode(w.disk, task.src, Target(dir, title, task), turns(k).script);
      MergeStep(w, task, target, dir, title, turns(k));
      if r.Some? {
        MergeStepWritten(w, task, target, dir, title, turns(k));
        var number := Normalize(Some(task.episode.epNumber));
        var t' := Record(DeleteByPath(w.table, task.src), target, disk, r.value, number);
        if turns(k).stat {
          var w1 := w.(disk := disk, table := t');
          MergedRowsAreCurrent(w1, base, target, dir, title, tasks, turns, k + 1);
          assert MergeLoop(w, target, dir, title, tasks, turns, k) == MergeLoop(w1, target, dir, title, tasks, turns, k + 1);
        } else {
          InvIsValid(w);
          DeletedIsPart(w, task.id, disk, target, r.value, number);
        }
      } else {
        FailedMoveKeepsWritten(w, task, Target(dir, title, task), turns(k).script, title);
      }
    }
    var w' := MergeLoop(w, target, dir, title, tasks, turns, k).0;
    forall i | i in w'.table.rows && i >= base
      ensures CurrentIffReadable(w'.disk, title, w'.table.rows[i])
    {
      WrittenIsCurrentIff(w'.disk, title, w'.table.rows[i]);
    }
  }

  lemma FailedMoveKeepsWritten(w: World, task: Task, dest: Path, script: Script, title: string)
    requires MoveEpisode(w.disk, task.src, dest, script).1.None?
    ensures forall i | i in w.table.rows && Written(w.disk, title, w.table.rows[i]) :: Written(MoveEpisode(w.disk, task.src, dest, script).0, title, w.table.rows[i])
  {
    hide Guess, Spell, MoveFile, ReadsAs, Sanitize, Value;
    var d' := MoveEpisode(w.disk, task.src, dest, script).0;
    MoveFailed(w.disk, task.src, dest, script.video);
    forall s | s in w.disk.files ensures s in d'.files && d'.files[s] == w.disk.files[s] {
      MoveNeverOverwrites(w.disk, task.src, dest, script.video, s);
    }
  }

  /** The rows before the new one is recorded are among those after it. */
  lemma DeletedIsPart(w: World, id: nat, disk: Disk, target: nat, at: Path, number: Option<string>)
    requires id in w.table.rows && disk.Exists(at) && w.table.Valid()
    requires Inv(w.(disk := disk, table := DeleteByPath(w.table, w.table.rows[id].path)))
    requires
      var t' := Record(DeleteByPath(w.table, w.table.rows[id].path), target, disk, at, number);
      t'.next == w.table.next + 1
    ensures
      var t := DeleteByPath(w.table, w.table.rows[id].path);
      var t' := Record(t, target, disk, at, number);
      forall i | i in t.rows :: i in t'.rows && t'.rows[i] == t.rows[i] && i != w.table.next
  {
    hide Spell, RowsOnDisk, RowsDistinct, RowsPlaced, DirsApart;
  }

  // ------------------------------------------------------------ after a relocation

  lemma {:induction false} ForwardNames(d: Disk, dir: Dir, title: string, tasks: seq<Task>, scripts: seq<Script>)
    requires |scripts| == |tasks| && forall k | 0 <= k < |tasks| :: HasVideoExtension(tasks[k].src.name)
    ensures
      var moves := Forward(d, Jobs(dir, title, tasks), scripts).1;
      forall k | 0 <= k < |moves| ::
        moves[k].dest.dir == dir && NamedFor(moves[k].dest.name, title, tasks[k].episode, Suffix(tasks[k].src.name))
    decreases |tasks|
  {
    hide MoveEpisode, Target, NamedFor, HasVideoExtension, Suffix;
    if tasks != [] {
      var jobs := Jobs(dir, title, tasks);
      assert jobs[1..] == Jobs(dir, title, tasks[1..]);
      var (d1, r) := MoveEpisode(d, jobs[0].src, jobs[0].dest, scripts[0]);
      if r.Some? {
        LandsDeduped(d, jobs[0].src, jobs[0].dest, scripts[0]);
        ArrivesNamed(d, tasks[0].src, dir, title, tasks[0]);
        TargetDir(dir, title, tasks[0]);
        ForwardNames(d1, dir, title, tasks[1..], scripts[1..]);
      }
    }
  }

  lemma LandsDeduped(d: Disk, src: Path, dest: Path, script: Script)
    requires MoveEpisode(d, src, dest, script).1.Some?
    ensures MoveEpisode(d, src, dest, script).1.value == d.Dedupe(src, dest)
  {
    hide MoveFile;
    MoveSucceeded(d, src, dest, script.video);
  }

  /** The row of a moved file, freshly written. */
  predicate Recorded(d: Disk, source: nat, row: Row, move: Job, task: Task) {
    && d.Exists(move.dest)
    && row == Row(source, move.dest, Normalize(Some(task.episode.epNumber)), false, |d.FileAt(move.dest).content|, d.FileAt(move.dest).mtime)
  }

  /** Every row of the anime is one written since, or still waits to follow its file. */
  ghost predicate InTransit(w: World, base: nat, source: nat, moves: seq<Job>, tasks: seq<Task>, k: nat)
    requires |moves| == |tasks|
  {
    && base <= w.table.next
    && forall i | i in w.table.rows ::
      if i >= base then exists j | 0 <= j < |moves| :: Recorded(w.disk, source, w.table.rows[i], moves[j], tasks[j])
      else i in Behind(tasks, k) || w.table.rows[i].anime != source
  }

  lemma TransitStep(w: World, base: nat, source: nat, dir: Dir, moves: seq<Job>, tasks: seq<Task>, k: nat)
    requires |moves| == |tasks| && k < |moves| && source in w.animes && Following(w, source, dir, moves, tasks, k)
    requires InTransit(w, base, source, moves, tasks, k) && w.disk.Exists(moves[k].dest)
    ensures InTransit(w.(table := FollowOne(w, source, moves[k], tasks[k])), base, source, moves, tasks, k + 1)
  {
    hide Following, FollowOne, Normalize, Behind, Spell;
    FollowedRows(w, source, dir, moves, tasks, k);
    FollowingIds(w, source, dir, moves, tasks, k);
    BehindStep(tasks, k);
    var t' := FollowOne(w, source, moves[k], tasks[k]);
    assert Recorded(w.disk, source, t'.rows[w.table.next], moves[k], tasks[k]);
  }

  lemma FollowingIds(w: World, source: nat, dir: Dir, moves: seq<Job>, tasks: seq<Task>, k: nat)
    requires |moves| == |tasks| && Following(w, source, dir, moves, tasks, k)
    ensures DistinctIds(tasks)
  {
  }

  lemma {:induction false} RecordedRows(w: World, base: nat, source: nat, dir: Dir, moves: seq<Job>, tasks: seq<Task>, turns: nat -> Turn, k: nat)
    requires |moves| == |tasks| && k <= |moves| && source in w.animes && Following(w, source, dir, moves, tasks, k)
    requires (forall j | k <= j < |moves| :: turns(j).stat) && InTransit(w, base, source, moves, tasks, k)
    ensures InTransit(RecordMoves(w, source, moves, tasks, turns, k).0, base, source, moves, tasks, |moves|)
    decreases |moves| - k
  {
    hide Following, FollowOne, Normalize, Upsert, DeleteByPath, InTransit;
    if k < |moves| {
      FollowStep(w, source, dir, moves, tasks, k);
      TransitStep(w, base, source, dir, moves, tasks, k);
      FollowOneIs(w, source, moves[k], tasks[k]);
      RecordedRows(w.(table := FollowOne(w, source, moves[k], tasks[k])), base, source, dir, moves, tasks, turns, k + 1);
    }
  }

  lemma AllInTransit(w: World, source: nat, moves: seq<Job>, tasks: seq<Task>)
    requires |moves| == |tasks| && IdsBelow(w.table)
    requires forall i | i in w.table.rows && w.table.rows[i].anime == source :: i in Behind(tasks, 0)
    ensures InTransit(w, w.table.next, source, moves, tasks, 0)
  {
  }

  /** What the rows of a relocated anime are, at the end of the call: one per file moved, each as
      written, its file untouched since. */
  lemma RelocatedRows(w: World, source: nat, folder: nat, tasks: seq<Task>, turns: nat -> Turn, back: nat -> Turn, leftovers: seq<CompanionMove>)
    returns (moves: seq<Job>)
    requires Inv(w) && source in w.animes && folder in w.folders && Unclaimed(w, NewDir(w, source, folder))
    requires Pending(w.table, tasks, 0)
    requires forall k | 0 <= k < |tasks| :: w.table.rows[tasks[k].id].anime == source
    requires forall i | i in w.table.rows && w.table.rows[i].anime == source :: i in Behind(tasks, 0)
    requires RelocationFits(w, source, folder, tasks, turns, back, leftovers)
    requires Relocate(w, source, folder, tasks, turns, back, leftovers).1 == Done
    ensures |moves| == |tasks|
    ensures
      var w' := Relocate(w, source, folder, tasks, turns, back, leftovers).0;
      && source in w'.animes && w'.animes[source].dir == NewDir(w, source, folder)
      && w'.disk.foldCase == w.disk.foldCase
      && (forall k | 0 <= k < |moves| ::
           && moves[k].dest.dir == NewDir(w, source, folder)
           && NamedFor(moves[k].dest.name, w.animes[source].folderTitle, tasks[k].episode, Suffix(tasks[k].src.name)))
      && forall i | i in w'.table.rows && w'.table.rows[i].anime == source ::
           exists k :: 0 <= k < |moves| && Recorded(w'.disk, source, w'.table.rows[i], moves[k], tasks[k])
  {
    hide IsEpisodeName, Spell, Videos, HasVideoExtension, MoveLeftovers, Forward, Back, RecordMoves, HaveMoved, Inbound, Following, ForwardLists, BackReturns, Target, RowsOnDisk, RowsDistinct, RowsPlaced, Behind, Pending, NamedFor, InTransit, Recorded, Suffix;
    var anime := w.animes[source];
    var dir := NewDir(w, source, folder);
    var jobs := Jobs(dir, anime.folderTitle, tasks);
    JobsInbound(w, source, dir, anime.folderTitle, tasks);
    ForwardVideos(w.disk, jobs, Scripts(turns, |tasks|), dir);
    var (disk, ms, all) := Forward(w.disk, jobs, Scripts(turns, |tasks|));
    moves := ms;
    assert all;
    SourcesAreVideos(w, tasks);
    ForwardNames(w.disk, dir, anime.folderTitle, tasks, Scripts(turns, |tasks|));
    MovedAreFollowing(w, disk, source, dir, moves, tasks);
    RecordMovesFollows(w.(disk := disk), source, dir, moves, tasks, turns, 0);
    AllInTransit(w.(disk := disk), source, moves, tasks);
    RecordedRows(w.(disk := disk), w.table.next, source, dir, moves, tasks, turns, 0);
    var w1 := RecordMoves(w.(disk := disk), source, moves, tasks, turns).0;
    var d' := MoveLeftovers(disk, anime.dir, dir, leftovers);
    LeftoversValid(disk, anime.dir, dir, leftovers);
    HaveMovedFolds(w.disk, disk, moves, dir);
    forall i | i in w1.table.rows && w1.table.rows[i].anime == source
      ensures exists k :: 0 <= k < |moves| && Recorded(d', source, w1.table.rows[i], moves[k], tasks[k])
    {
      var k := RowOf(w1, w.table.next, source, moves, tasks, i);
      UnclaimedApart(w, source, dir);
      RecordedStays(disk, source, w1.table.rows[i], moves[k], tasks[k], anime.dir, dir, leftovers);
    }
  }

  lemma HaveMovedFolds(d: Disk, d': Disk, moves: seq<Job>, into: Dir)
    requires HaveMoved(d, d', moves, into)
    ensures d'.foldCase == d.foldCase
  {
  }

  lemma UnclaimedApart(w: World, source: nat, dir: Dir)
    requires Unclaimed(w, dir) && source in w.animes
    ensures !(w.animes[source].dir <= dir)
  {
  }

  lemma SourcesAreVideos(w: World, tasks: seq<Task>)
    requires Inv(w) && Pending(w.table, tasks, 0)
    ensures forall k | 0 <= k < |tasks| :: HasVideoExtension(tasks[k].src.name)
  {
    hide HasVideoExtension, Inv;
    forall k | 0 <= k < |tasks| ensures HasVideoExtension(tasks[k].src.name) { RowHasVideo(w, tasks[k].id); }
  }

  lemma RowOf(w: World, base: nat, source: nat, moves: seq<Job>, tasks: seq<Task>, i: nat) returns (k: nat)
    requires |moves| == |tasks| && InTransit(w, base, source, moves, tasks, |moves|)
    requires i in w.table.rows && w.table.rows[i].anime == source
    ensures k < |moves| && Recorded(w.disk, source, w.table.rows[i], moves[k], tasks[k])
  {
    hide Recorded;
    NobodyBehind(tasks, |moves|);
    var j :| 0 <= j < |moves| && Recorded(w.disk, source, w.table.rows[i], moves[j], tasks[j]);
    k := j;
  }

  lemma RecordedStays(d: Disk, source: nat, row: Row, move: Job, task: Task, from: Dir, to: Dir, leftovers: seq<CompanionMove>)
    requires d.Valid() && (forall c | c in leftovers :: from <= c.path.dir) && !(from <= move.dest.dir)
    requires Recorded(d, source, row, move, task)
    ensures Recorded(MoveLeftovers(d, from, to, leftovers), source, row, move, task)
  {
    hide MoveLeftovers, Spell, Normalize;
    LeftoversSpare(d, from, to, leftovers, d.Slot(move.dest));
  }

  /** What the caller knows of a relocation that went through. */
  ghost predicate Relocated(w: World, source: nat, folder: nat, tasks: seq<Task>, turns: nat -> Turn, back: nat -> Turn, leftovers: seq<CompanionMove>) {
    && Inv(w) && source in w.animes && folder in w.folders && Unclaimed(w, NewDir(w, source, folder))
    && Pending(w.table, tasks, 0)
    && (forall k | 0 <= k < |tasks| :: w.table.rows[tasks[k].id].anime == source)
    && (forall i | i in w.table.rows && w.table.rows[i].anime == source :: i in Behind(tasks, 0))
    && RelocationFits(w, source, folder, tasks, turns, back, leftovers)
    && Relocate(w, source, folder, tasks, turns, back, leftovers).1 == Done
  }

  /** After a relocation every row of the anime is as written: a scan of the new directory
      leaves it alone, and reads the same number off the name, if and only if the title and
      the number allow it. */
  lemma RelocatedRowsAreCurrent(w: World, source: nat, folder: nat, tasks: seq<Task>, turns: nat -> Turn, back: nat -> Turn, leftovers: seq<CompanionMove>)
    requires Relocated(w, source, folder, tasks, turns, back, leftovers) && MarkersStand(w.animes[source].folderTitle, tasks)
    ensures
      var w' := Relocate(w, source, folder, tasks, turns, back, leftovers).0;
      forall i | i in w'.table.rows && w'.table.rows[i].anime == source ::
        && Written(w'.disk, w.animes[source].folderTitle, w'.table.rows[i])
        && CurrentIffReadable(w'.disk, w.animes[source].folderTitle, w'.table.rows[i])
  {
    hide Relocate, NewDir, Behind, Pending, RelocationFits, NamedFor, CurrentIffReadable, Written, Inv, Unclaimed, Sanitize, MarkerStands, Suffix, Value, Spell, Normalize;
    var moves := RelocatedRows(w, source, folder, tasks, turns, back, leftovers);
    SourcesAreVideos(w, tasks);
    var w' := Relocate(w, source, folder, tasks, turns, back, leftovers).0;
    var title := w.animes[source].folderTitle;
    forall i | i in w'.table.rows && w'.table.rows[i].anime == source
      ensures Written(w'.disk, title, w'.table.rows[i])
      ensures CurrentIffReadable(w'.disk, title, w'.table.rows[i])
    {
      var k :| 0 <= k < |moves| && Recorded(w'.disk, source, w'.table.rows[i], moves[k], tasks[k]);
      VideoSuffix(tasks[k].src.name);
      NewRowIsWritten(w'.disk, title, w'.table.rows[i], moves[k].dest, tasks[k].episode, Suffix(tasks[k].src.name));
      WrittenIsCurrentIff(w'.disk, title, w'.table.rows[i]);
    }
  }

  lemma VideoSuffix(name: string)
    requires HasVideoExtension(name)
    ensures IsExtension(Suffix(name))
  {
    hide HasVideoExtension;
    VideoHasExtension(name);
  }

  // ------------------------------------------------------------ no need to rename

  lemma NamedBears(name: string, title: string, e: Episode, suffix: string)
    requires NamedFor(name, title, e, suffix) && IsExtension(suffix)
    ensures Extension(name) == suffix
    ensures IsNameVariant(name, EpisodeStem(Sanitize(title), e.epNumber, e.title) + suffix)
  {
    hide EpisodeStem, IsNameVariant, Sanitize, Extension, Root, Decimal;
    var stem := EpisodeStem(Sanitize(title), e.epNumber, e.title);
    SplitBuilt(stem, suffix);
    if name == stem + suffix {
      PlainIsVariant(name);
    } else {
      var n: nat :| name == Numbered(stem, n, suffix);
      NumberedIsVariant(stem + suffix, n);
      var longer := stem + " (" + Decimal(n) + ")";
      assert longer[|stem|] == ' ';
      SplitBuilt(longer, suffix);
    }
  }

  /** An expected list has the episode under the same name, or not at all. */
  predicate NamesAlike(title: string, expected: seq<Expected>, e: Episode) {
    var number := Normalize(Some(e.epNumber));
    Match(expected, number).Some? ==>
      EpisodeStem(Sanitize(title), EpisodeOf(expected, number).epNumber, EpisodeOf(expected, number).title)
        == EpisodeStem(Sanitize(title), e.epNumber, e.title)
  }

  /** The list an episode was taken from is one. */
  lemma OwnNamesAlike(title: string, expected: seq<Expected>, number: Option<string>)
    requires Match(expected, number).Some?
    ensures NamesAlike(title, expected, EpisodeOf(expected, number))
  {
    hide Match, EpisodeStem, Sanitize;
    SameNumberSameMatch(expected, Normalize(Some(EpisodeOf(expected, number).epNumber)), number);
  }

  /** A row a sort has written is called by its name, with the suffix its file had. */
  lemma SortedBears(row: Row, title: string, expected: seq<Expected>, e: Episode, suffix: string)
    requires NamedFor(row.path.name, title, e, suffix) && IsExtension(suffix)
    requires row.number == Normalize(Some(e.epNumber)) && NamesAlike(title, expected, e)
    ensures Bears(row, title, expected) && Extension(row.path.name) == suffix
  {
    hide NamedFor, EpisodeStem, IsNameVariant, Match, Sanitize, Extension;
    NamedBears(row.path.name, title, e, suffix);
  }

  // ------------------------------------------------------------ after a merge

  /** The row's file is called by its name, in a case the planner can tell. */
  ghost predicate IsSettled(fold: bool, row: Row, title: string, expected: seq<Expected>) {
    Bears(row, title, expected) && (fold || (IsMatched(row, expected) ==> Lower(Extension(row.path.name)) == Extension(row.path.name)))
  }

  ghost predicate AllSettled(fold: bool, t: Table, anime: nat, title: string, expected: seq<Expected>) {
    forall i | i in t.rows && t.rows[i].anime == anime :: IsSettled(fold, t.rows[i], title, expected)
  }

  /** The files to be moved have lower-case suffixes where that matters, and the episodes
      they are moved for bear the same names in the list of the anime they are moved to. */
  predicate FitsIn(fold: bool, title: string, expected: seq<Expected>, tasks: seq<Task>) {
    forall k | 0 <= k < |tasks| ::
      NamesAlike(title, expected, tasks[k].episode) && (fold || Lower(Suffix(tasks[k].src.name)) == Suffix(tasks[k].src.name))
  }

  lemma {:induction false} MergeLoopSettles(w: World, target: nat, dir: Dir, title: string, expected: seq<Expected>, tasks: seq<Task>, turns: nat -> Turn, k: nat)
    requires Inv(w) && target in w.animes && w.animes[target].dir == dir
    requires Pending(w.table, tasks, k) && MergeFits(w, target, dir, title, tasks, turns, k) && FitsIn(w.disk.foldCase, title, expected, tasks)
    requires AllSettled(w.disk.foldCase, w.table, target, title, expected)
    ensures AllSettled(w.disk.foldCase, MergeLoop(w, target, dir, title, tasks, turns, k).0.table, target, title, expected)
    decreases |tasks| - k
  {
    hide Videos, IsEpisodeName, Spell, Inv, MoveEpisode, Target, Fits, Upsert, DeleteByPath, OneVideoMoved, Normalize, Written, MarkerStands, Sanitize, NamedFor, Suffix, Value, IsSettled, NamesAlike, Lower;
    if k < |tasks| {
      var task := tasks[k];
      var (disk, r) := MoveEpisode(w.disk, task.src, Target(dir, title, task), turns(k).script);
      MergeStep(w, task, target, dir, title, turns(k));
      if r.Some? {
        MergeStepWritten(w, task, target, dir, title, turns(k));
        var number := Normalize(Some(task.episode.epNumber));
        var t' := Record(DeleteByPath(w.table, task.src), target, disk, r.value, number);
        NewRowIsSettled(w.disk.foldCase, t'.rows[w.table.next], title, expected, tasks, k);
        if turns(k).stat {
          var w1 := w.(disk := disk, table := t');
          MergeLoopSettles(w1, target, dir, title, expected, tasks, turns, k + 1);
          assert MergeLoop(w, target, dir, title, tasks, turns, k) == MergeLoop(w1, target, dir, title, tasks, turns, k + 1);
        } else {
          InvIsValid(w);
          DeletedIsPart(w, task.id, disk, target, r.value, number);
        }
      }
    }
  }

  lemma NewRowIsSettled(fold: bool, row: Row, title: string, expected: seq<Expected>, tasks: seq<Task>, k: nat)
    requires k < |tasks| && FitsIn(fold, title, expected, tasks)
    requires IsExtension(Suffix(tasks[k].src.name)) && NamedFor(row.path.name, title, tasks[k].episode, Suffix(tasks[k].src.name))
    requires row.number == Normalize(Some(tasks[k].episode.epNumber))
    ensures IsSettled(fold, row, title, expected)
  {
    hide NamedFor, NamesAlike, Lower, Bears, Match, Suffix, Extension, Normalize;
    SortedBears(row, title, expected, tasks[k].episode, Suffix(tasks[k].src.name));
  }

  lemma MergeKeepsRows(w: World, source: nat, target: nat, tasks: seq<Task>, turns: nat -> Turn, unlinks: nat)
    requires source in w.animes && target in w.animes && source != target
    ensures
      var w' := Merge(w, source, target, tasks, turns, unlinks).0;
      var w1 := MergeLoop(w, target, w.animes[target].dir, w.animes[target].folderTitle, tasks, turns).0;
      forall i | i in w'.table.rows && w'.table.rows[i].anime == target :: i in w1.table.rows && w'.table.rows[i] == w1.table.rows[i]
  {
    hide MergeLoop, HasVideos, RemoveSidecars;
  }

  lemma MergeFolds(w: World, source: nat, target: nat, tasks: seq<Task>, turns: nat -> Turn, unlinks: nat)
    requires source in w.animes && target in w.animes && source != target && Inv(w) && Pending(w.table, tasks, 0)
    requires MergeFits(w, target, w.animes[target].dir, w.animes[target].folderTitle, tasks, turns)
    ensures
      var w' := Merge(w, source, target, tasks, turns, unlinks).0;
      w'.disk.foldCase == w.disk.foldCase && target in w'.animes && w'.animes[target] == w.animes[target]
  {
    hide MergeLoop, HasVideos, RemoveSidecars, MergeFits, Inv, Pending;
    MergeLoopKeepsInv(w, target, w.animes[target].dir, w.animes[target].folderTitle, tasks, turns, 0);
    var w1 := MergeLoop(w, target, w.animes[target].dir, w.animes[target].folderTitle, tasks, turns).0;
    SidecarsFold(w1.disk, w.animes[source].dir, if unlinks < |Sidecars| then unlinks else |Sidecars|);
  }

  lemma SettledIsQueueless(w: World, anime: nat, title: string, expected: seq<Expected>, dir: Dir, ids: seq<nat>)
    requires Inv(w) && AllSettled(w.disk.foldCase, w.table, anime, title, expected)
    requires Lists(ids, w.table, anime) && (forall i | i in ids :: i in w.table.rows)
    ensures PlanFor(dir, title, LocalsOf(w.table.rows, ids), expected).fileRenames == []
  {
    hide Inv, Bears, IsMatched, Lower, Extension, PlanFor, Lists;
    forall i | i in w.table.rows && w.table.rows[i].anime == anime ensures IsSettled(w.disk.foldCase, w.table.rows[i], title, expected) {}
    BearersApart(w, anime, title, expected);
    PlanEmptyIffSettled(dir, title, w.table, anime, ids, expected);
  }

  /** A sort that merges, wherever it stops, puts no file of the anime merged into up for
      renaming, if none was and the two lists name the moved episodes alike. */
  lemma MergedNeedsNoRename(w: World, source: nat, folder: nat, env: SortEnv, ids: seq<nat>)
    requires Inv(w) && (forall i | i in env.ids :: i in w.table.rows) && folder in w.folders && SortAllowed(w, source, folder, env)
    requires source in w.animes && w.animes[source].anidb.Some? && |Twins(w, w.animes[source].anidb.value, folder)| == 1
    requires TheElement(Twins(w, w.animes[source].anidb.value, folder)) in w.animes
    requires
      var target := TheElement(Twins(w, w.animes[source].anidb.value, folder));
      var title, expected := w.animes[target].folderTitle, w.animes[target].expected;
      && AllSettled(w.disk.foldCase, w.table, target, title, expected)
      && FitsIn(w.disk.foldCase, title, expected, Tasks(w.table.rows, env.ids, w.animes[source].expected))
      && Lists(ids, SortAnime(w, source, folder, env).0.table, target)
    ensures
      var target := TheElement(Twins(w, w.animes[source].anidb.value, folder));
      var w' := SortAnime(w, source, folder, env).0;
      && target in w'.animes && (forall i | i in ids :: i in w'.table.rows)
      && PlanOf(w', target, ids).fileRenames == []
  {
    hide Inv, Merge, MergeFits, Tasks, Lists, Pending, Match, Twins, FitsIn, AllSettled, PlanFor, MergeLoop, Relocate;
    var tasks := Tasks(w.table.rows, env.ids, w.animes[source].expected);
    var target := TheElement(Twins(w, w.animes[source].anidb.value, folder));
    TwinIsAnime(w, w.animes[source].anidb.value, folder);
    TasksPending(w, env.ids, source, w.animes[source].expected);
    var w' := SortAnime(w, source, folder, env).0;
    SortKeepsInv(w, source, folder, env);
    ListedAreOwn(ids, w'.table, target);
    if env.ids != [] && tasks != [] {
      MergeLoopSettles(w, target, w.animes[target].dir, w.animes[target].folderTitle, w.animes[target].expected, tasks, env.turns, 0);
      MergeFolds(w, source, target, tasks, env.turns, env.unlinks);
      MergeKeepsRows(w, source, target, tasks, env.turns, env.unlinks);
      SettledSubset(w, w', target, MergeLoop(w, target, w.animes[target].dir, w.animes[target].folderTitle, tasks, env.turns).0.table);
    }
    SettledIsQueueless(w', target, w.animes[target].folderTitle, w.animes[target].expected, w.animes[target].dir, ids);
  }

  lemma SettledSubset(w: World, w': World, target: nat, t: Table)
    requires target in w.animes
    requires AllSettled(w.disk.foldCase, t, target, w.animes[target].folderTitle, w.animes[target].expected)
    requires forall i | i in w'.table.rows && w'.table.rows[i].anime == target :: i in t.rows && w'.table.rows[i] == t.rows[i]
    ensures AllSettled(w.disk.foldCase, w'.table, target, w.animes[target].folderTitle, w.animes[target].expected)
  {
    hide IsSettled;
  }

  // ------------------------------------------------------------ after a relocation

  lemma {:induction false} TasksMatch(rows: map<nat, Row>, ids: seq<nat>, expected: seq<Expected>)
    requires forall i | i in ids :: i in rows
    ensures forall t | t in Tasks(rows, ids, expected) ::
      t.id in rows && Match(expected, rows[t.id].number).Some? && t.episode == EpisodeOf(expected, rows[t.id].number)
    decreases |ids|
  {
    hide Match;
    if ids != [] { TasksMatch(rows, ids[1..], expected); }
  }

  /** A relocated anime's directory and files all bear their names. So it is not in the
      rename queue if and only if no two of its files landed under names that differ in
      case alone; which none do where the file system ignores case, or the suffixes were
      in lower case. */
  lemma RelocatedNeedsNoRename(w: World, source: nat, folder: nat, rowIds: seq<nat>, turns: nat -> Turn, back: nat -> Turn, leftovers: seq<CompanionMove>, ids: seq<nat>)
    requires source in w.animes && forall i | i in rowIds :: i in w.table.rows
    requires Relocated(w, source, folder, Tasks(w.table.rows, rowIds, w.animes[source].expected), turns, back, leftovers)
    requires
      var w' := Relocate(w, source, folder, Tasks(w.table.rows, rowIds, w.animes[source].expected), turns, back, leftovers).0;
      Lists(ids, w'.table, source)
    ensures
      var tasks := Tasks(w.table.rows, rowIds, w.animes[source].expected);
      var w' := Relocate(w, source, folder, tasks, turns, back, leftovers).0;
      && source in w'.animes && (forall i | i in ids :: i in w'.table.rows)
      && !PlanOf(w', source, ids).dirNeedsRename
      && (PlanOf(w', source, ids).fileRenames == [] <==> KeysApart(w'.table, source, w.animes[source].expected))
      && (w.disk.foldCase || (forall t | t in tasks :: Lower(Suffix(t.src.name)) == Suffix(t.src.name)) ==> PlanOf(w', source, ids).fileRenames == [])
  {
    hide Relocate, Tasks, Behind, Pending, RelocationFits, NamedFor, Recorded, Inv, Unclaimed, Sanitize, Suffix, Match, PlanFor, Lower, Spell, Lists, Bears, KeysApart, Extension;
    var expected, title := w.animes[source].expected, w.animes[source].folderTitle;
    var tasks := Tasks(w.table.rows, rowIds, expected);
    var moves := RelocatedRows(w, source, folder, tasks, turns, back, leftovers);
    SourcesAreVideos(w, tasks);
    TasksMatch(w.table.rows, rowIds, expected);
    var w' := Relocate(w, source, folder, tasks, turns, back, leftovers).0;
    ListedAreOwn(ids, w'.table, source);
    RelocatedAnime(w, source, folder, tasks, turns, back, leftovers);
    forall i | i in w'.table.rows && w'.table.rows[i].anime == source
      ensures Bears(w'.table.rows[i], title, expected)
      ensures exists t :: t in tasks && Extension(w'.table.rows[i].path.name) == Suffix(t.src.name)
    {
      var k :| 0 <= k < |moves| && Recorded(w'.disk, source, w'.table.rows[i], moves[k], tasks[k]);
      RecordedBears(w'.disk, source, w'.table.rows[i], moves[k], tasks[k], w.table.rows[tasks[k].id].number, title, expected);
      assert tasks[k] in tasks;
    }
    NewDirName(w, source, folder);
    PlanEmptyIffSettled(w'.animes[source].dir, title, w'.table, source, ids, expected);
    NamedDirStays(w', source, ids);
    if w.disk.foldCase || forall t | t in tasks :: Lower(Suffix(t.src.name)) == Suffix(t.src.name) {
      RelocateKeepsInv(w, source, folder, tasks, turns, back, leftovers);
      BearersApart(w', source, title, expected);
    }
  }

  lemma RecordedBears(d: Disk, source: nat, row: Row, move: Job, task: Task, number: Option<string>, title: string, expected: seq<Expected>)
    requires Recorded(d, source, row, move, task) && HasVideoExtension(task.src.name)
    requires NamedFor(move.dest.name, title, task.episode, Suffix(task.src.name))
    requires Match(expected, number).Some? && task.episode == EpisodeOf(expected, number)
    ensures Bears(row, title, expected) && Extension(row.path.name) == Suffix(task.src.name)
  {
    hide NamedFor, Match, Suffix, Spell, NamesAlike, Bears, Normalize, HasVideoExtension, Extension;
    VideoSuffix(task.src.name);
    OwnNamesAlike(title, expected, number);
    SortedBears(row, title, expected, task.episode, Suffix(task.src.name));
  }

  lemma RelocatedAnime(w: World, source: nat, folder: nat, tasks: seq<Task>, turns: nat -> Turn, back: nat -> Turn, leftovers: seq<CompanionMove>)
    requires source in w.animes && folder in w.folders && Relocate(w, source, folder, tasks, turns, back, leftovers).1 == Done
    ensures
      var w' := Relocate(w, source, folder, tasks, turns, back, leftovers).0;
      source in w'.animes && w'.animes[source] == w.animes[source].(folder := folder, dir := NewDir(w, source, folder))
  {
    hide Forward, RecordMoves, MoveLeftovers, NewDir, Back;
  }

  lemma NamedDirStays(w: World, id: nat, ids: seq<nat>)
    requires id in w.animes && (forall i | i in ids :: i in w.table.rows)
    requires w.animes[id].dir != [] && w.animes[id].dir[|w.animes[id].dir| - 1] == Sanitize(w.animes[id].folderTitle)
    ensures !PlanOf(w, id, ids).dirNeedsRename
  {
    hide Sanitize, Items, Renames, Reindexed;
  }

  lemma NewDirName(w: World, source: nat, folder: nat)
    requires source in w.animes && folder in w.folders
    ensures var dir := NewDir(w, source, folder); dir != [] && dir[|dir| - 1] == Sanitize(w.animes[source].folderTitle)
  {
    hide Sanitize;
  }
}
