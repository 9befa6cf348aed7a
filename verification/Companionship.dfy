/** Subtitles and the like go where their episode goes: through a whole sort and a whole
    rename, each companion the operating system lets go ends up beside the episode, called
    by its new stem and the rest of its own name. */
module Companionship {
  import opened Text
  import opened Numbering
  import opened Disk
  import opened Episodes
  import opened Rollback
  import opened RenamePlan
  import opened Naming
  import opened Catalog
  import opened Library
  import opened LibraryInvariant
  import opened RelocationInvariant
  import opened RenameInvariant
  import opened LibraryRuns
  import opened LibrarySettled
  import opened LibrarySafety
  import opened MergeQueue
  import opened RenameSettled
  import opened RenameQueue
  import opened SortOutcome
  import opened Leftovers
  import opened RenamedTree

  // ------------------------------------------------------------ one companion

  /** By the rule for companions the file goes with the video. */
  predicate Accompanies(d: Disk, video: Path, s: Path) {
    s in d.files && s.dir == video.dir && IsCompanionName(video.name, d.files[s].name)
  }

  /** The directory listing has the file, and the operating system lets it go. */
  ghost predicate IsLetGo(f: File, dir: Dir, script: Script) {
    exists c | c in script.companions :: c.path == Path(dir, f.name) && Willing(c.fates, |f.content|)
  }

  /** The file is beside the video now, under the video's stem and what followed the old one
      in its own name, or a number of that. */
  ghost predicate IsBeside(f: File, d': Disk, t: Path, before: string, at: Path) {
    && t in d'.files && t.dir == at.dir && d'.files[t] == f.(name := d'.files[t].name)
    && IsNumberedOr(d'.files[t].name, Stem(at.name) + From(f.name, |Stem(before)|))
  }

  /** Files that are there, spelled so. */
  ghost predicate AreThere(d: Disk, cs: seq<CompanionMove>) {
    && (forall c | c in cs :: d.Exists(c.path) && d.FileAt(c.path).name == c.path.name)
    && Distinct(cs)
  }

  lemma StaysThere(d: Disk, src: Path, dest: Path, f: Fates, cs: seq<CompanionMove>)
    requires AreThere(d, cs) && forall c | c in cs :: d.Slot(c.path) != d.Slot(src)
    ensures AreThere(MoveFile(d, src, dest, f).0, cs)
    ensures forall c | c in cs :: MoveFile(d, src, dest, f).0.Slot(c.path) == d.Slot(c.path)
  {
    hide MoveFile, Spell, Distinct;
    var d1 := MoveFile(d, src, dest, f).0;
    SameFolding(d, src, dest, f);
    forall c | c in cs ensures d1.Exists(c.path) && d1.FileAt(c.path).name == c.path.name && d1.Slot(c.path) == d.Slot(c.path) {
      MoveNeverOverwrites(d, src, dest, f, d.Slot(c.path));
    }
  }

  lemma SameFolding(d: Disk, src: Path, dest: Path, f: Fates)
    ensures MoveFile(d, src, dest, f).0.foldCase == d.foldCase
    ensures forall p: Path :: MoveFile(d, src, dest, f).0.Slot(p) == d.Slot(p)
  {
    hide MoveFile, Spell;
    if MoveFile(d, src, dest, f).1.Some? { MoveSucceeded(d, src, dest, f); } else { MoveFailed(d, src, dest, f); }
  }

  lemma RestThere(d: Disk, cs: seq<CompanionMove>)
    requires cs != [] && AreThere(d, cs)
    ensures AreThere(d, cs[1..]) && d.Exists(cs[0].path) && forall c | c in cs[1..] :: d.Slot(c.path) != d.Slot(cs[0].path)
  {
    hide Spell;
    assert cs[0] in cs;
    forall c | c in cs[1..] ensures d.Slot(c.path) != d.Slot(cs[0].path) {
      var k :| 0 <= k < |cs[1..]| && cs[1..][k] == c;
      assert cs[k + 1] == c && c in cs;
      assert c.path != cs[0].path;
    }
  }

  /** What is no companion's slot stays as it is. */
  lemma {:induction false} OthersSpared(d: Disk, src: Path, to: Path, cs: seq<CompanionMove>, s: Path)
    requires s in d.files && forall c | c in cs :: d.Slot(c.path) != s
    ensures var d' := MoveCompanions(d, src, to, cs); s in d'.files && d'.files[s] == d.files[s]
    decreases |cs|
  {
    hide MoveFile, Spell;
    if cs != [] {
      var dest := CompanionTarget(src, to, cs[0].path);
      assert cs[0] in cs;
      MoveNeverOverwrites(d, cs[0].path, dest, cs[0].fates, s);
      SameFolding(d, cs[0].path, dest, cs[0].fates);
      OthersSpared(MoveFile(d, cs[0].path, dest, cs[0].fates).0, src, to, cs[1..], s);
    }
  }

  lemma WillingGoes(d: Disk, c: CompanionMove, dest: Path)
    requires d.Exists(c.path) && Willing(c.fates, |d.FileAt(c.path).content|)
    ensures
      var (d1, r) := MoveFile(d, c.path, dest, c.fates);
      && r.Some? && r.value.dir == dest.dir && IsNumberedOr(r.value.name, dest.name)
      && d.Slot(r.value) in d1.files && d1.files[d.Slot(r.value)] == d.FileAt(c.path).(name := r.value.name)
      && (d.Exists(r.value) ==> d.Slot(r.value) == d.Slot(c.path))
  {
    hide MoveFile, Spell, LowestFree, Numbered, Stem, Suffix;
    MoveSucceedsIff(d, c.path, dest, c.fates);
    MoveSucceeded(d, c.path, dest, c.fates);
    DedupeIsLowest(d, c.path, dest);
  }

  /** Each companion in the list that can go goes to its place, and stays there while the
      others go to theirs. */
  lemma {:induction false} GoesAlong(d: Disk, src: Path, to: Path, cs: seq<CompanionMove>, k: nat) returns (t: Path)
    requires AreThere(d, cs) && k < |cs| && Willing(cs[k].fates, |d.FileAt(cs[k].path).content|)
    ensures IsBeside(d.FileAt(cs[k].path), MoveCompanions(d, src, to, cs), t, src.name, to)
    decreases |cs|
  {
    hide MoveFile, Spell, Stem, IsNumberedOr, Willing, AreThere;
    var c := cs[0];
    var dest := CompanionTarget(src, to, c.path);
    var d1 := MoveFile(d, c.path, dest, c.fates).0;
    RestThere(d, cs);
    StaysThere(d, c.path, dest, c.fates, cs[1..]);
    SameFolding(d, c.path, dest, c.fates);
    ThereIs(d, cs[1..]);
    if k == 0 {
      WillingGoes(d, c, dest);
      t := d.Slot(MoveFile(d, c.path, dest, c.fates).1.value);
      NameThere(d, cs, 0);
      OthersSpared(d1, src, to, cs[1..], t);
    } else {
      assert cs[k] == cs[1..][k - 1] && cs[k] in cs[1..];
      MoveNeverOverwrites(d, c.path, dest, c.fates, d.Slot(cs[k].path));
      t := GoesAlong(d1, src, to, cs[1..], k - 1);
    }
  }

  lemma ThereIs(d: Disk, cs: seq<CompanionMove>)
    requires AreThere(d, cs)
    ensures forall c | c in cs :: d.Exists(c.path)
  {
  }

  lemma NameThere(d: Disk, cs: seq<CompanionMove>, k: nat)
    requires AreThere(d, cs) && k < |cs|
    ensures d.FileAt(cs[k].path).name == cs[k].path.name
  {
    assert cs[k] in cs;
  }

  // ------------------------------------------------------------ one episode

  lemma ListedAreThere(d: Disk, src: Path, script: Script)
    requires d.Valid() && Fits(d, src, script) && HasVideoExtension(src.name)
    ensures AreThere(d, script.companions)
    ensures forall c | c in script.companions :: Accompanies(d, src, d.Slot(c.path)) && d.Slot(c.path) != d.Slot(src)
  {
    hide Spell, IsCompanionName, HasVideoExtension;
    forall c | c in script.companions
      ensures d.Exists(c.path) && d.FileAt(c.path).name == c.path.name && Accompanies(d, src, d.Slot(c.path)) && d.Slot(c.path) != d.Slot(src)
    {
      assert c.path in Paths(script.companions);
      var s :| s in d.files && s.dir == src.dir && IsCompanionName(src.name, d.files[s].name) && c.path == Path(s.dir, d.files[s].name);
      assert d.Slot(c.path) == s;
      IsNoVideo(d, src, c.path);
    }
  }

  lemma IsNoVideo(d: Disk, src: Path, p: Path)
    requires HasVideoExtension(src.name) && IsCompanionName(src.name, p.name)
    ensures d.Slot(p) != d.Slot(src)
  {
    hide HasVideoExtension, Spell, Stem, Lower;
    SpellKeepsKind(d.foldCase, src.name);
    SpellKeepsKind(d.foldCase, p.name);
  }

  /** A file the episode has nothing to do with stays as it is. */
  lemma EpisodeSpares(d: Disk, src: Path, dest: Path, script: Script, s: Path)
    requires d.Valid() && Fits(d, src, script) && HasVideoExtension(src.name) && s in d.files && !Touches(d, src, s)
    ensures var d' := MoveEpisode(d, src, dest, script).0; s in d'.files && d'.files[s] == d.files[s]
  {
    hide MoveFile, Spell, IsCompanionName, HasVideoExtension, Fits;
    ListedAreThere(d, src, script);
    MoveNeverOverwrites(d, src, dest, script.video, s);
    SameFolding(d, src, dest, script.video);
    var (moved, r) := MoveFile(d, src, dest, script.video);
    if r.Some? { OthersSpared(moved, src, r.value, script.companions, s); }
  }

  /** A companion that can go is beside its episode afterwards. */
  lemma EpisodeTakes(d: Disk, src: Path, dest: Path, script: Script, s: Path) returns (t: Path)
    requires d.Valid() && Fits(d, src, script) && HasVideoExtension(src.name) && Accompanies(d, src, s) && IsLetGo(d.files[s], s.dir, script)
    requires MoveEpisode(d, src, dest, script).1.Some?
    ensures IsBeside(d.files[s], MoveEpisode(d, src, dest, script).0, t, src.name, MoveEpisode(d, src, dest, script).1.value)
  {
    hide MoveFile, Spell, IsCompanionName, HasVideoExtension, Fits, Willing, IsBeside, AreThere;
    ListedAreThere(d, src, script);
    var (moved, r) := MoveFile(d, src, dest, script.video);
    StaysThere(d, src, dest, script.video, script.companions);
    var c :| c in script.companions && c.path == Path(s.dir, d.files[s].name) && Willing(c.fates, |d.files[s].content|);
    var k :| 0 <= k < |script.companions| && script.companions[k] == c;
    assert d.Slot(c.path) == s by { assert d.Slot(Path(s.dir, d.files[s].name)) == s; }
    MoveNeverOverwrites(d, src, dest, script.video, s);
    t := GoesAlong(moved, src, r.value, script.companions, k);
  }

  // ------------------------------------------------------------ a merge

  lemma TouchedLater(d: Disk, d1: Disk, p: Path, s: Path)
    requires d1.foldCase == d.foldCase && s in d.files && s in d1.files && d1.files[s] == d.files[s]
    ensures Touches(d1, p, s) <==> Touches(d, p, s)
    ensures Accompanies(d1, p, s) <==> Accompanies(d, p, s)
  {
    hide IsCompanionName;
  }

  lemma ElsewhereUntouched(d: Disk, p: Path, s: Path)
    requires s.dir != p.dir
    ensures !Touches(d, p, s)
  {
    hide IsCompanionName;
  }

  /** What one turn of the merge makes of the library. */
  function AfterTurn(w: World, task: Task, target: nat, dir: Dir, title: string, turn: Turn): World
    requires
      var (disk, r) := MoveEpisode(w.disk, task.src, Target(dir, title, task), turn.script);
      r.Some? && disk.Exists(r.value)
  {
    var (disk, r) := MoveEpisode(w.disk, task.src, Target(dir, title, task), turn.script);
    w.(disk := disk, table := Record(DeleteByPath(w.table, task.src), target, disk, r.value, Normalize(Some(task.episode.epNumber))))
  }

  ghost predicate Merges(w: World, target: nat, dir: Dir, title: string, tasks: seq<Task>, turns: nat -> Turn, k: nat) {
    && Inv(w) && target in w.animes && w.animes[target].dir == dir && k <= |tasks|
    && Pending(w.table, tasks, k) && MergeFits(w, target, dir, title, tasks, turns, k)
    && MergeLoop(w, target, dir, title, tasks, turns, k).1 == Done
  }

  lemma GoesOn(w: World, target: nat, dir: Dir, title: string, tasks: seq<Task>, turns: nat -> Turn, k: nat)
    requires Merges(w, target, dir, title, tasks, turns, k) && k < |tasks|
    ensures
      var (disk, r) := MoveEpisode(w.disk, tasks[k].src, Target(dir, title, tasks[k]), turns(k).script);
      && w.disk.Valid() && HasVideoExtension(tasks[k].src.name) && Fits(w.disk, tasks[k].src, turns(k).script)
      && r.Some? && disk.Exists(r.value) && disk.foldCase == w.disk.foldCase && r.value.dir == dir
      && var w1 := AfterTurn(w, tasks[k], target, dir, title, turns(k));
      && Merges(w1, target, dir, title, tasks, turns, k + 1)
      && MergeLoop(w, target, dir, title, tasks, turns, k) == MergeLoop(w1, target, dir, title, tasks, turns, k + 1)
      && tasks[k].id in w.table.rows && w.table.rows[tasks[k].id].path == tasks[k].src
      && w1.table.rows.Keys == w.table.rows.Keys - {tasks[k].id} + {w.table.next} && w1.table.rows[w.table.next].path == r.value
      && Became(w.disk, w.table.rows[tasks[k].id], disk, w1.table.rows[w.table.next], target, dir, title, tasks[k].episode)
      && (forall i | i in w.table.rows && i != tasks[k].id :: LeftAlone(w, w1, i))
      && w.table.next !in Behind(tasks, k + 1)
      && (forall j | k < j < |tasks| :: tasks[j].id in w.table.rows && tasks[j].id != tasks[k].id)
  {
    hide Videos, IsEpisodeName, Spell, Inv, MoveEpisode, Target, Fits, OneVideoMoved, Normalize, Became, LeftAlone, Behind, Record, HasVideoExtension, AfterTurn, Disk.Valid, Disk.Exists;
    var task := tasks[k];
    InvIsValid(w);
    LoopGoesOn(w, target, dir, title, tasks, turns, k);
    RowHasVideo(w, task.id);
    OneTurnMerged(w, task, target, dir, title, turns(k));
    IdsOfInv(w);
    PendingIds(w, tasks, k);
    StillPending(w.table, AfterTurn(w, task, target, dir, title, turns(k)).table, tasks, k);
  }

  lemma OneTurnMerged(w: World, task: Task, target: nat, dir: Dir, title: string, turn: Turn)
    requires Inv(w) && target in w.animes && w.animes[target].dir == dir
    requires task.id in w.table.rows && w.table.rows[task.id].path == task.src && Fits(w.disk, task.src, turn.script)
    requires MoveEpisode(w.disk, task.src, Target(dir, title, task), turn.script).1.Some?
    ensures
      var (disk, r) := MoveEpisode(w.disk, task.src, Target(dir, title, task), turn.script);
      && disk.Exists(r.value) && disk.foldCase == w.disk.foldCase && r.value.dir == dir
      && var w1 := AfterTurn(w, task, target, dir, title, turn);
      && Inv(w1) && w1.animes == w.animes && w1.disk == disk
      && w1.table.rows.Keys == w.table.rows.Keys - {task.id} + {w.table.next} && w1.table.rows[w.table.next].path == r.value
      && Became(w.disk, w.table.rows[task.id], disk, w1.table.rows[w.table.next], target, dir, title, task.episode)
      && (forall i | i in w.table.rows && i != task.id :: LeftAlone(w, w1, i) && w1.table.rows[i] == w.table.rows[i])
  {
    hide Videos, IsEpisodeName, Spell, Inv, MoveEpisode, Target, Fits, Upsert, DeleteByPath, OneVideoMoved, Normalize, Became, LeftAlone, Record, HasVideoExtension;
    MergeStep(w, task, target, dir, title, turn);
    TurnOutcome(w, task, target, dir, title, turn);
    TurnTable(w, task, target, dir, title, turn);
    TurnMoves(w, task, dir, title, turn);
  }

  lemma LoopGoesOn(w: World, target: nat, dir: Dir, title: string, tasks: seq<Task>, turns: nat -> Turn, k: nat)
    requires MergeLoop(w, target, dir, title, tasks, turns, k).1 == Done && k < |tasks| && MergeFits(w, target, dir, title, tasks, turns, k)
    ensures
      var (disk, r) := MoveEpisode(w.disk, tasks[k].src, Target(dir, title, tasks[k]), turns(k).script);
      && Fits(w.disk, tasks[k].src, turns(k).script)
      && r.Some? && disk.Exists(r.value)
      && var w1 := AfterTurn(w, tasks[k], target, dir, title, turns(k));
      && MergeLoop(w, target, dir, title, tasks, turns, k) == MergeLoop(w1, target, dir, title, tasks, turns, k + 1)
      && MergeFits(w1, target, dir, title, tasks, turns, k + 1)
  {
    hide MoveEpisode, Target, Fits, Record, DeleteByPath, Normalize, Disk.Exists, MergeFits;
    var (disk, r) := MoveEpisode(w.disk, tasks[k].src, Target(dir, title, tasks[k]), turns(k).script);
    LoopStep(w, target, dir, title, tasks, turns, k);
    assert r.Some? && turns(k).stat && disk.Exists(r.value);
    FitsStep(w, target, dir, title, tasks, turns, k);
  }

  lemma LoopStep(w: World, target: nat, dir: Dir, title: string, tasks: seq<Task>, turns: nat -> Turn, k: nat)
    requires k < |tasks|
    ensures
      var (disk, r) := MoveEpisode(w.disk, tasks[k].src, Target(dir, title, tasks[k]), turns(k).script);
      MergeLoop(w, target, dir, title, tasks, turns, k) ==
        if r.None? then (w.(disk := disk), Conflict)
        else if !turns(k).stat || !disk.Exists(r.value) then (w.(disk := disk, table := DeleteByPath(w.table, tasks[k].src)), Raised)
        else MergeLoop(AfterTurn(w, tasks[k], target, dir, title, turns(k)), target, dir, title, tasks, turns, k + 1)
  {
    hide MoveEpisode, Target, Record, DeleteByPath, Normalize;
  }

  lemma FitsStep(w: World, target: nat, dir: Dir, title: string, tasks: seq<Task>, turns: nat -> Turn, k: nat)
    requires k < |tasks| && MergeFits(w, target, dir, title, tasks, turns, k)
    ensures Fits(w.disk, tasks[k].src, turns(k).script)
    ensures
      var (disk, r) := MoveEpisode(w.disk, tasks[k].src, Target(dir, title, tasks[k]), turns(k).script);
      r.Some? && turns(k).stat && disk.Exists(r.value) ==> MergeFits(AfterTurn(w, tasks[k], target, dir, title, turns(k)), target, dir, title, tasks, turns, k + 1)
  {
    hide MoveEpisode, Target, Fits, Record, DeleteByPath, Normalize;
  }

  lemma StillPending(t: Table, t1: Table, tasks: seq<Task>, k: nat)
    requires k < |tasks| && Pending(t, tasks, k) && forall i | i in t.rows && i != tasks[k].id :: i in t1.rows && t1.rows[i] == t.rows[i]
    ensures Pending(t1, tasks, k + 1)
  {
  }

  lemma {:induction false} MergeSpares(w: World, target: nat, dir: Dir, title: string, tasks: seq<Task>, turns: nat -> Turn, k: nat, s: Path)
    requires Merges(w, target, dir, title, tasks, turns, k)
    requires s in w.disk.files && forall m | k <= m < |tasks| :: !Touches(w.disk, tasks[m].src, s)
    ensures var d' := MergeLoop(w, target, dir, title, tasks, turns, k).0.disk; s in d'.files && d'.files[s] == w.disk.files[s]
    decreases |tasks| - k
  {
    hide Merges, Touches, MoveEpisode, Target, Fits, Became, LeftAlone, Behind, HasVideoExtension, Disk.Valid, Disk.Exists;
    if k < |tasks| {
      GoesOn(w, target, dir, title, tasks, turns, k);
      var w1 := AfterTurn(w, tasks[k], target, dir, title, turns(k));
      EpisodeSpares(w.disk, tasks[k].src, Target(dir, title, tasks[k]), turns(k).script, s);
      forall m | k + 1 <= m < |tasks| ensures !Touches(w1.disk, tasks[m].src, s) { TouchedLater(w.disk, w1.disk, tasks[m].src, s); }
      MergeSpares(w1, target, dir, title, tasks, turns, k + 1, s);
    } else {
      MergeOver(w, target, dir, title, tasks, turns, k);
    }
  }

  lemma MergeOver(w: World, target: nat, dir: Dir, title: string, tasks: seq<Task>, turns: nat -> Turn, k: nat)
    requires k >= |tasks|
    ensures MergeLoop(w, target, dir, title, tasks, turns, k).0 == w
  {
  }

  lemma RowStays(w: World, target: nat, dir: Dir, title: string, tasks: seq<Task>, turns: nat -> Turn, k: nat, i: nat)
    requires Merges(w, target, dir, title, tasks, turns, k) && i in w.table.rows && i !in Behind(tasks, k)
    ensures LeftAlone(w, MergeLoop(w, target, dir, title, tasks, turns, k).0, i)
  {
    hide Inv, Pending, MergeFits, MergeLoop, Behind, LeftAlone, Became;
    var heirs := MergeLoopBecame(w, target, dir, title, tasks, turns, k);
  }

  /** In a merge that goes through, a companion goes with the first episode it belongs to. */
  lemma {:induction false} MergeTakes(w: World, target: nat, dir: Dir, title: string, tasks: seq<Task>, turns: nat -> Turn, k: nat, j: nat, s: Path) returns (i: nat, t: Path)
    requires Merges(w, target, dir, title, tasks, turns, k) && k <= j < |tasks| && forall m | k <= m < |tasks| :: tasks[m].src.dir != dir
    requires Accompanies(w.disk, tasks[j].src, s) && (forall m | k <= m < j :: !Touches(w.disk, tasks[m].src, s))
    requires IsLetGo(w.disk.files[s], s.dir, turns(j).script)
    ensures
      var w' := MergeLoop(w, target, dir, title, tasks, turns, k).0;
      && tasks[j].id in w.table.rows && i in w'.table.rows
      && Became(w.disk, w.table.rows[tasks[j].id], w'.disk, w'.table.rows[i], target, dir, title, tasks[j].episode)
      && IsBeside(w.disk.files[s], w'.disk, t, tasks[j].src.name, w'.table.rows[i].path)
    decreases |tasks| - k
  {
    hide Merges, Touches, MoveEpisode, Target, Fits, Became, LeftAlone, Behind, HasVideoExtension, Disk.Valid, Disk.Exists, IsBeside, IsLetGo, IsCompanionName;
    GoesOn(w, target, dir, title, tasks, turns, k);
    var w1 := AfterTurn(w, tasks[k], target, dir, title, turns(k));
    var w' := MergeLoop(w1, target, dir, title, tasks, turns, k + 1).0;
    if j == k {
      i := w.table.next;
      t := EpisodeTakes(w.disk, tasks[k].src, Target(dir, title, tasks[k]), turns(k).script, s);
      RowStays(w1, target, dir, title, tasks, turns, k + 1, i);
      LeftAloneIs(w1, w', i);
      BecameInto(w.disk, w.table.rows[tasks[k].id], w1, w', i, target, dir, title, tasks[k].episode);
      BesideIs(w.disk.files[s], w1.disk, t, tasks[k].src.name, w1.table.rows[i].path);
      forall m | k + 1 <= m < |tasks| ensures !Touches(w1.disk, tasks[m].src, t) { ElsewhereUntouched(w1.disk, tasks[m].src, t); }
      MergeSpares(w1, target, dir, title, tasks, turns, k + 1, t);
      BesideStays(w.disk.files[s], w1.disk, w'.disk, t, tasks[k].src.name, w1.table.rows[i].path);
    } else {
      EpisodeSpares(w.disk, tasks[k].src, Target(dir, title, tasks[k]), turns(k).script, s);
      forall m | k + 1 <= m < j ensures !Touches(w1.disk, tasks[m].src, s) { TouchedLater(w.disk, w1.disk, tasks[m].src, s); }
      TouchedLater(w.disk, w1.disk, tasks[j].src, s);
      i, t := MergeTakes(w1, target, dir, title, tasks, turns, k + 1, j, s);
      LeftAloneIs(w, w1, tasks[j].id);
      BecameFrom(w, w1, tasks[j].id, w'.disk, w'.table.rows[i], target, dir, title, tasks[j].episode);
    }
  }

  lemma BesideIs(f: File, d: Disk, t: Path, before: string, at: Path)
    requires IsBeside(f, d, t, before, at)
    ensures t in d.files && t.dir == at.dir
  {
    hide IsNumberedOr;
  }

  lemma BesideStays(f: File, d: Disk, d': Disk, t: Path, before: string, at: Path)
    requires IsBeside(f, d, t, before, at) && t in d'.files && d'.files[t] == d.files[t]
    ensures IsBeside(f, d', t, before, at)
  {
    hide IsNumberedOr;
  }

  // ------------------------------------------------------------ a relocation

  lemma {:induction false} ForwardSpares(d: Disk, jobs: seq<Job>, scripts: seq<Script>, into: Dir, s: Path)
    requires d.Valid() && |scripts| == |jobs| && Inbound(d, jobs, into) && ForwardLists(d, jobs, scripts) && Forward(d, jobs, scripts).2
    requires s in d.files && s.dir == into
    ensures var d' := Forward(d, jobs, scripts).0; s in d'.files && d'.files[s] == d.files[s]
    decreases |jobs|
  {
    hide MoveEpisode, Fits, Inbound, Touches, HasVideoExtension, IsEpisodeName, Disk.Valid;
    if jobs != [] {
      FirstInbound(d, jobs, into);
      ElsewhereUntouched(d, jobs[0].src, s);
      EpisodeSpares(d, jobs[0].src, jobs[0].dest, scripts[0], s);
      EpisodeOnlyLeaves(d, jobs[0].src, jobs[0].dest, scripts[0]);
      var d1 := MoveEpisode(d, jobs[0].src, jobs[0].dest, scripts[0]).0;
      RestInbound(d, d1, jobs, into);
      ForwardSpares(d1, jobs[1..], scripts[1..], into, s);
    }
  }

  /** Of files that all move into one directory, a companion goes with the first it belongs to. */
  lemma {:induction false} ForwardTakes(d: Disk, jobs: seq<Job>, scripts: seq<Script>, into: Dir, j: nat, s: Path) returns (t: Path)
    requires d.Valid() && |scripts| == |jobs| && Inbound(d, jobs, into) && ForwardLists(d, jobs, scripts) && Forward(d, jobs, scripts).2
    requires j < |jobs| && Accompanies(d, jobs[j].src, s) && (forall m | 0 <= m < j :: !Touches(d, jobs[m].src, s))
    requires IsLetGo(d.files[s], s.dir, scripts[j])
    ensures IsBeside(d.files[s], Forward(d, jobs, scripts).0, t, jobs[j].src.name, Forward(d, jobs, scripts).1[j].dest)
    decreases |jobs|
  {
    hide MoveEpisode, Fits, Inbound, Touches, HasVideoExtension, IsEpisodeName, Disk.Valid, IsBeside, IsLetGo, IsCompanionName, Disk.Dedupe;
    var first := jobs[0];
    FirstInbound(d, jobs, into);
    var (d1, r) := MoveEpisode(d, first.src, first.dest, scripts[0]);
    var (d', moves, all) := Forward(d, jobs, scripts);
    assert r.Some?;
    assert moves[0] == Job(first.src, r.value) && moves[1..] == Forward(d1, jobs[1..], scripts[1..]).1;
    EpisodeOnlyLeaves(d, first.src, first.dest, scripts[0]);
    RestInbound(d, d1, jobs, into);
    if j == 0 {
      t := EpisodeTakes(d, first.src, first.dest, scripts[0], s);
      LandsAt(d, first.src, first.dest, scripts[0]);
      DedupeDir(d, first.src, first.dest);
      BesideIs(d.files[s], d1, t, first.src.name, r.value);
      ForwardSpares(d1, jobs[1..], scripts[1..], into, t);
      BesideStays(d.files[s], d1, d', t, first.src.name, r.value);
    } else {
      assert !Touches(d, jobs[0].src, s);
      EpisodeSpares(d, first.src, first.dest, scripts[0], s);
      forall m | 0 <= m < j - 1 ensures !Touches(d1, jobs[1..][m].src, s) {
        assert jobs[1..][m] == jobs[m + 1];
        TouchedLater(d, d1, jobs[m + 1].src, s);
      }
      TouchedLater(d, d1, jobs[j].src, s);
      t := ForwardTakes(d1, jobs[1..], scripts[1..], into, j - 1, s);
      assert moves[j] == moves[1..][j - 1];
    }
  }

  // ------------------------------------------------------------ a whole sort

  lemma SortedFromElsewhere(w: World, source: nat, b: nat, tasks: seq<Task>)
    requires Inv(w) && source in w.animes && b in w.animes && b != source && Pending(w.table, tasks, 0)
    requires forall k | 0 <= k < |tasks| :: w.table.rows[tasks[k].id].anime == source
    ensures forall k | 0 <= k < |tasks| :: tasks[k].src.dir != w.animes[b].dir
  {
    hide RowsOnDisk, RowsDistinct, IdsBelow, Disk.Valid;
    forall k | 0 <= k < |tasks| ensures tasks[k].src.dir != w.animes[b].dir {
      assert w.animes[source].dir <= tasks[k].src.dir;
      assert Apart(w.animes[source].dir, w.animes[b].dir);
    }
  }

  /** The companion is one of the `j`-th matched file, and of none before it. */
  ghost predicate BelongsFirst(d: Disk, tasks: seq<Task>, j: nat, s: Path) {
    j < |tasks| && Accompanies(d, tasks[j].src, s) && forall m | 0 <= m < j :: !Touches(d, tasks[m].src, s)
  }

  lemma MergeEndTakes(w: World, source: nat, b: nat, ids: seq<nat>, turns: nat -> Turn, unlinks: nat, j: nat, s: Path) returns (i: nat, t: Path)
    requires Inv(w) && source in w.animes && b in w.animes && b != source && Lists(ids, w.table, source) && (forall i | i in ids :: i in w.table.rows)
    requires
      var tasks := Tasks(w.table.rows, ids, w.animes[source].expected);
      && MergeFits(w, b, w.animes[b].dir, w.animes[b].folderTitle, tasks, turns) && Merge(w, source, b, tasks, turns, unlinks).1 == Done
      && BelongsFirst(w.disk, tasks, j, s) && IsLetGo(w.disk.files[s], s.dir, turns(j).script)
    ensures
      var task := Tasks(w.table.rows, ids, w.animes[source].expected)[j];
      var w' := Merge(w, source, b, Tasks(w.table.rows, ids, w.animes[source].expected), turns, unlinks).0;
      && i in w'.table.rows && b in w'.animes && w'.animes[b] == w.animes[b] && w.table.rows[task.id].path == task.src
      && Became(w.disk, w.table.rows[task.id], w'.disk, w'.table.rows[i], b, w.animes[b].dir, w.animes[b].folderTitle, task.episode)
      && IsBeside(w.disk.files[s], w'.disk, t, task.src.name, w'.table.rows[i].path)
  {
    hide Inv, Tasks, Lists, Merge, MergeFits, Pending, MergeLoop, Became, LeftAlone, IsBeside, IsLetGo, Touches, IsCompanionName, RemoveSidecars;
    var tasks := Tasks(w.table.rows, ids, w.animes[source].expected);
    var dir, title := w.animes[b].dir, w.animes[b].folderTitle;
    TasksPending(w, ids, source, w.animes[source].expected);
    SortedFromElsewhere(w, source, b, tasks);
    MergeEnds(w, source, b, tasks, turns, unlinks, 0);
    i, t := MergeTakes(w, b, dir, title, tasks, turns, 0, j, s);
    MergeEnds(w, source, b, tasks, turns, unlinks, i);
    MergeKeepsTarget(w, source, b, tasks, turns, unlinks);
    var w1 := MergeLoop(w, b, dir, title, tasks, turns).0;
    var w' := Merge(w, source, b, tasks, turns, unlinks).0;
    BecameOwner(w.disk, w.table.rows[tasks[j].id], w1.disk, w1.table.rows[i], b, dir, title, tasks[j].episode);
    LeftAloneIs(w1, w', i);
    BecameInto(w.disk, w.table.rows[tasks[j].id], w1, w', i, b, dir, title, tasks[j].episode);
    BesideIs(w.disk.files[s], w1.disk, t, tasks[j].src.name, w1.table.rows[i].path);
    BecameDir(w.disk, w.table.rows[tasks[j].id], w1.disk, w1.table.rows[i], b, dir, title, tasks[j].episode);
    DirsDiffer(w, source, b);
    MergeEndSpares(w, source, b, tasks, turns, unlinks, t);
    BesideStays(w.disk.files[s], w1.disk, w'.disk, t, tasks[j].src.name, w1.table.rows[i].path);
  }

  lemma BecameDir(d: Disk, row: Row, d': Disk, row': Row, anime: nat, dir: Dir, title: string, e: Episode)
    requires Became(d, row, d', row', anime, dir, title, e)
    ensures row'.path.dir == dir
  {
    hide NamedFor, Suffix, Normalize;
  }

  /** What the clean-up after a merge leaves alone. */
  lemma MergeEndSpares(w: World, source: nat, b: nat, tasks: seq<Task>, turns: nat -> Turn, unlinks: nat, t: Path)
    requires source in w.animes && b in w.animes && Merge(w, source, b, tasks, turns, unlinks).1 == Done
    requires var d1 := MergeLoop(w, b, w.animes[b].dir, w.animes[b].folderTitle, tasks, turns).0.disk; t in d1.files && t.dir != w.animes[source].dir
    ensures
      var d1 := MergeLoop(w, b, w.animes[b].dir, w.animes[b].folderTitle, tasks, turns).0.disk;
      var d' := Merge(w, source, b, tasks, turns, unlinks).0.disk;
      t in d'.files && d'.files[t] == d1.files[t]
  {
    hide MergeLoop, HasVideos, RemoveSidecars, Spell;
    var d1 := MergeLoop(w, b, w.animes[b].dir, w.animes[b].folderTitle, tasks, turns).0.disk;
    OnlySidecarsRemoved(d1, w.animes[source].dir, |Sidecars|);
    assert t in d1.files - SidecarSlots(d1, w.animes[source].dir);
  }

  lemma DirsDiffer(w: World, a: nat, b: nat)
    requires Inv(w) && a in w.animes && b in w.animes && a != b
    ensures w.animes[a].dir != w.animes[b].dir
  {
    hide RowsOnDisk, RowsDistinct, IdsBelow, RowsPlaced, Disk.Valid;
    assert Apart(w.animes[a].dir, w.animes[b].dir);
  }

  lemma RelocationEndTakes(w: World, source: nat, folder: nat, env: SortEnv, j: nat, s: Path) returns (i: nat, t: Path)
    requires Inv(w) && source in w.animes && folder in w.folders && Unclaimed(w, NewDir(w, source, folder))
    requires (forall i | i in env.ids :: i in w.table.rows) && Lists(env.ids, w.table, source)
    requires
      var tasks := Tasks(w.table.rows, env.ids, w.animes[source].expected);
      && |tasks| == |env.ids| && RelocationFits(w, source, folder, tasks, env.turns, env.back, env.leftovers)
      && Relocate(w, source, folder, tasks, env.turns, env.back, env.leftovers).1 == Done
      && BelongsFirst(w.disk, tasks, j, s) && IsLetGo(w.disk.files[s], s.dir, env.turns(j).script)
    ensures
      var task := Tasks(w.table.rows, env.ids, w.animes[source].expected)[j];
      var w' := Relocate(w, source, folder, Tasks(w.table.rows, env.ids, w.animes[source].expected), env.turns, env.back, env.leftovers).0;
      && i in w'.table.rows && source in w'.animes && task.id in w.table.rows && w.table.rows[task.id].path == task.src
      && Became(w.disk, w.table.rows[task.id], w'.disk, w'.table.rows[i], source, w'.animes[source].dir, w'.animes[source].folderTitle, task.episode)
      && IsBeside(w.disk.files[s], w'.disk, t, task.src.name, w'.table.rows[i].path)
  {
    hide Inv, Tasks, Lists, Relocate, RelocationFits, Pending, Became, LeftAlone, IsBeside, IsLetGo, Touches, IsCompanionName, HeirsAre, AreAt, Forward, Unclaimed, Match, Behind, NewDir, Sanitize, EpisodeOf;
    var expected := w.animes[source].expected;
    var tasks := Tasks(w.table.rows, env.ids, expected);
    TasksPending(w, env.ids, source, expected);
    EveryRowIsBehind(w, source, env.ids, expected);
    var heirs := RelocatedHeirs(w, source, folder, tasks, env);
    var w' := Relocate(w, source, folder, tasks, env.turns, env.back, env.leftovers).0;
    i := HeirOf(w, w', source, env.ids, tasks, heirs, j);
    t := RelocatedBeside(w, source, folder, tasks, env, j, s);
    HeirAt(w'.table, Forward(w.disk, Jobs(NewDir(w, source, folder), w.animes[source].folderTitle, tasks), Scripts(env.turns, |tasks|)).1, tasks, heirs, j);
  }

  lemma HeirAt(t: Table, moves: seq<Job>, tasks: seq<Task>, heirs: map<nat, nat>, j: nat)
    requires |moves| == |tasks| && AreAt(t, moves, tasks, heirs) && j < |tasks|
    ensures tasks[j].id in heirs && heirs[tasks[j].id] in t.rows && t.rows[heirs[tasks[j].id]].path == moves[j].dest
  {
  }

  lemma HeirOf(w: World, w': World, source: nat, ids: seq<nat>, tasks: seq<Task>, heirs: map<nat, nat>, j: nat) returns (i: nat)
    requires source in w.animes && source in w'.animes && HeirsAre(w, w', source, source, heirs) && Lists(ids, w.table, source) && (forall i | i in ids :: i in w.table.rows)
    requires tasks == Tasks(w.table.rows, ids, w.animes[source].expected) && Pending(w.table, tasks, 0) && j < |tasks|
    ensures tasks[j].id in w.table.rows && w.table.rows[tasks[j].id].path == tasks[j].src
    ensures tasks[j].id in heirs && i == heirs[tasks[j].id] && i in w'.table.rows
    ensures Became(w.disk, w.table.rows[tasks[j].id], w'.disk, w'.table.rows[i], source, w'.animes[source].dir, w'.animes[source].folderTitle, tasks[j].episode)
  {
    hide Tasks, Match, Lists, Became, LeftAlone, EpisodeOf;
    TaskIsMatched(w.table.rows, ids, w.animes[source].expected, j);
    OwnRows(w, source, ids, tasks[j].id);
    assert IsMatchedRow(w, source, tasks[j].id);
    i := heirs[tasks[j].id];
  }

  /** The companion on the disk after a relocation. */
  lemma RelocatedBeside(w: World, source: nat, folder: nat, tasks: seq<Task>, env: SortEnv, j: nat, s: Path) returns (t: Path)
    requires Inv(w) && source in w.animes && folder in w.folders && Unclaimed(w, NewDir(w, source, folder)) && Pending(w.table, tasks, 0)
    requires forall k | 0 <= k < |tasks| :: w.table.rows[tasks[k].id].anime == source
    requires forall i | i in w.table.rows && w.table.rows[i].anime == source :: i in Behind(tasks, 0)
    requires RelocationFits(w, source, folder, tasks, env.turns, env.back, env.leftovers)
    requires Relocate(w, source, folder, tasks, env.turns, env.back, env.leftovers).1 == Done
    requires BelongsFirst(w.disk, tasks, j, s) && IsLetGo(w.disk.files[s], s.dir, env.turns(j).script)
    ensures
      var moves := Forward(w.disk, Jobs(NewDir(w, source, folder), w.animes[source].folderTitle, tasks), Scripts(env.turns, |tasks|)).1;
      && |moves| == |tasks|
      && IsBeside(w.disk.files[s], Relocate(w, source, folder, tasks, env.turns, env.back, env.leftovers).0.disk, t, tasks[j].src.name, moves[j].dest)
  {
    hide Inv, Forward, Back, RecordMoves, MoveLeftovers, Following, HaveMoved, Inbound, ForwardLists, BackReturns, Target, Behind, Pending, Unclaimed, IsBeside, IsLetGo, Touches, IsCompanionName, Sanitize, Disk.Valid, NamedFor, HasVideoExtension;
    var anime := w.animes[source];
    var dir := NewDir(w, source, folder);
    var jobs := Jobs(dir, anime.folderTitle, tasks);
    InvIsValid(w);
    JobsInbound(w, source, dir, anime.folderTitle, tasks);
    ForwardVideos(w.disk, jobs, Scripts(env.turns, |tasks|), dir);
    SourcesAreVideos(w, tasks);
    ForwardNames(w.disk, dir, anime.folderTitle, tasks, Scripts(env.turns, |tasks|));
    var (disk, moves, all) := Forward(w.disk, jobs, Scripts(env.turns, |tasks|));
    assert all;
    MovedAreFollowing(w, disk, source, dir, moves, tasks);
    RecordMovesFollows(w.(disk := disk), source, dir, moves, tasks, env.turns, 0);
    t := ForwardTakes(w.disk, jobs, Scripts(env.turns, |tasks|), dir, j, s);
    BesideIs(w.disk.files[s], disk, t, tasks[j].src.name, moves[j].dest);
    UnclaimedApart(w, source, dir);
    LeftoversSpare(disk, anime.dir, dir, env.leftovers, t);
    BesideStays(w.disk.files[s], disk, MoveLeftovers(disk, anime.dir, dir, env.leftovers), t, tasks[j].src.name, moves[j].dest);
  }

  /** A sort that has gone through, by merging or relocating: a companion goes with the first
      matched file it belongs to. It is beside what that file has become, called by its new
      stem and the rest of the name it had, or a number of that, and its content is the same. */
  lemma SortTakesCompanions(w: World, source: nat, folder: nat, env: SortEnv, j: nat, s: Path) returns (i: nat, t: Path)
    requires Inv(w) && (forall i | i in env.ids :: i in w.table.rows) && folder in w.folders && source in w.animes && SortAllowed(w, source, folder, env)
    requires !SortStrands(w, source, folder, env) && SortAnime(w, source, folder, env).1 == Done
    requires BelongsFirst(w.disk, Tasks(w.table.rows, env.ids, w.animes[source].expected), j, s)
    requires IsLetGo(w.disk.files[s], s.dir, env.turns(j).script)
    ensures
      var task := Tasks(w.table.rows, env.ids, w.animes[source].expected)[j];
      var w' := SortAnime(w, source, folder, env).0;
      && i in w'.table.rows && task.id in w.table.rows && w.table.rows[task.id].path == task.src
      && var row := w'.table.rows[i];
      && row.anime in w'.animes
      && Became(w.disk, w.table.rows[task.id], w'.disk, row, row.anime, w'.animes[row.anime].dir, w'.animes[row.anime].folderTitle, task.episode)
      && IsBeside(w.disk.files[s], w'.disk, t, task.src.name, row.path)
  {
    hide Inv, Merge, Tasks, Twins, Relocate, Lists, RelocationLists, RelocationStrands, RelocationFits, Unclaimed, MergeFits, Became, IsBeside, IsLetGo, NewDir, Touches, IsCompanionName;
    var tasks := Tasks(w.table.rows, env.ids, w.animes[source].expected);
    var twins := Twins(w, w.animes[source].anidb.value, folder);
    if |twins| == 1 {
      var b := TheElement(twins);
      TwinIsAnime(w, w.animes[source].anidb.value, folder);
      i, t := MergeEndTakes(w, source, b, env.ids, env.turns, env.unlinks, j, s);
      var w' := SortAnime(w, source, folder, env).0;
      BecameOwner(w.disk, w.table.rows[tasks[j].id], w'.disk, w'.table.rows[i], b, w.animes[b].dir, w.animes[b].folderTitle, tasks[j].episode);
    } else {
      FitsIffNotStranded(w, source, folder, tasks, env.turns, env.back, env.leftovers);
      i, t := RelocationEndTakes(w, source, folder, env, j, s);
      var w' := SortAnime(w, source, folder, env).0;
      BecameOwner(w.disk, w.table.rows[tasks[j].id], w'.disk, w'.table.rows[i], source, w'.animes[source].dir, w'.animes[source].folderTitle, tasks[j].episode);
    }
  }

  // ------------------------------------------------------------ renaming

  /** The file the `m`-th rename is about. */
  function SourceOf(t: Table, ids: seq<nat>, renames: seq<Rename>, m: nat): Path
    requires PlanFits(t, ids, renames) && m < |renames|
  {
    assert renames[m] in renames;
    t.rows[ids[renames[m].index]].path
  }

  /** A loop over the files that runs to its end. */
  ghost predicate RunsOut(w: World, ids: seq<nat>, renames: seq<Rename>, turns: nat -> Turn, k: nat) {
    && w.disk.Valid() && PlanFits(w.table, ids, renames) && k <= |renames|
    && RenameFits(w, ids, renames, turns, k) && RenameLoop(w, ids, renames, turns, k).1 == Done
    && (forall m | k <= m < |renames| :: HasVideoExtension(SourceOf(w.table, ids, renames, m).name) && HasVideoExtension(renames[m].name))
    && (forall m, n | k <= m < n < |renames| :: IdOf(ids, renames, m) != IdOf(ids, renames, n))
  }

  function IdOf(ids: seq<nat>, renames: seq<Rename>, m: nat): nat {
    if m < |renames| && renames[m].index < |ids| then ids[renames[m].index] else 0
  }

  lemma RunsOn(w: World, ids: seq<nat>, renames: seq<Rename>, turns: nat -> Turn, k: nat)
    requires RunsOut(w, ids, renames, turns, k) && k < |renames|
    ensures
      var src := SourceOf(w.table, ids, renames, k);
      var dest := Path(src.dir, renames[k].name);
      var (disk, r) := MoveEpisode(w.disk, src, dest, turns(k).script);
      var id := IdOf(ids, renames, k);
      && HasVideoExtension(src.name) && HasVideoExtension(dest.name) && Fits(w.disk, src, turns(k).script)
      && r.Some? && r.value == w.disk.Dedupe(src, dest) && r.value.dir == src.dir && disk.foldCase == w.disk.foldCase
      && id in w.table.rows && w.table.rows[id].path == src
      && var w1 := RowFollows(w, id, disk, r.value);
      && RunsOut(w1, ids, renames, turns, k + 1)
      && RenameLoop(w, ids, renames, turns, k) == RenameLoop(w1, ids, renames, turns, k + 1)
      && (forall m | k < m < |renames| :: SourceOf(w1.table, ids, renames, m) == SourceOf(w.table, ids, renames, m) && IdOf(ids, renames, m) != id)
  {
    hide MoveEpisode, Fits, HasVideoExtension, Disk.Valid, Disk.Dedupe;
    var src := SourceOf(w.table, ids, renames, k);
    assert renames[k] in renames;
    EpisodeOnlyLeaves(w.disk, src, Path(src.dir, renames[k].name), turns(k).script);
    LandsAt(w.disk, src, Path(src.dir, renames[k].name), turns(k).script);
    DedupeDir(w.disk, src, Path(src.dir, renames[k].name));
    var (disk, r) := MoveEpisode(w.disk, src, Path(src.dir, renames[k].name), turns(k).script);
    var w1 := RowFollows(w, ids[renames[k].index], disk, r.value);
    assert PlanFits(w1.table, ids, renames) by {
      forall r | r in renames ensures r.index < |ids| && ids[r.index] in w1.table.rows {}
    }
    forall m | k < m < |renames| ensures SourceOf(w1.table, ids, renames, m) == SourceOf(w.table, ids, renames, m) && IdOf(ids, renames, m) != ids[renames[k].index] {
      assert renames[m] in renames;
      assert IdOf(ids, renames, k) != IdOf(ids, renames, m);
    }
  }

  /** What no file still to be renamed has to do with stays as it is, and so do rows that are
      not up for renaming any more. */
  lemma {:induction false} RenameSpares(w: World, ids: seq<nat>, renames: seq<Rename>, turns: nat -> Turn, k: nat, s: Path, i: nat)
    requires RunsOut(w, ids, renames, turns, k)
    requires s in w.disk.files && forall m | k <= m < |renames| :: !Touches(w.disk, SourceOf(w.table, ids, renames, m), s)
    requires i in w.table.rows && forall m | k <= m < |renames| :: IdOf(ids, renames, m) != i
    ensures
      var w' := RenameLoop(w, ids, renames, turns, k).0;
      s in w'.disk.files && w'.disk.files[s] == w.disk.files[s] && i in w'.table.rows && w'.table.rows[i] == w.table.rows[i]
    decreases |renames| - k
  {
    hide RunsOut, Touches, MoveEpisode, Fits, HasVideoExtension, Disk.Valid, PlanFits, Disk.Dedupe;
    RunsFit(w, ids, renames, turns, k);
    if k < |renames| {
      RunsOn(w, ids, renames, turns, k);
      var src := SourceOf(w.table, ids, renames, k);
      var (disk, r) := MoveEpisode(w.disk, src, Path(src.dir, renames[k].name), turns(k).script);
      var w1 := RowFollows(w, IdOf(ids, renames, k), disk, r.value);
      EpisodeSpares(w.disk, src, Path(src.dir, renames[k].name), turns(k).script, s);
      RunsFit(w1, ids, renames, turns, k + 1);
      forall m | k + 1 <= m < |renames| ensures !Touches(w1.disk, SourceOf(w1.table, ids, renames, m), s) {
        TouchedLater(w.disk, w1.disk, SourceOf(w.table, ids, renames, m), s);
      }
      RenameSpares(w1, ids, renames, turns, k + 1, s, i);
    } else {
      RenameOver(w, ids, renames, turns, k);
    }
  }

  lemma RenameOver(w: World, ids: seq<nat>, renames: seq<Rename>, turns: nat -> Turn, k: nat)
    requires PlanFits(w.table, ids, renames) && k >= |renames|
    ensures RenameLoop(w, ids, renames, turns, k).0 == w
  {
  }

  lemma RunsFit(w: World, ids: seq<nat>, renames: seq<Rename>, turns: nat -> Turn, k: nat)
    requires RunsOut(w, ids, renames, turns, k)
    ensures w.disk.Valid() && PlanFits(w.table, ids, renames) && k <= |renames|
    ensures forall r | r in renames :: r.index < |ids| && ids[r.index] in w.table.rows
  {
    hide HasVideoExtension;
  }

  lemma NumberKeepsStem(stem: string, tail: string, name: string)
    requires stem != "" && tail != "" && tail[0] == '.' && IsNumberedOr(name, stem + tail)
    ensures stem <= name
  {
    hide Decimal;
    var base := stem + tail;
    if name != base {
      var n :| n >= 2 && name == Numbered(Stem(base), n, Suffix(base));
      assert base[|stem|] == '.';
      assert stem <= base && stem <= Stem(base);
    }
  }

  /** A numbered name starts with the stem of the name asked for. */
  lemma DedupeKeepsStem(d: Disk, src: Path, dest: Path)
    requires HasVideoExtension(dest.name)
    ensures Stem(dest.name) <= Stem(d.Dedupe(src, dest).name) && d.Dedupe(src, dest).name != ""
  {
    hide Disk.Dedupe, HasVideoExtension, Suffix, Stem, Numbered;
    VideoHasExtension(dest.name);
    DedupeIsLowest(d, src, dest);
    if d.Dedupe(src, dest) != dest {
      var n :| n >= 2 && d.Dedupe(src, dest) == Path(dest.dir, Numbered(Stem(dest.name), n, Suffix(dest.name)));
      NumberedParts(Stem(dest.name), n, Suffix(dest.name));
    }
  }

  lemma NumberedParts(stem: string, n: nat, suffix: string)
    requires stem != "" && IsExtension(suffix)
    ensures stem <= Stem(Numbered(stem, n, suffix)) && Numbered(stem, n, suffix) != ""
  {
    hide Decimal;
    SplitBuilt(stem + " (" + Decimal(n) + ")", suffix);
    assert Numbered(stem, n, suffix) == (stem + " (" + Decimal(n) + ")") + suffix;
  }

  lemma PrefixLower(a: string, b: string)
    requires a <= b
    ensures Lower(a) <= Lower(b)
  {
    LowerConcat(a, b[|a|..]);
    assert a + b[|a|..] == b;
  }

  /** Once beside its episode, a companion belongs to no file whose stem is unrelated to the
      episode's. */
  lemma BesideIsUntouched(d: Disk, f: File, t: Path, before: Path, dest: string, at: Path, other: Path)
    requires d.Valid() && IsBeside(f, d, t, before.name, at) && IsCompanionName(before.name, f.name) && before.name != ""
    requires Stem(dest) <= Stem(at.name) && at.name != "" && HasVideoExtension(other.name) && Unrelated(Stem(other.name), Stem(dest))
    ensures !Touches(d, other, t)
  {
    hide Spell, Stem, Suffix, HasVideoExtension, IsNumberedOr, Numbered;
    var name := d.files[t].name;
    var tail := From(f.name, |Stem(before.name)|);
    CompanionTail(before.name, f.name);
    StemAndSuffix(at.name);
    NumberKeepsStem(Stem(at.name), tail, name);
    TargetIsNoVideo(before, at, Path(before.dir, f.name));
    NumberIsNoVideo(name, Stem(at.name) + tail);
    SpellKeepsKind(d.foldCase, name);
    SpellKeepsKind(d.foldCase, other.name);
    assert d.Slot(Path(t.dir, name)) == t;
    if Touches(d, other, t) {
      assert IsCompanionName(other.name, name);
      assert Lower(Stem(other.name)) <= Lower(Stem(other.name)) + "." <= Lower(name);
      PrefixLower(Stem(dest), name);
      PrefixesCompare(Lower(Stem(other.name)), Lower(Stem(dest)), Lower(name));
    }
  }

  lemma NumberIsNoVideo(name: string, base: string)
    requires IsNumberedOr(name, base) && !HasVideoExtension(base)
    ensures !HasVideoExtension(name)
  {
    hide HasVideoExtension, Numbered, Stem, Suffix;
    if name != base {
      var n :| n >= 2 && name == Numbered(Stem(base), n, Suffix(base));
      NumberedKeepsKind(base, n);
    }
  }

  /** The companion is one of the `j`-th file to be renamed and of none before it, and no later
      one has a stem that could claim it under its new name. */
  ghost predicate BelongsOnly(d: Disk, t: Table, ids: seq<nat>, renames: seq<Rename>, k: nat, j: nat, s: Path) {
    && PlanFits(t, ids, renames) && k <= j < |renames| && Accompanies(d, SourceOf(t, ids, renames, j), s)
    && (forall m | k <= m < j :: !Touches(d, SourceOf(t, ids, renames, m), s))
    && (forall m | j < m < |renames| :: Unrelated(Stem(SourceOf(t, ids, renames, m).name), Stem(renames[j].name)))
  }

  lemma {:induction false} RenameTakes(w: World, ids: seq<nat>, renames: seq<Rename>, turns: nat -> Turn, k: nat, j: nat, s: Path) returns (t: Path)
    requires RunsOut(w, ids, renames, turns, k) && BelongsOnly(w.disk, w.table, ids, renames, k, j, s)
    requires IsLetGo(w.disk.files[s], s.dir, turns(j).script)
    ensures
      var w' := RenameLoop(w, ids, renames, turns, k).0;
      var i := IdOf(ids, renames, j);
      i in w'.table.rows && IsBeside(w.disk.files[s], w'.disk, t, SourceOf(w.table, ids, renames, j).name, w'.table.rows[i].path)
    decreases |renames| - k
  {
    hide RunsOut, Touches, MoveEpisode, Fits, HasVideoExtension, Disk.Valid, PlanFits, Disk.Dedupe, IsBeside, IsLetGo, IsCompanionName, Unrelated, Stem;
    RunsFit(w, ids, renames, turns, k);
    RunsOn(w, ids, renames, turns, k);
    var src := SourceOf(w.table, ids, renames, k);
    var dest := Path(src.dir, renames[k].name);
    var (disk, r) := MoveEpisode(w.disk, src, dest, turns(k).script);
    var w1 := RowFollows(w, IdOf(ids, renames, k), disk, r.value);
    RunsFit(w1, ids, renames, turns, k + 1);
    var w' := RenameLoop(w1, ids, renames, turns, k + 1).0;
    if j == k {
      var i := IdOf(ids, renames, k);
      t := EpisodeTakes(w.disk, src, dest, turns(k).script, s);
      BesideIs(w.disk.files[s], disk, t, src.name, r.value);
      DedupeKeepsStem(w.disk, src, dest);
      VideoHasExtension(src.name);
      forall m | k + 1 <= m < |renames| ensures !Touches(w1.disk, SourceOf(w1.table, ids, renames, m), t) {
        SourcesAreEpisodes(w1, ids, renames, turns, k + 1, m);
        BesideIsUntouched(w1.disk, w.disk.files[s], t, src, dest.name, r.value, SourceOf(w1.table, ids, renames, m));
      }
      RenameSpares(w1, ids, renames, turns, k + 1, t, i);
      BesideStays(w.disk.files[s], disk, w'.disk, t, src.name, r.value);
    } else {
      EpisodeSpares(w.disk, src, dest, turns(k).script, s);
      forall m | k + 1 <= m < |renames| && m <= j ensures Touches(w1.disk, SourceOf(w1.table, ids, renames, m), s) <==> Touches(w.disk, SourceOf(w.table, ids, renames, m), s) {
        TouchedLater(w.disk, w1.disk, SourceOf(w.table, ids, renames, m), s);
      }
      TouchedLater(w.disk, w1.disk, SourceOf(w.table, ids, renames, j), s);
      t := RenameTakes(w1, ids, renames, turns, k + 1, j, s);
    }
  }

  lemma SourcesAreEpisodes(w: World, ids: seq<nat>, renames: seq<Rename>, turns: nat -> Turn, k: nat, m: nat)
    requires RunsOut(w, ids, renames, turns, k) && PlanFits(w.table, ids, renames) && k <= m < |renames|
    ensures HasVideoExtension(SourceOf(w.table, ids, renames, m).name)
  {
    hide HasVideoExtension;
  }

  lemma RenameRuns(w: World, w1: World, id: nat, env: RenameEnv, to: Dir)
    requires Inv(w) && id in w.animes && Lists(env.ids, w.table, id) && (forall i | i in env.ids :: i in w.table.rows)
    requires Begun(w, w1, id, to) && (to == w.animes[id].dir ==> w1 == w) && w1.disk.Valid()
    requires
      var renames := PlanOf(w, id, env.ids).fileRenames;
      && PlanFits(w1.table, env.ids, renames) && RenameFits(w1, env.ids, renames, env.turns) && RenameLoop(w1, env.ids, renames, env.turns).1 == Done
    ensures RunsOut(w1, env.ids, PlanOf(w, id, env.ids).fileRenames, env.turns, 0)
    ensures PlanFits(w.table, env.ids, PlanOf(w, id, env.ids).fileRenames)
  {
    hide Inv, PlanOf, Lists, Begun, RenameFits, RenameLoop, Disk.Valid, IsPlannedName, HasVideoExtension, TargetOf, IsEpisodeName, IsMatched;
    var renames := PlanOf(w, id, env.ids).fileRenames;
    PlanOfFits(w, id, env.ids);
    PlannedOnce(w, id, env.ids);
    PlannedVideos(w, id, env.ids);
    forall m | 0 <= m < |renames| ensures HasVideoExtension(SourceOf(w1.table, env.ids, renames, m).name) && HasVideoExtension(renames[m].name) {
      assert renames[m] in renames;
      OneIsPlanned(w, id, env.ids, m);
      RowHasVideo(w, env.ids[renames[m].index]);
      SameNames(w, w1, id, to, env.ids[renames[m].index]);
    }
    forall m, n | 0 <= m < n < |renames| ensures IdOf(env.ids, renames, m) != IdOf(env.ids, renames, n) {
      assert renames[m] in renames && renames[n] in renames;
    }
  }

  lemma PlannedVideos(w: World, id: nat, ids: seq<nat>)
    requires Inv(w) && id in w.animes && (forall i | i in ids :: i in w.table.rows)
    ensures forall r | r in PlanOf(w, id, ids).fileRenames :: HasVideoExtension(r.name)
  {
    hide Inv, PlanFor, IsEpisodeName, OnDisk, HasVideoExtension;
    var locals := LocalsOf(w.table.rows, ids);
    forall l | l in locals ensures IsEpisodeName(l.path.name) {
      var k :| 0 <= k < |locals| && locals[k] == l;
      assert ids[k] in ids;
      RowThere(w, ids[k]);
      IsThere(w.disk, l.path);
    }
    PlannedAreEpisodes(w.animes[id].dir, w.animes[id].folderTitle, locals, w.animes[id].expected);
    forall r | r in PlanOf(w, id, ids).fileRenames ensures HasVideoExtension(r.name) { EpisodeName(r.name); }
  }

  lemma IsThere(d: Disk, p: Path)
    requires OnDisk(d, p)
    ensures IsEpisodeName(p.name)
  {
    hide IsEpisodeName, Videos;
  }

  /** Moving the directory leaves the rows the names of their files. */
  lemma SameNames(w: World, w1: World, id: nat, to: Dir, i: nat)
    requires id in w.animes && Begun(w, w1, id, to) && i in w.table.rows && w.table.rows[i].anime == id
    ensures i in w1.table.rows && w1.table.rows[i].path.name == w.table.rows[i].path.name
  {
    hide RebaseDisk, DirTaken;
  }

  lemma FileIsCarried(w: World, w1: World, id: nat, to: Dir, s: Path)
    requires id in w.animes && Begun(w, w1, id, to) && (to == w.animes[id].dir ==> w1 == w) && s in w.disk.files
    ensures s in PlacesAt(w, id, to) && PlacesAt(w, id, to)[s] in w1.disk.files && w1.disk.files[PlacesAt(w, id, to)[s]] == w.disk.files[s]
    ensures PlacesAt(w, id, to)[s].dir == Carried(w.animes[id].dir, to, s.dir)
  {
    hide RebaseDisk;
    if to == w.animes[id].dir {
      NothingCarried(w.disk, to, {});
    } else {
      DirCarries(w.disk, w.animes[id].dir, to, {});
      RebasedDisk(w.disk, w.animes[id].dir, to, s);
    }
  }

  /** The listing of the directory as it is called now has the file, and it may go. */
  ghost predicate IsLetGoIn(w: World, w': World, id: nat, s: Path, script: Script) {
    && id in w.animes && id in w'.animes && s in w.disk.files
    && IsLetGo(w.disk.files[s], Carried(w.animes[id].dir, w'.animes[id].dir, s.dir), script)
  }

  /** A rename that has gone through: a companion goes with its file, however the directory is
      called now. It belongs to the `j`-th of the files renamed, to none before it, and no
      later one is called by a stem that could claim it under its new name. */
  lemma RenameTakesCompanions(w: World, id: nat, env: RenameEnv, j: nat, s: Path) returns (t: Path)
    requires Inv(w) && id in w.animes && w.animes[id].dir != [] && Lists(env.ids, w.table, id) && (forall i | i in env.ids :: i in w.table.rows)
    requires RenameAllowed(w, id, env) && w.animes[id].anidb.Some? && RenameAnime(w, id, env).1 == Done
    requires BelongsOnly(w.disk, w.table, env.ids, PlanOf(w, id, env.ids).fileRenames, 0, j, s)
    requires IsLetGoIn(w, RenameAnime(w, id, env).0, id, s, env.turns(j).script)
    ensures
      var w' := RenameAnime(w, id, env).0;
      var i := IdOf(env.ids, PlanOf(w, id, env.ids).fileRenames, j);
      && i in w.table.rows && i in w'.table.rows
      && IsBeside(w.disk.files[s], w'.disk, t, w.table.rows[i].path.name, w'.table.rows[i].path)
  {
    hide Inv, Lists, PlanOf, RenameLoop, RenameFits, RenameDir, RenamedDir, DirTaken, RenameAllowed, RenameAnime, Disk.Valid, IsBeside, IsLetGo, Touches, IsCompanionName, Unrelated, Stem, Carried, PlanFits, StaysBeside, Sanitize, BelongsOnly, IsLetGoIn;
    if !w.animes[id].variantsKnown { NoRename(w, id, env); }
    RenameIs(w, id, env);
    PlanNamesTitle(w, id, env.ids);
    InvIsValid(w);
    var plan := PlanOf(w, id, env.ids);
    var to := RenamedDir(w.animes[id].dir, plan);
    if !plan.dirNeedsRename {
      t := TakesFrom(w, w, id, env, to, j, s);
    } else {
      NewDirBegun(w, id, to);
      t := TakesFrom(w, RenameDir(w, id, to), id, env, to, j, s);
    }
  }

  lemma NewDirBegun(w: World, id: nat, to: Dir)
    requires Inv(w) && id in w.animes && to != [] && !DirTaken(w.disk, to) && forall a | a in w.animes && a != id :: Apart(w.animes[a].dir, to)
    ensures Begun(w, RenameDir(w, id, to), id, to) && RenameDir(w, id, to).disk.Valid()
    ensures id in RenameDir(w, id, to).animes && RenameDir(w, id, to).animes[id].dir == to
  {
    hide Inv, RenameDir, DirTaken, Disk.Valid;
    RenameDirKeepsInv(w, id, to);
    InvIsValid(RenameDir(w, id, to));
    DirIs(w, id, to);
  }

  lemma TakesFrom(w: World, w1: World, id: nat, env: RenameEnv, to: Dir, j: nat, s: Path) returns (t: Path)
    requires Inv(w) && id in w.animes && Lists(env.ids, w.table, id) && (forall i | i in env.ids :: i in w.table.rows)
    requires w.animes[id].dir != [] && Begun(w, w1, id, to) && (to == w.animes[id].dir ==> w1 == w) && w1.disk.Valid() && id in w1.animes && w1.animes[id].dir == to
    requires
      var renames := PlanOf(w, id, env.ids).fileRenames;
      && PlanFits(w1.table, env.ids, renames) && RenameFits(w1, env.ids, renames, env.turns)
      && RenameAnime(w, id, env) == RenameLoop(w1, env.ids, renames, env.turns) && RenameAnime(w, id, env).1 == Done
    requires BelongsOnly(w.disk, w.table, env.ids, PlanOf(w, id, env.ids).fileRenames, 0, j, s)
    requires IsLetGoIn(w, RenameAnime(w, id, env).0, id, s, env.turns(j).script)
    ensures
      var w' := RenameAnime(w, id, env).0;
      var i := IdOf(env.ids, PlanOf(w, id, env.ids).fileRenames, j);
      && i in w.table.rows && i in w'.table.rows
      && IsBeside(w.disk.files[s], w'.disk, t, w.table.rows[i].path.name, w'.table.rows[i].path)
  {
    hide Inv, Lists, PlanOf, RenameLoop, RenameFits, RenameAnime, Disk.Valid, IsBeside, IsLetGo, Touches, IsCompanionName, Unrelated, Stem, Carried, PlanFits, Begun;
    LoopKeepsAnimes(w, w1, id, env, to);
    t := LoopTakes(w, w1, id, env, to, j, s);
  }

  lemma LoopKeepsAnimes(w: World, w1: World, id: nat, env: RenameEnv, to: Dir)
    requires Inv(w) && id in w.animes && Lists(env.ids, w.table, id) && (forall i | i in env.ids :: i in w.table.rows)
    requires Begun(w, w1, id, to) && (to == w.animes[id].dir ==> w1 == w) && w1.disk.Valid()
    requires PlanFits(w1.table, env.ids, PlanOf(w, id, env.ids).fileRenames)
    requires RenameFits(w1, env.ids, PlanOf(w, id, env.ids).fileRenames, env.turns)
    ensures RenameLoop(w1, env.ids, PlanOf(w, id, env.ids).fileRenames, env.turns).0.animes == w1.animes
  {
    hide Inv, Lists, PlanOf, RenameLoop, RenameFits, Begun, Disk.Valid, CarriedOver, RowsCarried;
    var places := LoopCarries(w, w1, id, env, to);
  }

  lemma LoopTakes(w: World, w1: World, id: nat, env: RenameEnv, to: Dir, j: nat, s: Path) returns (t: Path)
    requires Inv(w) && id in w.animes && Lists(env.ids, w.table, id) && (forall i | i in env.ids :: i in w.table.rows)
    requires Begun(w, w1, id, to) && (to == w.animes[id].dir ==> w1 == w) && w1.disk.Valid()
    requires
      var renames := PlanOf(w, id, env.ids).fileRenames;
      && PlanFits(w1.table, env.ids, renames) && RenameFits(w1, env.ids, renames, env.turns) && RenameLoop(w1, env.ids, renames, env.turns).1 == Done
    requires BelongsOnly(w.disk, w.table, env.ids, PlanOf(w, id, env.ids).fileRenames, 0, j, s)
    requires IsLetGo(w.disk.files[s], Carried(w.animes[id].dir, to, s.dir), env.turns(j).script)
    ensures
      var w' := RenameLoop(w1, env.ids, PlanOf(w, id, env.ids).fileRenames, env.turns).0;
      var i := IdOf(env.ids, PlanOf(w, id, env.ids).fileRenames, j);
      && i in w.table.rows && i in w'.table.rows
      && IsBeside(w.disk.files[s], w'.disk, t, w.table.rows[i].path.name, w'.table.rows[i].path)
  {
    hide Inv, Lists, PlanOf, RenameLoop, RenameFits, Begun, Disk.Valid, RunsOut, IsBeside, IsLetGo, Touches, Unrelated, Stem, Carried, IsCompanionName, IsPlanned, PlacesAt;
    var renames := PlanOf(w, id, env.ids).fileRenames;
    RenameRuns(w, w1, id, env, to);
    FileIsCarried(w, w1, id, to, s);
    var s1 := PlacesAt(w, id, to)[s];
    forall m | 0 <= m < |renames|
      ensures SourceOf(w1.table, env.ids, renames, m).name == SourceOf(w.table, env.ids, renames, m).name
      ensures Touches(w1.disk, SourceOf(w1.table, env.ids, renames, m), s1) ==> Touches(w.disk, SourceOf(w.table, env.ids, renames, m), s)
      ensures SourceOf(w1.table, env.ids, renames, m).dir == Carried(w.animes[id].dir, to, SourceOf(w.table, env.ids, renames, m).dir)
    {
      assert renames[m] in renames;
      OneIsPlanned(w, id, env.ids, m);
      var i := env.ids[renames[m].index];
      SameNames(w, w1, id, to, i);
      TouchedBefore(w, w1, id, to, i, s);
      RowCarried(w, w1, id, to, i);
    }
    t := RenameTakes(w1, env.ids, renames, env.turns, 0, j, s1);
  }

  lemma RowCarried(w: World, w1: World, id: nat, to: Dir, i: nat)
    requires id in w.animes && Begun(w, w1, id, to) && i in w.table.rows && w.table.rows[i].anime == id
    ensures i in w1.table.rows && w1.table.rows[i].path.dir == Carried(w.animes[id].dir, to, w.table.rows[i].path.dir)
  {
    hide RebaseDisk, DirTaken;
    var dir := w.table.rows[i].path.dir;
    if to == w.animes[id].dir && to <= dir { assert to + dir[|to|..] == dir; }
  }
}