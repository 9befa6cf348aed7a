/** When a merge puts the anime merged into on the rename queue: exactly, at every stop; and,
    for a merge that goes through, by a look at the two expected lists beforehand. */
module MergeQueue {
  import opened Text
  import opened Numbering
  import opened Disk
  import opened Episodes
  import opened Naming
  import opened Catalog
  import opened RenamePlan
  import opened Library
  import opened LibraryInvariant
  import opened LibraryRuns
  import opened RenameSettled
  import opened RenameQueue
  import opened LibrarySettled

  // ------------------------------------------------------------ names that could be either's

  /** The name itself ends in a number in brackets. */
  predicate LooksNumbered(stem: string) {
    exists i | 0 <= i <= |stem| - 3 :: NumberedAt(stem, i)
  }

  predicate NumberedAt(stem: string, i: nat)
    requires i <= |stem| - 3
  {
    stem[i..i + 2] == " (" && stem[|stem| - 1] == ')' && DigitsOnly(stem[i + 2..|stem| - 1])
  }

  lemma NumberShows(stem: string, digits: string)
    requires DigitsOnly(digits)
    ensures LooksNumbered(stem + " (" + digits + ")")
  {
    var s := stem + " (" + digits + ")";
    assert s[|stem|..|stem| + 2] == " (" && s[|stem| + 2..|s| - 1] == digits;
    assert NumberedAt(s, |stem|);
  }

  /** A number in brackets is read back in one way. */
  lemma NumberSplits(a: string, x: string, b: string, y: string)
    requires DigitsOnly(x) && DigitsOnly(y) && a + " (" + x + ")" == b + " (" + y + ")"
    ensures a == b
  {
    hide DigitsOnly;
    LastBracket(a, x);
    LastBracket(b, y);
    var s := a + " (" + x + ")";
    assert a == s[..|a|] && b == s[..|b|];
  }

  lemma LastBracket(a: string, x: string)
    requires DigitsOnly(x)
    ensures
      var s := a + " (" + x + ")";
      s[|a| + 1] == '(' && forall i | |a| + 1 < i < |s| :: s[i] != '('
  {
    assert forall i | 0 <= i < |x| :: IsDigit(x[i]);
  }

  /** A variant of a name, without its extension. */
  lemma VariantRoot(name: string, stem: string, ext: string) returns (digits: Option<string>)
    requires IsExtension(ext) && (exists k | 0 <= k < |stem| :: stem[k] != '.') && IsNameVariant(name, stem + ext)
    ensures digits.None? ==> name == stem + ext
    ensures digits.Some? ==> DigitsOnly(digits.value) && name == stem + " (" + digits.value + ")" + ext
  {
    hide Extension, IsNumberedVariant, LastDot;
    SplitBuilt(stem, ext);
    if name == stem + ext {
      digits := None;
    } else {
      var middle := VariantMiddle(name, stem + " (", ")" + ext);
      assert name == stem + " (" + middle + ")" + ext;
      digits := Some(middle);
    }
  }

  /** Stems that do not look numbered have no variant in common. */
  lemma VariantsTell(name: string, a: string, b: string, ext: string)
    requires IsExtension(ext) && IsNameVariant(name, a + ext) && IsNameVariant(name, b + ext)
    requires (exists k | 0 <= k < |a| :: a[k] != '.') && (exists k | 0 <= k < |b| :: b[k] != '.')
    requires !LooksNumbered(a) && !LooksNumbered(b)
    ensures a == b
  {
    hide IsNameVariant, LooksNumbered, DigitsOnly, IsExtension;
    var x := VariantRoot(name, a, ext);
    var y := VariantRoot(name, b, ext);
    var p := if x.None? then a else a + " (" + x.value + ")";
    var q := if y.None? then b else b + " (" + y.value + ")";
    assert name == p + ext && name == q + ext;
    assert p == name[..|name| - |ext|] == q;
    if x.Some? { NumberShows(a, x.value); }
    if y.Some? { NumberShows(b, y.value); }
    if x.Some? && y.Some? { NumberSplits(a, x.value, b, y.value); }
  }

  /** Neither the episodes moved nor those of the other list have names that look numbered. */
  predicate PlainNames(title: string, expected: seq<Expected>, tasks: seq<Task>) {
    && (forall k | 0 <= k < |tasks| :: !LooksNumbered(EpisodeStem(Sanitize(title), tasks[k].episode.epNumber, tasks[k].episode.title)))
    && (forall e | e in expected && IsNumeral(e.epNumber) :: !LooksNumbered(EpisodeStem(Sanitize(title), e.epNumber, e.title)))
  }

  /** Then a moved file bears its name exactly if the two lists name the episode alike. */
  lemma BearsIffAlike(row: Row, title: string, expected: seq<Expected>, tasks: seq<Task>, k: nat, suffix: string)
    requires k < |tasks| && PlainNames(title, expected, tasks)
    requires NamedFor(row.path.name, title, tasks[k].episode, suffix) && IsExtension(suffix)
    requires row.number == Normalize(Some(tasks[k].episode.epNumber))
    ensures Bears(row, title, expected) <==> NamesAlike(title, expected, tasks[k].episode)
  {
    hide NamedFor, EpisodeStem, IsNameVariant, Match, Sanitize, Extension, LooksNumbered, Normalize;
    var e := tasks[k].episode;
    if NamesAlike(title, expected, e) {
      SortedBears(row, title, expected, e, suffix);
    } else if Bears(row, title, expected) {
      var other := EpisodeOf(expected, row.number);
      MatchIsListed(expected, row.number);
      NamedBears(row.path.name, title, e, suffix);
      VariantsTell(row.path.name, EpisodeStem(Sanitize(title), e.epNumber, e.title), EpisodeStem(Sanitize(title), other.epNumber, other.title), suffix);
    }
  }

  lemma MatchIsListed(expected: seq<Expected>, number: Option<string>)
    requires Match(expected, number).Some?
    ensures Match(expected, number).value in expected
  {
  }

  // ------------------------------------------------------------ turn by turn

  /** Every file the merge has moved and recorded bears the name it has in the other list. */
  ghost predicate LandedBear(w: World, target: nat, dir: Dir, title: string, expected: seq<Expected>, tasks: seq<Task>, turns: nat -> Turn, k: nat := 0)
    decreases |tasks| - k
  {
    k >= |tasks| ||
    (var (disk, r) := MoveEpisode(w.disk, tasks[k].src, Target(dir, title, tasks[k]), turns(k).script);
     r.Some? && turns(k).stat && disk.Exists(r.value) ==>
       var number := Normalize(Some(tasks[k].episode.epNumber));
       && Bears(Row(target, r.value, number, false, 0, 0), title, expected)
       && LandedBear(w.(disk := disk, table := Record(DeleteByPath(w.table, tasks[k].src), target, disk, r.value, number)),
                     target, dir, title, expected, tasks, turns, k + 1))
  }

  /** The rows still to be handled are not the target's. */
  ghost predicate Foreign(t: Table, target: nat, tasks: seq<Task>, k: nat) {
    forall j | k <= j < |tasks| :: tasks[j].id in t.rows && t.rows[tasks[j].id].anime != target
  }

  lemma BearsByPath(row: Row, other: Row, title: string, expected: seq<Expected>)
    requires row.path == other.path && row.number == other.number
    ensures Bears(row, title, expected) == Bears(other, title, expected)
  {
    hide Match, EpisodeStem, Sanitize, IsNameVariant;
  }

  lemma ForgottenBears(t: Table, t1: Table, id: nat, target: nat, title: string, expected: seq<Expected>)
    requires t1.rows == t.rows - {id} && id in t.rows && t.rows[id].anime != target
    ensures AllBear(t1, target, title, expected) <==> AllBear(t, target, title, expected)
  {
    SameTargetBears(t, t1, target, title, expected);
  }

  lemma SameTargetBears(t: Table, t1: Table, target: nat, title: string, expected: seq<Expected>)
    requires forall i | i in t.rows && t.rows[i].anime == target :: i in t1.rows && t1.rows[i] == t.rows[i]
    requires forall i | i in t1.rows && t1.rows[i].anime == target :: i in t.rows && t1.rows[i] == t.rows[i]
    ensures AllBear(t1, target, title, expected) <==> AllBear(t, target, title, expected)
  {
    hide Bears;
    if AllBear(t, target, title, expected) {
      forall i | i in t1.rows && t1.rows[i].anime == target ensures Bears(t1.rows[i], title, expected) { assert t.rows[i] == t1.rows[i]; }
    }
    if AllBear(t1, target, title, expected) {
      forall i | i in t.rows && t.rows[i].anime == target ensures Bears(t.rows[i], title, expected) { assert t.rows[i] == t1.rows[i]; }
    }
  }

  lemma RecordedBear(t: Table, t': Table, target: nat, row: Row, title: string, expected: seq<Expected>)
    requires t.next !in t.rows && t'.rows == t.rows[t.next := row] && row.anime == target
    ensures AllBear(t', target, title, expected) <==> AllBear(t, target, title, expected) && Bears(row, title, expected)
  {
    hide Bears;
    if AllBear(t', target, title, expected) {
      assert t'.rows[t.next] == row;
      forall i | i in t.rows && t.rows[i].anime == target ensures Bears(t.rows[i], title, expected) { assert t'.rows[i] == t.rows[i]; }
    }
  }

  lemma NextIsFree(w: World)
    requires Inv(w)
    ensures w.table.next !in w.table.rows
  {
    hide RowsOnDisk, RowsDistinct, RowsPlaced, DirsApart;
  }

  lemma RowsTellApart(w: World, id: nat)
    requires Inv(w) && id in w.table.rows
    ensures DeleteByPath(w.table, w.table.rows[id].path) == w.table.(rows := w.table.rows - {id})
  {
    hide RowsOnDisk, RowsDistinct, RowsPlaced, DirsApart, DeleteByPath;
    OnlyRowOf(w, id);
  }

  /** What one turn makes of the table. */
  lemma TurnTable(w: World, task: Task, target: nat, dir: Dir, title: string, turn: Turn)
    requires Inv(w) && target in w.animes && w.animes[target].dir == dir
    requires task.id in w.table.rows && w.table.rows[task.id].path == task.src
    requires Fits(w.disk, task.src, turn.script)
    requires MoveEpisode(w.disk, task.src, Target(dir, title, task), turn.script).1.Some?
    ensures
      var (disk, r) := MoveEpisode(w.disk, task.src, Target(dir, title, task), turn.script);
      var number := Normalize(Some(task.episode.epNumber));
      var t1 := DeleteByPath(w.table, task.src);
      && t1.rows == w.table.rows - {task.id} && t1.next == w.table.next && t1.next !in t1.rows
      && disk.Exists(r.value)
      && var f := disk.FileAt(r.value);
      Record(t1, target, disk, r.value, number) == Table(t1.rows[t1.next := Row(target, r.value, number, false, |f.content|, f.mtime)], t1.next + 1)
  {
    hide MoveEpisode, Target, Spell, Fits, HasVideoExtension, Normalize, Videos, OneVideoMoved, IsEpisodeName, Inv, Upsert, DeleteByPath;
    var dest := Target(dir, title, task);
    var (disk, r) := MoveEpisode(w.disk, task.src, dest, turn.script);
    InvIsValid(w);
    RowsTellApart(w, task.id);
    RowHasVideo(w, task.id);
    TargetIsEpisode(dir, title, task);
    EpisodeName(dest.name);
    EpisodeMovesOneVideo(w.disk, task.src, dest, turn.script);
    EpisodeOnlyLeaves(w.disk, task.src, dest, turn.script);
    DedupeIsEpisode(w.disk, task.src, dest);
    MergeStep(w, task, target, dir, title, turn);
    ForgetMoved(w, disk, task.id, r.value);
    TargetDir(dir, title, task);
    NextIsFree(w.(disk := disk, table := DeleteByPath(w.table, task.src)));
    RecordKeepsInv(w.(disk := disk, table := DeleteByPath(w.table, task.src)), target, r.value, Normalize(Some(task.episode.epNumber)));
  }

  lemma {:induction false} MergeLoopBears(w: World, target: nat, dir: Dir, title: string, expected: seq<Expected>, tasks: seq<Task>, turns: nat -> Turn, k: nat)
    requires Inv(w) && target in w.animes && w.animes[target].dir == dir
    requires Pending(w.table, tasks, k) && MergeFits(w, target, dir, title, tasks, turns, k) && Foreign(w.table, target, tasks, k)
    ensures AllBear(MergeLoop(w, target, dir, title, tasks, turns, k).0.table, target, title, expected)
      <==> AllBear(w.table, target, title, expected) && LandedBear(w, target, dir, title, expected, tasks, turns, k)
    decreases |tasks| - k
  {
    hide Videos, IsEpisodeName, Spell, Inv, MoveEpisode, Target, Fits, Upsert, DeleteByPath, OneVideoMoved, Normalize, AllBear, Bears;
    if k < |tasks| {
      var task := tasks[k];
      var (disk, r) := MoveEpisode(w.disk, task.src, Target(dir, title, task), turns(k).script);
      MergeStep(w, task, target, dir, title, turns(k));
      if r.Some? {
        TurnTable(w, task, target, dir, title, turns(k));
        var number := Normalize(Some(task.episode.epNumber));
        var t1 := DeleteByPath(w.table, task.src);
        ForgottenBears(w.table, t1, task.id, target, title, expected);
        if turns(k).stat {
          var w1 := w.(disk := disk, table := Record(t1, target, disk, r.value, number));
          RecordedBear(t1, w1.table, target, w1.table.rows[t1.next], title, expected);
          BearsByPath(w1.table.rows[t1.next], Row(target, r.value, number, false, 0, 0), title, expected);
          MergeLoopBears(w1, target, dir, title, expected, tasks, turns, k + 1);
        }
      }
    }
  }

  /** Where no name looks numbered, and everything was moved, the condition is about the two
      lists. */
  lemma {:induction false} LandedBearIff(w: World, target: nat, dir: Dir, title: string, expected: seq<Expected>, tasks: seq<Task>, turns: nat -> Turn, k: nat)
    requires Inv(w) && target in w.animes && w.animes[target].dir == dir
    requires Pending(w.table, tasks, k) && MergeFits(w, target, dir, title, tasks, turns, k)
    requires MergeLoop(w, target, dir, title, tasks, turns, k).1 == Done && PlainNames(title, expected, tasks)
    ensures LandedBear(w, target, dir, title, expected, tasks, turns, k) <==> forall j | k <= j < |tasks| :: NamesAlike(title, expected, tasks[j].episode)
    decreases |tasks| - k
  {
    hide Videos, IsEpisodeName, Spell, Inv, MoveEpisode, Target, Fits, Upsert, DeleteByPath, OneVideoMoved, Normalize, Bears, NamesAlike, PlainNames, NamedFor, Suffix, Sanitize, Value, MarkerStands, Written;
    if k < |tasks| {
      var task := tasks[k];
      var (disk, r) := MoveEpisode(w.disk, task.src, Target(dir, title, task), turns(k).script);
      MergeStep(w, task, target, dir, title, turns(k));
      MergeStepWritten(w, task, target, dir, title, turns(k));
      var number := Normalize(Some(task.episode.epNumber));
      var w1 := w.(disk := disk, table := Record(DeleteByPath(w.table, task.src), target, disk, r.value, number));
      BearsIffAlike(Row(target, r.value, number, false, 0, 0), title, expected, tasks, k, Suffix(task.src.name));
      LandedBearIff(w1, target, dir, title, expected, tasks, turns, k + 1);
      assert LandedBear(w, target, dir, title, expected, tasks, turns, k)
        <==> Bears(Row(target, r.value, number, false, 0, 0), title, expected) && LandedBear(w1, target, dir, title, expected, tasks, turns, k + 1);
    }
  }

  // ------------------------------------------------------------ the whole call

  /** A sort that merges, what it merges into, and the moves. */
  ghost predicate IsMerge(w: World, source: nat, folder: nat, env: SortEnv) {
    && Inv(w) && (forall i | i in env.ids :: i in w.table.rows) && folder in w.folders && SortAllowed(w, source, folder, env)
    && source in w.animes && w.animes[source].anidb.Some? && |Twins(w, w.animes[source].anidb.value, folder)| == 1
    && TheElement(Twins(w, w.animes[source].anidb.value, folder)) in w.animes
  }

  function Twin(w: World, source: nat, folder: nat): nat
    requires source in w.animes && w.animes[source].anidb.Some? && |Twins(w, w.animes[source].anidb.value, folder)| == 1
  {
    TheElement(Twins(w, w.animes[source].anidb.value, folder))
  }

  ghost predicate MergedBear(w: World, source: nat, folder: nat, env: SortEnv)
    requires IsMerge(w, source, folder, env)
  {
    var target := Twin(w, source, folder);
    LandedBear(w, target, w.animes[target].dir, w.animes[target].folderTitle, w.animes[target].expected,
               Tasks(w.table.rows, env.ids, w.animes[source].expected), env.turns)
  }

  lemma MergeIs(w: World, source: nat, folder: nat, env: SortEnv)
    requires IsMerge(w, source, folder, env)
    ensures
      var target := Twin(w, source, folder);
      var tasks := Tasks(w.table.rows, env.ids, w.animes[source].expected);
      && target in w.animes && target != source && Pending(w.table, tasks, 0) && Foreign(w.table, target, tasks, 0)
      && MergeFits(w, target, w.animes[target].dir, w.animes[target].folderTitle, tasks, env.turns)
      && SortAnime(w, source, folder, env) == (if tasks == [] then (w, Conflict) else Merge(w, source, target, tasks, env.turns, env.unlinks))
      && Inv(SortAnime(w, source, folder, env).0)
  {
    hide Inv, Merge, MergeFits, Tasks, Lists, Match, Twins, Relocate, Pending;
    var tasks := Tasks(w.table.rows, env.ids, w.animes[source].expected);
    TwinIsAnime(w, w.animes[source].anidb.value, folder);
    TasksPending(w, env.ids, source, w.animes[source].expected);
    forall j | 0 <= j < |tasks| ensures tasks[j].id in w.table.rows && w.table.rows[tasks[j].id].anime == source { assert tasks[j].id in env.ids; }
    SortKeepsInv(w, source, folder, env);
  }

  /** The target's rows after the loop are those at the end of the call. */
  lemma SameTargetRows(w: World, source: nat, target: nat, tasks: seq<Task>, turns: nat -> Turn, unlinks: nat, title: string, expected: seq<Expected>)
    requires source in w.animes && target in w.animes && source != target
    ensures
      var w1 := MergeLoop(w, target, w.animes[target].dir, w.animes[target].folderTitle, tasks, turns).0;
      AllBear(Merge(w, source, target, tasks, turns, unlinks).0.table, target, title, expected) <==> AllBear(w1.table, target, title, expected)
  {
    hide MergeLoop, HasVideos, RemoveSidecars, AllBear;
    var w1 := MergeLoop(w, target, w.animes[target].dir, w.animes[target].folderTitle, tasks, turns).0;
    SameTargetBears(w1.table, Merge(w, source, target, tasks, turns, unlinks).0.table, target, title, expected);
  }

  /** Wherever a merging sort stops: no file of the anime merged into is up for renaming if and
      only if all it had before, and all that it has been given, are called by the names its
      own list has for them, and no two of them alike but for case. */
  lemma MergedQueueIff(w: World, source: nat, folder: nat, env: SortEnv, ids: seq<nat>)
    requires IsMerge(w, source, folder, env) && Lists(ids, SortAnime(w, source, folder, env).0.table, Twin(w, source, folder))
    ensures
      var target := Twin(w, source, folder);
      var title, expected := w.animes[target].folderTitle, w.animes[target].expected;
      var w' := SortAnime(w, source, folder, env).0;
      && target in w'.animes && (forall i | i in ids :: i in w'.table.rows)
      && (PlanOf(w', target, ids).fileRenames == [] <==>
            && AllBear(w.table, target, title, expected)
            && MergedBear(w, source, folder, env)
            && KeysApart(w'.table, target, expected))
  {
    hide Inv, Merge, MergeFits, Tasks, Lists, Pending, Match, Twin, AllBear, KeysApart, PlanFor, MergeLoop, SortAnime, IsMerge, Foreign;
    MergeGiven(w, source, folder, env);
    MergeIs(w, source, folder, env);
    var target := Twin(w, source, folder);
    var title, expected := w.animes[target].folderTitle, w.animes[target].expected;
    var tasks := Tasks(w.table.rows, env.ids, w.animes[source].expected);
    var w' := SortAnime(w, source, folder, env).0;
    ListedAreOwn(ids, w'.table, target);
    if tasks != [] {
      MergeLoopBears(w, target, w.animes[target].dir, title, expected, tasks, env.turns, 0);
      SameTargetRows(w, source, target, tasks, env.turns, env.unlinks, title, expected);
      MergeFolds(w, source, target, tasks, env.turns, env.unlinks);
    }
    PlanEmptyIffSettled(w'.animes[target].dir, title, w'.table, target, ids, expected);
  }

  /** Where names are compared letter for letter, the suffixes of the files to be moved are
      lower case. */
  predicate PlainSuffixes(d: Disk, tasks: seq<Task>) {
    d.foldCase || forall k | 0 <= k < |tasks| :: Lower(Suffix(tasks[k].src.name)) == Suffix(tasks[k].src.name)
  }

  /** So before a merge that goes through it can be told whether it will leave something to
      rename: it will not exactly if nothing was before and the two lists name every episode
      moved alike. */
  lemma MergedNeedsNoRenameIff(w: World, source: nat, folder: nat, env: SortEnv, ids: seq<nat>)
    requires IsMerge(w, source, folder, env) && SortAnime(w, source, folder, env).1 == Done
    requires Lists(ids, SortAnime(w, source, folder, env).0.table, Twin(w, source, folder))
    requires
      var target := w.animes[Twin(w, source, folder)];
      var tasks := Tasks(w.table.rows, env.ids, w.animes[source].expected);
      && PlainNames(target.folderTitle, target.expected, tasks)
      && PlainCase(w.disk, w.table, Twin(w, source, folder), target.expected) && PlainSuffixes(w.disk, tasks)
    ensures
      var target := Twin(w, source, folder);
      var title, expected := w.animes[target].folderTitle, w.animes[target].expected;
      var tasks := Tasks(w.table.rows, env.ids, w.animes[source].expected);
      var w' := SortAnime(w, source, folder, env).0;
      && target in w'.animes && (forall i | i in ids :: i in w'.table.rows)
      && (PlanOf(w', target, ids).fileRenames == [] <==>
            AllBear(w.table, target, title, expected) && forall k | 0 <= k < |tasks| :: NamesAlike(title, expected, tasks[k].episode))
  {
    hide Inv, Merge, MergeFits, Tasks, Lists, Pending, Match, AllBear, KeysApart, PlanFor, MergeLoop, SortAnime, Foreign, NamesAlike, PlainNames, SortAllowed, Twins, FitsIn, PlainSuffixes, PlainCase, AllSettled;
    MergeIs(w, source, folder, env);
    MergedQueueIff(w, source, folder, env, ids);
    var target := Twin(w, source, folder);
    var title, expected := w.animes[target].folderTitle, w.animes[target].expected;
    var tasks := Tasks(w.table.rows, env.ids, w.animes[source].expected);
    MergeDone(w, source, target, tasks, env.turns, env.unlinks);
    LandedBearIff(w, target, w.animes[target].dir, title, expected, tasks, env.turns, 0);
    if AllBear(w.table, target, title, expected) && forall k | 0 <= k < |tasks| :: NamesAlike(title, expected, tasks[k].episode) {
      BearingIsSettled(w, target, title, expected, tasks);
      MergedNeedsNoRename(w, source, folder, env, ids);
    }
  }

  lemma MergeDone(w: World, source: nat, target: nat, tasks: seq<Task>, turns: nat -> Turn, unlinks: nat)
    requires source in w.animes && target in w.animes && Merge(w, source, target, tasks, turns, unlinks).1 == Done
    ensures MergeLoop(w, target, w.animes[target].dir, w.animes[target].folderTitle, tasks, turns).1 == Done
  {
    hide MergeLoop;
  }

  lemma BearingIsSettled(w: World, target: nat, title: string, expected: seq<Expected>, tasks: seq<Task>)
    requires AllBear(w.table, target, title, expected) && PlainCase(w.disk, w.table, target, expected) && PlainSuffixes(w.disk, tasks)
    requires forall k | 0 <= k < |tasks| :: NamesAlike(title, expected, tasks[k].episode)
    ensures AllSettled(w.disk.foldCase, w.table, target, title, expected) && FitsIn(w.disk.foldCase, title, expected, tasks)
  {
    hide Bears, NamesAlike, Lower, Extension, Suffix, Match;
  }

  lemma MergeGiven(w: World, source: nat, folder: nat, env: SortEnv)
    requires IsMerge(w, source, folder, env)
    ensures Inv(w) && (forall i | i in env.ids :: i in w.table.rows) && folder in w.folders && source in w.animes && w.animes[source].anidb.Some?
    ensures |Twins(w, w.animes[source].anidb.value, folder)| == 1
  {
    hide Inv, SortAllowed, Twins;
  }
}
