/** What a sort that has gone through has done to each episode, and when it does nothing:
    told from the rows, the lists and the other animes. */
module SortOutcome {
  import opened Text
  import opened Numbering
  import opened Disk
  import opened Episodes
  import opened Rollback
  import opened Naming
  import opened Catalog
  import opened Library
  import opened LibraryInvariant
  import opened RelocationInvariant
  import opened LibraryRuns
  import opened LibrarySettled
  import opened LibrarySafety
  import opened MergeQueue

  // ------------------------------------------------------------ which branch

  /** Another entry for the same anime in the target folder. */
  predicate IsTwin(w: World, source: nat, folder: nat, b: nat)
    requires source in w.animes
  {
    b in w.animes && w.animes[source].anidb.Some? && w.animes[b].anidb == w.animes[source].anidb && w.animes[b].folder == folder
  }

  /** A row of the anime that its list has an episode for. */
  predicate IsMatchedRow(w: World, source: nat, i: nat)
    requires source in w.animes
  {
    i in w.table.rows && w.table.rows[i].anime == source && Match(w.animes[source].expected, w.table.rows[i].number).Some?
  }

  predicate IsUnmatchedRow(w: World, source: nat, i: nat)
    requires source in w.animes
  {
    i in w.table.rows && w.table.rows[i].anime == source && Match(w.animes[source].expected, w.table.rows[i].number).None?
  }

  lemma {:induction false} MatchedIsTask(rows: map<nat, Row>, ids: seq<nat>, expected: seq<Expected>, i: nat) returns (k: nat)
    requires (forall j | j in ids :: j in rows) && i in ids && Match(expected, rows[i].number).Some?
    ensures k < |Tasks(rows, ids, expected)| && Tasks(rows, ids, expected)[k].id == i
    decreases |ids|
  {
    hide Match;
    if i == ids[0] {
      k := 0;
    } else {
      assert i in ids[1..];
      k := MatchedIsTask(rows, ids[1..], expected, i);
      if Match(expected, rows[ids[0]].number).Some? { k := k + 1; }
    }
  }

  lemma {:induction false} TaskIsMatched(rows: map<nat, Row>, ids: seq<nat>, expected: seq<Expected>, k: nat)
    requires (forall j | j in ids :: j in rows) && k < |Tasks(rows, ids, expected)|
    ensures
      var task := Tasks(rows, ids, expected)[k];
      task.id in ids && Match(expected, rows[task.id].number).Some? && task.episode == EpisodeOf(expected, rows[task.id].number)
    decreases |ids|
  {
    hide Match;
    if Match(expected, rows[ids[0]].number).None? {
      TaskIsMatched(rows, ids[1..], expected, k);
    } else if k > 0 {
      TaskIsMatched(rows, ids[1..], expected, k - 1);
    }
  }

  lemma {:induction false} UnmatchedIsNoTask(rows: map<nat, Row>, ids: seq<nat>, expected: seq<Expected>)
    requires forall j | j in ids :: j in rows
    ensures |Tasks(rows, ids, expected)| == |ids| <==> forall i | i in ids :: Match(expected, rows[i].number).Some?
    decreases |ids|
  {
    hide Match;
    if ids != [] {
      UnmatchedIsNoTask(rows, ids[1..], expected);
      assert ids[0] in ids && forall i | i in ids :: i == ids[0] || i in ids[1..];
    }
  }

  lemma OwnRows(w: World, source: nat, ids: seq<nat>, i: nat)
    requires Lists(ids, w.table, source)
    ensures i in ids <==> i in w.table.rows && w.table.rows[i].anime == source
  {
    assert i in (set j | j in ids) <==> i in IdsOf(w.table, source);
  }

  lemma TwinsAre(w: World, source: nat, folder: nat)
    requires source in w.animes && w.animes[source].anidb.Some?
    ensures forall b :: b in Twins(w, w.animes[source].anidb.value, folder) <==> IsTwin(w, source, folder, b)
  {
  }

  lemma OnlyTwin(w: World, source: nat, folder: nat, b: nat)
    requires source in w.animes && IsTwin(w, source, folder, b) && forall c | IsTwin(w, source, folder, c) :: c == b
    ensures Twins(w, w.animes[source].anidb.value, folder) == {b} && |Twins(w, w.animes[source].anidb.value, folder)| == 1
    ensures TheElement(Twins(w, w.animes[source].anidb.value, folder)) == b
  {
    TwinsAre(w, source, folder);
    assert Twins(w, w.animes[source].anidb.value, folder) == {b};
    assert TheElement({b}) in {b};
  }

  lemma SeveralTwins(w: World, source: nat, folder: nat, b: nat, c: nat)
    requires source in w.animes && IsTwin(w, source, folder, b) && IsTwin(w, source, folder, c) && b != c
    ensures |Twins(w, w.animes[source].anidb.value, folder)| > 1
  {
    TwinsAre(w, source, folder);
    var twins := Twins(w, w.animes[source].anidb.value, folder);
    assert {b, c} <= twins;
    Conservation.SubsetSize({b, c}, twins);
  }

  /** When a sort is refused before anything is touched: for an anime not identified or none of
      whose files matched; for one that would have to go to a new directory with files that
      did not; and, with an error nobody catches, if the folder has it twice or that directory
      cannot be made. */
  lemma SortRefuses(w: World, source: nat, folder: nat, env: SortEnv)
    requires Lists(env.ids, w.table, source) && (forall i | i in env.ids :: i in w.table.rows) && folder in w.folders && source in w.animes
    ensures w.animes[source].anidb.None? || (forall i :: !IsMatchedRow(w, source, i)) ==> SortAnime(w, source, folder, env) == (w, Conflict)
    ensures
      w.animes[source].anidb.Some? && (exists i :: IsMatchedRow(w, source, i)) ==>
        && ((exists b, c :: b != c && IsTwin(w, source, folder, b) && IsTwin(w, source, folder, c)) ==> SortAnime(w, source, folder, env) == (w, Raised))
        && ((forall b :: !IsTwin(w, source, folder, b)) && (exists i :: IsUnmatchedRow(w, source, i)) ==> SortAnime(w, source, folder, env) == (w, Conflict))
        && ((forall b :: !IsTwin(w, source, folder, b)) && (forall i :: !IsUnmatchedRow(w, source, i)) && !env.mkdir ==> SortAnime(w, source, folder, env) == (w, Raised))
  {
    hide Match, Merge, Relocate, Tasks, Lists, Twins;
    var expected := w.animes[source].expected;
    UnmatchedIsNoTask(w.table.rows, env.ids, expected);
    var tasks := Tasks(w.table.rows, env.ids, expected);
    forall i ensures i in env.ids <==> i in w.table.rows && w.table.rows[i].anime == source { OwnRows(w, source, env.ids, i); }
    if w.animes[source].anidb.Some? {
      TwinsAre(w, source, folder);
      if tasks != [] {
        TaskIsMatched(w.table.rows, env.ids, expected, 0);
        assert IsMatchedRow(w, source, tasks[0].id);
      }
      if exists i :: IsMatchedRow(w, source, i) {
        var i :| IsMatchedRow(w, source, i);
        var k := MatchedIsTask(w.table.rows, env.ids, expected, i);
        assert tasks != [];
        if exists b, c :: b != c && IsTwin(w, source, folder, b) && IsTwin(w, source, folder, c) {
          var b, c :| b != c && IsTwin(w, source, folder, b) && IsTwin(w, source, folder, c);
          SeveralTwins(w, source, folder, b, c);
        }
        if forall b :: !IsTwin(w, source, folder, b) {
          assert Twins(w, w.animes[source].anidb.value, folder) == {};
          if exists j :: IsUnmatchedRow(w, source, j) {
            var j :| IsUnmatchedRow(w, source, j);
            assert j in env.ids;
          } else {
            forall j | j in env.ids ensures Match(expected, w.table.rows[j].number).Some? { assert !IsUnmatchedRow(w, source, j); }
          }
        }
      }
    }
  }

  // ------------------------------------------------------------ what becomes of an episode

  /** A row that stands for the same file in its new place, under the name and the number its
      episode has. */
  ghost predicate Became(d: Disk, row: Row, d': Disk, row': Row, anime: nat, dir: Dir, title: string, e: Episode) {
    && row'.anime == anime && !row'.manual && row'.number == Normalize(Some(e.epNumber))
    && row'.path.dir == dir && NamedFor(row'.path.name, title, e, Suffix(row.path.name))
    && d.Exists(row.path) && d'.Exists(row'.path)
    && d'.FileAt(row'.path) == d.FileAt(row.path).(name := row'.path.name)
    && row'.size == |d.FileAt(row.path).content| && row'.mtime == d.FileAt(row.path).mtime
  }

  /** The other rows and their files. */
  ghost predicate LeftAlone(w: World, w': World, i: nat) {
    && i in w.table.rows && i in w'.table.rows && w'.table.rows[i] == w.table.rows[i]
    && w.disk.Exists(w.table.rows[i].path) && w'.disk.Exists(w.table.rows[i].path)
    && w'.disk.FileAt(w.table.rows[i].path) == w.disk.FileAt(w.table.rows[i].path)
  }

  lemma VideoAt(d: Disk, p: Path)
    requires OnDisk(d, p)
    ensures d.Exists(p) && d.FileAt(p) == Videos(d)[d.Slot(p)] && HasVideoExtension(p.name)
  {
    hide Spell, HasVideoExtension;
  }

  /** One turn of the merge, as the rows and files see it. */
  lemma TurnOutcome(w: World, task: Task, target: nat, dir: Dir, title: string, turn: Turn)
    requires Inv(w) && target in w.animes && w.animes[target].dir == dir
    requires task.id in w.table.rows && w.table.rows[task.id].path == task.src && Fits(w.disk, task.src, turn.script)
    requires MoveEpisode(w.disk, task.src, Target(dir, title, task), turn.script).1.Some?
    ensures
      var (disk, r) := MoveEpisode(w.disk, task.src, Target(dir, title, task), turn.script);
      && disk.Exists(r.value)
      && var w1 := w.(disk := disk, table := Record(DeleteByPath(w.table, task.src), target, disk, r.value, Normalize(Some(task.episode.epNumber))));
      && w1.table.rows.Keys == w.table.rows.Keys - {task.id} + {w.table.next}
      && w.table.next !in w.table.rows && w1.table.next == w.table.next + 1
      && Became(w.disk, w.table.rows[task.id], disk, w1.table.rows[w.table.next], target, dir, title, task.episode)
      && forall i | i in w.table.rows && i != task.id :: LeftAlone(w, w1, i)
  {
    hide MoveEpisode, Target, Fits, HasVideoExtension, Normalize, Videos, Inv, Upsert, Record, NamedFor, Suffix, LeftAlone, Became, OneVideoMoved, Disk.Exists, Disk.FileAt, Spell, IsEpisodeName, DeleteByPath;
    var (disk, r) := MoveEpisode(w.disk, task.src, Target(dir, title, task), turn.script);
    TurnTable(w, task, target, dir, title, turn);
    TurnMoves(w, task, dir, title, turn);
    var table := Record(DeleteByPath(w.table, task.src), target, disk, r.value, Normalize(Some(task.episode.epNumber)));
    var t1 := DeleteByPath(w.table, task.src);
    var f := disk.FileAt(r.value);
    var row := Row(target, r.value, Normalize(Some(task.episode.epNumber)), false, |f.content|, f.mtime);
    assert table == Table((w.table.rows - {task.id})[w.table.next := row], w.table.next + 1);
    TurnFacts(w, w.(disk := disk, table := table), task, target, dir, title, r.value, row);
  }

  lemma TurnFacts(w: World, w1: World, task: Task, target: nat, dir: Dir, title: string, to: Path, row: Row)
    requires Inv(w) && task.id in w.table.rows && w.table.rows[task.id].path == task.src
    requires w1.disk.foldCase == w.disk.foldCase && OneVideoMoved(w.disk, w1.disk, task.src, Some(to))
    requires to.dir == dir && NamedFor(to.name, title, task.episode, Suffix(task.src.name))
    requires w1.disk.Exists(to) && IsRowOf(w1.disk, row, target, to, Normalize(Some(task.episode.epNumber)))
    requires w1.table == Table((w.table.rows - {task.id})[w.table.next := row], w.table.next + 1)
    ensures w.table.next !in w.table.rows && w1.table.next == w.table.next + 1
    ensures w1.table.rows.Keys == w.table.rows.Keys - {task.id} + {w.table.next} && w1.table.rows[w.table.next] == row
    ensures Became(w.disk, w.table.rows[task.id], w1.disk, row, target, dir, title, task.episode)
    ensures forall i | i in w.table.rows && i != task.id :: LeftAlone(w, w1, i)
  {
    hide Inv, NamedFor, Suffix, Normalize, LeftAlone, Became, OneVideoMoved, Disk.Exists, Disk.FileAt, Disk.Slot;
    NextIsFree(w);
    RowExchanged(w.table, w1.table, task.id, row);
    MovedFile(w.disk, w1.disk, task.src, to);
    NewRowBecame(w.disk, w.table.rows[task.id], w1.disk, row, target, dir, title, task.episode);
    OthersLeft(w, w1, task.id, to);
  }

  predicate IsRowOf(d: Disk, row: Row, anime: nat, at: Path, number: Option<string>)
    requires d.Exists(at)
  {
    row == Row(anime, at, number, false, |d.FileAt(at).content|, d.FileAt(at).mtime)
  }

  lemma RowExchanged(t: Table, t1: Table, id: nat, row: Row)
    requires id in t.rows && t.next !in t.rows && t1 == Table((t.rows - {id})[t.next := row], t.next + 1)
    ensures t1.rows.Keys == t.rows.Keys - {id} + {t.next} && t1.rows[t.next] == row
    ensures forall i | i in t.rows && i != id :: i in t1.rows && t1.rows[i] == t.rows[i]
  {
  }

  lemma OthersLeft(w: World, w1: World, id: nat, to: Path)
    requires Inv(w) && id in w.table.rows && w1.disk.foldCase == w.disk.foldCase && OneVideoMoved(w.disk, w1.disk, w.table.rows[id].path, Some(to))
    requires forall i | i in w.table.rows && i != id :: i in w1.table.rows && w1.table.rows[i] == w.table.rows[i]
    ensures forall i | i in w.table.rows && i != id :: LeftAlone(w, w1, i)
  {
    hide Inv, LeftAlone, OneVideoMoved;
    forall i | i in w.table.rows && i != id ensures LeftAlone(w, w1, i) {
      TurnLeaves(w, w1, id, to, i);
    }
  }

  lemma ArrivesInPlace(w: World, task: Task, dir: Dir, title: string)
    requires Inv(w) && task.id in w.table.rows && w.table.rows[task.id].path == task.src
    ensures NamedFor(w.disk.Dedupe(task.src, Target(dir, title, task)).name, title, task.episode, Suffix(task.src.name))
    ensures w.disk.Dedupe(task.src, Target(dir, title, task)).dir == dir
  {
    hide Inv, NamedFor, Suffix, Target, HasVideoExtension;
    RowHasVideo(w, task.id);
    ArrivesNamed(w.disk, task.src, dir, title, task);
    TargetDir(dir, title, task);
  }

  lemma TurnLeaves(w: World, w1: World, id: nat, to: Path, i: nat)
    requires Inv(w) && id in w.table.rows && i in w.table.rows && i != id
    requires OneVideoMoved(w.disk, w1.disk, w.table.rows[id].path, Some(to)) && w1.disk.foldCase == w.disk.foldCase
    requires i in w1.table.rows && w1.table.rows[i] == w.table.rows[i]
    ensures LeftAlone(w, w1, i)
  {
    hide Inv, OneVideoMoved, OnDisk, Videos;
    OtherSlot(w, id, i);
    VideoAt(w.disk, w.table.rows[i].path);
    OtherFile(w.disk, w1.disk, w.table.rows[id].path, to, w.table.rows[i].path);
  }

  lemma NewRowBecame(d: Disk, row: Row, d': Disk, row': Row, anime: nat, dir: Dir, title: string, e: Episode)
    requires d.Exists(row.path) && d'.Exists(row'.path) && d'.FileAt(row'.path) == d.FileAt(row.path).(name := row'.path.name)
    requires row' == Row(anime, row'.path, Normalize(Some(e.epNumber)), false, |d'.FileAt(row'.path).content|, d'.FileAt(row'.path).mtime)
    requires row'.path.dir == dir && NamedFor(row'.path.name, title, e, Suffix(row.path.name))
    ensures Became(d, row, d', row', anime, dir, title, e)
  {
    hide NamedFor, Suffix, Normalize, Disk.Exists, Disk.FileAt;
  }

  lemma TurnMoves(w: World, task: Task, dir: Dir, title: string, turn: Turn)
    requires Inv(w) && task.id in w.table.rows && w.table.rows[task.id].path == task.src && Fits(w.disk, task.src, turn.script)
    requires MoveEpisode(w.disk, task.src, Target(dir, title, task), turn.script).1.Some?
    ensures
      var (disk, r) := MoveEpisode(w.disk, task.src, Target(dir, title, task), turn.script);
      && disk.foldCase == w.disk.foldCase && OneVideoMoved(w.disk, disk, task.src, r) && r.value.dir == dir
      && NamedFor(r.value.name, title, task.episode, Suffix(task.src.name))
  {
    hide MoveEpisode, Target, Fits, HasVideoExtension, IsEpisodeName, Inv, OneVideoMoved, NamedFor, Suffix;
    ArrivesInPlace(w, task, dir, title);
    RowHasVideo(w, task.id);
    TargetIsEpisode(dir, title, task);
    EpisodeName(Target(dir, title, task).name);
    TargetDir(dir, title, task);
    EpisodeMovesOneVideo(w.disk, task.src, Target(dir, title, task), turn.script);
  }

  lemma MovedFile(d: Disk, d': Disk, src: Path, to: Path)
    requires OneVideoMoved(d, d', src, Some(to)) && d'.foldCase == d.foldCase
    ensures d.Exists(src) && d'.Exists(to) && d'.FileAt(to) == d.FileAt(src).(name := to.name)
  {
    hide Spell, HasVideoExtension;
    assert d'.Slot(to) in Videos(d');
  }

  lemma OtherFile(d: Disk, d': Disk, src: Path, to: Path, p: Path)
    requires OneVideoMoved(d, d', src, Some(to)) && d'.foldCase == d.foldCase && OnDisk(d, p) && d.Slot(p) != d.Slot(src)
    ensures d'.Exists(p) && d'.FileAt(p) == d.FileAt(p)
  {
    hide Spell, HasVideoExtension, IsEpisodeName;
    assert d'.Slot(p) in Videos(d');
  }

  /** What a finished loop has made of each of its episodes. */
  ghost predicate AllBecame(w: World, w': World, target: nat, dir: Dir, title: string, tasks: seq<Task>, k: nat, heirs: map<nat, nat>) {
    && heirs.Keys == Behind(tasks, k)
    && (forall j | k <= j < |tasks| ::
          && tasks[j].id in w.table.rows && heirs[tasks[j].id] in w'.table.rows && heirs[tasks[j].id] !in w.table.rows
          && Became(w.disk, w.table.rows[tasks[j].id], w'.disk, w'.table.rows[heirs[tasks[j].id]], target, dir, title, tasks[j].episode))
    && (forall i, j | i in heirs && j in heirs && heirs[i] == heirs[j] :: i == j)
    && (forall i | i in w.table.rows && i !in heirs :: LeftAlone(w, w', i))
    && w'.table.rows.Keys == w.table.rows.Keys - heirs.Keys + heirs.Values
  }

  lemma {:induction false} MergeLoopBecame(w: World, target: nat, dir: Dir, title: string, tasks: seq<Task>, turns: nat -> Turn, k: nat) returns (heirs: map<nat, nat>)
    requires Inv(w) && target in w.animes && w.animes[target].dir == dir && k <= |tasks|
    requires Pending(w.table, tasks, k) && MergeFits(w, target, dir, title, tasks, turns, k)
    requires MergeLoop(w, target, dir, title, tasks, turns, k).1 == Done
    ensures AllBecame(w, MergeLoop(w, target, dir, title, tasks, turns, k).0, target, dir, title, tasks, k, heirs)
    ensures forall i | i in heirs :: heirs[i] >= w.table.next
    decreases |tasks| - k
  {
    hide Videos, IsEpisodeName, Spell, Inv, MoveEpisode, Target, Fits, Upsert, DeleteByPath, OneVideoMoved, Normalize, Became, LeftAlone, AllBecame, Behind;
    if k == |tasks| {
      heirs := map[];
      NobodyBecame(w, target, dir, title, tasks, k);
    } else {
      var task := tasks[k];
      var (disk, r) := MoveEpisode(w.disk, task.src, Target(dir, title, task), turns(k).script);
      MergeStep(w, task, target, dir, title, turns(k));
      TurnOutcome(w, task, target, dir, title, turns(k));
      var w1 := w.(disk := disk, table := Record(DeleteByPath(w.table, task.src), target, disk, r.value, Normalize(Some(task.episode.epNumber))));
      var rest := MergeLoopBecame(w1, target, dir, title, tasks, turns, k + 1);
      var w' := MergeLoop(w1, target, dir, title, tasks, turns, k + 1).0;
      heirs := rest[task.id := w.table.next];
      IdsOfInv(w);
      OneMoreBecame(w, w1, w', target, dir, title, tasks, k, rest);
    }
  }

  lemma IdsOfInv(w: World)
    requires Inv(w)
    ensures IdsBelow(w.table)
  {
    hide RowsOnDisk, RowsDistinct, RowsPlaced, DirsApart;
  }

  lemma NobodyBecame(w: World, target: nat, dir: Dir, title: string, tasks: seq<Task>, k: nat)
    requires k >= |tasks| && Inv(w)
    ensures AllBecame(w, w, target, dir, title, tasks, k, map[])
  {
    hide Became, Inv;
    NobodyBehind(tasks, k);
    forall i | i in w.table.rows ensures LeftAlone(w, w, i) { RowIsThere(w, i); }
  }

  lemma RowIsThere(w: World, i: nat)
    requires Inv(w) && i in w.table.rows
    ensures w.disk.Exists(w.table.rows[i].path)
  {
    hide HasVideoExtension, Spell;
    assert OnDisk(w.disk, w.table.rows[i].path);
  }

  lemma OneMoreBecame(w: World, w1: World, w': World, target: nat, dir: Dir, title: string, tasks: seq<Task>, k: nat, rest: map<nat, nat>)
    requires k < |tasks| && Pending(w.table, tasks, k) && IdsBelow(w.table)
    requires w1.table.rows.Keys == w.table.rows.Keys - {tasks[k].id} + {w.table.next}
    requires Became(w.disk, w.table.rows[tasks[k].id], w1.disk, w1.table.rows[w.table.next], target, dir, title, tasks[k].episode)
    requires forall i | i in w.table.rows && i != tasks[k].id :: LeftAlone(w, w1, i)
    requires AllBecame(w1, w', target, dir, title, tasks, k + 1, rest) && forall i | i in rest :: rest[i] >= w.table.next + 1
    ensures AllBecame(w, w', target, dir, title, tasks, k, rest[tasks[k].id := w.table.next])
  {
    hide NamedFor, Suffix, Normalize, Spell, Inv, Pending, Behind, Became, LeftAlone;
    var id, next := tasks[k].id, w.table.next;
    var heirs := rest[id := next];
    BehindKeys(w, tasks, k);
    PendingIds(w, tasks, k);
    LeftAloneIs(w1, w', next);
    forall j | k <= j < |tasks|
      ensures tasks[j].id in w.table.rows && heirs[tasks[j].id] in w'.table.rows && heirs[tasks[j].id] !in w.table.rows
      ensures Became(w.disk, w.table.rows[tasks[j].id], w'.disk, w'.table.rows[heirs[tasks[j].id]], target, dir, title, tasks[j].episode)
    {
      if j > k {
        LeftAloneIs(w, w1, tasks[j].id);
        BecameFrom(w, w1, tasks[j].id, w'.disk, w'.table.rows[heirs[tasks[j].id]], target, dir, title, tasks[j].episode);
      } else {
        BecameInto(w.disk, w.table.rows[id], w1, w', next, target, dir, title, tasks[k].episode);
      }
    }
    forall i | i in w.table.rows && i !in heirs ensures LeftAlone(w, w', i) {
      assert LeftAlone(w, w1, i) && LeftAlone(w1, w', i);
      LeftAloneTwice(w, w1, w', i);
    }
    OneMoreValue(rest, id, next);
  }

  lemma OneMoreValue(m: map<nat, nat>, i: nat, v: nat)
    requires i !in m
    ensures m[i := v].Values == m.Values + {v} && m[i := v].Keys == m.Keys + {i}
  {
    var n := m[i := v];
    assert n[i] == v;
    forall u | u in m.Values ensures u in n.Values {
      var j :| j in m && m[j] == u;
      assert n[j] == u;
    }
  }

  lemma LeftAloneIs(w: World, w': World, i: nat)
    requires i in w.table.rows && LeftAlone(w, w', i)
    ensures i in w'.table.rows && w'.table.rows[i] == w.table.rows[i]
  {
  }

  lemma LeftAloneTwice(w: World, w1: World, w': World, i: nat)
    requires LeftAlone(w, w1, i) && LeftAlone(w1, w', i)
    ensures LeftAlone(w, w', i)
  {
  }

  lemma BecameFrom(w: World, w1: World, i: nat, d': Disk, row': Row, anime: nat, dir: Dir, title: string, e: Episode)
    requires LeftAlone(w, w1, i) && Became(w1.disk, w1.table.rows[i], d', row', anime, dir, title, e)
    ensures Became(w.disk, w.table.rows[i], d', row', anime, dir, title, e)
  {
    hide NamedFor, Suffix, Normalize;
  }

  lemma BecameInto(d: Disk, row: Row, w1: World, w': World, i: nat, anime: nat, dir: Dir, title: string, e: Episode)
    requires LeftAlone(w1, w', i) && Became(d, row, w1.disk, w1.table.rows[i], anime, dir, title, e)
    ensures Became(d, row, w'.disk, w'.table.rows[i], anime, dir, title, e)
  {
    hide NamedFor, Suffix, Normalize;
  }

  lemma BehindKeys(w: World, tasks: seq<Task>, k: nat)
    requires k < |tasks| && Pending(w.table, tasks, k)
    ensures Behind(tasks, k) == Behind(tasks, k + 1) + {tasks[k].id} && tasks[k].id !in Behind(tasks, k + 1)
  {
  }

  lemma PendingIds(w: World, tasks: seq<Task>, k: nat)
    requires k < |tasks| && Pending(w.table, tasks, k) && IdsBelow(w.table)
    ensures forall j | k <= j < |tasks| :: tasks[j].id in w.table.rows && tasks[j].id < w.table.next && tasks[j].id in Behind(tasks, k)
    ensures forall j | k < j < |tasks| :: tasks[j].id in Behind(tasks, k + 1) && tasks[j].id != tasks[k].id
    ensures w.table.next !in Behind(tasks, k + 1) && w.table.next !in w.table.rows
  {
  }

  // ------------------------------------------------------------ a merge, from beginning to end

  /** Files that are episodes survive the clean-up at the end of a merge. */
  lemma SameVideosSameFile(d: Disk, d': Disk, p: Path)
    requires OnDisk(d, p) && Videos(d') == Videos(d) && d'.foldCase == d.foldCase
    ensures d.Exists(p) && d'.Exists(p) && d'.FileAt(p) == d.FileAt(p)
  {
    hide Spell, HasVideoExtension, IsEpisodeName;
  }

  /** What a merge that has gone through leaves of a row the loop has left or written. */
  lemma MergeEnds(w: World, source: nat, target: nat, tasks: seq<Task>, turns: nat -> Turn, unlinks: nat, i: nat)
    requires Inv(w) && source in w.animes && target in w.animes && Pending(w.table, tasks, 0)
    requires MergeFits(w, target, w.animes[target].dir, w.animes[target].folderTitle, tasks, turns)
    requires Merge(w, source, target, tasks, turns, unlinks).1 == Done
    ensures
      var w1 := MergeLoop(w, target, w.animes[target].dir, w.animes[target].folderTitle, tasks, turns).0;
      var w' := Merge(w, source, target, tasks, turns, unlinks).0;
      && MergeLoop(w, target, w.animes[target].dir, w.animes[target].folderTitle, tasks, turns).1 == Done
      && (i in w'.table.rows <==> i in w1.table.rows && (w1.table.rows[i].anime == source ==> source in w'.animes))
      && (i in w'.table.rows ==> LeftAlone(w1, w', i))
  {
    hide MergeLoop, RemoveSidecars, HasVideos, Videos, Spell, OnDisk, Pending, MergeFits;
    var dir, title := w.animes[target].dir, w.animes[target].folderTitle;
    MergeLoopKeepsInv(w, target, dir, title, tasks, turns, 0);
    var w1 := MergeLoop(w, target, dir, title, tasks, turns).0;
    SidecarsKeepVideos(w1.disk, w.animes[source].dir, |Sidecars|);
    if i in w1.table.rows {
      SameVideosSameFile(w1.disk, w1.disk, w1.table.rows[i].path);
      SameVideosSameFile(w1.disk, RemoveSidecars(w1.disk, w.animes[source].dir, |Sidecars|), w1.table.rows[i].path);
    }
  }

  /** What each matched row's episode was found to be. */
  ghost predicate HeirsAre(w: World, w': World, source: nat, b: nat, heirs: map<nat, nat>)
    requires source in w.animes && b in w'.animes
  {
    && (forall i :: i in heirs <==> IsMatchedRow(w, source, i))
    && (forall i, j | i in heirs && j in heirs && heirs[i] == heirs[j] :: i == j)
    && (forall i | i in heirs ::
          && i !in w'.table.rows && heirs[i] in w'.table.rows && heirs[i] !in w.table.rows
          && IsMatchedRow(w, source, i)
          && Became(w.disk, w.table.rows[i], w'.disk, w'.table.rows[heirs[i]], b, w'.animes[b].dir, w'.animes[b].folderTitle,
                    EpisodeOf(w.animes[source].expected, w.table.rows[i].number)))
    && (forall i | i in w.table.rows && i !in heirs && (w.table.rows[i].anime != source || source in w'.animes) :: LeftAlone(w, w', i))
    && (forall i | i in w'.table.rows :: i in heirs.Values || (i in w.table.rows && i !in heirs))
  }

  /** A sort into a folder that has the anime once, gone through: each matched row has become
      one of the other entry's, for the same file, in its directory, under the name and the
      number of the episode; the unmatched ones stay, unless the entry goes; nothing else is
      new or changed. */
  lemma SortMerges(w: World, source: nat, folder: nat, env: SortEnv, b: nat) returns (heirs: map<nat, nat>)
    requires Inv(w) && (forall i | i in env.ids :: i in w.table.rows) && folder in w.folders && source in w.animes && SortAllowed(w, source, folder, env)
    requires IsTwin(w, source, folder, b) && (forall c | IsTwin(w, source, folder, c) :: c == b)
    requires SortAnime(w, source, folder, env).1 == Done
    ensures b in SortAnime(w, source, folder, env).0.animes && SortAnime(w, source, folder, env).0.animes[b] == w.animes[b]
    ensures HeirsAre(w, SortAnime(w, source, folder, env).0, source, b, heirs)
  {
    hide Inv, Merge, MergeFits, Tasks, Match, Twins, Relocate, Pending, MergeLoop, Became, LeftAlone, AllBecame, Behind, Lists;
    OnlyTwin(w, source, folder, b);
    var tasks := Tasks(w.table.rows, env.ids, w.animes[source].expected);
    TasksPending(w, env.ids, source, w.animes[source].expected);
    MergeEnds(w, source, b, tasks, env.turns, env.unlinks, 0);
    heirs := MergeLoopBecame(w, b, w.animes[b].dir, w.animes[b].folderTitle, tasks, env.turns, 0);
    MergedHeirs(w, source, folder, env, b, tasks, heirs);
  }

  lemma MergedHeirs(w: World, source: nat, folder: nat, env: SortEnv, b: nat, tasks: seq<Task>, heirs: map<nat, nat>)
    requires Inv(w) && (forall i | i in env.ids :: i in w.table.rows) && Lists(env.ids, w.table, source) && source in w.animes && b in w.animes && b != source
    requires tasks == Tasks(w.table.rows, env.ids, w.animes[source].expected) && Pending(w.table, tasks, 0)
    requires MergeFits(w, b, w.animes[b].dir, w.animes[b].folderTitle, tasks, env.turns)
    requires Merge(w, source, b, tasks, env.turns, env.unlinks).1 == Done
    requires AllBecame(w, MergeLoop(w, b, w.animes[b].dir, w.animes[b].folderTitle, tasks, env.turns).0, b, w.animes[b].dir, w.animes[b].folderTitle, tasks, 0, heirs)
    ensures
      var w' := Merge(w, source, b, tasks, env.turns, env.unlinks).0;
      b in w'.animes && w'.animes[b] == w.animes[b] && HeirsAre(w, w', source, b, heirs)
  {
    hide Inv, Merge, MergeFits, Tasks, Match, Pending, MergeLoop, Became, LeftAlone, Lists, EpisodeOf, Behind, AllBecame;
    var w1 := MergeLoop(w, b, w.animes[b].dir, w.animes[b].folderTitle, tasks, env.turns).0;
    var w' := Merge(w, source, b, tasks, env.turns, env.unlinks).0;
    MergeKeepsTarget(w, source, b, tasks, env.turns, env.unlinks);
    HeirsAreMatched(w, source, env.ids, tasks, b, w1, heirs);
    forall i ensures i in heirs <==> IsMatchedRow(w, source, i) { HeirIff(w, source, env.ids, tasks, b, w1, heirs, i); }
    BecameKeys(w, w1, b, w.animes[b].dir, w.animes[b].folderTitle, tasks, heirs);
    forall i | i in heirs
      ensures i !in w'.table.rows && heirs[i] in w'.table.rows && heirs[i] !in w.table.rows
      ensures Became(w.disk, w.table.rows[i], w'.disk, w'.table.rows[heirs[i]], b, w'.animes[b].dir, w'.animes[b].folderTitle, EpisodeOf(w.animes[source].expected, w.table.rows[i].number))
    {
      MergeEnds(w, source, b, tasks, env.turns, env.unlinks, i);
      MergeEnds(w, source, b, tasks, env.turns, env.unlinks, heirs[i]);
      BecameOwner(w.disk, w.table.rows[i], w1.disk, w1.table.rows[heirs[i]], b, w.animes[b].dir, w.animes[b].folderTitle, EpisodeOf(w.animes[source].expected, w.table.rows[i].number));
      LeftAloneIs(w1, w', heirs[i]);
      BecameInto(w.disk, w.table.rows[i], w1, w', heirs[i], b, w.animes[b].dir, w.animes[b].folderTitle, EpisodeOf(w.animes[source].expected, w.table.rows[i].number));
    }
    forall i | i in w.table.rows && i !in heirs && (w.table.rows[i].anime != source || source in w'.animes) ensures LeftAlone(w, w', i) {
      LeftAloneIs(w, w1, i);
      MergeEnds(w, source, b, tasks, env.turns, env.unlinks, i);
      LeftAloneTwice(w, w1, w', i);
    }
    forall i | i in w'.table.rows ensures i in heirs.Values || (i in w.table.rows && i !in heirs) {
      MergeEnds(w, source, b, tasks, env.turns, env.unlinks, i);
    }
  }

  lemma BecameOwner(d: Disk, row: Row, d': Disk, row': Row, anime: nat, dir: Dir, title: string, e: Episode)
    requires Became(d, row, d', row', anime, dir, title, e)
    ensures row'.anime == anime
  {
    hide NamedFor, Suffix, Normalize;
  }

  lemma MergeKeepsTarget(w: World, source: nat, target: nat, tasks: seq<Task>, turns: nat -> Turn, unlinks: nat)
    requires source in w.animes && target in w.animes && source != target
    ensures var w' := Merge(w, source, target, tasks, turns, unlinks).0; target in w'.animes && w'.animes[target] == w.animes[target]
  {
    hide MergeLoop, HasVideos, RemoveSidecars;
    MergeLoopKeepsAnimes(w, target, w.animes[target].dir, w.animes[target].folderTitle, tasks, turns, 0);
  }

  lemma BecameKeys(w: World, w1: World, target: nat, dir: Dir, title: string, tasks: seq<Task>, heirs: map<nat, nat>)
    requires AllBecame(w, w1, target, dir, title, tasks, 0, heirs)
    ensures w1.table.rows.Keys == w.table.rows.Keys - heirs.Keys + heirs.Values
    ensures forall i, j | i in heirs && j in heirs && heirs[i] == heirs[j] :: i == j
    ensures forall i | i in w.table.rows && i !in heirs :: LeftAlone(w, w1, i)
  {
    hide Became, LeftAlone, Behind;
  }

  lemma HeirIff(w: World, source: nat, ids: seq<nat>, tasks: seq<Task>, target: nat, w1: World, heirs: map<nat, nat>, i: nat)
    requires (forall j | j in ids :: j in w.table.rows) && Lists(ids, w.table, source) && source in w.animes && heirs.Keys == Behind(tasks, 0)
    requires tasks == Tasks(w.table.rows, ids, w.animes[source].expected)
    ensures i in heirs <==> IsMatchedRow(w, source, i)
  {
    hide Match, Tasks, Lists;
    OwnRows(w, source, ids, i);
    if i in heirs {
      var k :| 0 <= k < |tasks| && tasks[k].id == i;
      TaskIsMatched(w.table.rows, ids, w.animes[source].expected, k);
    }
    if IsMatchedRow(w, source, i) {
      var k := MatchedIsTask(w.table.rows, ids, w.animes[source].expected, i);
      BehindHas(tasks, 0, k);
    }
  }

  lemma HeirsAreMatched(w: World, source: nat, ids: seq<nat>, tasks: seq<Task>, target: nat, w1: World, heirs: map<nat, nat>)
    requires (forall j | j in ids :: j in w.table.rows) && Lists(ids, w.table, source) && source in w.animes && target in w.animes
    requires tasks == Tasks(w.table.rows, ids, w.animes[source].expected)
    requires AllBecame(w, w1, target, w.animes[target].dir, w.animes[target].folderTitle, tasks, 0, heirs)
    ensures heirs.Keys == Behind(tasks, 0)
    ensures forall i | i in heirs ::
      && IsMatchedRow(w, source, i) && heirs[i] in w1.table.rows && heirs[i] !in w.table.rows
      && Became(w.disk, w.table.rows[i], w1.disk, w1.table.rows[heirs[i]], target, w.animes[target].dir, w.animes[target].folderTitle,
                EpisodeOf(w.animes[source].expected, w.table.rows[i].number))
  {
    hide Match, Tasks, Lists, Became, LeftAlone;
    forall i | i in heirs
      ensures IsMatchedRow(w, source, i) && heirs[i] in w1.table.rows && heirs[i] !in w.table.rows
      ensures Became(w.disk, w.table.rows[i], w1.disk, w1.table.rows[heirs[i]], target, w.animes[target].dir, w.animes[target].folderTitle, EpisodeOf(w.animes[source].expected, w.table.rows[i].number))
    {
      var k :| 0 <= k < |tasks| && tasks[k].id == i;
      TaskIsMatched(w.table.rows, ids, w.animes[source].expected, k);
      OwnRows(w, source, ids, i);
    }
  }

  // ------------------------------------------------------------ a relocation, from beginning to end

  /** The file is in its new place. */
  ghost predicate HasArrived(d: Disk, d': Disk, job: Job) {
    && d.Slot(job.src) in Videos(d) && d'.Slot(job.dest) in Videos(d')
    && Videos(d')[d'.Slot(job.dest)] == Videos(d)[d.Slot(job.src)].(name := job.dest.name)
  }

  lemma {:induction false} ForwardCarries(d: Disk, jobs: seq<Job>, scripts: seq<Script>, into: Dir)
    requires d.Valid() && |scripts| == |jobs| && Inbound(d, jobs, into) && ForwardLists(d, jobs, scripts)
    ensures
      var (d', moves, all) := Forward(d, jobs, scripts);
      && d'.foldCase == d.foldCase && |moves| <= |jobs|
      && (forall i | 0 <= i < |moves| :: moves[i].src == jobs[i].src && HasArrived(d, d', moves[i]))
      && (forall s | s in Videos(d) && (forall i | 0 <= i < |moves| :: s != d.Slot(moves[i].src)) :: s in Videos(d') && Videos(d')[s] == Videos(d)[s])
    decreases |jobs|
  {
    hide Videos, IsEpisodeName, Spell, MoveEpisode, Fits, HasVideoExtension, Inbound, HasArrived, OneVideoMoved;
    if jobs != [] {
      var j := jobs[0];
      FirstInbound(d, jobs, into);
      var (d1, r) := MoveEpisode(d, j.src, j.dest, scripts[0]);
      EpisodeName(j.dest.name);
      EpisodeMovesOneVideo(d, j.src, j.dest, scripts[0]);
      EpisodeOnlyLeaves(d, j.src, j.dest, scripts[0]);
      if r.None? {
        NoneLost(d, d1, j.src);
      } else {
        RestInbound(d, d1, jobs, into);
        DedupeIsEpisode(d, j.src, j.dest);
        ForwardCarries(d1, jobs[1..], scripts[1..], into);
        var (d', rest, all) := Forward(d1, jobs[1..], scripts[1..]);
        RestSources(d, jobs, rest, into);
        var moves := [Job(j.src, r.value)] + rest;
        FirstArrives(d, d1, d', Job(j.src, r.value), rest, into);
        forall i | 0 <= i < |rest| ensures HasArrived(d, d', rest[i]) {
          LaterArrives(d, d1, d', Job(j.src, r.value), rest[i], into);
        }
        assert forall i | 0 < i < |moves| :: moves[i] == rest[i - 1];
        forall s | s in Videos(d) && (forall i | 0 <= i < |moves| :: s != d.Slot(moves[i].src)) ensures s in Videos(d') && Videos(d')[s] == Videos(d)[s] {
          assert moves[0].src == j.src;
          OthersStay(d, d1, Job(j.src, r.value), s);
          forall i | 0 <= i < |rest| ensures s != d1.Slot(rest[i].src) { assert moves[i + 1] == rest[i]; SameFold(d, d1, rest[i].src); }
        }
      }
    }
  }

  lemma NoneLost(d: Disk, d1: Disk, src: Path)
    requires OneVideoMoved(d, d1, src, None)
    ensures forall s | s in Videos(d) :: s in Videos(d1) && Videos(d1)[s] == Videos(d)[s]
  {
    hide Videos;
  }

  lemma SameFold(d: Disk, d1: Disk, p: Path)
    requires d1.foldCase == d.foldCase
    ensures d1.Slot(p) == d.Slot(p)
  {
  }

  lemma OthersStay(d: Disk, d1: Disk, first: Job, s: Path)
    requires OneVideoMoved(d, d1, first.src, Some(first.dest)) && d1.foldCase == d.foldCase && s in Videos(d) && s != d.Slot(first.src)
    ensures s in Videos(d1) && Videos(d1)[s] == Videos(d)[s]
  {
    hide Videos, Spell, HasVideoExtension;
  }

  lemma FirstArrives(d: Disk, d1: Disk, d': Disk, first: Job, rest: seq<Job>, into: Dir)
    requires OneVideoMoved(d, d1, first.src, Some(first.dest)) && d1.foldCase == d.foldCase && d'.foldCase == d.foldCase
    requires first.dest.dir == into && forall i | 0 <= i < |rest| :: rest[i].src.dir != into
    requires forall s | s in Videos(d1) && (forall i | 0 <= i < |rest| :: s != d1.Slot(rest[i].src)) :: s in Videos(d') && Videos(d')[s] == Videos(d1)[s]
    ensures HasArrived(d, d', first)
  {
    hide Videos, Spell, HasVideoExtension;
    var s := d1.Slot(first.dest);
    assert s in Videos(d1) && s.dir == into;
    assert d.Slot(first.src) in Videos(d) && d.FileAt(first.src) == Videos(d)[d.Slot(first.src)] by { VideoFile(d, first.src); }
  }

  lemma VideoFile(d: Disk, p: Path)
    requires d.Slot(p) in Videos(d)
    ensures d.Exists(p) && d.FileAt(p) == Videos(d)[d.Slot(p)]
  {
    hide Spell, HasVideoExtension;
  }

  lemma LaterArrives(d: Disk, d1: Disk, d': Disk, first: Job, job: Job, into: Dir)
    requires OneVideoMoved(d, d1, first.src, Some(first.dest)) && d1.foldCase == d.foldCase
    requires first.dest.dir == into && job.src.dir != into && HasArrived(d1, d', job)
    ensures HasArrived(d, d', job)
  {
    hide Videos, Spell, HasVideoExtension;
    assert d1.Slot(job.src).dir != d1.Slot(first.dest).dir;
  }

  /** The new row of each file, once the rows have followed. */
  ghost predicate Followed(w: World, t': Table, source: nat, moves: seq<Job>, tasks: seq<Task>, k: nat, heirs: map<nat, nat>)
    requires |moves| == |tasks|
  {
    && heirs.Keys == Behind(tasks, k)
    && (forall j | k <= j < |tasks| ::
          && tasks[j].id in w.table.rows && tasks[j].id in heirs && heirs[tasks[j].id] in t'.rows && heirs[tasks[j].id] >= w.table.next && w.disk.Exists(moves[j].dest)
          && var f := w.disk.FileAt(moves[j].dest);
             t'.rows[heirs[tasks[j].id]] == Row(source, moves[j].dest, Normalize(Some(tasks[j].episode.epNumber)), false, |f.content|, f.mtime))
    && (forall i, j | i in heirs && j in heirs && heirs[i] == heirs[j] :: i == j)
    && (forall i | i in w.table.rows && i !in heirs :: i in t'.rows && t'.rows[i] == w.table.rows[i])
    && (forall i | i in t'.rows :: i in heirs.Values || (i in w.table.rows && i !in heirs))
    && (forall i | i in heirs :: heirs[i] >= w.table.next)
  }

  lemma {:induction false} RecordHeirs(w: World, source: nat, dir: Dir, moves: seq<Job>, tasks: seq<Task>, turns: nat -> Turn, k: nat) returns (heirs: map<nat, nat>)
    requires |moves| == |tasks| && k <= |moves| && source in w.animes && Following(w, source, dir, moves, tasks, k)
    requires forall j | k <= j < |moves| :: turns(j).stat
    ensures Followed(w, RecordMoves(w, source, moves, tasks, turns, k).0.table, source, moves, tasks, k, heirs)
    decreases |moves| - k
  {
    hide Following, FollowOne, Normalize, Upsert, DeleteByPath, Followed, Behind;
    if k == |moves| {
      heirs := map[];
      NobodyFollows(w, source, moves, tasks, k);
    } else {
      FollowStep(w, source, dir, moves, tasks, k);
      FollowedRows(w, source, dir, moves, tasks, k);
      FollowOneIs(w, source, moves[k], tasks[k]);
      FollowingIs(w, source, dir, moves, tasks, k);
      FollowingIds(w, source, dir, moves, tasks, k);
      FollowingRow(w, source, dir, moves, tasks, k);
      var w1 := w.(table := FollowOne(w, source, moves[k], tasks[k]));
      var rest := RecordHeirs(w1, source, dir, moves, tasks, turns, k + 1);
      heirs := rest[tasks[k].id := w.table.next];
      OneMoreFollows(w, w1, RecordMoves(w1, source, moves, tasks, turns, k + 1).0.table, source, moves, tasks, k, rest);
    }
  }

  lemma FollowingRow(w: World, source: nat, dir: Dir, moves: seq<Job>, tasks: seq<Task>, k: nat)
    requires |moves| == |tasks| && k < |moves| && Following(w, source, dir, moves, tasks, k)
    ensures forall j | k <= j < |moves| :: tasks[j].id in w.table.rows && tasks[j].id < w.table.next
  {
    hide OnDisk, PlacesWait, PlacedBut, RowsDistinct, Behind;
  }

  lemma NobodyFollows(w: World, source: nat, moves: seq<Job>, tasks: seq<Task>, k: nat)
    requires |moves| == |tasks| && k >= |tasks|
    ensures Followed(w, w.table, source, moves, tasks, k, map[])
  {
    NobodyBehind(tasks, k);
  }

  lemma OneMoreFollows(w: World, w1: World, t': Table, source: nat, moves: seq<Job>, tasks: seq<Task>, k: nat, rest: map<nat, nat>)
    requires |moves| == |tasks| && k < |tasks| && DistinctIds(tasks) && IdsBelow(w.table) && w.disk.Exists(moves[k].dest) && w1.disk == w.disk
    requires forall j | k <= j < |moves| :: tasks[j].id in w.table.rows && tasks[j].id < w.table.next
    requires
      var f := w.disk.FileAt(moves[k].dest);
      var row := Row(source, moves[k].dest, Normalize(Some(tasks[k].episode.epNumber)), false, |f.content|, f.mtime);
      w1.table == Table((w.table.rows - {tasks[k].id})[w.table.next := row], w.table.next + 1)
    requires Followed(w1, t', source, moves, tasks, k + 1, rest)
    ensures Followed(w, t', source, moves, tasks, k, rest[tasks[k].id := w.table.next])
  {
    hide Normalize, Spell, Behind, Disk.Exists, Disk.FileAt;
    var id, next := tasks[k].id, w.table.next;
    var heirs := rest[id := next];
    BehindStep(tasks, k);
    LaterIds(tasks, k);
    assert next !in rest by { if next in rest { LaterBelow(w, tasks, k, next); } }
    OneMoreValue(rest, id, next);
    forall j | k <= j < |tasks| ensures tasks[j].id in heirs && (j > k ==> tasks[j].id != id && tasks[j].id in rest) {}
  }

  lemma LaterIds(tasks: seq<Task>, k: nat)
    requires k < |tasks| && DistinctIds(tasks)
    ensures forall j | k < j < |tasks| :: tasks[j].id in Behind(tasks, k + 1) && tasks[j].id != tasks[k].id
  {
  }

  lemma LaterBelow(w: World, tasks: seq<Task>, k: nat, i: nat)
    requires k < |tasks| && i in Behind(tasks, k + 1) && forall j | k <= j < |tasks| :: tasks[j].id < w.table.next
    ensures i < w.table.next
  {
  }

  /** A file the relocation has moved, once whatever was left has followed. */
  lemma ArrivedStays(w: World, disk: Disk, d': Disk, row: Row, row': Row, source: nat, dir: Dir, title: string, move: Job, e: Episode)
    requires HasArrived(w.disk, disk, move) && row.path == move.src && d'.foldCase == disk.foldCase
    requires disk.Slot(move.dest) in d'.files && d'.files[disk.Slot(move.dest)] == disk.files[disk.Slot(move.dest)]
    requires disk.Exists(move.dest) && move.dest.dir == dir && NamedFor(move.dest.name, title, e, Suffix(row.path.name))
    requires var f := disk.FileAt(move.dest); row' == Row(source, move.dest, Normalize(Some(e.epNumber)), false, |f.content|, f.mtime)
    ensures Became(w.disk, row, d', row', source, dir, title, e)
  {
    hide NamedFor, Suffix, Normalize, Spell, HasVideoExtension;
    VideoFile(w.disk, move.src);
    VideoFile(disk, move.dest);
  }

  /** A sort into a folder that does not have the anime, gone through: each of its rows has
      become another of its own, for the same file, in the new directory, under the name and
      the number of the episode; nothing else has changed. */
  lemma SortRelocates(w: World, source: nat, folder: nat, env: SortEnv) returns (heirs: map<nat, nat>)
    requires Inv(w) && (forall i | i in env.ids :: i in w.table.rows) && folder in w.folders && source in w.animes && SortAllowed(w, source, folder, env)
    requires (forall b :: !IsTwin(w, source, folder, b)) && !SortStrands(w, source, folder, env)
    requires SortAnime(w, source, folder, env).1 == Done
    ensures
      var w' := SortAnime(w, source, folder, env).0;
      && source in w'.animes && w'.animes[source] == w.animes[source].(folder := folder, dir := w.folders[folder] + [Sanitize(w.animes[source].folderTitle)])
      && (forall i | i in w.table.rows && w.table.rows[i].anime == source :: IsMatchedRow(w, source, i))
      && HeirsAre(w, w', source, source, heirs)
  {
    hide Inv, Merge, Tasks, Match, Twins, Relocate, Pending, Behind, Lists, HeirsAre, RelocationLists, RelocationStrands, Unclaimed, MergeFits, Sanitize;
    NoTwins(w, source, folder);
    var tasks := Tasks(w.table.rows, env.ids, w.animes[source].expected);
    TasksPending(w, env.ids, source, w.animes[source].expected);
    forall k | 0 <= k < |tasks| ensures w.table.rows[tasks[k].id].anime == source { assert tasks[k].id in env.ids; }
    UnmatchedIsNoTask(w.table.rows, env.ids, w.animes[source].expected);
    forall i | i in w.table.rows && w.table.rows[i].anime == source ensures IsMatchedRow(w, source, i) { OwnRows(w, source, env.ids, i); }
    EveryRowIsBehind(w, source, env.ids, w.animes[source].expected);
    FitsIffNotStranded(w, source, folder, tasks, env.turns, env.back, env.leftovers);
    heirs := RelocatedHeirs(w, source, folder, tasks, env);
  }

  lemma NoTwins(w: World, source: nat, folder: nat)
    requires source in w.animes && forall b :: !IsTwin(w, source, folder, b)
    ensures w.animes[source].anidb.Some? ==> Twins(w, w.animes[source].anidb.value, folder) == {}
  {
    if w.animes[source].anidb.Some? { TwinsAre(w, source, folder); }
  }

  lemma RelocatedHeirs(w: World, source: nat, folder: nat, tasks: seq<Task>, env: SortEnv) returns (heirs: map<nat, nat>)
    requires Inv(w) && source in w.animes && folder in w.folders && Unclaimed(w, NewDir(w, source, folder)) && Pending(w.table, tasks, 0)
    requires (forall i | i in env.ids :: i in w.table.rows) && Lists(env.ids, w.table, source) && tasks == Tasks(w.table.rows, env.ids, w.animes[source].expected)
    requires forall k | 0 <= k < |tasks| :: w.table.rows[tasks[k].id].anime == source
    requires forall i | i in w.table.rows && w.table.rows[i].anime == source :: i in Behind(tasks, 0)
    requires RelocationFits(w, source, folder, tasks, env.turns, env.back, env.leftovers)
    requires Relocate(w, source, folder, tasks, env.turns, env.back, env.leftovers).1 == Done
    ensures
      var w' := Relocate(w, source, folder, tasks, env.turns, env.back, env.leftovers).0;
      && source in w'.animes && w'.animes[source] == w.animes[source].(folder := folder, dir := w.folders[folder] + [Sanitize(w.animes[source].folderTitle)])
      && HeirsAre(w, w', source, source, heirs)
    ensures
      var w' := Relocate(w, source, folder, tasks, env.turns, env.back, env.leftovers).0;
      var moves := Forward(w.disk, Jobs(NewDir(w, source, folder), w.animes[source].folderTitle, tasks), Scripts(env.turns, |tasks|)).1;
      |moves| == |tasks| && AreAt(w'.table, moves, tasks, heirs)
  {
    hide IsEpisodeName, Spell, Videos, HasVideoExtension, MoveLeftovers, Forward, Back, RecordMoves, HaveMoved, Inbound, Following, ForwardLists, BackReturns, Target, RowsOnDisk, RowsDistinct, RowsPlaced, Behind, Pending, NamedFor, Suffix, Tasks, Lists, Followed, HasArrived, Unclaimed, HeirsAre, Sanitize, Inv, Disk.Valid;
    var anime := w.animes[source];
    var dir := NewDir(w, source, folder);
    var jobs := Jobs(dir, anime.folderTitle, tasks);
    JobsInbound(w, source, dir, anime.folderTitle, tasks);
    InvIsValid(w);
    ForwardVideos(w.disk, jobs, Scripts(env.turns, |tasks|), dir);
    ForwardCarries(w.disk, jobs, Scripts(env.turns, |tasks|), dir);
    var (disk, moves, all) := Forward(w.disk, jobs, Scripts(env.turns, |tasks|));
    assert all;
    SourcesAreVideos(w, tasks);
    ForwardNames(w.disk, dir, anime.folderTitle, tasks, Scripts(env.turns, |tasks|));
    MovedAreFollowing(w, disk, source, dir, moves, tasks);
    heirs := RecordHeirs(w.(disk := disk), source, dir, moves, tasks, env.turns, 0);
    RecordMovesFollows(w.(disk := disk), source, dir, moves, tasks, env.turns, 0);
    var w' := Relocate(w, source, folder, tasks, env.turns, env.back, env.leftovers).0;
    var t' := RecordMoves(w.(disk := disk), source, moves, tasks, env.turns, 0).0.table;
    LeftoversValid(disk, anime.dir, dir, env.leftovers);
    UnclaimedApart(w, source, dir);
    FollowedAt(w.(disk := disk), t', source, moves, tasks, heirs);
    HeirsFrom(w, disk, w', source, dir, env.ids, tasks, moves, env.leftovers, heirs);
  }

  /** The new rows name the places the files have come to. */
  ghost predicate AreAt(t: Table, moves: seq<Job>, tasks: seq<Task>, heirs: map<nat, nat>)
    requires |moves| == |tasks|
  {
    forall j | 0 <= j < |tasks| :: tasks[j].id in heirs && heirs[tasks[j].id] in t.rows && t.rows[heirs[tasks[j].id]].path == moves[j].dest
  }

  lemma FollowedAt(w: World, t': Table, source: nat, moves: seq<Job>, tasks: seq<Task>, heirs: map<nat, nat>)
    requires |moves| == |tasks| && Followed(w, t', source, moves, tasks, 0, heirs)
    ensures AreAt(t', moves, tasks, heirs)
  {
    hide Behind, Normalize, Disk.Exists, Disk.FileAt;
  }

  lemma HeirsFrom(w: World, disk: Disk, w': World, source: nat, dir: Dir, ids: seq<nat>, tasks: seq<Task>, moves: seq<Job>, leftovers: seq<CompanionMove>, heirs: map<nat, nat>)
    requires Inv(w) && source in w.animes && disk.Valid() && disk.foldCase == w.disk.foldCase && |moves| == |tasks| && Pending(w.table, tasks, 0)
    requires (forall i | i in ids :: i in w.table.rows) && Lists(ids, w.table, source) && tasks == Tasks(w.table.rows, ids, w.animes[source].expected)
    requires forall k | 0 <= k < |moves| :: moves[k].src == tasks[k].src && HasArrived(w.disk, disk, moves[k]) && moves[k].dest.dir == dir
    requires forall k | 0 <= k < |moves| :: NamedFor(moves[k].dest.name, w.animes[source].folderTitle, tasks[k].episode, Suffix(tasks[k].src.name))
    requires forall s | s in Videos(w.disk) && (forall i | 0 <= i < |moves| :: s != w.disk.Slot(moves[i].src)) :: s in Videos(disk) && Videos(disk)[s] == Videos(w.disk)[s]
    requires forall i | i in w.table.rows && w.table.rows[i].anime == source :: i in Behind(tasks, 0)
    requires Followed(w.(disk := disk), w'.table, source, moves, tasks, 0, heirs)
    requires w'.disk == MoveLeftovers(disk, w.animes[source].dir, dir, leftovers) && w'.disk.foldCase == disk.foldCase
    requires (forall c | c in leftovers :: w.animes[source].dir <= c.path.dir) && !(w.animes[source].dir <= dir)
    requires source in w'.animes && w'.animes[source].dir == dir && w'.animes[source].folderTitle == w.animes[source].folderTitle
    ensures HeirsAre(w, w', source, source, heirs)
  {
    hide Followed, RowsDistinct, RowsOnDisk, RowsPlaced, DirsApart, IdsBelow;
    hide Videos, Spell, HasVideoExtension, MoveLeftovers, Behind, Pending, NamedFor, Suffix, Tasks, Lists, HasArrived, Inv, Disk.Valid, Match, Became, LeftAlone, EpisodeOf, Normalize, Disk.Exists, Disk.FileAt;
    IdsOfInv(w);
    FollowedGives(w.(disk := disk), w'.table, source, moves, tasks, 0, heirs);
    forall i ensures i in heirs <==> IsMatchedRow(w, source, i) { HeirIff(w, source, ids, tasks, source, w', heirs, i); }
    forall i | i in heirs
      ensures i !in w'.table.rows && heirs[i] in w'.table.rows && heirs[i] !in w.table.rows
      ensures Became(w.disk, w.table.rows[i], w'.disk, w'.table.rows[heirs[i]], source, dir, w'.animes[source].folderTitle, EpisodeOf(w.animes[source].expected, w.table.rows[i].number))
    {
      OneHeir(w, disk, w', source, dir, ids, tasks, moves, leftovers, heirs, i);
    }
    forall i | i in w.table.rows && i !in heirs ensures LeftAlone(w, w', i) {
      OtherRowStays(w, disk, w', source, dir, tasks, moves, leftovers, heirs, i);
    }
  }

  lemma FollowedGives(w: World, t': Table, source: nat, moves: seq<Job>, tasks: seq<Task>, k: nat, heirs: map<nat, nat>)
    requires |moves| == |tasks| && Followed(w, t', source, moves, tasks, k, heirs)
    ensures heirs.Keys == Behind(tasks, k) && (forall i, j | i in heirs && j in heirs && heirs[i] == heirs[j] :: i == j)
    ensures forall i | i in w.table.rows && i !in heirs :: i in t'.rows && t'.rows[i] == w.table.rows[i]
    ensures forall i | i in t'.rows :: i in heirs.Values || (i in w.table.rows && i !in heirs)
  {
    hide Behind, Normalize, Disk.Exists, Disk.FileAt;
  }

  lemma OneHeir(w: World, disk: Disk, w': World, source: nat, dir: Dir, ids: seq<nat>, tasks: seq<Task>, moves: seq<Job>, leftovers: seq<CompanionMove>, heirs: map<nat, nat>, i: nat)
    requires source in w.animes && disk.Valid() && disk.foldCase == w.disk.foldCase && |moves| == |tasks| && Pending(w.table, tasks, 0) && IdsBelow(w.table)
    requires (forall j | j in ids :: j in w.table.rows) && tasks == Tasks(w.table.rows, ids, w.animes[source].expected)
    requires forall k | 0 <= k < |moves| :: moves[k].src == tasks[k].src && HasArrived(w.disk, disk, moves[k]) && moves[k].dest.dir == dir
    requires forall k | 0 <= k < |moves| :: NamedFor(moves[k].dest.name, w.animes[source].folderTitle, tasks[k].episode, Suffix(tasks[k].src.name))
    requires Followed(w.(disk := disk), w'.table, source, moves, tasks, 0, heirs) && i in heirs
    requires w'.disk == MoveLeftovers(disk, w.animes[source].dir, dir, leftovers) && w'.disk.foldCase == disk.foldCase
    requires (forall c | c in leftovers :: w.animes[source].dir <= c.path.dir) && !(w.animes[source].dir <= dir)
    ensures i in w.table.rows && Match(w.animes[source].expected, w.table.rows[i].number).Some?
    ensures i !in w'.table.rows && heirs[i] in w'.table.rows && heirs[i] !in w.table.rows
    ensures Became(w.disk, w.table.rows[i], w'.disk, w'.table.rows[heirs[i]], source, dir, w.animes[source].folderTitle, EpisodeOf(w.animes[source].expected, w.table.rows[i].number))
  {
    hide Videos, Spell, HasVideoExtension, MoveLeftovers, Behind, NamedFor, Suffix, Tasks, HasArrived, Disk.Valid, Match, Became, EpisodeOf, Normalize, Disk.Exists, Disk.FileAt;
    var k := BehindIs(tasks, i);
    TaskIsMatched(w.table.rows, ids, w.animes[source].expected, k);
    ArrivedIsThere(w.disk, disk, moves[k]);
    LeftoversSpare(disk, w.animes[source].dir, dir, leftovers, disk.Slot(moves[k].dest));
    ArrivedStays(w, disk, w'.disk, w.table.rows[i], w'.table.rows[heirs[i]], source, dir, w.animes[source].folderTitle, moves[k], tasks[k].episode);
    if i in w'.table.rows { NotAnHeir(w, heirs, i); }
  }

  lemma NotAnHeir(w: World, heirs: map<nat, nat>, i: nat)
    requires IdsBelow(w.table) && i in w.table.rows && (forall j | j in heirs :: heirs[j] >= w.table.next)
    ensures i !in heirs.Values
  {
  }

  lemma ArrivedIsThere(d: Disk, d': Disk, job: Job)
    requires HasArrived(d, d', job)
    ensures d'.Exists(job.dest) && d'.Slot(job.dest) in d'.files && d'.Slot(job.dest).dir == job.dest.dir
  {
    hide Spell, HasVideoExtension;
  }

  lemma BehindIs(tasks: seq<Task>, i: nat) returns (k: nat)
    requires i in Behind(tasks, 0)
    ensures k < |tasks| && tasks[k].id == i
  {
    k :| 0 <= k < |tasks| && tasks[k].id == i;
  }

  lemma OtherRowStays(w: World, disk: Disk, w': World, source: nat, dir: Dir, tasks: seq<Task>, moves: seq<Job>, leftovers: seq<CompanionMove>, heirs: map<nat, nat>, i: nat)
    requires Inv(w) && source in w.animes && disk.Valid() && disk.foldCase == w.disk.foldCase && |moves| == |tasks| && Pending(w.table, tasks, 0)
    requires forall k | 0 <= k < |moves| :: moves[k].src == tasks[k].src
    requires forall s | s in Videos(w.disk) && (forall i | 0 <= i < |moves| :: s != w.disk.Slot(moves[i].src)) :: s in Videos(disk) && Videos(disk)[s] == Videos(w.disk)[s]
    requires forall i | i in w.table.rows && w.table.rows[i].anime == source :: i in Behind(tasks, 0)
    requires heirs.Keys == Behind(tasks, 0) && i in w.table.rows && i !in heirs && i in w'.table.rows && w'.table.rows[i] == w.table.rows[i]
    requires w'.disk == MoveLeftovers(disk, w.animes[source].dir, dir, leftovers) && w'.disk.foldCase == disk.foldCase
    requires forall c | c in leftovers :: w.animes[source].dir <= c.path.dir
    ensures LeftAlone(w, w', i)
  {
    hide Videos, Spell, HasVideoExtension, MoveLeftovers, Behind, IsEpisodeName, Disk.Valid, RowsDistinct;
    var p := w.table.rows[i].path;
    var s := w.disk.Slot(p);
    assert OnDisk(w.disk, p);
    VideoFile(w.disk, p);
    forall k | 0 <= k < |moves| ensures s != w.disk.Slot(moves[k].src) {
      BehindHas(tasks, 0, k);
      RowsApart(w, i, tasks[k].id);
    }
    VideoFile(disk, p);
    PlacedUnder(w, source, i);
    LeftoversSpare(disk, w.animes[source].dir, dir, leftovers, s);
  }

  lemma RowsApart(w: World, i: nat, j: nat)
    requires Inv(w) && i in w.table.rows && j in w.table.rows && i != j
    ensures w.disk.Slot(w.table.rows[i].path) != w.disk.Slot(w.table.rows[j].path)
  {
    hide Spell, RowsOnDisk, RowsPlaced, DirsApart;
  }
}
