/** The library's guarantees over whole calls and whole runs. */
module LibraryRuns {
  import opened Text
  import opened Numbering
  import opened Disk
  import opened Episodes
  import opened Naming
  import opened Catalog
  import opened Library
  import opened LibraryInvariant
  import opened RelocationInvariant
  import opened RenameInvariant
  import opened Bystanders

  // ------------------------------------------------------------ scanning

  /** What the walk over an anime's directory can come up with: video files that are
      there, each once, as spelled on disk; it may miss some. */
  ghost predicate IsWalk(w: World, id: nat, listing: seq<Listed>)
    requires id in w.animes
  {
    && DistinctPaths(listing)
    && (forall l | l in listing :: OnDisk(w.disk, l.path) && w.animes[id].dir <= l.path.dir)
    && (forall l | l in listing :: w.disk.Exists(l.path) && w.disk.FileAt(l.path).name == l.path.name)
  }

  function ScanTable(t: Table, id: nat, existing: map<Path, Row>, listing: seq<Listed>, gone: seq<Path>, expected: seq<Expected>): Table {
    AssignLone(Sweep(Refresh(t, id, existing, listing, |listing|), gone, |gone|), id, expected).0
  }

  lemma WalkIsSeparate(w: World, stale: set<nat>, id: nat, listing: seq<Listed>)
    requires InvBut(w, stale) && id in w.animes && IsWalk(w, id, listing)
    ensures Separate(w.table, id, listing)
  {
    hide IsEpisodeName, Spell, Videos;
    forall i, l | i in w.table.rows && l in listing && w.table.rows[i].path == l.path ensures w.table.rows[i].anime == id {
      assert w.animes[id].dir <= w.table.rows[i].path.dir;
    }
  }

  /** Every row after a scan is a listed file's or one another anime had before. */
  lemma ScannedRow(w: World, stale: set<nat>, id: nat, listing: seq<Listed>, gone: seq<Path>, i: nat) returns (was: nat)
    requires InvBut(w, stale) && id in w.animes && IsWalk(w, id, listing) && w.table.Valid()
    requires PathSet(gone) == w.table.Of(id).Keys - PathsOf(listing)
    requires i in ScanTable(w.table, id, w.table.Of(id), listing, gone, w.animes[id].expected).rows
    ensures
      var t' := ScanTable(w.table, id, w.table.Of(id), listing, gone, w.animes[id].expected);
      && t'.Valid()
      && (t'.rows[i].anime == id ==> exists l :: l in listing && t'.rows[i].path == l.path)
      && (t'.rows[i].anime != id ==> was in w.table.rows && w.table.rows[was] == t'.rows[i])
  {
    hide IsEpisodeName, Spell, Videos, Refresh, Sweep, AssignLone, Scanned, Overrides, RowsFor, IsLone, RowsOnDisk, RowsDistinct, RowsPlaced;
    var t' := ScanTable(w.table, id, w.table.Of(id), listing, gone, w.animes[id].expected);
    WalkIsSeparate(w, stale, id, listing);
    ScanIsHistoryFree(w.table, id, listing, gone, w.animes[id].expected);
    var anime := t'.rows[i].anime;
    t'.OfHas(anime, i);
    if anime == id {
      ScannedKeys(id, listing, Overrides(w.table.Of(id)), w.animes[id].expected);
      assert t'.rows[i].path in PathsOf(listing);
      was := 0;
    } else {
      ScanKeepsOthers(w.table, id, listing, gone, w.animes[id].expected, anime);
      was := w.table.OfFrom(anime, t'.rows[i].path);
    }
  }

  lemma ScannedKeys(anime: nat, listing: seq<Listed>, overrides: map<Path, Option<string>>, expected: seq<Expected>)
    ensures Scanned(anime, listing, overrides, expected).Keys == PathsOf(listing)
  {
    hide RowFor, IsLone;
  }

  lemma ScannedOnDisk(w: World, stale: set<nat>, id: nat, listing: seq<Listed>, gone: seq<Path>, i: nat)
    requires InvBut(w, stale) && id in w.animes && IsWalk(w, id, listing) && w.table.Valid()
    requires PathSet(gone) == w.table.Of(id).Keys - PathsOf(listing)
    requires i in ScanTable(w.table, id, w.table.Of(id), listing, gone, w.animes[id].expected).rows
    ensures
      var t' := ScanTable(w.table, id, w.table.Of(id), listing, gone, w.animes[id].expected);
      && (t'.rows[i].anime !in stale - {id} ==>
            OnDisk(w.disk, t'.rows[i].path) && t'.rows[i].anime in w.animes && w.animes[t'.rows[i].anime].dir <= t'.rows[i].path.dir)
      && forall a | a in w.animes && a != t'.rows[i].anime :: !(w.animes[a].dir <= t'.rows[i].path.dir)
  {
    hide IsEpisodeName, Spell, Videos, ScanTable, RowsDistinct, DistinctPaths;
    var t' := ScanTable(w.table, id, w.table.Of(id), listing, gone, w.animes[id].expected);
    var was := ScannedRow(w, stale, id, listing, gone, i);
    if t'.rows[i].anime == id {
      forall a | a in w.animes && a != id ensures !(w.animes[a].dir <= t'.rows[i].path.dir) {
        if w.animes[a].dir <= t'.rows[i].path.dir { PrefixesCompare(w.animes[a].dir, w.animes[id].dir, t'.rows[i].path.dir); }
      }
    }
  }

  /** A scan of an anime leaves its rows consistent, whatever they were before; and the
      whole library, if no other anime's were stale. */
  lemma ScanRepairs(w: World, stale: set<nat>, id: nat, listing: seq<Listed>, gone: seq<Path>)
    requires InvBut(w, stale) && id in w.animes && IsWalk(w, id, listing) && w.table.Valid()
    requires PathSet(gone) == w.table.Of(id).Keys - PathsOf(listing)
    ensures InvBut(w.(table := ScanTable(w.table, id, w.table.Of(id), listing, gone, w.animes[id].expected)), stale - {id})
  {
    hide OnDisk, ScanTable, IsWalk, Spell, InvBut, PathSet, PathsOf;
    var t' := ScanTable(w.table, id, w.table.Of(id), listing, gone, w.animes[id].expected);
    forall i | i in t'.rows
      ensures t'.rows[i].anime !in stale - {id} ==>
        OnDisk(w.disk, t'.rows[i].path) && t'.rows[i].anime in w.animes && w.animes[t'.rows[i].anime].dir <= t'.rows[i].path.dir
      ensures forall a | a in w.animes && a != t'.rows[i].anime :: !(w.animes[a].dir <= t'.rows[i].path.dir)
    {
      ScannedOnDisk(w, stale, id, listing, gone, i);
    }
    forall i, j | i in t'.rows && j in t'.rows && w.disk.Slot(t'.rows[i].path) == w.disk.Slot(t'.rows[j].path) ensures i == j {
      ScannedDistinct(w, stale, id, listing, gone, i, j);
    }
    ScannedBelow(w, stale, id, listing, gone);
    InvFromRows(w, stale, t', stale - {id});
  }

  /** In particular a scan leaves a consistent library consistent. */
  lemma ScanKeepsInv(w: World, id: nat, listing: seq<Listed>, gone: seq<Path>)
    requires Inv(w) && id in w.animes && IsWalk(w, id, listing) && w.table.Valid()
    requires PathSet(gone) == w.table.Of(id).Keys - PathsOf(listing)
    ensures Inv(w.(table := ScanTable(w.table, id, w.table.Of(id), listing, gone, w.animes[id].expected)))
  {
    hide ScanTable, IsWalk, Inv, InvBut, PathSet, PathsOf;
    NothingStale(w);
    ScanRepairs(w, {}, id, listing, gone);
    assert {} - {id} == {};
    NothingStale(w.(table := ScanTable(w.table, id, w.table.Of(id), listing, gone, w.animes[id].expected)));
  }

  lemma InvFromRows(w: World, stale: set<nat>, t': Table, left: set<nat>)
    requires InvBut(w, stale) && t'.Valid()
    requires forall i | i in t'.rows && t'.rows[i].anime !in left ::
      OnDisk(w.disk, t'.rows[i].path) && t'.rows[i].anime in w.animes && w.animes[t'.rows[i].anime].dir <= t'.rows[i].path.dir
    requires forall i, a | i in t'.rows && a in w.animes && a != t'.rows[i].anime :: !(w.animes[a].dir <= t'.rows[i].path.dir)
    requires forall i, j | i in t'.rows && j in t'.rows && w.disk.Slot(t'.rows[i].path) == w.disk.Slot(t'.rows[j].path) :: i == j
    ensures InvBut(w.(table := t'), left)
  {
    hide OnDisk, Spell;
  }

  lemma ScannedBelow(w: World, stale: set<nat>, id: nat, listing: seq<Listed>, gone: seq<Path>)
    requires InvBut(w, stale) && id in w.animes && IsWalk(w, id, listing) && w.table.Valid()
    requires PathSet(gone) == w.table.Of(id).Keys - PathsOf(listing)
    ensures ScanTable(w.table, id, w.table.Of(id), listing, gone, w.animes[id].expected).Valid()
  {
    hide IsEpisodeName, Spell, Videos, Refresh, Sweep, AssignLone, Scanned, Overrides, RowsFor, IsLone;
    WalkIsSeparate(w, stale, id, listing);
    ScanIsHistoryFree(w.table, id, listing, gone, w.animes[id].expected);
  }

  /** Even a file system that ignores case gives no two rows one file. */
  lemma ScannedDistinct(w: World, stale: set<nat>, id: nat, listing: seq<Listed>, gone: seq<Path>, i: nat, j: nat)
    requires InvBut(w, stale) && id in w.animes && IsWalk(w, id, listing) && w.table.Valid()
    requires PathSet(gone) == w.table.Of(id).Keys - PathsOf(listing)
    requires
      var t' := ScanTable(w.table, id, w.table.Of(id), listing, gone, w.animes[id].expected);
      i in t'.rows && j in t'.rows && w.disk.Slot(t'.rows[i].path) == w.disk.Slot(t'.rows[j].path)
    ensures i == j
  {
    hide IsEpisodeName, Spell, Videos, ScanTable;
    var t' := ScanTable(w.table, id, w.table.Of(id), listing, gone, w.animes[id].expected);
    var a := ScannedRow(w, stale, id, listing, gone, i);
    var b := ScannedRow(w, stale, id, listing, gone, j);
    var p, q := t'.rows[i].path, t'.rows[j].path;
    assert p.dir == q.dir;
    OthersElsewhere(w, stale, id);
    if t'.rows[i].anime == id && t'.rows[j].anime == id {
      assert w.disk.FileAt(p).name == p.name && w.disk.FileAt(q).name == q.name;
      assert p == q;
    } else if t'.rows[i].anime != id && t'.rows[j].anime != id {
      assert a == b;
    }
  }

  /** No row of another anime lies under the directory. */
  lemma OthersElsewhere(w: World, stale: set<nat>, id: nat)
    requires InvBut(w, stale) && id in w.animes
    ensures forall i | i in w.table.rows && w.table.rows[i].anime != id :: !(w.animes[id].dir <= w.table.rows[i].path.dir)
  {
    hide OnDisk, RowsDistinct;
  }

  // ------------------------------------------------------------ sorting

  /** What is asked of the outside for a sort: rows come in some order, directory listings
      are complete or fail, the target folder is not the anime's own (the API sorts from
      download folders into content folders), and a relocation goes to a directory nobody
      has claimed. */
  ghost predicate SortAllowed(w: World, source: nat, folder: nat, env: SortEnv)
    requires forall i | i in env.ids :: i in w.table.rows
    requires folder in w.folders
  {
    source in w.animes ==>
      var anime := w.animes[source];
      var tasks := Tasks(w.table.rows, env.ids, anime.expected);
      && Lists(env.ids, w.table, source)
      && anime.folder != folder
      && (anime.anidb.Some? ==>
          var twins := Twins(w, anime.anidb.value, folder);
          && (|twins| == 1 ==>
              var target := TheElement(twins);
              target in w.animes && MergeFits(w, target, w.animes[target].dir, w.animes[target].folderTitle, tasks, env.turns))
          && (|twins| == 0 && |tasks| == |env.ids| ==>
              Unclaimed(w, NewDir(w, source, folder)) && RelocationLists(w, source, folder, tasks, env.turns, env.back, env.leftovers)))
  }

  /** The sort is a relocation that leaves rows behind: a moved file cannot be looked at, or
      a compensating move leaves its video where it is. */
  ghost predicate SortStrands(w: World, source: nat, folder: nat, env: SortEnv)
    requires forall i | i in env.ids :: i in w.table.rows
    requires folder in w.folders
  {
    && env.mkdir && source in w.animes && w.animes[source].anidb.Some?
    && |Twins(w, w.animes[source].anidb.value, folder)| == 0
    && |Tasks(w.table.rows, env.ids, w.animes[source].expected)| == |env.ids|
    && RelocationStrands(w, source, folder, Tasks(w.table.rows, env.ids, w.animes[source].expected), env.turns, env.back)
  }

  lemma {:induction false} AllTasks(rows: map<nat, Row>, ids: seq<nat>, expected: seq<Expected>)
    requires forall i | i in ids :: i in rows
    requires |Tasks(rows, ids, expected)| == |ids|
    ensures forall k | 0 <= k < |ids| :: Tasks(rows, ids, expected)[k].id == ids[k]
    decreases |ids|
  {
    hide Match;
    if ids != [] {
      var rest := Tasks(rows, ids[1..], expected);
      AllTasks(rows, ids[1..], expected);
      assert Tasks(rows, ids, expected)[1..] == rest;
    }
  }

  /** Where everything matched, every row of the anime is about to be moved. */
  lemma EveryRowIsBehind(w: World, source: nat, ids: seq<nat>, expected: seq<Expected>)
    requires Lists(ids, w.table, source) && (forall i | i in ids :: i in w.table.rows)
    requires |Tasks(w.table.rows, ids, expected)| == |ids|
    ensures forall i | i in w.table.rows && w.table.rows[i].anime == source :: i in Behind(Tasks(w.table.rows, ids, expected), 0)
  {
    hide Match, Tasks;
    AllTasks(w.table.rows, ids, expected);
    forall i | i in w.table.rows && w.table.rows[i].anime == source ensures i in Behind(Tasks(w.table.rows, ids, expected), 0) {
      assert i in IdsOf(w.table, source);
      assert i in (set j | j in ids);
      var k :| 0 <= k < |ids| && ids[k] == i;
      BehindHas(Tasks(w.table.rows, ids, expected), 0, k);
    }
  }

  /** A sort leaves the library consistent, whichever branch it takes and wherever it stops,
      unless it is a relocation that leaves rows behind. */
  lemma SortKeepsInv(w: World, source: nat, folder: nat, env: SortEnv)
    requires Inv(w) && (forall i | i in env.ids :: i in w.table.rows) && folder in w.folders
    requires SortAllowed(w, source, folder, env) && !SortStrands(w, source, folder, env)
    ensures Inv(SortAnime(w, source, folder, env).0)
  {
    hide Inv, Merge, Relocate, MergeFits, RelocationFits, RelocationLists, RelocationStrands, Unclaimed, Tasks, Lists, Pending, Behind, Match, Twins;
    if source in w.animes && w.animes[source].anidb.Some? {
      var anime := w.animes[source];
      var tasks := Tasks(w.table.rows, env.ids, anime.expected);
      var twins := Twins(w, anime.anidb.value, folder);
      TasksPending(w, env.ids, source, anime.expected);
      forall k | 0 <= k < |tasks| ensures w.table.rows[tasks[k].id].anime == source { assert tasks[k].id in env.ids; }
      if |twins| == 1 {
        TwinIsAnime(w, anime.anidb.value, folder);
        MergeKeepsInv(w, source, TheElement(twins), tasks, env.turns, env.unlinks);
      } else if |twins| == 0 && |tasks| == |env.ids| && env.mkdir {
        EveryRowIsBehind(w, source, env.ids, anime.expected);
        FitsIffNotStranded(w, source, folder, tasks, env.turns, env.back, env.leftovers);
        RelocateKeepsInv(w, source, folder, tasks, env.turns, env.back, env.leftovers);
      }
    }
  }

  /** However a sort ends, only rows of the anime sorted can be out of step. */
  lemma SortSparesOthers(w: World, source: nat, folder: nat, env: SortEnv)
    requires Inv(w) && (forall i | i in env.ids :: i in w.table.rows) && folder in w.folders
    requires SortAllowed(w, source, folder, env)
    ensures InvBut(SortAnime(w, source, folder, env).0, if SortStrands(w, source, folder, env) then {source} else {})
    ensures SortStrands(w, source, folder, env) ==>
      var w' := SortAnime(w, source, folder, env).0;
      OldOrNew(w.table, w'.table, source, NewDir(w, source, folder)) && w'.animes == w.animes
  {
    hide Inv, InvBut, Merge, Relocate, MergeFits, RelocationLists, RelocationStrands, Unclaimed, Tasks, Lists, Pending, Behind, Match, Twins, OldOrNew, NewDir;
    if SortStrands(w, source, folder, env) {
      var tasks := Tasks(w.table.rows, env.ids, w.animes[source].expected);
      TasksPending(w, env.ids, source, w.animes[source].expected);
      forall k | 0 <= k < |tasks| ensures w.table.rows[tasks[k].id].anime == source { assert tasks[k].id in env.ids; }
      EveryRowIsBehind(w, source, env.ids, w.animes[source].expected);
      RelocateSparesOthers(w, source, folder, tasks, env.turns, env.back, env.leftovers);
      if tasks == [] || env.ids == [] {
        NothingStale(w);
        StaleGrows(w, {}, {source});
        SameRowsOldOrNew(w.table, source, NewDir(w, source, folder));
      }
    } else {
      SortKeepsInv(w, source, folder, env);
      NothingStale(SortAnime(w, source, folder, env).0);
    }
  }

  // ------------------------------------------------------------ with other animes out of step

  /** The sort is about animes that are in step, and a relocation's new directory is none in
      which rows of others lie. */
  predicate SortClear(w: World, stale: set<nat>, source: nat, folder: nat)
    requires folder in w.folders
  {
    && source !in stale
    && (source in w.animes && w.animes[source].anidb.Some? ==>
          var twins := Twins(w, w.animes[source].anidb.value, folder);
          && (|twins| == 1 ==> TheElement(twins) !in stale)
          && (|twins| == 0 ==> ClearOf(Aside(w, stale), NewDir(w, source, folder))))
  }

  /** So is the rename, and the directory's new name. */
  predicate RenameClear(w: World, stale: set<nat>, id: nat, env: RenameEnv)
    requires forall i | i in env.ids :: i in w.table.rows
    requires id in w.animes ==> w.animes[id].dir != []
  {
    && id !in stale && (forall i | i in env.ids :: w.table.rows[i].anime !in stale)
    && (id in w.animes ==> ClearOf(Aside(w, stale), NewName(w, id, env)))
  }

  lemma NobodyRenamed(w: World, id: nat, env: RenameEnv)
    requires id !in w.animes && forall i | i in env.ids :: i in w.table.rows
    ensures RenameAnime(w, id, env).0 == w
  {
  }

  /** A rename of an anime in step leaves everything else as it was, in step or not. */
  lemma RenameKeepsRest(w: World, stale: set<nat>, id: nat, env: RenameEnv)
    requires InvBut(w, stale) && (forall i | i in env.ids :: i in w.table.rows)
    requires (id in w.animes ==> w.animes[id].dir != []) && RenameAllowed(w, id, env) && RenameClear(w, stale, id, env)
    ensures InvBut(RenameAnime(w, id, env).0, stale)
  {
    hide Inv, InvBut, RenameAnime, RenameAllowed, ClearOf, Beside, Lawful, AsideDistinct, PlacedOr, NewName, Core, Aside, IdsBelow;
    if id !in w.animes {
      NobodyRenamed(w, id, env);
    } else {
      var core, aside := Core(w, stale), Aside(w, stale);
      InvButBelow(w, stale);
      CoreAndAside(w, stale);
      CoreIsConsistent(w, stale);
      CoreNewName(w, stale, id, env);
      CoreIs(w, stale);
      RenameBeside(core, aside, stale, id, env);
      RenameKeepsInv(core, id, env);
      var w' := RenameAnime(core, id, env).0;
      NothingStale(w');
      AsideIsDistinct(w, stale);
      LawfulElsewhere(aside, w.animes, w'.animes, NewName(w, id, env));
      ConsistentIsPlaced(w', NewName(w, id, env));
      SameAside(w.disk, w'.disk, aside);
      PutBack(w', aside, stale, {}, NewName(w, id, env));
      assert stale + {} == stale;
    }
  }

  /** A sort does the same with the rows of other animes as without. */
  lemma SortBeside(w: World, stale: set<nat>, source: nat, folder: nat, env: SortEnv)
    requires InvBut(w, stale) && (forall i | i in env.ids :: i in w.table.rows) && folder in w.folders
    requires source in w.animes && w.animes[source].anidb.Some?
    requires SortAllowed(w, source, folder, env) && SortClear(w, stale, source, folder)
    ensures
      var core, aside := Core(w, stale), Aside(w, stale);
      && folder in core.folders && (forall i | i in env.ids :: i in core.table.rows)
      && SortAllowed(core, source, folder, env) && (SortStrands(core, source, folder, env) <==> SortStrands(w, source, folder, env))
      && var (w', end) := SortAnime(core, source, folder, env);
      && SortAnime(w, source, folder, env) == (Plus(w', aside), end) && Beside(w'.table, aside, stale)
      && w'.disk.foldCase == w.disk.foldCase
      && forall a | a in w'.animes :: w'.animes[a].dir == PutBackDir(w, source, folder) || (a in w.animes && w'.animes[a].dir == w.animes[a].dir)
  {
    hide Inv, InvBut, Merge, Relocate, MergeFits, RelocationLists, RelocationStrands, Unclaimed, Tasks, Lists, Match, ClearOf, Beside, Core, Aside, IdsBelow, Sanitize;
    var core, aside := Core(w, stale), Aside(w, stale);
    InvButBelow(w, stale);
    CoreAndAside(w, stale);
    CoreIsConsistent(w, stale);
    CoreIs(w, stale);
    CoreLists(w, stale, env.ids, source);
    BesideIsDisjoint(core.table, aside, stale);
    AsideIsClear(w, stale, source);
    var expected := w.animes[source].expected;
    TasksBeside(core.table.rows, aside, env.ids, expected);
    SourcesInside(core, source, env.ids);
    var tasks := Tasks(core.table.rows, env.ids, expected);
    assert tasks == Tasks(w.table.rows, env.ids, expected);
    var twins := Twins(w, w.animes[source].anidb.value, folder);
    assert Twins(core, w.animes[source].anidb.value, folder) == twins;
    SameOutside(w, core, source, folder, tasks, env);
    if |twins| == 1 {
      var target := TheElement(twins);
      TwinIsAnime(w, w.animes[source].anidb.value, folder);
      AsideIsClear(w, stale, target);
      MergeLoopBeside(core, aside, stale, target, w.animes[source].dir, w.animes[target].dir, w.animes[target].folderTitle, tasks, env.turns, 0);
      MergeBeside(core, aside, stale, source, target, tasks, env.turns, env.unlinks);
    } else if |twins| == 0 {
      RelocateBeside(core, aside, stale, source, folder, tasks, env.turns, env.back, env.leftovers);
    }
  }

  /** The new directory of a relocation, and for a merge the one merged from. */
  function PutBackDir(w: World, source: nat, folder: nat): Dir
    requires source in w.animes && w.animes[source].anidb.Some? && folder in w.folders
  {
    if |Twins(w, w.animes[source].anidb.value, folder)| == 0 then NewDir(w, source, folder) else w.animes[source].dir
  }

  lemma NobodySorted(w: World, source: nat, folder: nat, env: SortEnv)
    requires (source !in w.animes || w.animes[source].anidb.None?) && folder in w.folders && forall i | i in env.ids :: i in w.table.rows
    ensures SortAnime(w, source, folder, env).0 == w && !SortStrands(w, source, folder, env)
  {
  }

  lemma StrandsIsRelocation(w: World, source: nat, folder: nat, env: SortEnv)
    requires folder in w.folders && (forall i | i in env.ids :: i in w.table.rows) && SortStrands(w, source, folder, env)
    ensures source in w.animes && w.animes[source].anidb.Some? && PutBackDir(w, source, folder) == NewDir(w, source, folder)
  {
    hide RelocationStrands, NewDir, Twins, Tasks;
  }

  lemma PutBackDirIsClear(w: World, stale: set<nat>, source: nat, folder: nat)
    requires InvBut(w, stale) && source in w.animes && w.animes[source].anidb.Some? && folder in w.folders
    requires SortClear(w, stale, source, folder)
    ensures ClearOf(Aside(w, stale), PutBackDir(w, source, folder))
  {
    hide InvBut, ClearOf, Aside, Twins, NewDir;
    AsideIsClear(w, stale, source);
  }

  /** A sort of an anime in step, into none or one in step, puts at most that anime out of
      step. */
  lemma SortKeepsRest(w: World, stale: set<nat>, source: nat, folder: nat, env: SortEnv)
    requires InvBut(w, stale) && (forall i | i in env.ids :: i in w.table.rows) && folder in w.folders
    requires SortAllowed(w, source, folder, env) && SortClear(w, stale, source, folder)
    ensures InvBut(SortAnime(w, source, folder, env).0, stale + (if SortStrands(w, source, folder, env) then {source} else {}))
  {
    hide Inv, InvBut, SortAnime, SortAllowed, SortStrands, ClearOf, Beside, Lawful, AsideDistinct, PlacedOr, SortClear, Core, Aside, PutBackDir, NewDir, OldOrNew;
    if source !in w.animes || w.animes[source].anidb.None? {
      NobodySorted(w, source, folder, env);
      assert stale + {} == stale;
    } else {
      var core, aside := Core(w, stale), Aside(w, stale);
      var dir := PutBackDir(w, source, folder);
      CoreIs(w, stale);
      CoreIsConsistent(w, stale);
      SortBeside(w, stale, source, folder, env);
      SortSparesOthers(core, source, folder, env);
      var w' := SortAnime(core, source, folder, env).0;
      AsideIsDistinct(w, stale);
      SameAside(w.disk, w'.disk, aside);
      PutBackDirIsClear(w, stale, source, folder);
      LawfulElsewhere(aside, w.animes, w'.animes, dir);
      if SortStrands(core, source, folder, env) {
        StrandsIsRelocation(core, source, folder, env);
        SameNewDir(w, core, source, folder);
        StrandedIsPlaced(core, w', source, dir);
        PutBack(w', aside, stale, {source}, dir);
      } else {
        NothingStale(w');
        ConsistentIsPlaced(w', dir);
        PutBack(w', aside, stale, {}, dir);
      }
    }
  }

  lemma SameNewDir(w: World, core: World, source: nat, folder: nat)
    requires source in w.animes && w.animes[source].anidb.Some? && folder in w.folders && core.animes == w.animes && core.folders == w.folders
    ensures NewDir(core, source, folder) == NewDir(w, source, folder) && PutBackDir(core, source, folder) == PutBackDir(w, source, folder)
  {
    hide Sanitize;
    assert Twins(core, w.animes[source].anidb.value, folder) == Twins(w, w.animes[source].anidb.value, folder);
  }

  /** What is out of step when all files of a relocation have moved and then one cannot be
      looked at depends on which one. */
  lemma SortStrandsRows(w: World, source: nat, folder: nat, env: SortEnv, failing: nat)
    requires Inv(w) && (forall i | i in env.ids :: i in w.table.rows) && folder in w.folders
    requires source in w.animes && Lists(env.ids, w.table, source) && Unclaimed(w, NewDir(w, source, folder))
    requires w.animes[source].anidb.Some? && Twins(w, w.animes[source].anidb.value, folder) == {}
    requires |Tasks(w.table.rows, env.ids, w.animes[source].expected)| == |env.ids| && env.mkdir
    requires LookFails(w, source, folder, Tasks(w.table.rows, env.ids, w.animes[source].expected), env.turns, failing)
    ensures
      var (w', end) := SortAnime(w, source, folder, env);
      && end == Raised && RowsDistinct(w'.disk, w'.table)
      && (RowsOnDisk(w') <==> failing == |env.ids| - 1)
      && (RowsPlaced(w') <==> failing == 0)
      && (Inv(w') <==> |env.ids| == 1)
  {
    hide Inv, Relocate, Unclaimed, Tasks, Lists, Pending, Behind, Match, Twins, LookFails, RowsOnDisk, RowsPlaced, RowsDistinct;
    var tasks := Tasks(w.table.rows, env.ids, w.animes[source].expected);
    TasksPending(w, env.ids, source, w.animes[source].expected);
    forall k | 0 <= k < |tasks| ensures w.table.rows[tasks[k].id].anime == source { assert tasks[k].id in env.ids; }
    EveryRowIsBehind(w, source, env.ids, w.animes[source].expected);
    LookFailsInRange(w, source, folder, tasks, env.turns, failing);
    StatFailureStrandsRows(w, source, folder, tasks, env.turns, env.back, env.leftovers, failing);
  }

  lemma LookFailsInRange(w: World, source: nat, folder: nat, tasks: seq<Task>, turns: nat -> Turn, failing: nat)
    requires source in w.animes && folder in w.folders && LookFails(w, source, folder, tasks, turns, failing)
    ensures failing < |tasks|
  {
  }

  // ------------------------------------------------------------ runs

  /** One scan of an anime: what the walk came up with, and the rows it deletes, in order. */
  datatype ScanOf = ScanOf(id: nat, listing: seq<Listed>, gone: seq<Path>)

  /** What the application does, and what happens to the disk beside it. */
  datatype Op =
    | Sort(source: nat, folder: nat, sortEnv: SortEnv)
    | RenameOne(id: nat, renameEnv: RenameEnv)
    | Scan(scan: ScanOf)
    | Discover(id: nat, anime: Anime)
    | Forget(id: nat)
    | Identify(id: nat, anime: Anime)
    | Correct(row: nat, number: Option<string>)
    | Arrive(disk: Disk)
    | Vanish(disk: Disk)

  ghost predicate ScanAllowed(w: World, scan: ScanOf) {
    && scan.id in w.animes && IsWalk(w, scan.id, scan.listing) && w.table.Valid()
    && PathSet(scan.gone) == w.table.Of(scan.id).Keys - PathsOf(scan.listing)
  }

  ghost function Rescanned(w: World, scan: ScanOf): World
    requires ScanAllowed(w, scan)
  {
    w.(table := ScanTable(w.table, scan.id, w.table.Of(scan.id), scan.listing, scan.gone, w.animes[scan.id].expected))
  }

  /** Files have come, or changed their contents, but none has gone. */
  ghost predicate Grown(d: Disk, d': Disk) {
    d'.Valid() && d'.foldCase == d.foldCase && forall s | s in d.files :: s in d'.files
  }

  /** Files have gone. */
  ghost predicate Shrunk(d: Disk, d': Disk) {
    d'.Valid() && d'.foldCase == d.foldCase && forall s | s in d'.files :: s in d.files
  }

  /** The animes that have lost an episode. */
  function Losers(t: Table, d: Disk): set<nat> {
    set i | i in t.rows && !OnDisk(d, t.rows[i].path) :: t.rows[i].anime
  }

  /** When an operation can be called, and what is asked of the outside. Files come and go
      when they like, and a relocation may leave rows behind; the animes concerned are not
      sorted or renamed until they have been scanned, and no directory is made an anime's in
      which their rows lie. */
  ghost predicate Allowed(w: World, stale: set<nat>, op: Op) {
    match op
    case Sort(source, folder, env) =>
      (forall i | i in env.ids :: i in w.table.rows) && folder in w.folders && SortAllowed(w, source, folder, env) && SortClear(w, stale, source, folder)
    case RenameOne(id, env) =>
      && (forall i | i in env.ids :: i in w.table.rows) && (id in w.animes ==> w.animes[id].dir != [])
      && RenameAllowed(w, id, env) && RenameClear(w, stale, id, env)
    case Scan(scan) => ScanAllowed(w, scan)
    case Discover(id, anime) => id !in w.animes && Unclaimed(w, anime.dir) && ClearOf(Aside(w, stale), anime.dir)
    case Forget(id) => true
    case Identify(id, anime) => id in w.animes && anime.dir == w.animes[id].dir
    case Correct(row, number) => true
    case Arrive(disk) => Grown(w.disk, disk)
    case Vanish(disk) => Shrunk(w.disk, disk)
  }

  ghost function Step(w: World, stale: set<nat>, op: Op): World
    requires Allowed(w, stale, op)
  {
    match op
    case Sort(source, folder, env) => SortAnime(w, source, folder, env).0
    case RenameOne(id, env) => RenameAnime(w, id, env).0
    case Scan(scan) => Rescanned(w, scan)
    case Discover(id, anime) => w.(animes := w.animes[id := anime])
    case Forget(id) => DeleteAnime(w, id)
    case Identify(id, anime) => w.(animes := w.animes[id := anime])
    case Correct(row, number) => w.(table := SetManual(w.table, row, number))
    case Arrive(disk) => w.(disk := disk)
    case Vanish(disk) => w.(disk := disk)
  }

  /** The animes whose rows may be out of step afterwards. */
  ghost function StaleAfter(w: World, stale: set<nat>, op: Op): set<nat>
    requires Allowed(w, stale, op)
  {
    match op
    case Sort(source, folder, env) => stale + (if SortStrands(w, source, folder, env) then {source} else {})
    case Scan(scan) => stale - {scan.id}
    case Forget(id) => stale - {id}
    case Vanish(disk) => stale + Losers(w.table, disk)
    case _ => stale
  }

  /** Files that come, or change, put nothing out of step. */
  lemma GrownKeeps(w: World, stale: set<nat>, d': Disk)
    requires InvBut(w, stale) && Grown(w.disk, d')
    ensures InvBut(w.(disk := d'), stale)
  {
    hide IsEpisodeName, Spell, HasVideoExtension, DirsApart;
  }

  /** Files that go put only the animes out of step that have lost them. */
  lemma ShrunkKeeps(w: World, stale: set<nat>, d': Disk)
    requires InvBut(w, stale) && Shrunk(w.disk, d')
    ensures InvBut(w.(disk := d'), stale + Losers(w.table, d'))
  {
    hide OnDisk, Spell, DirsApart;
  }

  lemma StepKeepsInv(w: World, stale: set<nat>, op: Op)
    requires InvBut(w, stale) && Allowed(w, stale, op)
    ensures InvBut(Step(w, stale, op), StaleAfter(w, stale, op))
  {
    hide Inv, InvBut, SortAnime, RenameAnime, ScanTable, SortAllowed, SortStrands, RenameAllowed, SortClear, RenameClear, IsWalk, Losers, Shrunk, Grown, Unclaimed, ClearOf, DeleteAnime, SetManual;
    match op
    case Sort(source, folder, env) => SortKeepsRest(w, stale, source, folder, env);
    case RenameOne(id, env) => RenameKeepsRest(w, stale, id, env);
    case Scan(scan) => ScanRepairs(w, stale, scan.id, scan.listing, scan.gone);
    case Discover(id, anime) => AnimeAdded(w, stale, id, anime);
    case Forget(id) => AnimeForgotten(w, stale, id);
    case Identify(id, anime) => AnimeEdited(w, stale, id, anime);
    case Correct(row, number) => RowCorrected(w, stale, row, number);
    case Arrive(disk) => GrownKeeps(w, stale, disk);
    case Vanish(disk) => ShrunkKeeps(w, stale, disk);
  }

  lemma AnimeAdded(w: World, stale: set<nat>, id: nat, anime: Anime)
    requires InvBut(w, stale) && id !in w.animes && Unclaimed(w, anime.dir) && ClearOf(Aside(w, stale), anime.dir)
    ensures InvBut(w.(animes := w.animes[id := anime]), stale)
  {
    hide OnDisk, RowsDistinct;
    forall i | i in w.table.rows ensures !(anime.dir <= w.table.rows[i].path.dir) {
      var row := w.table.rows[i];
      if row.anime in stale {
        assert i in Aside(w, stale);
      } else if anime.dir <= row.path.dir {
        PrefixesCompare(anime.dir, w.animes[row.anime].dir, row.path.dir);
      }
    }
  }

  lemma AnimeEdited(w: World, stale: set<nat>, id: nat, anime: Anime)
    requires InvBut(w, stale) && id in w.animes && anime.dir == w.animes[id].dir
    ensures InvBut(w.(animes := w.animes[id := anime]), stale)
  {
    hide OnDisk, RowsDistinct;
  }

  /** With the anime its rows go, in step or not. */
  lemma AnimeForgotten(w: World, stale: set<nat>, id: nat)
    requires InvBut(w, stale)
    ensures InvBut(DeleteAnime(w, id), stale - {id})
  {
    hide OnDisk, Spell;
    var w' := DeleteAnime(w, id);
    assert forall i | i in w'.table.rows :: w'.table.rows[i] == w.table.rows[i];
  }

  lemma RowCorrected(w: World, stale: set<nat>, row: nat, number: Option<string>)
    requires InvBut(w, stale)
    ensures InvBut(w.(table := SetManual(w.table, row, number)), stale)
  {
    hide OnDisk, Spell;
    var t' := SetManual(w.table, row, number);
    assert t'.rows.Keys == w.table.rows.Keys;
    assert forall i | i in t'.rows :: t'.rows[i].path == w.table.rows[i].path && t'.rows[i].anime == w.table.rows[i].anime;
  }

  ghost predicate IsRun(w: World, stale: set<nat>, ops: seq<Op>)
    decreases |ops|
  {
    ops == [] || (Allowed(w, stale, ops[0]) && IsRun(Step(w, stale, ops[0]), StaleAfter(w, stale, ops[0]), ops[1..]))
  }

  /** The library after a run, and the animes whose rows may be out of step. */
  ghost function After(w: World, stale: set<nat>, ops: seq<Op>): (World, set<nat>)
    requires IsRun(w, stale, ops)
    decreases |ops|
  {
    if ops == [] then (w, stale) else After(Step(w, stale, ops[0]), StaleAfter(w, stale, ops[0]), ops[1..])
  }

  lemma {:induction false} RunKeepsInv(w: World, stale: set<nat>, ops: seq<Op>)
    requires InvBut(w, stale) && IsRun(w, stale, ops)
    ensures InvBut(After(w, stale, ops).0, After(w, stale, ops).1)
    decreases |ops|
  {
    hide InvBut, Allowed, Step, StaleAfter;
    if ops != [] {
      StepKeepsInv(w, stale, ops[0]);
      RunKeepsInv(Step(w, stale, ops[0]), StaleAfter(w, stale, ops[0]), ops[1..]);
    }
  }

  /** Starting from an empty catalog beside any disk, after any run of scans, sorts,
      renames, discoveries, identifications, corrections and removals -- ended normally, by
      a conflict or by an uncaught error -- with files coming and going in between: no two
      rows name the same path, and every row names a file that is there and lies under its
      own anime's directory, except rows of an anime that has lost files, or whose relocation
      has left rows behind, and that has been neither scanned nor removed since. */
  lemma RowsAgreeWithDisk(disk: Disk, folders: map<nat, Dir>, ops: seq<Op>)
    requires disk.Valid() && IsRun(World(disk, folders, map[], Table(map[], 0)), {}, ops)
    ensures
      var (w, stale) := After(World(disk, folders, map[], Table(map[], 0)), {}, ops);
      && (forall i, j | i in w.table.rows && j in w.table.rows && i != j :: w.table.rows[i].path != w.table.rows[j].path)
      && (forall i | i in w.table.rows && w.table.rows[i].anime !in stale ::
            && w.disk.Exists(w.table.rows[i].path)
            && w.table.rows[i].anime in w.animes && w.animes[w.table.rows[i].anime].dir <= w.table.rows[i].path.dir)
  {
    hide IsEpisodeName, Spell, HasVideoExtension;
    RunKeepsInv(World(disk, folders, map[], Table(map[], 0)), {}, ops);
    var (w, stale) := After(World(disk, folders, map[], Table(map[], 0)), {}, ops);
    forall i | i in w.table.rows && w.table.rows[i].anime !in stale ensures w.disk.Exists(w.table.rows[i].path) {
      assert OnDisk(w.disk, w.table.rows[i].path);
    }
  }
}
