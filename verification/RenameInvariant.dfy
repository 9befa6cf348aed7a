/** Renaming an anime's directory and files keeps rows and disk in agreement, also when it
    stops at a file that cannot be moved. */
module RenameInvariant {
  import opened Text
  import opened Numbering
  import opened Disk
  import opened Episodes
  import opened Naming
  import opened Catalog
  import opened RenamePlan
  import opened Library
  import opened LibraryInvariant

  // ------------------------------------------------------------ the directory

  lemma RebaseThereAndBack(from: Dir, to: Dir, p: Path)
    requires from <= p.dir
    ensures to <= RebasePath(from, to, p).dir
    ensures RebasePath(to, from, RebasePath(from, to, p)) == p
  {
    assert to + p.dir[|from|..] == Rebase(from, to, p.dir);
    assert (to + p.dir[|from|..])[|to|..] == p.dir[|from|..];
    assert from + p.dir[|from|..] == p.dir;
  }

  /** Where each file is after the directory was renamed, the target being unoccupied. */
  lemma RebasedDisk(d: Disk, from: Dir, to: Dir, s: Path)
    requires !DirTaken(d, to)
    ensures s in d.files ==> RebasePath(from, to, s) in RebaseDisk(d, from, to).files
    ensures s in d.files ==> RebaseDisk(d, from, to).files[RebasePath(from, to, s)] == d.files[s]
    ensures s in RebaseDisk(d, from, to).files ==>
      exists o :: o in d.files && s == RebasePath(from, to, o) && RebaseDisk(d, from, to).files[s] == d.files[o]
  {
    var d' := RebaseDisk(d, from, to);
    if s in d.files && from <= s.dir {
      RebaseThereAndBack(from, to, s);
      var moved := set s | s in d.files && from <= s.dir :: RebasePath(from, to, s);
      assert RebasePath(from, to, s) in moved;
    }
    if s in d'.files {
      if s in d.files && !(from <= s.dir) && !(exists o | o in d.files && from <= o.dir :: s == RebasePath(from, to, o)) {
        assert s == RebasePath(from, to, s);
      } else {
        var o :| o in d.files && from <= o.dir && s == RebasePath(from, to, o);
        RebaseThereAndBack(from, to, o);
      }
    }
  }

  lemma RebaseKeepsValid(d: Disk, from: Dir, to: Dir)
    requires d.Valid() && !DirTaken(d, to)
    ensures RebaseDisk(d, from, to).Valid() && RebaseDisk(d, from, to).foldCase == d.foldCase
  {
    hide RebaseDisk, Spell;
    var d' := RebaseDisk(d, from, to);
    RebaseFolds(d, from, to);
    forall s | s in d'.files ensures d'.Slot(Path(s.dir, d'.files[s].name)) == s {
      RebasedDisk(d, from, to, s);
      var o :| o in d.files && s == RebasePath(from, to, o) && d'.files[s] == d.files[o];
      assert d.Slot(Path(o.dir, d.files[o].name)) == o;
    }
  }

  lemma RebaseFolds(d: Disk, from: Dir, to: Dir)
    ensures RebaseDisk(d, from, to).foldCase == d.foldCase
  {
  }

  lemma RebasedOnDisk(d: Disk, from: Dir, to: Dir, p: Path)
    requires !DirTaken(d, to) && OnDisk(d, p)
    ensures OnDisk(RebaseDisk(d, from, to), RebasePath(from, to, p))
  {
    hide RebaseDisk, IsEpisodeName, HasVideoExtension, Spell;
    RebaseFolds(d, from, to);
    RebasedDisk(d, from, to, d.Slot(p));
    assert d.Slot(RebasePath(from, to, p)) == RebasePath(from, to, d.Slot(p));
  }

  lemma RebasePathInjective(from: Dir, to: Dir, a: Path, b: Path)
    requires !(to <= a.dir) && !(to <= b.dir) && RebasePath(from, to, a) == RebasePath(from, to, b)
    ensures a == b
  {
    if from <= a.dir { RebaseThereAndBack(from, to, a); }
    if from <= b.dir { RebaseThereAndBack(from, to, b); }
  }

  /** What becomes of a row when the directory is renamed. */
  lemma RebasedRow(w: World, id: nat, to: Dir, i: nat)
    requires Inv(w) && id in w.animes && !DirTaken(w.disk, to) && i in w.table.rows
    ensures
      var w' := RenameDir(w, id, to);
      && i in w'.table.rows && w'.table.rows[i].anime == w.table.rows[i].anime
      && w'.table.rows[i].path == RebasePath(w.animes[id].dir, to, w.table.rows[i].path)
      && OnDisk(w'.disk, w'.table.rows[i].path)
      && !(to <= w.table.rows[i].path.dir)
      && w'.table.rows[i].anime in w'.animes
      && w'.animes[w'.table.rows[i].anime].dir <= w'.table.rows[i].path.dir
  {
    hide RebaseDisk, IsEpisodeName, Spell, Videos, DirTaken;
    var from := w.animes[id].dir;
    RowUnder(w, id, i, from);
    assert OnDisk(w.disk, w.table.rows[i].path);
    RebasedOnDisk(w.disk, from, to, w.table.rows[i].path);
    NotTaken(w.disk, to, w.table.rows[i].path);
    if w.table.rows[i].anime == id { RebaseThereAndBack(from, to, w.table.rows[i].path); }
  }

  lemma RebasedSlots(d: Disk, from: Dir, to: Dir, p: Path, q: Path)
    requires !(to <= p.dir) && !(to <= q.dir)
    requires d.Slot(RebasePath(from, to, p)) == d.Slot(RebasePath(from, to, q))
    ensures d.Slot(p) == d.Slot(q)
  {
    hide Spell;
    assert d.Slot(RebasePath(from, to, p)) == RebasePath(from, to, d.Slot(p));
    assert d.Slot(RebasePath(from, to, q)) == RebasePath(from, to, d.Slot(q));
    RebasePathInjective(from, to, d.Slot(p), d.Slot(q));
  }

  lemma RebasedDistinct(w: World, id: nat, to: Dir)
    requires Inv(w) && id in w.animes && !DirTaken(w.disk, to)
    ensures RowsDistinct(RenameDir(w, id, to).disk, RenameDir(w, id, to).table)
  {
    hide RebaseDisk, IsEpisodeName, Spell, Videos, DirTaken, RebasePath, OnDisk, Inv;
    var w' := RenameDir(w, id, to);
    var from := w.animes[id].dir;
    RebaseFolds(w.disk, from, to);
    forall i, j | i in w'.table.rows && j in w'.table.rows && w'.disk.Slot(w'.table.rows[i].path) == w'.disk.Slot(w'.table.rows[j].path)
      ensures i == j
    {
      RebasedRow(w, id, to, i);
      RebasedRow(w, id, to, j);
      RebasedSlots(w.disk, from, to, w.table.rows[i].path, w.table.rows[j].path);
      DistinctHere(w, i, j);
    }
  }

  lemma DistinctHere(w: World, i: nat, j: nat)
    requires Inv(w) && i in w.table.rows && j in w.table.rows && w.disk.Slot(w.table.rows[i].path) == w.disk.Slot(w.table.rows[j].path)
    ensures i == j
  {
  }

  /** Renaming the directory to a name nobody has claimed keeps the library consistent. */
  lemma RenameDirKeepsInv(w: World, id: nat, to: Dir)
    requires Inv(w) && id in w.animes && to != [] && !DirTaken(w.disk, to)
    requires forall a | a in w.animes && a != id :: Apart(w.animes[a].dir, to)
    ensures Inv(RenameDir(w, id, to))
    ensures RenameDir(w, id, to).table.rows.Keys == w.table.rows.Keys
  {
    hide RebaseDisk, IsEpisodeName, Spell, Videos, DirTaken, RebasePath, OnDisk, Disk.Valid, RowsDistinct;
    var w' := RenameDir(w, id, to);
    RebaseKeepsValid(w.disk, w.animes[id].dir, to);
    forall i | i in w.table.rows
      ensures OnDisk(w'.disk, w'.table.rows[i].path)
      ensures w'.table.rows[i].anime in w'.animes && w'.animes[w'.table.rows[i].anime].dir <= w'.table.rows[i].path.dir
    {
      RebasedRow(w, id, to, i);
    }
    RebasedDistinct(w, id, to);
  }

  /** A row lies under an anime's directory exactly when it is the anime's own. */
  lemma RowUnder(w: World, id: nat, i: nat, from: Dir)
    requires Inv(w) && id in w.animes && from == w.animes[id].dir && i in w.table.rows
    ensures from <= w.table.rows[i].path.dir <==> w.table.rows[i].anime == id
  {
    PlacedUnder(w, id, i);
  }

  lemma NotTaken(d: Disk, dir: Dir, p: Path)
    requires !DirTaken(d, dir) && OnDisk(d, p)
    ensures !(dir <= p.dir)
  {
    hide IsEpisodeName, HasVideoExtension, Spell;
    assert d.Slot(p) in d.files;
  }

  // ------------------------------------------------------------ the files

  /** A variant of a canonical episode name is an episode name. */
  lemma VariantIsEpisode(name: string, stem: string, ext: string)
    requires IsExtension(ext) && HasVideoExtension("x" + ext) && stem != "" && exists k | 0 <= k < |stem| :: stem[k] != '.'
    requires IsNameVariant(name, stem + ext)
    ensures IsEpisodeName(name)
  {
    hide HasVideoExtension, IsNameVariant;
    VariantKeepsExtension(name, stem, ext);
    ExtensionIsSuffix(name);
    SplitBuilt("x", ext);
    Rollback.SameKind("x" + ext, name);
  }

  lemma ExtensionIsSuffix(name: string)
    requires IsExtension(Extension(name))
    ensures Suffix(name) == Extension(name)
  {
  }

  /** Every planned name is an episode name. */
  lemma PlannedAreEpisodes(dir: Dir, title: string, locals: seq<Local>, expected: seq<Expected>)
    requires forall l | l in locals :: IsEpisodeName(l.path.name)
    ensures forall r | r in PlanFor(dir, title, locals, expected).fileRenames :: IsEpisodeName(r.name)
  {
    hide IsEpisodeName, IsNameVariant, Matched, Settle, Finals, RenamesUpTo, Sanitize, ItemFor;
    var items := Items(Sanitize(title), locals, expected);
    var renames := Renames(items);
    RenamesAreUnsettled(items, |items|);
    FinalNamesDistinct(items);
    var indexed := Reindexed(renames, Matched(locals, expected));
    forall r | r in indexed ensures IsEpisodeName(r.name) {
      var k :| 0 <= k < |indexed| && indexed[k] == r;
      assert renames[k] in renames;
      var p := renames[k].index;
      FinalIsEpisode(Sanitize(title), locals, expected, p, r.name);
    }
  }

  lemma FinalIsEpisode(title: string, locals: seq<Local>, expected: seq<Expected>, p: nat, name: string)
    requires forall l | l in locals :: IsEpisodeName(l.path.name)
    requires p < |Matched(locals, expected)|
    requires IsNameVariant(name, ItemFor(title, locals[Matched(locals, expected)[p]], expected).target)
    ensures IsEpisodeName(name)
  {
    hide MatchedUpTo, Match, EpisodeStem, IsNameVariant, HasVideoExtension;
    var local := locals[Matched(locals, expected)[p]];
    assert local in locals;
    var e := Match(expected, local.number).value;
    VideoHasExtension(local.path.name);
    SplitBuilt("x", Suffix(local.path.name));
    Rollback.SameKind("x" + Suffix(local.path.name), local.path.name);
    VariantIsEpisode(name, EpisodeStem(title, e.epNumber, e.title), Extension(local.path.name));
  }

  /** The listings of the rename loop. */
  predicate RenameFits(w: World, ids: seq<nat>, renames: seq<Rename>, turns: nat -> Turn, k: nat := 0)
    requires forall r | r in renames :: r.index < |ids| && ids[r.index] in w.table.rows
    decreases |renames| - k
  {
    k >= |renames| ||
    (assert renames[k] in renames;
     var id := ids[renames[k].index];
     var src := w.table.rows[id].path;
     && Fits(w.disk, src, turns(k).script)
     && var (disk, r) := MoveEpisode(w.disk, src, Path(src.dir, renames[k].name), turns(k).script);
        r.Some? ==>
          RenameFits(w.(disk := disk, table := w.table.(rows := w.table.rows[id := w.table.rows[id].(path := r.value)])), ids, renames, turns, k + 1))
  }

  /** One row's file is given another name and the row follows. */
  lemma RenameStep(w: World, id: nat, name: string, script: Script)
    requires Inv(w) && id in w.table.rows && IsEpisodeName(name)
    requires Fits(w.disk, w.table.rows[id].path, script)
    ensures
      var src := w.table.rows[id].path;
      var (disk, r) := MoveEpisode(w.disk, src, Path(src.dir, name), script);
      match r
      case None => Inv(w.(disk := disk))
      case Some(to) => Inv(w.(disk := disk, table := w.table.(rows := w.table.rows[id := w.table.rows[id].(path := to)])))
  {
    hide MoveEpisode, Spell, Fits, HasVideoExtension, Videos, OneVideoMoved, RowsOnDisk, RowsDistinct, IsEpisodeName;
    var src := w.table.rows[id].path;
    var dest := Path(src.dir, name);
    var (disk, r) := MoveEpisode(w.disk, src, dest, script);
    RowIsVideo(w, id);
    EpisodeName(name);
    EpisodeMovesOneVideo(w.disk, src, dest, script);
    EpisodeOnlyLeaves(w.disk, src, dest, script);
    DedupeIsEpisode(w.disk, src, dest);
    if r.None? {
      MessyFailure(w, src, disk);
    } else {
      ForgetMoved(w, disk, id, r.value);
      var table := DeleteByPath(w.table, src);
      PutRowBack(w.(disk := disk, table := table), id, w.table.rows[id].(path := r.value));
      assert table.rows[id := w.table.rows[id].(path := r.value)] == w.table.rows[id := w.table.rows[id].(path := r.value)];
    }
  }

  lemma MessyFailure(w: World, src: Path, disk: Disk)
    requires Inv(w) && disk.Valid() && disk.foldCase == w.disk.foldCase && OneVideoMoved(w.disk, disk, src, None)
    ensures Inv(w.(disk := disk))
  {
    hide Videos, Inv;
    FailedMoveKeepsInv(w, disk);
  }

  lemma RowIsVideo(w: World, id: nat)
    requires Inv(w) && id in w.table.rows
    ensures HasVideoExtension(w.table.rows[id].path.name) && IsEpisodeName(w.table.rows[id].path.name)
    ensures w.table.rows[id].anime in w.animes && w.animes[w.table.rows[id].anime].dir <= w.table.rows[id].path.dir
    ensures id < w.table.next
  {
    hide Videos, HasVideoExtension;
    assert OnDisk(w.disk, w.table.rows[id].path);
  }

  lemma PutRowBack(w: World, id: nat, row: Row)
    requires Inv(w) && id !in w.table.rows && id < w.table.next
    requires row.anime in w.animes && w.animes[row.anime].dir <= row.path.dir
    requires w.disk.Slot(row.path) in Videos(w.disk) && IsEpisodeName(row.path.name)
    requires forall i | i in w.table.rows :: w.disk.Slot(w.table.rows[i].path) != w.disk.Slot(row.path)
    ensures Inv(w.(table := w.table.(rows := w.table.rows[id := row])))
  {
    hide Videos, IsEpisodeName, Spell;
  }

  lemma {:induction false} RenameLoopKeepsInv(w: World, ids: seq<nat>, renames: seq<Rename>, turns: nat -> Turn, k: nat)
    requires Inv(w)
    requires forall r | r in renames :: r.index < |ids| && ids[r.index] in w.table.rows && IsEpisodeName(r.name)
    requires RenameFits(w, ids, renames, turns, k)
    ensures Inv(RenameLoop(w, ids, renames, turns, k).0)
    decreases |renames| - k
  {
    hide MoveEpisode, Fits, Inv, IsEpisodeName;
    if k < |renames| {
      assert renames[k] in renames;
      var id := ids[renames[k].index];
      var src := w.table.rows[id].path;
      RenameStep(w, id, renames[k].name, turns(k).script);
      var (disk, r) := MoveEpisode(w.disk, src, Path(src.dir, renames[k].name), turns(k).script);
      if r.Some? {
        var w1 := w.(disk := disk, table := w.table.(rows := w.table.rows[id := w.table.rows[id].(path := r.value)]));
        RenameLoopKeepsInv(w1, ids, renames, turns, k + 1);
      }
    }
  }

  /** Listings are complete or fail, and the directory's new name is nobody else's. */
  ghost predicate RenameAllowed(w: World, id: nat, env: RenameEnv)
    requires forall i | i in env.ids :: i in w.table.rows
    requires id in w.animes ==> w.animes[id].dir != []
  {
    id in w.animes && w.animes[id].anidb.Some? && w.animes[id].variantsKnown ==>
      var anime := w.animes[id];
      var locals := LocalsOf(w.table.rows, env.ids);
      var plan := PlanFor(anime.dir, anime.folderTitle, locals, anime.expected);
      var to := RenamedDir(anime.dir, plan);
      PlannedIndices(anime.dir, anime.folderTitle, locals, anime.expected);
      && (forall a | a in w.animes && a != id :: Apart(w.animes[a].dir, to))
      && (if !plan.dirNeedsRename then RenameFits(w, env.ids, plan.fileRenames, env.turns)
          else if env.emptyDirThere || DirTaken(w.disk, to) || !env.dirRenamed then true
          else RenameFits(RenameDir(w, id, to), env.ids, plan.fileRenames, env.turns))
  }

  /** A rename leaves the library consistent, wherever it stops. */
  lemma RenameKeepsInv(w: World, id: nat, env: RenameEnv)
    requires Inv(w) && (forall i | i in env.ids :: i in w.table.rows)
    requires id in w.animes ==> w.animes[id].dir != []
    requires RenameAllowed(w, id, env)
    ensures Inv(RenameAnime(w, id, env).0)
  {
    hide Inv, PlanFor, RenameFits, RenameLoop, IsEpisodeName, DirTaken, RenameDir;
    if id in w.animes && w.animes[id].anidb.Some? && w.animes[id].variantsKnown {
      var anime := w.animes[id];
      var locals := LocalsOf(w.table.rows, env.ids);
      var plan := PlanFor(anime.dir, anime.folderTitle, locals, anime.expected);
      PlannedIndices(anime.dir, anime.folderTitle, locals, anime.expected);
      forall l | l in locals ensures IsEpisodeName(l.path.name) {
        var k :| 0 <= k < |locals| && locals[k] == l;
        assert env.ids[k] in env.ids;
        RowIsVideo(w, env.ids[k]);
      }
      PlannedAreEpisodes(anime.dir, anime.folderTitle, locals, anime.expected);
      forall r | r in plan.fileRenames ensures env.ids[r.index] in w.table.rows { assert env.ids[r.index] in env.ids; }
      var to := RenamedDir(anime.dir, plan);
      if !plan.dirNeedsRename {
        RenameLoopKeepsInv(w, env.ids, plan.fileRenames, env.turns, 0);
      } else if !(env.emptyDirThere || DirTaken(w.disk, to) || !env.dirRenamed) {
        RenameDirKeepsInv(w, id, to);
        RenameLoopKeepsInv(RenameDir(w, id, to), env.ids, plan.fileRenames, env.turns, 0);
      }
    }
  }
}
