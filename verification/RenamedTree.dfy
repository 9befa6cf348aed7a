/** Where an anime's files are after a rename, however it ended: in the directory that bears
    the anime's title, next to where it was, and in it where they were before. */
module RenamedTree {
  import opened Text
  import opened Numbering
  import opened Disk
  import opened Episodes
  import opened Naming
  import opened Catalog
  import opened RenamePlan
  import opened Library
  import opened LibraryInvariant
  import opened RenameInvariant
  import opened RenameSettled
  import opened RenameQueue

  // ------------------------------------------------------------ files that stay in their directories

  /** Each file is in the directory it was in, none has been merged with another, and those
      of `still` are where they were. */
  ghost predicate Rehoused(d: Disk, d': Disk, m: map<Path, Path>, still: set<Path>) {
    && d'.foldCase == d.foldCase && m.Keys == d.files.Keys
    && (forall s | s in m :: m[s] in d'.files && m[s].dir == s.dir && d'.files[m[s]] == d.files[s].(name := d'.files[m[s]].name))
    && (forall s, t | s in m && t in m && m[s] == m[t] :: s == t)
    && (forall s | s in m && s in still :: m[s] == s && d'.files[s] == d.files[s])
  }

  function Identity(d: Disk): map<Path, Path> {
    map s | s in d.files :: s
  }

  function Then(m: map<Path, Path>, n: map<Path, Path>): map<Path, Path>
    requires forall s | s in m :: m[s] in n
  {
    map s | s in m :: n[m[s]]
  }

  lemma NothingRehoused(d: Disk, still: set<Path>)
    ensures Rehoused(d, d, Identity(d), still)
  {
  }

  lemma RehousedTwice(d: Disk, d1: Disk, d2: Disk, m: map<Path, Path>, n: map<Path, Path>, still: set<Path>)
    requires Rehoused(d, d1, m, still) && Rehoused(d1, d2, n, still)
    ensures (forall s | s in m :: m[s] in n) && Rehoused(d, d2, Then(m, n), still)
  {
  }

  lemma MoveRehouses(d: Disk, src: Path, dest: Path, f: Fates, still: set<Path>) returns (m: map<Path, Path>)
    requires src.dir == dest.dir && d.Slot(src) !in still
    ensures Rehoused(d, MoveFile(d, src, dest, f).0, m, still)
  {
    hide MoveFile, Spell, Disk.Dedupe;
    var (d', r) := MoveFile(d, src, dest, f);
    if r.Some? {
      MoveSucceeded(d, src, dest, f);
      var from, to := d.Slot(src), d.Slot(r.value);
      m := Identity(d)[from := to];
      assert r.value.dir == dest.dir by { DedupeDir(d, src, dest); }
      forall s | s in m ensures m[s] in d'.files && m[s].dir == s.dir && d'.files[m[s]] == d.files[s].(name := d'.files[m[s]].name) {
        if s != from { assert s != to; }
      }
    } else {
      MoveFailed(d, src, dest, f);
      m := Identity(d);
    }
  }

  lemma DedupeDir(d: Disk, src: Path, dest: Path)
    ensures d.Dedupe(src, dest).dir == dest.dir
  {
  }

  lemma {:induction false} CompanionsRehouse(d: Disk, src: Path, to: Path, cs: seq<CompanionMove>, still: set<Path>) returns (m: map<Path, Path>)
    requires forall c | c in cs :: c.path.dir == to.dir && d.Slot(c.path) !in still
    ensures Rehoused(d, MoveCompanions(d, src, to, cs), m, still)
    decreases |cs|
  {
    hide MoveFile, Stem, Rehoused;
    if cs == [] {
      m := Identity(d);
      NothingRehoused(d, still);
    } else {
      var dest := CompanionTarget(src, to, cs[0].path);
      assert cs[0] in cs;
      var d1 := MoveFile(d, cs[0].path, dest, cs[0].fates).0;
      var m1 := MoveRehouses(d, cs[0].path, dest, cs[0].fates, still);
      FoldsAlike(d, d1, m1, still);
      forall c | c in cs[1..] ensures c.path.dir == to.dir && d1.Slot(c.path) !in still { assert c in cs; }
      var m2 := CompanionsRehouse(d1, src, to, cs[1..], still);
      RehousedTwice(d, d1, MoveCompanions(d, src, to, cs), m1, m2, still);
      m := Then(m1, m2);
    }
  }

  lemma FoldsAlike(d: Disk, d': Disk, m: map<Path, Path>, still: set<Path>)
    requires Rehoused(d, d', m, still)
    ensures d'.foldCase == d.foldCase && forall p: Path :: d'.Slot(p) == d.Slot(p)
  {
  }

  /** The video, and what by the rule for companions goes with it. */
  ghost predicate Touches(d: Disk, p: Path, s: Path) {
    s == d.Slot(p) || (s in d.files && s.dir == p.dir && IsCompanionName(p.name, d.files[s].name))
  }

  lemma EpisodeRehouses(d: Disk, src: Path, dest: Path, script: Script, still: set<Path>) returns (m: map<Path, Path>)
    requires d.Valid() && src.dir == dest.dir && Fits(d, src, script) && forall s | s in still :: !Touches(d, src, s)
    ensures Rehoused(d, MoveEpisode(d, src, dest, script).0, m, still)
  {
    hide MoveFile, Stem, Rehoused, IsCompanionName, Spell;
    var (d1, r) := MoveFile(d, src, dest, script.video);
    var m1 := MoveRehouses(d, src, dest, script.video, still);
    m := m1;
    if r.Some? {
      FoldsAlike(d, d1, m1, still);
      MoveSucceeded(d, src, dest, script.video);
      DedupeDir(d, src, dest);
      forall c | c in script.companions ensures c.path.dir == r.value.dir && d1.Slot(c.path) !in still {
        Rollback.ListedCompanion(d, src, script, c);
      }
      var m2 := CompanionsRehouse(d1, src, r.value, script.companions, still);
      RehousedTwice(d, d1, MoveEpisode(d, src, dest, script).0, m1, m2, still);
      m := Then(m1, m2);
    }
  }

  // ------------------------------------------------------------ the loop over the files

  /** What no row still to be renamed touches is on this disk as it was on that. */
  ghost predicate Untouched(d: Disk, w: World, ids: seq<nat>, renames: seq<Rename>, still: set<Path>, k: nat)
    requires PlanFits(w.table, ids, renames)
  {
    && w.disk.foldCase == d.foldCase
    && (forall s | s in still :: s in d.files && s in w.disk.files && w.disk.files[s] == d.files[s])
    && (forall j, s | k <= j < |renames| && s in still :: assert renames[j] in renames; !Touches(d, w.table.rows[ids[renames[j].index]].path, s))
    && (forall i, j | k <= i < j < |renames| :: ids[renames[i].index] != ids[renames[j].index])
  }

  lemma StillUntouched(d: Disk, w: World, ids: seq<nat>, renames: seq<Rename>, still: set<Path>, k: nat)
    requires PlanFits(w.table, ids, renames) && k < |renames| && Untouched(d, w, ids, renames, still, k)
    ensures renames[k] in renames && forall s | s in still :: !Touches(w.disk, w.table.rows[ids[renames[k].index]].path, s)
  {
    hide IsCompanionName, Spell;
    assert renames[k] in renames;
  }

  lemma UntouchedGoesOn(d: Disk, w: World, w1: World, ids: seq<nat>, renames: seq<Rename>, still: set<Path>, k: nat, m: map<Path, Path>, to: Path)
    requires PlanFits(w.table, ids, renames) && k < |renames| && Untouched(d, w, ids, renames, still, k)
    requires
      assert renames[k] in renames;
      var id := ids[renames[k].index];
      w1.table == w.table.(rows := w.table.rows[id := w.table.rows[id].(path := to)])
    requires Rehoused(w.disk, w1.disk, m, still)
    ensures PlanFits(w1.table, ids, renames) && Untouched(d, w1, ids, renames, still, k + 1)
  {
    hide IsCompanionName, Spell, Touches;
    assert renames[k] in renames;
    assert forall r | r in renames :: ids[r.index] in w1.table.rows;
    forall j, s | k + 1 <= j < |renames| && s in still
      ensures renames[j] in renames && !Touches(d, w1.table.rows[ids[renames[j].index]].path, s)
    {
      assert renames[j] in renames;
      assert ids[renames[k].index] != ids[renames[j].index];
    }
  }

  /** Rows keep their directories. */
  ghost predicate SameDirs(t: Table, t': Table) {
    t'.rows.Keys == t.rows.Keys && forall i | i in t.rows :: t'.rows[i] == t.rows[i].(path := t'.rows[i].path) && t'.rows[i].path.dir == t.rows[i].path.dir
  }

  lemma {:induction false} LoopRehouses(d: Disk, w: World, ids: seq<nat>, renames: seq<Rename>, turns: nat -> Turn, still: set<Path>, k: nat) returns (m: map<Path, Path>)
    requires w.disk.Valid() && PlanFits(w.table, ids, renames) && RenameFits(w, ids, renames, turns, k) && Untouched(d, w, ids, renames, still, k)
    ensures Rehoused(w.disk, RenameLoop(w, ids, renames, turns, k).0.disk, m, still)
    ensures SameDirs(w.table, RenameLoop(w, ids, renames, turns, k).0.table)
    ensures RenameLoop(w, ids, renames, turns, k).0.animes == w.animes
    decreases |renames| - k
  {
    hide MoveEpisode, Fits, Rehoused, Untouched, Touches, Disk.Valid;
    if k >= |renames| {
      m := Identity(w.disk);
      NothingRehoused(w.disk, still);
    } else {
      assert renames[k] in renames;
      var id := ids[renames[k].index];
      var src := w.table.rows[id].path;
      var dest := Path(src.dir, renames[k].name);
      var (disk, r) := MoveEpisode(w.disk, src, dest, turns(k).script);
      StillUntouched(d, w, ids, renames, still, k);
      m := EpisodeRehouses(w.disk, src, dest, turns(k).script, still);
      EpisodeOnlyLeaves(w.disk, src, dest, turns(k).script);
      if r.Some? {
        Rollback.LandsAt(w.disk, src, dest, turns(k).script);
        DedupeDir(w.disk, src, dest);
        var w1 := w.(disk := disk, table := w.table.(rows := w.table.rows[id := w.table.rows[id].(path := r.value)]));
        UntouchedGoesOn(d, w, w1, ids, renames, still, k, m, r.value);
        var n := LoopRehouses(d, w1, ids, renames, turns, still, k + 1);
        RehousedTwice(w.disk, disk, RenameLoop(w, ids, renames, turns, k).0.disk, m, n, still);
        m := Then(m, n);
      }
    }
  }

  // ------------------------------------------------------------ the directory

  /** The place below `to` that a directory has below `from`; elsewhere nothing changes. */
  function Carried(from: Dir, to: Dir, dir: Dir): Dir {
    if from <= dir then to + dir[|from|..] else dir
  }

  /** Each file is in the directory that was its own, none has been merged with another; and
      those of `still` have their names. */
  ghost predicate CarriedOver(d: Disk, d': Disk, from: Dir, to: Dir, places: map<Path, Path>, still: set<Path>) {
    && places.Keys == d.files.Keys
    && (forall s | s in places ::
          && places[s] in d'.files && places[s].dir == Carried(from, to, s.dir)
          && d'.files[places[s]] == d.files[s].(name := d'.files[places[s]].name))
    && (forall s, t | s in places && t in places && places[s] == places[t] :: s == t)
    && (forall s | s in places && s in still :: d'.files[places[s]].name == d.files[s].name)
  }

  function RebasedPlaces(d: Disk, from: Dir, to: Dir): map<Path, Path> {
    map s | s in d.files :: RebasePath(from, to, s)
  }

  lemma DirCarries(d: Disk, from: Dir, to: Dir, still: set<Path>)
    requires !DirTaken(d, to)
    ensures CarriedOver(d, RebaseDisk(d, from, to), from, to, RebasedPlaces(d, from, to), still)
  {
    hide RebaseDisk;
    var places := RebasedPlaces(d, from, to);
    forall s | s in places
      ensures places[s] in RebaseDisk(d, from, to).files && RebaseDisk(d, from, to).files[places[s]] == d.files[s]
      ensures places[s].dir == Carried(from, to, s.dir)
    {
      RebasedDisk(d, from, to, s);
    }
    forall s, t | s in places && t in places && places[s] == places[t] ensures s == t {
      RebasePathInjective(from, to, s, t);
    }
  }

  lemma NothingCarried(d: Disk, from: Dir, still: set<Path>)
    ensures CarriedOver(d, d, from, from, Identity(d), still)
  {
    forall s | s in d.files ensures Carried(from, from, s.dir) == s.dir {
      if from <= s.dir { assert from + s.dir[|from|..] == s.dir; }
    }
  }

  lemma CarriedThenRehoused(d: Disk, d1: Disk, d2: Disk, from: Dir, to: Dir, places: map<Path, Path>, m: map<Path, Path>, still: set<Path>, still1: set<Path>)
    requires CarriedOver(d, d1, from, to, places, still) && Rehoused(d1, d2, m, still1)
    requires forall s | s in places && s in still :: places[s] in still1
    ensures (forall s | s in places :: places[s] in m) && CarriedOver(d, d2, from, to, Then(places, m), still)
  {
  }

  // ------------------------------------------------------------ the whole call

  /** Some matched file of the anime has it for its video or a companion. */
  ghost predicate BelongsToMatched(w: World, id: nat, s: Path)
    requires id in w.animes
  {
    exists i :: i in w.table.rows && w.table.rows[i].anime == id && IsMatched(w.table.rows[i], w.animes[id].expected)
      && Touches(w.disk, w.table.rows[i].path, s)
  }

  /** The new directory: the old one, or one beside it that is called by the title. */
  ghost predicate StaysBeside(from: Dir, to: Dir, title: string) {
    to == from || (from != [] && |to| == |from| && to[..|to| - 1] == from[..|from| - 1] && to[|to| - 1] == Sanitize(title))
  }

  /** The rows of the anime keep their places below its directory; the others keep theirs. */
  ghost predicate RowsCarried(t: Table, t': Table, id: nat, from: Dir, to: Dir) {
    && t'.rows.Keys == t.rows.Keys
    && forall i | i in t.rows ::
         && t'.rows[i] == t.rows[i].(path := t'.rows[i].path)
         && t'.rows[i].path.dir == if t.rows[i].anime == id then Carried(from, to, t.rows[i].path.dir) else t.rows[i].path.dir
  }

  lemma SameRowsCarried(t: Table, id: nat, from: Dir)
    ensures RowsCarried(t, t, id, from, from)
  {
    forall i | i in t.rows ensures Carried(from, from, t.rows[i].path.dir) == t.rows[i].path.dir {
      if from <= t.rows[i].path.dir { assert from + t.rows[i].path.dir[|from|..] == t.rows[i].path.dir; }
    }
  }

  lemma DirRowsCarried(w: World, id: nat, to: Dir, t': Table)
    requires id in w.animes && SameDirs(RenameDir(w, id, to).table, t')
    ensures RowsCarried(w.table, t', id, w.animes[id].dir, to)
  {
    hide RebaseDisk;
    forall i | i in w.table.rows
      ensures i in t'.rows && t'.rows[i] == w.table.rows[i].(path := t'.rows[i].path)
      ensures t'.rows[i].path.dir == if w.table.rows[i].anime == id then Carried(w.animes[id].dir, to, w.table.rows[i].path.dir) else w.table.rows[i].path.dir
    {
      assert i in RenameDir(w, id, to).table.rows;
    }
  }

  lemma SameDirsCarried(t: Table, t': Table, id: nat, from: Dir)
    requires SameDirs(t, t')
    ensures RowsCarried(t, t', id, from, from)
  {
    forall i | i in t.rows ensures Carried(from, from, t.rows[i].path.dir) == t.rows[i].path.dir {
      if from <= t.rows[i].path.dir { assert from + t.rows[i].path.dir[|from|..] == t.rows[i].path.dir; }
    }
  }

  /** The files no matched file of the anime has to do with. */
  ghost function Bystanding(w: World, id: nat): set<Path>
    requires id in w.animes
  {
    set s | s in w.disk.files && !BelongsToMatched(w, id, s)
  }

  /** The disk and the rows when the loop over the files begins. */
  ghost predicate Begun(w: World, w1: World, id: nat, to: Dir)
    requires id in w.animes
  {
    (w1 == w && to == w.animes[id].dir) || (!DirTaken(w.disk, to) && w1 == RenameDir(w, id, to))
  }

  function PlacesAt(w: World, id: nat, to: Dir): map<Path, Path>
    requires id in w.animes
  {
    if to == w.animes[id].dir then Identity(w.disk) else RebasedPlaces(w.disk, w.animes[id].dir, to)
  }

  lemma BegunCarries(w: World, w1: World, id: nat, to: Dir)
    requires id in w.animes && Begun(w, w1, id, to) && (to == w.animes[id].dir ==> w1 == w)
    ensures CarriedOver(w.disk, w1.disk, w.animes[id].dir, to, PlacesAt(w, id, to), Bystanding(w, id))
  {
    hide RebaseDisk, CarriedOver, DirTaken, BelongsToMatched;
    if to == w.animes[id].dir {
      NothingCarried(w.disk, to, Bystanding(w, id));
    } else {
      DirCarries(w.disk, w.animes[id].dir, to, Bystanding(w, id));
    }
  }

  /** What the loop touches was touched before the directory moved. */
  lemma TouchedBefore(w: World, w1: World, id: nat, to: Dir, i: nat, s: Path)
    requires Inv(w) && id in w.animes && Begun(w, w1, id, to) && (to == w.animes[id].dir ==> w1 == w)
    requires i in w.table.rows && w.table.rows[i].anime == id && s in w.disk.files
    ensures i in w1.table.rows && PlacesAt(w, id, to)[s] in w1.disk.files && w1.disk.foldCase == w.disk.foldCase
    ensures Touches(w1.disk, w1.table.rows[i].path, PlacesAt(w, id, to)[s]) ==> Touches(w.disk, w.table.rows[i].path, s)
  {
    hide RebaseDisk, IsCompanionName, Spell, Inv;
    var from := w.animes[id].dir;
    if to != from {
      var p := w.table.rows[i].path;
      RebaseFolds(w.disk, from, to);
      RebasedDisk(w.disk, from, to, s);
      RowThere(w, i);
      NotTaken(w.disk, to, p);
      var s1, p1 := RebasePath(from, to, s), RebasePath(from, to, p);
      assert w1.table.rows[i].path == p1 && p1.name == p.name && s1.name == s.name;
      if Touches(w1.disk, p1, s1) {
        if s1 == w1.disk.Slot(p1) {
          assert w1.disk.Slot(p1) == RebasePath(from, to, w.disk.Slot(p));
          RebasePathInjective(from, to, s, w.disk.Slot(p));
        } else {
          RebasePathInjective(from, to, Path(s.dir, ""), Path(p.dir, ""));
        }
      }
    }
  }

  lemma RowThere(w: World, i: nat)
    requires Inv(w) && i in w.table.rows
    ensures OnDisk(w.disk, w.table.rows[i].path)
  {
    hide OnDisk;
  }

  lemma PlanLeavesBystanders(w: World, w1: World, id: nat, ids: seq<nat>, to: Dir)
    requires Inv(w) && id in w.animes && Lists(ids, w.table, id) && (forall i | i in ids :: i in w.table.rows)
    requires Begun(w, w1, id, to) && (to == w.animes[id].dir ==> w1 == w)
    ensures PlanFits(w1.table, ids, PlanOf(w, id, ids).fileRenames)
    ensures (forall s | s in w.disk.files :: s in PlacesAt(w, id, to))
    ensures Untouched(w1.disk, w1, ids, PlanOf(w, id, ids).fileRenames, set s | s in Bystanding(w, id) :: PlacesAt(w, id, to)[s], 0)
  {
    hide Inv, PlanOf, Lists, Touches, IsMatched, IsPlanned, Begun;
    var renames := PlanOf(w, id, ids).fileRenames;
    var still := set s | s in Bystanding(w, id) :: PlacesAt(w, id, to)[s];
    PlanOfFits(w, id, ids);
    PlannedOnce(w, id, ids);
    BegunKeys(w, w1, id, to);
    forall j, s1 | 0 <= j < |renames| && s1 in still
      ensures renames[j] in renames && !Touches(w1.disk, w1.table.rows[ids[renames[j].index]].path, s1)
    {
      var s :| s in Bystanding(w, id) && s1 == PlacesAt(w, id, to)[s];
      OneIsPlanned(w, id, ids, j);
      var i := ids[renames[j].index];
      TouchedBefore(w, w1, id, to, i, s);
      assert IsMatched(w.table.rows[i], w.animes[id].expected) by { PlannedRowIsMatched(w, id, i, renames[j].name); }
    }
    forall s1 | s1 in still ensures s1 in w1.disk.files {
      var s :| s in Bystanding(w, id) && s1 == PlacesAt(w, id, to)[s];
      BegunHas(w, w1, id, to, s);
    }
  }

  lemma PlannedRowIsMatched(w: World, id: nat, i: nat, name: string)
    requires id in w.animes && i in w.table.rows && IsPlanned(w.table.rows[i], name, w.animes[id].folderTitle, w.animes[id].expected)
    ensures IsMatched(w.table.rows[i], w.animes[id].expected)
  {
    hide IsMatched, IsPlannedName, IsEpisodeName, TargetOf;
  }

  lemma BegunKeys(w: World, w1: World, id: nat, to: Dir)
    requires id in w.animes && Begun(w, w1, id, to)
    ensures w1.table.rows.Keys == w.table.rows.Keys
  {
    hide RebaseDisk, DirTaken;
  }

  lemma BegunHas(w: World, w1: World, id: nat, to: Dir, s: Path)
    requires id in w.animes && Begun(w, w1, id, to) && (to == w.animes[id].dir ==> w1 == w) && s in w.disk.files
    ensures PlacesAt(w, id, to)[s] in w1.disk.files
  {
    hide BelongsToMatched, RebaseDisk;
    BegunCarries(w, w1, id, to);
  }

  /** Once the loop over the files has run, or has stopped at one that could not be moved. */
  lemma LoopCarries(w: World, w1: World, id: nat, env: RenameEnv, to: Dir) returns (places: map<Path, Path>)
    requires Inv(w) && id in w.animes && Lists(env.ids, w.table, id) && (forall i | i in env.ids :: i in w.table.rows)
    requires Begun(w, w1, id, to) && (to == w.animes[id].dir ==> w1 == w) && w1.disk.Valid()
    requires PlanFits(w1.table, env.ids, PlanOf(w, id, env.ids).fileRenames)
    requires RenameFits(w1, env.ids, PlanOf(w, id, env.ids).fileRenames, env.turns)
    ensures
      var w' := RenameLoop(w1, env.ids, PlanOf(w, id, env.ids).fileRenames, env.turns).0;
      && CarriedOver(w.disk, w'.disk, w.animes[id].dir, to, places, Bystanding(w, id))
      && RowsCarried(w.table, w'.table, id, w.animes[id].dir, to)
      && w'.animes == w1.animes
  {
    hide Inv, PlanOf, Lists, CarriedOver, Rehoused, Begun, RenameFits, RenameLoop, Untouched, Disk.Valid, SameDirs, RowsCarried, Bystanding;
    var renames := PlanOf(w, id, env.ids).fileRenames;
    BystandersAreThere(w, id, to);
    var still := set s | s in Bystanding(w, id) :: PlacesAt(w, id, to)[s];
    BegunCarries(w, w1, id, to);
    PlanLeavesBystanders(w, w1, id, env.ids, to);
    var m := LoopRehouses(w1.disk, w1, env.ids, renames, env.turns, still, 0);
    var w' := RenameLoop(w1, env.ids, renames, env.turns).0;
    Finished(w.disk, w1.disk, w'.disk, w.animes[id].dir, to, PlacesAt(w, id, to), m, Bystanding(w, id), still);
    places := Then(PlacesAt(w, id, to), m);
    RowsFinished(w, w1, id, to, w'.table);
  }

  lemma BystandersAreThere(w: World, id: nat, to: Dir)
    requires id in w.animes
    ensures forall s | s in Bystanding(w, id) :: s in w.disk.files && s in PlacesAt(w, id, to)
  {
    hide BelongsToMatched;
  }

  lemma Finished(d: Disk, d1: Disk, d2: Disk, from: Dir, to: Dir, places: map<Path, Path>, m: map<Path, Path>, still: set<Path>, still1: set<Path>)
    requires CarriedOver(d, d1, from, to, places, still) && Rehoused(d1, d2, m, still1)
    requires forall s | s in still :: s in places && places[s] in still1
    ensures (forall s | s in places :: places[s] in m) && CarriedOver(d, d2, from, to, Then(places, m), still)
  {
    hide CarriedOver, Rehoused;
    CarriedThenRehoused(d, d1, d2, from, to, places, m, still, still1);
  }

  lemma RowsFinished(w: World, w1: World, id: nat, to: Dir, t': Table)
    requires id in w.animes && Begun(w, w1, id, to) && SameDirs(w1.table, t')
    ensures RowsCarried(w.table, t', id, w.animes[id].dir, to)
  {
    hide SameDirs, RowsCarried, RenameDir, DirTaken;
    if w1 == w && to == w.animes[id].dir {
      SameDirsCarried(w.table, t', id, to);
    } else {
      DirRowsCarried(w, id, to, t');
    }
  }

  /** However a rename ends: the anime's directory is the one it was or one beside it that is
      called by the title, and after a rename that ran to its end it is called so. Every row of
      the anime is in the same place below the directory as before, and so is every file; no
      two have been merged, and those that are neither an episode about to be renamed nor
      named after one keep their names. Rows and files elsewhere keep their directories. */
  lemma RenameCarries(w: World, id: nat, env: RenameEnv) returns (places: map<Path, Path>)
    requires Inv(w) && id in w.animes && w.animes[id].dir != [] && Lists(env.ids, w.table, id) && (forall i | i in env.ids :: i in w.table.rows)
    requires RenameAllowed(w, id, env)
    ensures
      var (w', end) := RenameAnime(w, id, env);
      && id in w'.animes
      && StaysBeside(w.animes[id].dir, w'.animes[id].dir, w.animes[id].folderTitle)
      && (end == Done && w.animes[id].anidb.Some? ==> w'.animes[id].dir != [] && w'.animes[id].dir[|w'.animes[id].dir| - 1] == Sanitize(w.animes[id].folderTitle))
      && RowsCarried(w.table, w'.table, id, w.animes[id].dir, w'.animes[id].dir)
      && CarriedOver(w.disk, w'.disk, w.animes[id].dir, w'.animes[id].dir, places, Bystanding(w, id))
  {
    hide Inv, Lists, CarriedOver, RenameFits, RenameLoop, Disk.Valid, RowsCarried, Bystanding, DirTaken, RenameDir, PlanOf, StaysBeside, RenamedDir, RenameAllowed, RenameAnime, Sanitize, PlanFits;
    var from := w.animes[id].dir;
    if w.animes[id].anidb.Some? && w.animes[id].variantsKnown {
      RenameIs(w, id, env);
      var plan := PlanOf(w, id, env.ids);
      var to := RenamedDir(from, plan);
      PlanNamesTitle(w, id, env.ids);
      if !plan.dirNeedsRename {
        InvIsValid(w);
        places := LoopCarries(w, w, id, env, from);
      } else if !(env.emptyDirThere || DirTaken(w.disk, to) || !env.dirRenamed) {
        places := LoopInNewDir(w, id, env, to);
      } else {
        places := NothingDone(w, id);
      }
    } else {
      NoRename(w, id, env);
      places := NothingDone(w, id);
    }
  }

  lemma LoopInNewDir(w: World, id: nat, env: RenameEnv, to: Dir) returns (places: map<Path, Path>)
    requires Inv(w) && id in w.animes && Lists(env.ids, w.table, id) && (forall i | i in env.ids :: i in w.table.rows)
    requires to != [] && to != w.animes[id].dir && !DirTaken(w.disk, to) && forall a | a in w.animes && a != id :: Apart(w.animes[a].dir, to)
    requires PlanFits(RenameDir(w, id, to).table, env.ids, PlanOf(w, id, env.ids).fileRenames)
    requires RenameFits(RenameDir(w, id, to), env.ids, PlanOf(w, id, env.ids).fileRenames, env.turns)
    ensures
      var w' := RenameLoop(RenameDir(w, id, to), env.ids, PlanOf(w, id, env.ids).fileRenames, env.turns).0;
      && id in w'.animes && w'.animes[id].dir == to
      && CarriedOver(w.disk, w'.disk, w.animes[id].dir, to, places, Bystanding(w, id))
      && RowsCarried(w.table, w'.table, id, w.animes[id].dir, to)
  {
    hide Inv, Lists, CarriedOver, RenameFits, RenameLoop, Disk.Valid, RowsCarried, Bystanding, DirTaken, RenameDir, PlanOf, PlanFits;
    RenameDirKeepsInv(w, id, to);
    InvIsValid(RenameDir(w, id, to));
    DirIs(w, id, to);
    places := LoopCarries(w, RenameDir(w, id, to), id, env, to);
  }

  lemma NothingDone(w: World, id: nat) returns (places: map<Path, Path>)
    requires id in w.animes
    ensures StaysBeside(w.animes[id].dir, w.animes[id].dir, w.animes[id].folderTitle)
    ensures RowsCarried(w.table, w.table, id, w.animes[id].dir, w.animes[id].dir)
    ensures CarriedOver(w.disk, w.disk, w.animes[id].dir, w.animes[id].dir, places, Bystanding(w, id))
  {
    hide CarriedOver, RowsCarried, Bystanding;
    NothingCarried(w.disk, w.animes[id].dir, Bystanding(w, id));
    SameRowsCarried(w.table, id, w.animes[id].dir);
    places := Identity(w.disk);
  }

  lemma NoRename(w: World, id: nat, env: RenameEnv)
    requires id in w.animes && w.animes[id].dir != [] && (forall i | i in env.ids :: i in w.table.rows)
    requires w.animes[id].anidb.None? || !w.animes[id].variantsKnown
    ensures RenameAnime(w, id, env) == (w, if w.animes[id].anidb.None? then Done else Conflict)
  {
  }

  lemma DirIs(w: World, id: nat, to: Dir)
    requires id in w.animes
    ensures RenameDir(w, id, to).animes == w.animes[id := w.animes[id].(dir := to)]
  {
  }

  lemma PlanNamesTitle(w: World, id: nat, ids: seq<nat>)
    requires id in w.animes && w.animes[id].dir != [] && (forall i | i in ids :: i in w.table.rows)
    ensures
      var from, to := w.animes[id].dir, RenamedDir(w.animes[id].dir, PlanOf(w, id, ids));
      && to != [] && to[|to| - 1] == Sanitize(w.animes[id].folderTitle) && StaysBeside(from, to, w.animes[id].folderTitle)
      && (PlanOf(w, id, ids).dirNeedsRename <==> to != from)
      && (!PlanOf(w, id, ids).dirNeedsRename ==> to == from)
  {
    hide Sanitize, Items, Matched, Renames, Reindexed;
  }

  lemma RenameIs(w: World, id: nat, env: RenameEnv)
    requires id in w.animes && w.animes[id].dir != [] && (forall i | i in env.ids :: i in w.table.rows)
    requires w.animes[id].anidb.Some? && w.animes[id].variantsKnown && RenameAllowed(w, id, env)
    ensures
      var plan := PlanOf(w, id, env.ids);
      var to := RenamedDir(w.animes[id].dir, plan);
      && PlanFits(w.table, env.ids, plan.fileRenames) && PlanFits(RenameDir(w, id, to).table, env.ids, plan.fileRenames)
      && (forall a | a in w.animes && a != id :: Apart(w.animes[a].dir, to))
      && (!plan.dirNeedsRename ==>
            && RenameAnime(w, id, env) == RenameLoop(w, env.ids, plan.fileRenames, env.turns)
            && RenameFits(w, env.ids, plan.fileRenames, env.turns))
      && (plan.dirNeedsRename && (env.emptyDirThere || DirTaken(w.disk, to) || !env.dirRenamed) ==> RenameAnime(w, id, env) == (w, Conflict))
      && (plan.dirNeedsRename && !(env.emptyDirThere || DirTaken(w.disk, to) || !env.dirRenamed) ==>
            && RenameAnime(w, id, env) == RenameLoop(RenameDir(w, id, to), env.ids, plan.fileRenames, env.turns)
            && RenameFits(RenameDir(w, id, to), env.ids, plan.fileRenames, env.turns))
  {
    hide PlanFor, RenameLoop, RenameFits, RenamedDir, DirTaken, RebaseDisk, RebasePath;
    PlanOfFits(w, id, env.ids);
    RenamedDirKeys(w, id, RenamedDir(w.animes[id].dir, PlanOf(w, id, env.ids)));
  }

  lemma RenamedDirKeys(w: World, id: nat, to: Dir)
    requires id in w.animes
    ensures RenameDir(w, id, to).table.rows.Keys == w.table.rows.Keys
  {
    hide RebaseDisk;
  }
}
