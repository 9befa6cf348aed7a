/** What carrying out a rename plan file by file leads to: where no planned name is taken,
    exactly the plan, and then there is nothing left to rename; where a numbered one is
    taken, a file that will never be settled. */
module RenameSettled {
  import opened Text
  import opened Numbering
  import opened Disk
  import opened Episodes
  import opened ReleaseName
  import opened Naming
  import opened Catalog
  import opened RenamePlan
  import opened Library
  import opened LibraryInvariant
  import opened RenameInvariant

  // ------------------------------------------------------------ a numbered name that is taken

  /** A number put behind a number makes no variant of the name. */
  lemma NumberedTwiceIsNoVariant(stem: string, n: nat, m: nat, ext: string)
    requires IsExtension(ext) && exists k | 0 <= k < |stem| :: stem[k] != '.'
    ensures !IsNameVariant(Numbered(stem + " (" + Decimal(n) + ")", m, ext), stem + ext)
  {
    hide Decimal, Extension, LastDot, DigitsOnly;
    SplitBuilt(stem, ext);
    var before, after := stem + " (", ")" + ext;
    var middle := Decimal(n) + ") (" + Decimal(m);
    assert Numbered(stem + " (" + Decimal(n) + ")", m, ext) == before + middle + after;
    assert |before + middle + after| != |stem + ext|;
    NotAllDigits(middle, |Decimal(n)|);
    NoNumberBetween(before, middle, after);
  }

  lemma NotAllDigits(s: string, k: nat)
    requires k < |s| && s[k] == ')'
    ensures !DigitsOnly(s)
  {
    assert !IsDigit(s[k]);
  }

  lemma NoNumberBetween(before: string, middle: string, after: string)
    requires !DigitsOnly(middle)
    ensures !IsNumberedVariant(before + middle + after, before, after)
  {
    var name := before + middle + after;
    assert name[|before|..|name| - |after|] == middle;
  }

  /** The mover gives up a numbered name that is taken for one with two numbers. */
  lemma OccupiedNumberIsDoubled(d: Disk, src: Path, dir: Dir, stem: string, n: nat, ext: string)
    requires IsExtension(ext) && exists k | 0 <= k < |stem| :: stem[k] != '.'
    ensures
      var dest := Path(dir, Numbered(stem, n, ext));
      d.IsFreeFor(src, dest) <==> IsNameVariant(d.Dedupe(src, dest).name, stem + ext)
  {
    hide LowestFree, Spell, Decimal;
    var dest := Path(dir, Numbered(stem, n, ext));
    SplitBuilt(stem, ext);
    NumberedIsVariant(stem + ext, n);
    var inner := stem + " (" + Decimal(n) + ")";
    assert Numbered(stem, n, ext) == inner + ext;
    SplitBuilt(inner, ext);
    if !d.IsFreeFor(src, dest) {
      var m := LowestFree(d.Occupied(src, dir), d.foldCase, inner, ext, 2);
      assert d.Dedupe(src, dest).name == Numbered(inner, m, ext);
      NumberedTwiceIsNoVariant(stem, n, m, ext);
    }
  }

  /** A plain name that is taken, on the other hand, is numbered once, and so settled. */
  lemma OccupiedPlainIsNumbered(d: Disk, src: Path, dir: Dir, stem: string, ext: string)
    requires IsExtension(ext) && exists k | 0 <= k < |stem| :: stem[k] != '.'
    ensures IsNameVariant(d.Dedupe(src, Path(dir, stem + ext)).name, stem + ext)
  {
    hide LowestFree, Spell, Decimal;
    SplitBuilt(stem, ext);
    if !d.IsFreeFor(src, Path(dir, stem + ext)) {
      NumberedIsVariant(stem + ext, LowestFree(d.Occupied(src, dir), d.foldCase, stem, ext, 2));
    }
  }

  /** A matched file whose name is no variant of its own is up for renaming in every later
      plan: this is what keeps an anime with a doubly numbered file in the queue. */
  lemma StaysInTheQueue(dir: Dir, folderTitle: string, locals: seq<Local>, expected: seq<Expected>, p: nat)
    requires p < |Matched(locals, expected)|
    requires
      var item := ItemFor(Sanitize(folderTitle), locals[Matched(locals, expected)[p]], expected);
      !IsNameVariant(item.path.name, item.target)
    ensures PlanFor(dir, folderTitle, locals, expected).fileRenames != []
  {
    hide MatchedUpTo, Sanitize, ItemFor, IsNameVariant, Settle, Finals, RenamesUpTo, Match;
    var items := Items(Sanitize(folderTitle), locals, expected);
    PlanEmptyIff(items);
    assert !BearsItsName(items[p]);
    assert Renames(items) != [];
  }

  /** Two copies whose suffixes differ in case only each bear their name, and can lie side by
      side where case matters; yet to the planner one of them is in the way of the other. */
  lemma CaseVariantsCollide(dir: Dir, stem: string, s: string, t: string)
    requires s != t && Lower(s) == Lower(t)
    ensures
      var items := [Item(Path(dir, stem + s), stem + s), Item(Path(dir, stem + t), stem + t)];
      && BearsItsName(items[0]) && BearsItsName(items[1])
      && Disk(false, map[]).Slot(items[0].path) != Disk(false, map[]).Slot(items[1].path)
      && Renames(items) != []
  {
    hide Renames;
    var items := [Item(Path(dir, stem + s), stem + s), Item(Path(dir, stem + t), stem + t)];
    LowerConcat(stem, s);
    LowerConcat(stem, t);
    assert (stem + s)[|stem|..] == s && (stem + t)[|stem|..] == t;
    PlanEmptyIff(items);
    assert Key(items[0].path) == Key(items[1].path);
  }

  // ------------------------------------------------------------ carrying out a plan exactly

  predicate DistinctPositions(ids: seq<nat>) {
    forall x, y | 0 <= x < y < |ids| :: ids[x] != ids[y]
  }

  predicate PlanFits(t: Table, ids: seq<nat>, renames: seq<Rename>) {
    forall r | r in renames :: r.index < |ids| && ids[r.index] in t.rows
  }

  function WithPath(t: Table, id: nat, to: Path): Table
    requires id in t.rows
  {
    t.(rows := t.rows[id := t.rows[id].(path := to)])
  }

  /** The library after one file has been renamed and its row has followed. */
  function RowFollows(w: World, id: nat, disk: Disk, to: Path): World
    requires id in w.table.rows
  {
    w.(disk := disk, table := WithPath(w.table, id, to))
  }

  function Dest(t: Table, ids: seq<nat>, r: Rename): Path
    requires r.index < |ids| && ids[r.index] in t.rows
  {
    Path(t.rows[ids[r.index]].path.dir, r.name)
  }

  predicate InRange(t: Table, ids: seq<nat>, renames: seq<Rename>) {
    forall j | 0 <= j < |renames| :: renames[j].index < |ids| && ids[renames[j].index] in t.rows && IsEpisodeName(renames[j].name)
  }

  /** From the `k`-th on, no planned name is taken, no two are the same to the file system,
      and no file is planned for twice. */
  ghost predicate Clear(w: World, ids: seq<nat>, renames: seq<Rename>, k: nat)
    requires InRange(w.table, ids, renames)
  {
    && (forall j | k <= j < |renames| :: w.disk.Slot(Dest(w.table, ids, renames[j])) !in Videos(w.disk))
    && (forall i, j | k <= i < j < |renames| ::
          renames[i].index != renames[j].index && w.disk.Slot(Dest(w.table, ids, renames[i])) != w.disk.Slot(Dest(w.table, ids, renames[j])))
  }

  /** The rows under the names the renames from the `k`-th on give them. */
  ghost predicate RowsRenamed(t: Table, t': Table, ids: seq<nat>, renames: seq<Rename>, k: nat)
    requires k <= |renames|
  {
    && t'.rows.Keys == t.rows.Keys && t'.next == t.next
    && forall x | 0 <= x < |ids| && ids[x] in t.rows ::
         t'.rows[ids[x]] == t.rows[ids[x]].(path := Path(t.rows[ids[x]].path.dir, NameAfter(renames[k..], x, t.rows[ids[x]].path.name)))
  }

  lemma OneRenamed(w: World, ids: seq<nat>, renames: seq<Rename>, k: nat, script: Script)
    requires Inv(w) && InRange(w.table, ids, renames) && DistinctPositions(ids) && k < |renames| && Clear(w, ids, renames, k)
    requires
      var src := w.table.rows[ids[renames[k].index]].path;
      Fits(w.disk, src, script) && MoveEpisode(w.disk, src, Path(src.dir, renames[k].name), script).1.Some?
    ensures
      var id := ids[renames[k].index];
      var src := w.table.rows[id].path;
      var (disk, r) := MoveEpisode(w.disk, src, Path(src.dir, renames[k].name), script);
      var w' := w.(disk := disk, table := w.table.(rows := w.table.rows[id := w.table.rows[id].(path := r.value)]));
      && r.value == Path(src.dir, renames[k].name)
      && Inv(w') && InRange(w'.table, ids, renames) && Clear(w', ids, renames, k + 1)
  {
    hide MoveEpisode, Spell, Fits, HasVideoExtension, Videos, IsEpisodeName, RowsOnDisk, RowsDistinct, RowsPlaced;
    var id := ids[renames[k].index];
    var src := w.table.rows[id].path;
    var dest := Path(src.dir, renames[k].name);
    var (disk, r) := MoveEpisode(w.disk, src, dest, script);
    RenameStep(w, id, renames[k].name, script);
    RowIsVideo(w, id);
    EpisodeName(renames[k].name);
    EpisodeMovesOneVideo(w.disk, src, dest, script);
    FreeIfNoVideo(w.disk, dest);
    assert r.value == dest;
    var w' := w.(disk := disk, table := w.table.(rows := w.table.rows[id := w.table.rows[id].(path := r.value)]));
    forall j | k + 1 <= j < |renames|
      ensures Dest(w'.table, ids, renames[j]) == Dest(w.table, ids, renames[j])
      ensures disk.Slot(Dest(w.table, ids, renames[j])) !in Videos(disk)
    {
      assert renames[k].index != renames[j].index;
    }
  }

  /** At every turn of the loop nothing but the file itself holds the name planned for it. */
  ghost predicate StaysFree(w: World, ids: seq<nat>, renames: seq<Rename>, turns: nat -> Turn, k: nat)
    requires PlanFits(w.table, ids, renames)
    decreases |renames| - k
  {
    k >= |renames| ||
    (assert renames[k] in renames;
     var id := ids[renames[k].index];
     var src := w.table.rows[id].path;
     && w.disk.IsFreeFor(src, Path(src.dir, renames[k].name))
     && var (disk, r) := MoveEpisode(w.disk, src, Path(src.dir, renames[k].name), turns(k).script);
        r.Some? ==> StaysFree(RowFollows(w, id, disk, r.value), ids, renames, turns, k + 1))
  }

  predicate EachOnce(ids: seq<nat>, renames: seq<Rename>, k: nat) {
    && DistinctPositions(ids)
    && forall i, j | k <= i < j < |renames| :: renames[i].index != renames[j].index
  }

  /** Rows no rename from the `k`-th on is planned for stay as they are. */
  lemma {:induction false} LoopLeaves(w: World, ids: seq<nat>, renames: seq<Rename>, turns: nat -> Turn, k: nat, i: nat)
    requires PlanFits(w.table, ids, renames) && k <= |renames| && i in w.table.rows
    requires forall j | k <= j < |renames| :: assert renames[j] in renames; ids[renames[j].index] != i
    ensures
      var t' := RenameLoop(w, ids, renames, turns, k).0.table;
      t'.rows.Keys == w.table.rows.Keys && t'.next == w.table.next && t'.rows[i] == w.table.rows[i]
    decreases |renames| - k
  {
    hide MoveEpisode;
    if k < |renames| {
      assert renames[k] in renames;
      var id := ids[renames[k].index];
      var src := w.table.rows[id].path;
      var (disk, r) := MoveEpisode(w.disk, src, Path(src.dir, renames[k].name), turns(k).script);
      if r.Some? { LoopLeaves(RowFollows(w, id, disk, r.value), ids, renames, turns, k + 1, i); }
    }
  }

  /** A file that lands where it was sent found the place free, and the other way round. */
  lemma LandsAsPlanned(d: Disk, src: Path, name: string, script: Script)
    requires MoveEpisode(d, src, Path(src.dir, name), script).1.Some?
    ensures
      var to := MoveEpisode(d, src, Path(src.dir, name), script).1.value;
      to == Path(src.dir, name) <==> d.IsFreeFor(src, Path(src.dir, name))
  {
    hide LowestFree, Stem, Suffix, Spell;
    var dest := Path(src.dir, name);
    MoveSucceeded(d, src, dest, script.video);
    if !d.IsFreeFor(src, dest) {
      StemAndSuffix(name);
      var n := LowestFree(d.Occupied(src, dest.dir), d.foldCase, Stem(name), Suffix(name), 2);
      assert |Numbered(Stem(name), n, Suffix(name))| > |name|;
    }
  }

  /** A loop that has run to its end has given every row the path planned for it if and
      only if each planned name was free when its turn came. */
  lemma {:induction false} LoopIsExact(w: World, ids: seq<nat>, renames: seq<Rename>, turns: nat -> Turn, k: nat)
    requires PlanFits(w.table, ids, renames) && EachOnce(ids, renames, k) && k <= |renames|
    requires RenameLoop(w, ids, renames, turns, k).1 == Done
    ensures
      var w' := RenameLoop(w, ids, renames, turns, k).0;
      && w'.animes == w.animes && w'.disk.foldCase == w.disk.foldCase
      && (RowsRenamed(w.table, w'.table, ids, renames, k) <==> StaysFree(w, ids, renames, turns, k))
    decreases |renames| - k
  {
    hide MoveEpisode, RowsRenamed, Disk.IsFreeFor;
    if k == |renames| {
      NothingRenamed(w.table, ids, renames);
    } else {
      assert renames[k] in renames;
      var id := ids[renames[k].index];
      var src := w.table.rows[id].path;
      var (disk, r) := MoveEpisode(w.disk, src, Path(src.dir, renames[k].name), turns(k).script);
      var w1 := RowFollows(w, id, disk, r.value);
      LandsAsPlanned(w.disk, src, renames[k].name, turns(k).script);
      LoopIsExact(w1, ids, renames, turns, k + 1);
      EpisodeFolds(w.disk, src, Path(src.dir, renames[k].name), turns(k).script);
      LoopLeaves(w1, ids, renames, turns, k + 1, id);
      OneMoreRow(w.table, w1.table, ids, renames, k, RenameLoop(w, ids, renames, turns, k).0.table, r.value);
    }
  }

  lemma NothingRenamed(t: Table, ids: seq<nat>, renames: seq<Rename>)
    ensures RowsRenamed(t, t, ids, renames, |renames|)
  {
    assert renames[|renames|..] == [];
  }

  /** The row of the `k`-th rename, and the rest. */
  lemma OneMoreRow(t: Table, t1: Table, ids: seq<nat>, renames: seq<Rename>, k: nat, t': Table, to: Path)
    requires PlanFits(t, ids, renames) && EachOnce(ids, renames, k) && k < |renames| && renames[k] in renames
    requires t1 == WithPath(t, ids[renames[k].index], to)
    requires t'.rows.Keys == t1.rows.Keys && t'.next == t1.next && t'.rows[ids[renames[k].index]] == t1.rows[ids[renames[k].index]]
    ensures RowsRenamed(t, t', ids, renames, k) <==>
      to == Path(t.rows[ids[renames[k].index]].path.dir, renames[k].name) && RowsRenamed(t1, t', ids, renames, k + 1)
  {
    var x := renames[k].index;
    assert renames[k..][0] == renames[k] && renames[k..][1..] == renames[k + 1..];
    forall r | r in renames[k + 1..] ensures r.index != x {
      var j :| 0 <= j < |renames[k + 1..]| && renames[k + 1..][j] == r;
      assert r == renames[k + 1 + j];
    }
    NameAfterNone(renames[k + 1..], x, to.name);
    forall y | 0 <= y < |ids| && ids[y] in t.rows && y != x ensures t1.rows[ids[y]] == t.rows[ids[y]] {
      assert ids[y] != ids[x];
    }
    forall y | 0 <= y < |ids| && ids[y] in t.rows && y != x
      ensures NameAfter(renames[k..], y, t.rows[ids[y]].path.name) == NameAfter(renames[k + 1..], y, t1.rows[ids[y]].path.name)
    {
    }
    var row := t.rows[ids[x]];
    assert t'.rows[ids[x]] == row.(path := to);
    if RowsRenamed(t, t', ids, renames, k) {
      assert t'.rows[ids[x]] == row.(path := Path(row.path.dir, NameAfter(renames[k..], x, row.path.name)));
    }
  }

  /** Names nobody holds at the start, and no two of them alike, stay free until their turn. */
  lemma {:induction false} ClearStaysFree(w: World, ids: seq<nat>, renames: seq<Rename>, turns: nat -> Turn, k: nat)
    requires Inv(w) && InRange(w.table, ids, renames) && DistinctPositions(ids) && k <= |renames| && Clear(w, ids, renames, k)
    requires PlanFits(w.table, ids, renames) && RenameFits(w, ids, renames, turns, k)
    requires RenameLoop(w, ids, renames, turns, k).1 == Done
    ensures StaysFree(w, ids, renames, turns, k) && EachOnce(ids, renames, k)
    decreases |renames| - k
  {
    hide MoveEpisode, Spell, Fits, Videos, IsEpisodeName, Inv, Clear, InRange;
    ClearIsOnce(w, ids, renames, k);
    if k < |renames| {
      assert renames[k] in renames;
      var id := ids[renames[k].index];
      var src := w.table.rows[id].path;
      var (disk, r) := MoveEpisode(w.disk, src, Path(src.dir, renames[k].name), turns(k).script);
      ClearIsFit(w, ids, renames, turns, k);
      OneRenamed(w, ids, renames, k, turns(k).script);
      LandsAsPlanned(w.disk, src, renames[k].name, turns(k).script);
      ClearStaysFree(RowFollows(w, id, disk, r.value), ids, renames, turns, k + 1);
    }
  }

  lemma ClearIsOnce(w: World, ids: seq<nat>, renames: seq<Rename>, k: nat)
    requires InRange(w.table, ids, renames) && DistinctPositions(ids) && Clear(w, ids, renames, k)
    ensures EachOnce(ids, renames, k)
  {
    hide Videos, Spell, IsEpisodeName;
  }

  lemma ClearIsFit(w: World, ids: seq<nat>, renames: seq<Rename>, turns: nat -> Turn, k: nat)
    requires PlanFits(w.table, ids, renames) && RenameFits(w, ids, renames, turns, k)
    requires k < |renames| && RenameLoop(w, ids, renames, turns, k).1 == Done
    ensures renames[k] in renames && Fits(w.disk, w.table.rows[ids[renames[k].index]].path, turns(k).script)
    ensures
      var src := w.table.rows[ids[renames[k].index]].path;
      MoveEpisode(w.disk, src, Path(src.dir, renames[k].name), turns(k).script).1.Some?
  {
    hide MoveEpisode, Fits;
    assert renames[k] in renames;
  }

  // ------------------------------------------------------------ the planned names are distinct

  /** What the planner hands out is never the same name twice, even to a file system that
      ignores case, and no file is planned for twice. */
  lemma PlannedDistinct(dir: Dir, title: string, locals: seq<Local>, expected: seq<Expected>, i: nat, j: nat)
    requires
      var renames := PlanFor(dir, title, locals, expected).fileRenames;
      i < j < |renames|
    ensures
      var renames := PlanFor(dir, title, locals, expected).fileRenames;
      && renames[i].index < |locals| && renames[j].index < |locals|
      && renames[i].index != renames[j].index
      && Key(Path(locals[renames[i].index].path.dir, renames[i].name)) != Key(Path(locals[renames[j].index].path.dir, renames[j].name))
  {
    hide MatchedUpTo, Sanitize, Settle, Finals, IsNameVariant, Match;
    var items := Items(Sanitize(title), locals, expected);
    var inner := Renames(items);
    RenamesAreUnsettled(items, |items|);
    InnerDistinct(items, |items|);
    FinalNamesDistinct(items);
    assert inner[i] in inner && inner[j] in inner;
    var p, q := inner[i].index, inner[j].index;
    assert p < q;
    assert items[p].path == locals[Matched(locals, expected)[p]].path;
    assert items[q].path == locals[Matched(locals, expected)[q]].path;
  }

  lemma {:induction false} InnerDistinct(items: seq<Item>, k: nat)
    requires k <= |items|
    ensures forall i | 0 <= i < |RenamesUpTo(items, Finals(items), k)| :: RenamesUpTo(items, Finals(items), k)[i].index < k
    ensures forall i, j | 0 <= i < j < |RenamesUpTo(items, Finals(items), k)| ::
      RenamesUpTo(items, Finals(items), k)[i].index < RenamesUpTo(items, Finals(items), k)[j].index
    decreases k
  {
    hide Settle, Finals;
    if k > 0 { InnerDistinct(items, k - 1); }
  }

  lemma SlotsFollowKeys(d: Disk, p: Path, q: Path)
    requires d.Slot(p) == d.Slot(q)
    ensures Key(p) == Key(q)
  {
  }

  // ------------------------------------------------------------ the whole call

  /** No name the plan gives is taken by a file that is there, once the directory has been
      renamed. */
  ghost predicate NamesFree(w: World, ids: seq<nat>, renames: seq<Rename>)
    requires InRange(w.table, ids, renames)
  {
    forall j | 0 <= j < |renames| :: w.disk.Slot(Dest(w.table, ids, renames[j])) !in Videos(w.disk)
  }

  lemma PlanIsClear(w: World, dir: Dir, title: string, expected: seq<Expected>, ids: seq<nat>, locals: seq<Local>)
    requires forall i | i in ids :: i in w.table.rows
    requires |locals| == |ids|
    requires forall x, y | 0 <= x < |ids| && 0 <= y < |ids| && locals[x].path.dir != locals[y].path.dir :: w.table.rows[ids[x]].path.dir != w.table.rows[ids[y]].path.dir
    requires InRange(w.table, ids, PlanFor(dir, title, locals, expected).fileRenames)
    requires NamesFree(w, ids, PlanFor(dir, title, locals, expected).fileRenames)
    ensures Clear(w, ids, PlanFor(dir, title, locals, expected).fileRenames, 0)
  {
    hide PlanFor, Spell, Videos, IsEpisodeName;
    var renames := PlanFor(dir, title, locals, expected).fileRenames;
    forall i, j | 0 <= i < j < |renames|
      ensures renames[i].index != renames[j].index && w.disk.Slot(Dest(w.table, ids, renames[i])) != w.disk.Slot(Dest(w.table, ids, renames[j]))
    {
      PlannedDistinct(dir, title, locals, expected, i, j);
      if w.disk.Slot(Dest(w.table, ids, renames[i])) == w.disk.Slot(Dest(w.table, ids, renames[j])) {
        SlotsFollowKeys(w.disk, Dest(w.table, ids, renames[i]), Dest(w.table, ids, renames[j]));
      }
    }
  }

  /** The library as it is when the first file is touched. */
  function BeforeFiles(w: World, id: nat, plan: Plan): World
    requires id in w.animes && w.animes[id].dir != []
  {
    if plan.dirNeedsRename then RenameDir(w, id, RenamedDir(w.animes[id].dir, plan)) else w
  }

  /** The rows then lie in the renamed directory under the names they had. */
  lemma RowsBeforeFiles(w: World, id: nat, ids: seq<nat>, plan: Plan)
    requires Inv(w) && id in w.animes && w.animes[id].dir != [] && Lists(ids, w.table, id) && forall i | i in ids :: i in w.table.rows
    requires plan.dirNeedsRename ==> !DirTaken(w.disk, RenamedDir(w.animes[id].dir, plan))
    requires plan.dirNeedsRename ==> forall a | a in w.animes && a != id :: Apart(w.animes[a].dir, RenamedDir(w.animes[id].dir, plan))
    ensures
      var w1 := BeforeFiles(w, id, plan);
      && Inv(w1) && w1.table.rows.Keys == w.table.rows.Keys
      && forall x | 0 <= x < |ids| ::
           && ids[x] in w.table.rows && w.animes[id].dir <= w.table.rows[ids[x]].path.dir
           && w1.table.rows[ids[x]] == w.table.rows[ids[x]].(path :=
                Path(Rebase(w.animes[id].dir, RenamedDir(w.animes[id].dir, plan), w.table.rows[ids[x]].path.dir), w.table.rows[ids[x]].path.name))
  {
    hide RowsOnDisk, RowsDistinct, RebaseDisk, DirTaken;
    var from, to := w.animes[id].dir, RenamedDir(w.animes[id].dir, plan);
    forall x | 0 <= x < |ids| ensures ids[x] in w.table.rows && w.table.rows[ids[x]].anime == id && from <= w.table.rows[ids[x]].path.dir {
      assert ids[x] in (set i | i in ids);
      assert ids[x] in IdsOf(w.table, id);
      RowUnder(w, id, ids[x], from);
    }
    if plan.dirNeedsRename {
      RenameDirKeepsInv(w, id, to);
    } else {
      forall x | 0 <= x < |ids| ensures Rebase(from, to, w.table.rows[ids[x]].path.dir) == w.table.rows[ids[x]].path.dir {
        assert from + w.table.rows[ids[x]].path.dir[|from|..] == w.table.rows[ids[x]].path.dir;
      }
    }
  }

  /** The rows after an exact run of the loop are the plan applied. */
  lemma ExactIsApplied(w: World, w1: World, w': World, id: nat, ids: seq<nat>, plan: Plan)
    requires id in w.animes && w.animes[id].dir != [] && (forall i | i in ids :: i in w.table.rows && i in w1.table.rows && i in w'.table.rows)
    requires forall x | 0 <= x < |ids| ::
      && w.animes[id].dir <= w.table.rows[ids[x]].path.dir
      && w1.table.rows[ids[x]] == w.table.rows[ids[x]].(path :=
           Path(Rebase(w.animes[id].dir, RenamedDir(w.animes[id].dir, plan), w.table.rows[ids[x]].path.dir), w.table.rows[ids[x]].path.name))
    requires RowsRenamed(w1.table, w'.table, ids, plan.fileRenames, 0)
    requires forall l | l in LocalsOf(w.table.rows, ids) :: w.animes[id].dir <= l.path.dir
    ensures LocalsOf(w'.table.rows, ids) == Applied(w.animes[id].dir, plan, LocalsOf(w.table.rows, ids))
  {
    hide Rebase;
    assert plan.fileRenames[0..] == plan.fileRenames;
    var a, b := LocalsOf(w'.table.rows, ids), Applied(w.animes[id].dir, plan, LocalsOf(w.table.rows, ids));
    forall x | 0 <= x < |ids| ensures a[x] == b[x] {
      assert ids[x] in ids;
    }
  }

  lemma LocalsAreEpisodes(w: World, id: nat, ids: seq<nat>)
    requires Inv(w) && (forall i | i in ids :: i in w.table.rows)
    ensures forall l | l in LocalsOf(w.table.rows, ids) :: IsEpisodeName(l.path.name) && IsExtension(Extension(l.path.name))
  {
    hide HasVideoExtension, Extension, Suffix;
    var locals := LocalsOf(w.table.rows, ids);
    forall l | l in locals ensures IsEpisodeName(l.path.name) && IsExtension(Extension(l.path.name)) {
      var x :| 0 <= x < |locals| && locals[x] == l;
      assert ids[x] in ids;
      RowIsVideo(w, ids[x]);
      VideoHasExtension(l.path.name);
    }
  }

  /** The names the plan gives, in the directory as it is when the first file is touched,
      are free. This can be looked up before the call. */
  ghost predicate NothingInTheWay(w: World, id: nat, env: RenameEnv)
    requires id in w.animes && w.animes[id].dir != [] && (forall i | i in env.ids :: i in w.table.rows)
  {
    var plan := PlanFor(w.animes[id].dir, w.animes[id].folderTitle, LocalsOf(w.table.rows, env.ids), w.animes[id].expected);
    var w1 := BeforeFiles(w, id, plan);
    InRange(w1.table, env.ids, plan.fileRenames) ==> NamesFree(w1, env.ids, plan.fileRenames)
  }

  /** Every planned rename is of a listed row, to an episode's name. */
  lemma PlanInRange(w: World, w1: World, id: nat, ids: seq<nat>)
    requires Inv(w) && id in w.animes && (forall i | i in ids :: i in w.table.rows && i in w1.table.rows)
    ensures InRange(w1.table, ids, PlanFor(w.animes[id].dir, w.animes[id].folderTitle, LocalsOf(w.table.rows, ids), w.animes[id].expected).fileRenames)
  {
    hide Inv, PlanFor, IsEpisodeName, Extension;
    var locals := LocalsOf(w.table.rows, ids);
    var renames := PlanFor(w.animes[id].dir, w.animes[id].folderTitle, locals, w.animes[id].expected).fileRenames;
    LocalsAreEpisodes(w, id, ids);
    PlannedIndices(w.animes[id].dir, w.animes[id].folderTitle, locals, w.animes[id].expected);
    PlannedAreEpisodes(w.animes[id].dir, w.animes[id].folderTitle, locals, w.animes[id].expected);
    forall j | 0 <= j < |renames| ensures renames[j].index < |ids| && ids[renames[j].index] in w1.table.rows && IsEpisodeName(renames[j].name) {
      assert renames[j] in renames;
      assert ids[renames[j].index] in ids;
    }
  }

  lemma BasesStayApart(w: World, w1: World, id: nat, ids: seq<nat>, plan: Plan)
    requires id in w.animes && w.animes[id].dir != [] && (forall i | i in ids :: i in w.table.rows && i in w1.table.rows)
    requires forall x | 0 <= x < |ids| ::
      && w.animes[id].dir <= w.table.rows[ids[x]].path.dir
      && w1.table.rows[ids[x]].path.dir == Rebase(w.animes[id].dir, RenamedDir(w.animes[id].dir, plan), w.table.rows[ids[x]].path.dir)
    ensures
      var locals := LocalsOf(w.table.rows, ids);
      forall x, y | 0 <= x < |ids| && 0 <= y < |ids| && locals[x].path.dir != locals[y].path.dir :: w1.table.rows[ids[x]].path.dir != w1.table.rows[ids[y]].path.dir
  {
    hide Rebase;
    var locals := LocalsOf(w.table.rows, ids);
    var from, to := w.animes[id].dir, RenamedDir(w.animes[id].dir, plan);
    forall x, y | 0 <= x < |ids| && 0 <= y < |ids| && locals[x].path.dir != locals[y].path.dir
      ensures w1.table.rows[ids[x]].path.dir != w1.table.rows[ids[y]].path.dir
    {
      assert ids[x] in ids && ids[y] in ids;
      if Rebase(from, to, locals[x].path.dir) == Rebase(from, to, locals[y].path.dir) {
        RebaseInjective(from, to, locals[x].path.dir, locals[y].path.dir);
      }
    }
  }

  /** A rename that runs to its end, with nothing in the way of the names it plans, does
      exactly what it planned; planning again then finds nothing to do. */
  lemma RenameIsSettled(w: World, id: nat, env: RenameEnv)
    requires Inv(w) && id in w.animes && w.animes[id].anidb.Some? && w.animes[id].variantsKnown
    requires Lists(env.ids, w.table, id) && (forall i | i in env.ids :: i in w.table.rows)
    requires w.animes[id].dir != [] && RenameAllowed(w, id, env)
    requires NothingInTheWay(w, id, env) && RenameAnime(w, id, env).1 == Done
    ensures
      var w' := RenameAnime(w, id, env).0;
      && id in w'.animes && (forall i | i in env.ids :: i in w'.table.rows)
      && var again := PlanFor(w'.animes[id].dir, w.animes[id].folderTitle, LocalsOf(w'.table.rows, env.ids), w.animes[id].expected);
      !again.dirNeedsRename && again.fileRenames == []
  {
    hide PlanFor, RenameFits, RenameLoop, IsEpisodeName, DirTaken, RenameDir, Inv, RowsRenamed, Clear, NamesFree, InRange, Lists, Applied, Rebase, Extension;
    var anime := w.animes[id];
    var locals := LocalsOf(w.table.rows, env.ids);
    var plan := PlanFor(anime.dir, anime.folderTitle, locals, anime.expected);
    PlannedIndices(anime.dir, anime.folderTitle, locals, anime.expected);
    var w1 := BeforeFiles(w, id, plan);
    RowsBeforeFiles(w, id, env.ids, plan);
    ListsDistinct(env.ids, w.table, id);
    BasesStayApart(w, w1, id, env.ids, plan);
    PlanInRange(w, w1, id, env.ids);
    PlanIsClear(w1, anime.dir, anime.folderTitle, anime.expected, env.ids, locals);
    forall r | r in plan.fileRenames ensures env.ids[r.index] in w.table.rows { assert env.ids[r.index] in env.ids; }
    ClearStaysFree(w1, env.ids, plan.fileRenames, env.turns, 0);
    LoopIsExact(w1, env.ids, plan.fileRenames, env.turns, 0);
    var w' := RenameLoop(w1, env.ids, plan.fileRenames, env.turns).0;
    RenamedKeys(w1.table, w'.table, env.ids, plan.fileRenames);
    LocalsAreEpisodes(w, id, env.ids);
    LocalsUnder(w, id, env.ids);
    ExactIsApplied(w, w1, w', id, env.ids, plan);
    PlanIsSettled(anime.dir, anime.folderTitle, locals, anime.expected);
    DirBeforeFiles(w, id, plan);
  }

  lemma DirBeforeFiles(w: World, id: nat, plan: Plan)
    requires id in w.animes && w.animes[id].dir != []
    ensures id in BeforeFiles(w, id, plan).animes && BeforeFiles(w, id, plan).animes[id].dir == RenamedDir(w.animes[id].dir, plan)
  {
  }

  lemma RenamedKeys(t: Table, t': Table, ids: seq<nat>, renames: seq<Rename>)
    requires RowsRenamed(t, t', ids, renames, 0)
    ensures t'.rows.Keys == t.rows.Keys
  {
  }

  lemma ListsDistinct(ids: seq<nat>, t: Table, anime: nat)
    requires Lists(ids, t, anime)
    ensures DistinctPositions(ids)
  {
  }

  lemma LocalsUnder(w: World, id: nat, ids: seq<nat>)
    requires id in w.animes && (forall i | i in ids :: i in w.table.rows)
    requires forall x | 0 <= x < |ids| :: w.animes[id].dir <= w.table.rows[ids[x]].path.dir
    ensures forall l | l in LocalsOf(w.table.rows, ids) :: w.animes[id].dir <= l.path.dir
  {
  }

  // ------------------------------------------------------------ the new names read back

  lemma VariantIsBuilt(name: string, stem: string, ext: string)
    requires IsExtension(ext) && (exists k | 0 <= k < |stem| :: stem[k] != '.') && IsNameVariant(name, stem + ext)
    ensures BuiltOn(name, stem, ext)
  {
    hide Extension, LastDot, IsNumberedVariant;
    SplitBuilt(stem, ext);
    if name == stem + ext {
      PlainIsBuilt(stem, ext);
    } else {
      var middle := VariantMiddle(name, stem + " (", ")" + ext);
      var more := " (" + middle + ")";
      assert name == stem + more + ext;
      NoBracketIn(middle);
    }
  }

  lemma NoBracketIn(digits: string)
    requires DigitsOnly(digits)
    ensures ']' !in " (" + digits + ")"
  {
  }

  lemma VariantMiddle(name: string, before: string, after: string) returns (middle: string)
    requires IsNumberedVariant(name, before, after)
    ensures name == before + middle + after && DigitsOnly(middle)
  {
    hide DigitsOnly;
    middle := name[|before|..|name| - |after|];
    assert name == name[..|before|] + middle + name[|name| - |after|..];
    assert name[..|before|] == before;
  }

  /** Every variant of an episode's name, whatever its number, is read as that episode if
      and only if the title and the number allow it. */
  lemma VariantReadsBack(name: string, title: string, number: string, epTitle: Option<string>, ext: string)
    requires IsNumeral(number) && IsExtension(ext) && MarkerStands(title, Value(number), epTitle)
    requires IsNameVariant(name, EpisodeFilename(title, number, epTitle, ext))
    ensures Guess(name) == Normalize(Some(number)) <==> ReadsAs(title, Value(number))
  {
    hide Guess, IsNameVariant, EpisodeStem, MarkerStands, ReadsAs, Value;
    VariantIsBuilt(name, EpisodeStem(title, number, epTitle), ext);
    NameReadsBack(name, title, number, epTitle, ext);
  }

  /** Only the normalized number decides the match. */
  lemma {:induction false} SameNormalSameMatch(expected: seq<Expected>, a: Option<string>, b: Option<string>)
    requires Normalize(a) == Normalize(b)
    ensures Match(expected, a) == Match(expected, b)
    decreases |expected|
  {
    if expected != [] { SameNormalSameMatch(expected[..|expected| - 1], a, b); }
  }

  lemma SameNumberSameMatch(expected: seq<Expected>, a: Option<string>, b: Option<string>)
    requires a.Some? && a == Normalize(b)
    ensures Match(expected, a) == Match(expected, b)
  {
    NormalizeOfDecimal(Value(b.value));
    SameNormalSameMatch(expected, a, b);
  }
}
