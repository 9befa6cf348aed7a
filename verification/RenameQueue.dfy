/** When an anime leaves the rename queue: what an empty plan says about the rows, and
    exactly which renames, carried out to their end, lead to one. */
module RenameQueue {
  import opened Text
  import opened Numbering
  import opened Disk
  import opened Episodes
  import opened ReleaseName
  import opened Naming
  import opened Catalog
  import opened RenamePlan
  import opened Library
  import opened LibraryInvariant
  import opened RenameInvariant
  import opened RenameSettled

  // ------------------------------------------------------------ an empty plan

  predicate IsMatched(row: Row, expected: seq<Expected>) {
    Match(expected, row.number).Some?
  }

  /** The name a matched row's file ought to have. */
  function TargetOf(row: Row, title: string, expected: seq<Expected>): string
    requires IsMatched(row, expected)
  {
    ItemFor(Sanitize(title), Local(row.path, row.number), expected).target
  }

  predicate Bears(row: Row, title: string, expected: seq<Expected>) {
    IsMatched(row, expected) ==> IsNameVariant(row.path.name, TargetOf(row, title, expected))
  }

  /** Every matched file is called by its name or a " (n)" variant of it. */
  ghost predicate AllBear(t: Table, anime: nat, title: string, expected: seq<Expected>) {
    forall i | i in t.rows && t.rows[i].anime == anime :: Bears(t.rows[i], title, expected)
  }

  /** No two matched files of the anime have names that differ at most in case. */
  ghost predicate KeysApart(t: Table, anime: nat, expected: seq<Expected>) {
    forall i, j | i in t.rows && j in t.rows && i != j && t.rows[i].anime == t.rows[j].anime == anime
      && IsMatched(t.rows[i], expected) && IsMatched(t.rows[j], expected) :: Key(t.rows[i].path) != Key(t.rows[j].path)
  }

  lemma {:induction false} MatchedHas(locals: seq<Local>, expected: seq<Expected>, k: nat, x: nat) returns (p: nat)
    requires x < k <= |locals| && Match(expected, locals[x].number).Some?
    ensures p < |MatchedUpTo(locals, expected, k)| && MatchedUpTo(locals, expected, k)[p] == x
    decreases k
  {
    hide Match;
    if x == k - 1 {
      p := |MatchedUpTo(locals, expected, k)| - 1;
    } else {
      p := MatchedHas(locals, expected, k - 1, x);
    }
  }

  lemma PositionOf(ids: seq<nat>, t: Table, anime: nat, i: nat) returns (x: nat)
    requires Lists(ids, t, anime) && i in t.rows && t.rows[i].anime == anime
    ensures x < |ids| && ids[x] == i
  {
    assert i in IdsOf(t, anime);
    assert i in (set j | j in ids);
    x :| 0 <= x < |ids| && ids[x] == i;
  }

  /** There is nothing to rename exactly when every matched file of the anime is called by
      its name or a variant of it and no two are called alike. The order in which the rows
      are listed has no say in it. */
  lemma PlanEmptyIffSettled(dir: Dir, title: string, t: Table, anime: nat, ids: seq<nat>, expected: seq<Expected>)
    requires Lists(ids, t, anime) && (forall i | i in ids :: i in t.rows)
    ensures PlanFor(dir, title, LocalsOf(t.rows, ids), expected).fileRenames == []
      <==> AllBear(t, anime, title, expected) && KeysApart(t, anime, expected)
  {
    hide Match, Matched, Renames, AllBear, KeysApart, Sanitize, Lists;
    if Renames(Items(Sanitize(title), LocalsOf(t.rows, ids), expected)) == [] {
      EmptyIsSettled(title, t, anime, ids, expected);
    } else if AllBear(t, anime, title, expected) && KeysApart(t, anime, expected) {
      SettledIsEmpty(title, t, anime, ids, expected);
    }
  }

  /** The planner's view of a listed row. */
  ghost predicate ItemIs(item: Item, t: Table, ids: seq<nat>, x: nat, title: string, expected: seq<Expected>) {
    && x < |ids| && ids[x] in t.rows && IsMatched(t.rows[ids[x]], expected)
    && item.path == t.rows[ids[x]].path && item.target == TargetOf(t.rows[ids[x]], title, expected)
  }

  lemma ItemsAre(title: string, t: Table, anime: nat, ids: seq<nat>, expected: seq<Expected>)
    requires Lists(ids, t, anime) && (forall i | i in ids :: i in t.rows)
    ensures
      var locals := LocalsOf(t.rows, ids);
      forall p | 0 <= p < |Items(Sanitize(title), locals, expected)| ::
        ItemIs(Items(Sanitize(title), locals, expected)[p], t, ids, Matched(locals, expected)[p], title, expected)
  {
    hide Match, MatchedUpTo, IsNameVariant, Sanitize, EpisodeStem, Lists;
  }

  lemma EmptyIsSettled(title: string, t: Table, anime: nat, ids: seq<nat>, expected: seq<Expected>)
    requires Lists(ids, t, anime) && (forall i | i in ids :: i in t.rows)
    requires Renames(Items(Sanitize(title), LocalsOf(t.rows, ids), expected)) == []
    ensures AllBear(t, anime, title, expected) && KeysApart(t, anime, expected)
  {
    hide Match, MatchedUpTo, Renames, IsNameVariant, Sanitize, Lists, Key, TargetOf;
    var locals := LocalsOf(t.rows, ids);
    var items := Items(Sanitize(title), locals, expected);
    ItemsAre(title, t, anime, ids, expected);
    PlanEmptyIff(items);
    forall i | i in t.rows && t.rows[i].anime == anime ensures Bears(t.rows[i], title, expected) {
      if IsMatched(t.rows[i], expected) {
        var x := PositionOf(ids, t, anime, i);
        var p := MatchedHas(locals, expected, |locals|, x);
        assert BearsItsName(items[p]);
      }
    }
    forall i, j | i in t.rows && j in t.rows && i != j && t.rows[i].anime == t.rows[j].anime == anime
      && IsMatched(t.rows[i], expected) && IsMatched(t.rows[j], expected)
      ensures Key(t.rows[i].path) != Key(t.rows[j].path)
    {
      var x := PositionOf(ids, t, anime, i);
      var y := PositionOf(ids, t, anime, j);
      var p := MatchedHas(locals, expected, |locals|, x);
      var q := MatchedHas(locals, expected, |locals|, y);
      assert items[p].path == t.rows[i].path && items[q].path == t.rows[j].path;
      if p < q { assert Key(items[p].path) != Key(items[q].path); } else { assert Key(items[q].path) != Key(items[p].path); }
    }
  }

  lemma SettledIsEmpty(title: string, t: Table, anime: nat, ids: seq<nat>, expected: seq<Expected>)
    requires Lists(ids, t, anime) && (forall i | i in ids :: i in t.rows)
    requires AllBear(t, anime, title, expected) && KeysApart(t, anime, expected)
    ensures Renames(Items(Sanitize(title), LocalsOf(t.rows, ids), expected)) == []
  {
    hide Match, MatchedUpTo, Renames, IsNameVariant, Sanitize, Key, TargetOf;
    var locals := LocalsOf(t.rows, ids);
    var items := Items(Sanitize(title), locals, expected);
    var indices := Matched(locals, expected);
    ListedAreOwn(ids, t, anime);
    ItemsAre(title, t, anime, ids, expected);
    PlanEmptyIff(items);
    forall p | 0 <= p < |items| ensures BearsItsName(items[p]) {
      assert ids[indices[p]] in ids;
      assert Bears(t.rows[ids[indices[p]]], title, expected);
    }
    forall p, q | 0 <= p < q < |items| ensures Key(items[p].path) != Key(items[q].path) {
      assert ids[indices[p]] in ids && ids[indices[q]] in ids;
      assert indices[p] < indices[q] && ids[indices[p]] != ids[indices[q]];
    }
  }

  // ------------------------------------------------------------ one rename

  /** A name the planner gives: the file's name or its first free number. */
  ghost predicate IsPlannedName(name: string, target: string) {
    name == target || exists n :: n >= 2 && name == Numbered(Root(target), n, Extension(target))
  }

  lemma FreeVariantIsPlanned(dir: Dir, target: string, taken: set<Path>)
    ensures IsPlannedName(FreeVariant(dir, target, taken), target)
  {
    hide Root, Extension, Numbered;
    FreeVariantIsLowest(dir, target, taken);
  }

  lemma {:induction false} AssignPlanned(items: seq<Item>, k: nat)
    requires k <= |items|
    ensures forall i | 0 <= i < k && !Settle(items).1[i] :: IsPlannedName(Assign(items, k).1[i], items[i].target)
    decreases k
  {
    hide Settle, FreeVariant, IsPlannedName;
    if k > 0 {
      AssignPlanned(items, k - 1);
      FreeVariantIsPlanned(items[k - 1].path.dir, items[k - 1].target, Assign(items, k - 1).0);
    }
  }

  /** A row whose file a rename is planned for. */
  ghost predicate IsPlanned(row: Row, name: string, title: string, expected: seq<Expected>) {
    && IsMatched(row, expected) && IsEpisodeName(row.path.name)
    && IsPlannedName(name, TargetOf(row, title, expected))
  }

  /** Where the file lands: at the planned name, or where the mover makes way. */
  function Landing(d: Disk, src: Path, name: string): Path {
    d.Dedupe(src, Path(src.dir, name))
  }

  /** The planned name bears no number, or nothing holds it. */
  ghost predicate NumberIsFree(d: Disk, row: Row, name: string, title: string, expected: seq<Expected>)
    requires IsMatched(row, expected)
  {
    name == TargetOf(row, title, expected) || d.IsFreeFor(row.path, Path(row.path.dir, name))
  }

  /** A file renamed as planned bears its name exactly if no number was in the way. */
  lemma LandsBearing(d: Disk, row: Row, name: string, title: string, expected: seq<Expected>)
    requires IsPlanned(row, name, title, expected)
    ensures
      var to := Landing(d, row.path, name);
      && IsEpisodeName(to.name) && Extension(to.name) == Extension(row.path.name)
      && TargetOf(row.(path := to), title, expected) == TargetOf(row, title, expected)
      && (Bears(row.(path := to), title, expected) <==> NumberIsFree(d, row, name, title, expected))
  {
    hide EpisodeStem, IsNameVariant, HasVideoExtension, LowestFree, Spell, Match, Sanitize, Extension, Suffix, Root, Stem;
    var e := EpisodeOf(expected, row.number);
    var stem := EpisodeStem(Sanitize(title), e.epNumber, e.title);
    var ext := Extension(row.path.name);
    EpisodeExtension(row.path.name);
    SplitBuilt(stem, ext);
    LandingKeepsExtension(d, row.path, name, stem, ext);
    var to := Landing(d, row.path, name);
    if name == stem + ext {
      OccupiedPlainIsNumbered(d, row.path, row.path.dir, stem, ext);
    } else {
      var n :| n >= 2 && name == Numbered(stem, n, ext);
      OccupiedNumberIsDoubled(d, row.path, row.path.dir, stem, n, ext);
    }
  }

  lemma EpisodeExtension(name: string)
    requires IsEpisodeName(name)
    ensures IsExtension(Extension(name)) && HasVideoExtension("x" + Extension(name))
  {
    hide HasVideoExtension, Extension;
    VideoHasExtension(name);
    SplitBuilt("x", Suffix(name));
    Rollback.SameKind("x" + Suffix(name), name);
  }

  lemma LandingKeepsExtension(d: Disk, src: Path, name: string, stem: string, ext: string)
    requires IsExtension(ext) && HasVideoExtension("x" + ext) && exists k | 0 <= k < |stem| :: stem[k] != '.'
    requires name == stem + ext || exists n :: n >= 2 && name == Numbered(stem, n, ext)
    ensures IsEpisodeName(Landing(d, src, name).name) && Extension(Landing(d, src, name).name) == ext
  {
    hide HasVideoExtension, Extension, Suffix, LowestFree, Spell, IsEpisodeName, Numbered;
    PlannedIsEpisode(name, stem, ext);
    DedupeKeepsKind(d, src, Path(src.dir, name));
    DedupeIsEpisode(d, src, Path(src.dir, name));
    EpisodeIsBoth(name);
    EpisodeIsBoth(Landing(d, src, name).name);
  }

  lemma EpisodeIsBoth(name: string)
    requires IsEpisodeName(name)
    ensures Extension(name) == Suffix(name) != ""
  {
    hide HasVideoExtension, Extension;
    VideoHasExtension(name);
  }

  lemma PlannedIsEpisode(name: string, stem: string, ext: string)
    requires IsExtension(ext) && HasVideoExtension("x" + ext) && exists k | 0 <= k < |stem| :: stem[k] != '.'
    requires name == stem + ext || exists n :: n >= 2 && name == Numbered(stem, n, ext)
    ensures IsEpisodeName(name) && Extension(name) == ext
  {
    hide HasVideoExtension, Extension, IsNameVariant, Decimal;
    SplitBuilt(stem, ext);
    if name != stem + ext {
      var n :| n >= 2 && name == Numbered(stem, n, ext);
      NumberedIsVariant(stem + ext, n);
    } else {
      PlainIsVariant(name);
    }
    VariantIsEpisode(name, stem, ext);
    VariantKeepsExtension(name, stem, ext);
  }

  lemma PlainIsVariant(name: string)
    ensures IsNameVariant(name, name)
  {
  }

  // ------------------------------------------------------------ the whole loop

  /** From the `k`-th on, the renames are as the planner gives them, each for another row. */
  ghost predicate AllPlanned(t: Table, anime: nat, ids: seq<nat>, renames: seq<Rename>, title: string, expected: seq<Expected>, k: nat)
    requires PlanFits(t, ids, renames)
  {
    && (forall j | k <= j < |renames| ::
          assert renames[j] in renames;
          && t.rows[ids[renames[j].index]].anime == anime
          && IsPlanned(t.rows[ids[renames[j].index]], renames[j].name, title, expected))
    && (forall i, j | k <= i < j < |renames| :: ids[renames[i].index] != ids[renames[j].index])
  }

  /** The files no rename from the `k`-th on is planned for are called by their names. */
  ghost predicate OthersBear(t: Table, anime: nat, ids: seq<nat>, renames: seq<Rename>, title: string, expected: seq<Expected>, k: nat)
    requires PlanFits(t, ids, renames)
  {
    forall i | i in t.rows && t.rows[i].anime == anime && (forall j | k <= j < |renames| :: ids[renames[j].index] != i) :: Bears(t.rows[i], title, expected)
  }

  /** At every turn of the rename loop whose planned name bears a number, nothing but the
      file itself holds that name. */
  ghost predicate NumbersFree(w: World, ids: seq<nat>, renames: seq<Rename>, title: string, expected: seq<Expected>, turns: nat -> Turn, k: nat := 0)
    requires PlanFits(w.table, ids, renames)
    decreases |renames| - k
  {
    k >= |renames| ||
    (assert renames[k] in renames;
     var id := ids[renames[k].index];
     var row := w.table.rows[id];
     && (IsMatched(row, expected) ==> NumberIsFree(w.disk, row, renames[k].name, title, expected))
     && var (disk, r) := MoveEpisode(w.disk, row.path, Path(row.path.dir, renames[k].name), turns(k).script);
        r.Some? ==> NumbersFree(RowFollows(w, id, disk, r.value), ids, renames, title, expected, turns, k + 1))
  }

  /** The same rows, each in its directory and with the extension it had. */
  ghost predicate OnlyStemsChanged(t: Table, t': Table) {
    && t'.rows.Keys == t.rows.Keys && t'.next == t.next
    && forall i | i in t.rows ::
         && t'.rows[i] == t.rows[i].(path := t'.rows[i].path)
         && t'.rows[i].path.dir == t.rows[i].path.dir && Extension(t'.rows[i].path.name) == Extension(t.rows[i].path.name)
  }

  lemma TurnFacts(w: World, anime: nat, ids: seq<nat>, renames: seq<Rename>, title: string, expected: seq<Expected>, turns: nat -> Turn, k: nat)
    requires PlanFits(w.table, ids, renames) && k < |renames| && AllPlanned(w.table, anime, ids, renames, title, expected, k)
    requires renames[k] in renames
    requires
      var row := w.table.rows[ids[renames[k].index]];
      MoveEpisode(w.disk, row.path, Path(row.path.dir, renames[k].name), turns(k).script).1.Some?
    ensures
      var id := ids[renames[k].index];
      var row := w.table.rows[id];
      var (disk, r) := MoveEpisode(w.disk, row.path, Path(row.path.dir, renames[k].name), turns(k).script);
      var w1 := RowFollows(w, id, disk, r.value);
      && PlanFits(w1.table, ids, renames) && AllPlanned(w1.table, anime, ids, renames, title, expected, k + 1)
      && OnlyStemsChanged(w.table, w1.table)
      && (OthersBear(w1.table, anime, ids, renames, title, expected, k + 1) <==>
            OthersBear(w.table, anime, ids, renames, title, expected, k) && NumberIsFree(w.disk, row, renames[k].name, title, expected))
  {
    hide MoveEpisode, Bears, IsPlanned, NumberIsFree, Extension, Landing, OthersBear, AllPlanned, OnlyStemsChanged;
    var id := ids[renames[k].index];
    var row := w.table.rows[id];
    var (disk, r) := MoveEpisode(w.disk, row.path, Path(row.path.dir, renames[k].name), turns(k).script);
    LandsThere(w.disk, row.path, renames[k].name, turns(k).script);
    FirstPlanned(w.table, anime, ids, renames, title, expected, k);
    LandsBearing(w.disk, row, renames[k].name, title, expected);
    RowChanged(w.table, anime, ids, renames, title, expected, k, r.value);
    OthersStep(w.table, anime, ids, renames, title, expected, k, r.value);
  }

  lemma FirstPlanned(t: Table, anime: nat, ids: seq<nat>, renames: seq<Rename>, title: string, expected: seq<Expected>, k: nat)
    requires PlanFits(t, ids, renames) && k < |renames| && AllPlanned(t, anime, ids, renames, title, expected, k)
    ensures renames[k] in renames && IsPlanned(t.rows[ids[renames[k].index]], renames[k].name, title, expected)
    ensures t.rows[ids[renames[k].index]].anime == anime
  {
    hide IsPlanned;
    assert renames[k] in renames;
  }

  lemma RowChanged(t: Table, anime: nat, ids: seq<nat>, renames: seq<Rename>, title: string, expected: seq<Expected>, k: nat, to: Path)
    requires PlanFits(t, ids, renames) && k < |renames| && renames[k] in renames && AllPlanned(t, anime, ids, renames, title, expected, k)
    requires
      var row := t.rows[ids[renames[k].index]];
      to.dir == row.path.dir && Extension(to.name) == Extension(row.path.name)
    ensures
      var t1 := WithPath(t, ids[renames[k].index], to);
      PlanFits(t1, ids, renames) && AllPlanned(t1, anime, ids, renames, title, expected, k + 1) && OnlyStemsChanged(t, t1)
  {
    hide Bears, IsPlanned, Extension;
  }

  lemma OthersStep(t: Table, anime: nat, ids: seq<nat>, renames: seq<Rename>, title: string, expected: seq<Expected>, k: nat, to: Path)
    requires PlanFits(t, ids, renames) && k < |renames| && renames[k] in renames && AllPlanned(t, anime, ids, renames, title, expected, k)
    ensures
      var id := ids[renames[k].index];
      var t1 := WithPath(t, id, to);
      && PlanFits(t1, ids, renames)
      && (OthersBear(t1, anime, ids, renames, title, expected, k + 1) <==>
            OthersBear(t, anime, ids, renames, title, expected, k) && Bears(t1.rows[id], title, expected))
  {
    hide Bears, IsPlanned;
    var id := ids[renames[k].index];
    var t1 := WithPath(t, id, to);
    assert t1.rows[id].anime == anime;
    if OthersBear(t1, anime, ids, renames, title, expected, k + 1) {
      assert Bears(t1.rows[id], title, expected);
      forall i | i in t.rows && t.rows[i].anime == anime && (forall j | k <= j < |renames| :: ids[renames[j].index] != i)
        ensures Bears(t.rows[i], title, expected)
      {
        assert t1.rows[i] == t.rows[i];
      }
    }
    if OthersBear(t, anime, ids, renames, title, expected, k) && Bears(t1.rows[id], title, expected) {
      forall i | i in t1.rows && t1.rows[i].anime == anime && (forall j | k + 1 <= j < |renames| :: ids[renames[j].index] != i)
        ensures Bears(t1.rows[i], title, expected)
      {
        if i != id {
          assert forall j | k <= j < |renames| :: ids[renames[j].index] != i;
          assert Bears(t.rows[i], title, expected);
        }
      }
    }
  }

  lemma LandsThere(d: Disk, src: Path, name: string, script: Script)
    requires MoveEpisode(d, src, Path(src.dir, name), script).1.Some?
    ensures MoveEpisode(d, src, Path(src.dir, name), script).1.value == Landing(d, src, name)
    ensures Landing(d, src, name).dir == src.dir
  {
    hide MoveFile;
    MoveSucceeded(d, src, Path(src.dir, name), script.video);
  }

  lemma StemsChangedTwice(t: Table, t1: Table, t2: Table)
    requires OnlyStemsChanged(t, t1) && OnlyStemsChanged(t1, t2)
    ensures OnlyStemsChanged(t, t2)
  {
    hide Extension;
  }

  /** Once the loop has run to its end, every file is called by its name exactly if those
      no rename was planned for were, and no number was in the way of the others. */
  lemma {:induction false} LoopBears(w: World, anime: nat, ids: seq<nat>, renames: seq<Rename>, title: string, expected: seq<Expected>, turns: nat -> Turn, k: nat)
    requires PlanFits(w.table, ids, renames) && k <= |renames| && AllPlanned(w.table, anime, ids, renames, title, expected, k)
    requires RenameLoop(w, ids, renames, turns, k).1 == Done
    ensures
      var w' := RenameLoop(w, ids, renames, turns, k).0;
      && OnlyStemsChanged(w.table, w'.table) && w'.animes == w.animes && w'.disk.foldCase == w.disk.foldCase
      && (AllBear(w'.table, anime, title, expected) <==>
            OthersBear(w.table, anime, ids, renames, title, expected, k) && NumbersFree(w, ids, renames, title, expected, turns, k))
    decreases |renames| - k
  {
    hide MoveEpisode, Bears, AllPlanned, NumberIsFree, OnlyStemsChanged, IsMatched;
    if k == |renames| {
      NothingChanged(w.table);
      NobodyLeft(w.table, anime, ids, renames, title, expected);
    } else {
      assert renames[k] in renames;
      var id := ids[renames[k].index];
      var row := w.table.rows[id];
      var (disk, r) := MoveEpisode(w.disk, row.path, Path(row.path.dir, renames[k].name), turns(k).script);
      var w1 := RowFollows(w, id, disk, r.value);
      PlannedIsMatched(w.table, anime, ids, renames, title, expected, k);
      TurnFacts(w, anime, ids, renames, title, expected, turns, k);
      LoopBears(w1, anime, ids, renames, title, expected, turns, k + 1);
      EpisodeFolds(w.disk, row.path, Path(row.path.dir, renames[k].name), turns(k).script);
      StemsChangedTwice(w.table, w1.table, RenameLoop(w, ids, renames, turns, k).0.table);
    }
  }

  lemma NothingChanged(t: Table)
    ensures OnlyStemsChanged(t, t)
  {
    hide Extension;
  }

  lemma NobodyLeft(t: Table, anime: nat, ids: seq<nat>, renames: seq<Rename>, title: string, expected: seq<Expected>)
    requires PlanFits(t, ids, renames)
    ensures OthersBear(t, anime, ids, renames, title, expected, |renames|) <==> AllBear(t, anime, title, expected)
  {
    hide Bears;
  }

  lemma PlannedIsMatched(t: Table, anime: nat, ids: seq<nat>, renames: seq<Rename>, title: string, expected: seq<Expected>, k: nat)
    requires PlanFits(t, ids, renames) && k < |renames| && AllPlanned(t, anime, ids, renames, title, expected, k)
    ensures renames[k] in renames && IsMatched(t.rows[ids[renames[k].index]], expected)
  {
    hide Extension, IsPlannedName, HasVideoExtension;
    assert renames[k] in renames;
  }

  // ------------------------------------------------------------ names that differ in case alone

  /** What follows the stem in a name that is a variant of it. */
  lemma AfterStem(name: string, stem: string, ext: string) returns (rest: string)
    requires IsExtension(ext) && (exists k | 0 <= k < |stem| :: stem[k] != '.') && IsNameVariant(name, stem + ext)
    ensures name == stem + rest
    ensures Lower(ext) == ext ==> Lower(rest) == rest
  {
    hide Extension, Lower, IsNumberedVariant, LastDot;
    SplitBuilt(stem, ext);
    if name == stem + ext {
      rest := ext;
    } else {
      var middle := VariantMiddle(name, stem + " (", ")" + ext);
      rest := " (" + middle + ")" + ext;
      assert name == stem + rest;
      LowerOfNumber(middle, ext);
    }
  }

  lemma LowerOfNumber(digits: string, ext: string)
    requires DigitsOnly(digits)
    ensures Lower(" (" + digits + ")" + ext) == " (" + digits + ")" + Lower(ext)
  {
    LowerOfDigits(digits);
    LowerConcat(" (" + digits + ")", ext);
    LowerConcat(" (" + digits, ")");
    LowerConcat(" (", digits);
    assert Lower(" (") == " (" && Lower(")") == ")";
  }

  lemma SameNumberSameEpisode(expected: seq<Expected>, a: Option<string>, b: Option<string>)
    requires Match(expected, a).Some? && Match(expected, b).Some?
    requires Value(EpisodeOf(expected, a).epNumber) == Value(EpisodeOf(expected, b).epNumber)
    ensures Match(expected, a) == Match(expected, b)
  {
    hide Value;
    var d, e := EpisodeOf(expected, a), EpisodeOf(expected, b);
    NormalizeComparesValues(Some(d.epNumber), Some(e.epNumber));
    SameNormalSameMatch(expected, a, b);
  }

  /** Two matched files called by their names that differ at most in case are spelled
      alike, if their extensions are lower case. */
  lemma LowerDecides(a: Row, b: Row, title: string, expected: seq<Expected>)
    requires IsMatched(a, expected) && IsMatched(b, expected) && Bears(a, title, expected) && Bears(b, title, expected)
    requires IsExtension(Extension(a.path.name)) && IsExtension(Extension(b.path.name))
    requires Lower(Extension(a.path.name)) == Extension(a.path.name) && Lower(Extension(b.path.name)) == Extension(b.path.name)
    requires Lower(a.path.name) == Lower(b.path.name)
    ensures a.path.name == b.path.name
  {
    hide Lower, Value, Sanitize, Match, EpisodeStem, Extension, IsNameVariant;
    var d, e := EpisodeOf(expected, a.number), EpisodeOf(expected, b.number);
    var stem := EpisodeStem(Sanitize(title), d.epNumber, d.title);
    var p := AfterStem(a.path.name, stem, Extension(a.path.name));
    var q := AfterStem(b.path.name, EpisodeStem(Sanitize(title), e.epNumber, e.title), Extension(b.path.name));
    if Value(d.epNumber) != Value(e.epNumber) {
      BuiltStemsUnrelated(Sanitize(title), d.epNumber, e.epNumber, d.title, e.title, p, q);
    } else {
      SameNumberSameEpisode(expected, a.number, b.number);
      LowerConcat(stem, p);
      LowerConcat(stem, q);
      assert Lower(a.path.name)[|stem|..] == p && Lower(b.path.name)[|stem|..] == q;
    }
  }

  /** Where names are compared letter for letter, the extensions of the anime's matched
      files are lower case. */
  ghost predicate PlainCase(d: Disk, t: Table, anime: nat, expected: seq<Expected>) {
    d.foldCase || forall i | i in t.rows && t.rows[i].anime == anime && IsMatched(t.rows[i], expected) ::
      Lower(Extension(t.rows[i].path.name)) == Extension(t.rows[i].path.name)
  }

  /** Then files called by their names are told apart by the planner as they are by the disk. */
  lemma BearersApart(w: World, anime: nat, title: string, expected: seq<Expected>)
    requires Inv(w) && AllBear(w.table, anime, title, expected) && PlainCase(w.disk, w.table, anime, expected)
    ensures KeysApart(w.table, anime, expected)
  {
    hide Inv, Bears, IsMatched, Lower, Extension;
    forall i, j | i in w.table.rows && j in w.table.rows && i != j && w.table.rows[i].anime == w.table.rows[j].anime == anime
      && IsMatched(w.table.rows[i], expected) && IsMatched(w.table.rows[j], expected)
      ensures Key(w.table.rows[i].path) != Key(w.table.rows[j].path)
    {
      RowIsVideo(w, i);
      RowIsVideo(w, j);
      EpisodeExtension(w.table.rows[i].path.name);
      EpisodeExtension(w.table.rows[j].path.name);
      SlotsApart(w, i, j);
      if Key(w.table.rows[i].path) == Key(w.table.rows[j].path) && !w.disk.foldCase {
        LowerDecides(w.table.rows[i], w.table.rows[j], title, expected);
      }
    }
  }

  lemma SlotsApart(w: World, i: nat, j: nat)
    requires Inv(w) && i in w.table.rows && j in w.table.rows && i != j
    ensures w.disk.Slot(w.table.rows[i].path) != w.disk.Slot(w.table.rows[j].path)
  {
    hide Spell, RowsOnDisk, RowsPlaced, DirsApart;
  }

  lemma CaseKept(d: Disk, d': Disk, t: Table, t': Table, anime: nat, expected: seq<Expected>)
    requires OnlyStemsChanged(t, t') && d'.foldCase == d.foldCase && PlainCase(d, t, anime, expected)
    ensures PlainCase(d', t', anime, expected)
  {
    hide Extension, Lower, Match;
  }

  // ------------------------------------------------------------ read by a scan

  /** The file's name is built on the stem of the episode it is matched to. */
  ghost predicate Titled(row: Row, title: string, expected: seq<Expected>) {
    IsMatched(row, expected) ==>
      var e := EpisodeOf(expected, row.number);
      BuiltOn(row.path.name, EpisodeStem(Sanitize(title), e.epNumber, e.title), Extension(row.path.name))
  }

  lemma BearsIsTitled(row: Row, title: string, expected: seq<Expected>)
    requires Bears(row, title, expected) && IsExtension(Extension(row.path.name))
    ensures Titled(row, title, expected)
  {
    hide EpisodeStem, IsNameVariant, Match, Sanitize, Extension, BuiltOn;
    if IsMatched(row, expected) {
      var e := EpisodeOf(expected, row.number);
      VariantIsBuilt(row.path.name, EpisodeStem(Sanitize(title), e.epNumber, e.title), Extension(row.path.name));
    }
  }

  /** A file renamed as planned is titled, even where the mover had to add a second number. */
  lemma LandsTitled(d: Disk, row: Row, name: string, title: string, expected: seq<Expected>)
    requires IsPlanned(row, name, title, expected)
    ensures Titled(row.(path := Landing(d, row.path, name)), title, expected)
  {
    hide EpisodeStem, HasVideoExtension, LowestFree, Spell, Match, Sanitize, Extension, Suffix, Root, Stem, BuiltOn, Numbered;
    var e := EpisodeOf(expected, row.number);
    var stem := EpisodeStem(Sanitize(title), e.epNumber, e.title);
    var ext := Extension(row.path.name);
    EpisodeExtension(row.path.name);
    SplitBuilt(stem, ext);
    LandsBearing(d, row, name, title, expected);
    PlannedIsBuilt(name, stem, ext);
    PlannedIsEpisode(name, stem, ext);
    StemAndSuffix(name);
    if !d.IsFreeFor(row.path, Path(row.path.dir, name)) {
      NumberedIsBuilt(Stem(name), LowestFree(d.Occupied(row.path, row.path.dir), d.foldCase, Stem(name), Suffix(name), 2), stem, ext);
    }
  }

  lemma PlannedIsBuilt(name: string, stem: string, ext: string)
    requires name == stem + ext || exists n :: n >= 2 && name == Numbered(stem, n, ext)
    ensures BuiltOn(name, stem, ext)
  {
    hide BuiltOn, Numbered;
    PlainIsBuilt(stem, ext);
    if name != stem + ext {
      var n :| n >= 2 && name == Numbered(stem, n, ext);
      NumberedIsBuilt(stem, n, stem, ext);
    }
  }

  /** The files no rename from the `k`-th on is planned for are titled. */
  ghost predicate OthersTitled(t: Table, anime: nat, ids: seq<nat>, renames: seq<Rename>, title: string, expected: seq<Expected>, k: nat)
    requires PlanFits(t, ids, renames)
  {
    forall i | i in t.rows && t.rows[i].anime == anime && (forall j | k <= j < |renames| :: ids[renames[j].index] != i) :: Titled(t.rows[i], title, expected)
  }

  lemma {:induction false} LoopTitles(w: World, anime: nat, ids: seq<nat>, renames: seq<Rename>, title: string, expected: seq<Expected>, turns: nat -> Turn, k: nat)
    requires PlanFits(w.table, ids, renames) && k <= |renames| && AllPlanned(w.table, anime, ids, renames, title, expected, k)
    requires OthersTitled(w.table, anime, ids, renames, title, expected, k)
    requires RenameLoop(w, ids, renames, turns, k).1 == Done
    ensures
      var t' := RenameLoop(w, ids, renames, turns, k).0.table;
      forall i | i in t'.rows && t'.rows[i].anime == anime :: Titled(t'.rows[i], title, expected)
    decreases |renames| - k
  {
    hide MoveEpisode, Titled, AllPlanned, OthersTitled, OnlyStemsChanged, IsPlanned, Landing, Extension;
    if k == |renames| {
      NobodyUntitled(w.table, anime, ids, renames, title, expected);
    } else {
      FirstPlanned(w.table, anime, ids, renames, title, expected, k);
      var id := ids[renames[k].index];
      var row := w.table.rows[id];
      var (disk, r) := MoveEpisode(w.disk, row.path, Path(row.path.dir, renames[k].name), turns(k).script);
      LandsThere(w.disk, row.path, renames[k].name, turns(k).script);
      LandsBearing(w.disk, row, renames[k].name, title, expected);
      LandsTitled(w.disk, row, renames[k].name, title, expected);
      RowChanged(w.table, anime, ids, renames, title, expected, k, r.value);
      TitledStep(w.table, anime, ids, renames, title, expected, k, r.value);
      LoopTitles(RowFollows(w, id, disk, r.value), anime, ids, renames, title, expected, turns, k + 1);
    }
  }

  lemma NobodyUntitled(t: Table, anime: nat, ids: seq<nat>, renames: seq<Rename>, title: string, expected: seq<Expected>)
    requires PlanFits(t, ids, renames) && OthersTitled(t, anime, ids, renames, title, expected, |renames|)
    ensures forall i | i in t.rows && t.rows[i].anime == anime :: Titled(t.rows[i], title, expected)
  {
    hide Titled;
  }

  lemma TitledStep(t: Table, anime: nat, ids: seq<nat>, renames: seq<Rename>, title: string, expected: seq<Expected>, k: nat, to: Path)
    requires PlanFits(t, ids, renames) && k < |renames| && renames[k] in renames
    requires OthersTitled(t, anime, ids, renames, title, expected, k)
    requires Titled(t.rows[ids[renames[k].index]].(path := to), title, expected)
    ensures
      var t1 := WithPath(t, ids[renames[k].index], to);
      PlanFits(t1, ids, renames) && OthersTitled(t1, anime, ids, renames, title, expected, k + 1)
  {
    hide Titled;
    var id := ids[renames[k].index];
    var t1 := WithPath(t, id, to);
    forall i | i in t1.rows && t1.rows[i].anime == anime && (forall j | k + 1 <= j < |renames| :: ids[renames[j].index] != i)
      ensures Titled(t1.rows[i], title, expected)
    {
      if i != id {
        assert forall j | k <= j < |renames| :: ids[renames[j].index] != i;
        assert Titled(t.rows[i], title, expected);
      }
    }
  }

  // ------------------------------------------------------------ the whole call

  /** The plan a rename of the anime carries out. */
  function PlanOf(w: World, id: nat, ids: seq<nat>): Plan
    requires id in w.animes && (forall i | i in ids :: i in w.table.rows)
  {
    PlanFor(w.animes[id].dir, w.animes[id].folderTitle, LocalsOf(w.table.rows, ids), w.animes[id].expected)
  }

  lemma PlanOfFits(w: World, id: nat, ids: seq<nat>)
    requires id in w.animes && (forall i | i in ids :: i in w.table.rows)
    ensures PlanFits(w.table, ids, PlanOf(w, id, ids).fileRenames)
  {
    hide PlanFor;
    PlannedIndices(w.animes[id].dir, w.animes[id].folderTitle, LocalsOf(w.table.rows, ids), w.animes[id].expected);
    forall r | r in PlanOf(w, id, ids).fileRenames ensures r.index < |ids| && ids[r.index] in w.table.rows {
      assert ids[r.index] in ids;
    }
  }

  /** What the planner hands out is as the loop needs it; the other files bear their names. */
  lemma PlanIsPlanned(w: World, id: nat, ids: seq<nat>)
    requires Inv(w) && id in w.animes && Lists(ids, w.table, id) && (forall i | i in ids :: i in w.table.rows)
    ensures
      var renames, title, expected := PlanOf(w, id, ids).fileRenames, w.animes[id].folderTitle, w.animes[id].expected;
      && PlanFits(w.table, ids, renames)
      && AllPlanned(w.table, id, ids, renames, title, expected, 0)
      && OthersBear(w.table, id, ids, renames, title, expected, 0)
  {
    hide Inv, PlanOf, Lists, IsPlanned, Bears;
    PlanOfFits(w, id, ids);
    var t, title, expected := w.table, w.animes[id].folderTitle, w.animes[id].expected;
    var renames := PlanOf(w, id, ids).fileRenames;
    forall j | 0 <= j < |renames|
      ensures renames[j] in renames && t.rows[ids[renames[j].index]].anime == id
      ensures IsPlanned(t.rows[ids[renames[j].index]], renames[j].name, title, expected)
    {
      OneIsPlanned(w, id, ids, j);
    }
    PlannedOnce(w, id, ids);
    forall i | i in t.rows && t.rows[i].anime == id && (forall j | 0 <= j < |renames| :: assert renames[j] in renames; ids[renames[j].index] != i)
      ensures Bears(t.rows[i], title, expected)
    {
      UnplannedBears(w, id, ids, i);
    }
  }

  /** The `j`-th rename of the plan. */
  lemma OneIsPlanned(w: World, id: nat, ids: seq<nat>, j: nat)
    requires Inv(w) && id in w.animes && Lists(ids, w.table, id) && (forall i | i in ids :: i in w.table.rows)
    requires j < |PlanOf(w, id, ids).fileRenames|
    ensures
      var r := PlanOf(w, id, ids).fileRenames[j];
      && r.index < |ids| && ids[r.index] in w.table.rows && w.table.rows[ids[r.index]].anime == id
      && IsPlanned(w.table.rows[ids[r.index]], r.name, w.animes[id].folderTitle, w.animes[id].expected)
  {
    hide Inv, Match, MatchedUpTo, Sanitize, Settle, RenamesUpTo, TargetOf, IsPlannedName, Lists, IsMatched, IsEpisodeName, Assign, Finals;
    var t, title, expected := w.table, w.animes[id].folderTitle, w.animes[id].expected;
    var items := Items(Sanitize(title), LocalsOf(t.rows, ids), expected);
    var inner := Renames(items);
    ItemsAre(title, t, id, ids, expected);
    RenamesAreUnsettled(items, |items|);
    AssignPlanned(items, |items|);
    FinalsAre(items);
    assert inner[j] in inner;
    var r := PlanOf(w, id, ids).fileRenames[j];
    ListedAreOwn(ids, t, id);
    assert ids[r.index] in ids;
    RowIsVideo(w, ids[r.index]);
    assert ItemIs(items[inner[j].index], t, ids, r.index, title, expected);
  }

  lemma PlannedOnce(w: World, id: nat, ids: seq<nat>)
    requires id in w.animes && Lists(ids, w.table, id) && (forall i | i in ids :: i in w.table.rows)
    requires PlanFits(w.table, ids, PlanOf(w, id, ids).fileRenames)
    ensures
      var renames := PlanOf(w, id, ids).fileRenames;
      forall i, j | 0 <= i < j < |renames| :: ids[renames[i].index] != ids[renames[j].index]
  {
    hide PlanFor;
    var renames := PlanOf(w, id, ids).fileRenames;
    forall i, j | 0 <= i < j < |renames| ensures ids[renames[i].index] != ids[renames[j].index] {
      PlannedDistinct(w.animes[id].dir, w.animes[id].folderTitle, LocalsOf(w.table.rows, ids), w.animes[id].expected, i, j);
      assert renames[i] in renames && renames[j] in renames;
    }
  }

  lemma FinalsAre(items: seq<Item>)
    ensures Finals(items) == Assign(items, |items|).1
  {
  }

  /** A file no rename is planned for bears its name, if it is matched. */
  lemma UnplannedBears(w: World, id: nat, ids: seq<nat>, i: nat)
    requires id in w.animes && Lists(ids, w.table, id) && (forall i | i in ids :: i in w.table.rows)
    requires i in w.table.rows && w.table.rows[i].anime == id
    requires PlanFits(w.table, ids, PlanOf(w, id, ids).fileRenames)
    requires
      var renames := PlanOf(w, id, ids).fileRenames;
      forall j | 0 <= j < |renames| :: assert renames[j] in renames; ids[renames[j].index] != i
    ensures Bears(w.table.rows[i], w.animes[id].folderTitle, w.animes[id].expected)
  {
    hide Match, MatchedUpTo, Sanitize, IsNameVariant, Settle, Finals, RenamesUpTo, TargetOf, Lists;
    var t, title, expected := w.table, w.animes[id].folderTitle, w.animes[id].expected;
    if IsMatched(t.rows[i], expected) {
      var locals := LocalsOf(t.rows, ids);
      var items := Items(Sanitize(title), locals, expected);
      var inner := Renames(items);
      ItemsAre(title, t, id, ids, expected);
      var x := PositionOf(ids, t, id, i);
      var p := MatchedHas(locals, expected, |locals|, x);
      RenamesAreUnsettled(items, |items|);
      forall r | r in inner ensures r.index != p {
        var j :| 0 <= j < |inner| && inner[j] == r;
        assert PlanOf(w, id, ids).fileRenames[j].index == Matched(locals, expected)[r.index];
      }
      KeepsNameIff(items, p);
      assert ItemIs(items[p], t, ids, x, title, expected);
    }
  }

  /** The same rows under the same names, possibly in other directories. */
  ghost predicate SameNames(t: Table, t': Table) {
    && t'.rows.Keys == t.rows.Keys
    && forall i | i in t.rows :: t'.rows[i] == t.rows[i].(path := t'.rows[i].path) && t'.rows[i].path.name == t.rows[i].path.name
  }

  lemma NamesBeforeFiles(w: World, id: nat, plan: Plan)
    requires id in w.animes && w.animes[id].dir != []
    ensures SameNames(w.table, BeforeFiles(w, id, plan).table)
    ensures BeforeFiles(w, id, plan).disk.foldCase == w.disk.foldCase
    ensures id in BeforeFiles(w, id, plan).animes
    ensures BeforeFiles(w, id, plan).animes[id] == w.animes[id].(dir := RenamedDir(w.animes[id].dir, plan))
  {
  }

  lemma SameNamesSamePlan(t: Table, t': Table, anime: nat, ids: seq<nat>, renames: seq<Rename>, title: string, expected: seq<Expected>)
    requires SameNames(t, t') && PlanFits(t, ids, renames)
    requires AllPlanned(t, anime, ids, renames, title, expected, 0) && OthersBear(t, anime, ids, renames, title, expected, 0)
    ensures PlanFits(t', ids, renames)
    ensures AllPlanned(t', anime, ids, renames, title, expected, 0) && OthersBear(t', anime, ids, renames, title, expected, 0)
  {
    hide Match, Sanitize, EpisodeStem, IsNameVariant, IsPlannedName, IsEpisodeName, Extension;
    forall i | i in t.rows
      ensures IsMatched(t'.rows[i], expected) == IsMatched(t.rows[i], expected) && Bears(t'.rows[i], title, expected) == Bears(t.rows[i], title, expected)
      ensures IsMatched(t.rows[i], expected) ==> TargetOf(t'.rows[i], title, expected) == TargetOf(t.rows[i], title, expected)
    {
    }
  }

  /** At every turn of the call whose planned name bears a number, nothing but the file
      itself holds that name. */
  ghost predicate NumbersStayFree(w: World, id: nat, env: RenameEnv)
    requires id in w.animes && w.animes[id].dir != [] && (forall i | i in env.ids :: i in w.table.rows)
  {
    var plan := PlanOf(w, id, env.ids);
    var w1 := BeforeFiles(w, id, plan);
    PlanFits(w1.table, env.ids, plan.fileRenames)
    && NumbersFree(w1, env.ids, plan.fileRenames, w.animes[id].folderTitle, w.animes[id].expected, env.turns)
  }

  /** A call that runs to its end is the directory's renaming and then the loop. */
  lemma RenameUnfolds(w: World, id: nat, env: RenameEnv)
    requires id in w.animes && w.animes[id].dir != [] && w.animes[id].anidb.Some? && (forall i | i in env.ids :: i in w.table.rows)
    requires RenameAnime(w, id, env).1 == Done
    ensures
      var plan := PlanOf(w, id, env.ids);
      var w1 := BeforeFiles(w, id, plan);
      PlanFits(w1.table, env.ids, plan.fileRenames) && RenameAnime(w, id, env) == RenameLoop(w1, env.ids, plan.fileRenames, env.turns)
  {
    hide PlanFor, RenameLoop, RenamedDir, DirTaken, RebaseDisk;
    PlanOfFits(w, id, env.ids);
    NamesBeforeFiles(w, id, PlanOf(w, id, env.ids));
  }

  /** What a rename that ran to its end has made of the names. */
  lemma RenameBears(w: World, id: nat, env: RenameEnv)
    requires Inv(w) && id in w.animes && w.animes[id].dir != [] && w.animes[id].anidb.Some?
    requires Lists(env.ids, w.table, id) && (forall i | i in env.ids :: i in w.table.rows)
    requires RenameAnime(w, id, env).1 == Done
    ensures
      var w' := RenameAnime(w, id, env).0;
      && id in w'.animes && w'.animes[id] == w.animes[id].(dir := RenamedDir(w.animes[id].dir, PlanOf(w, id, env.ids)))
      && w'.table.rows.Keys == w.table.rows.Keys && Lists(env.ids, w'.table, id)
      && (AllBear(w'.table, id, w.animes[id].folderTitle, w.animes[id].expected) <==> NumbersStayFree(w, id, env))
      && (PlainCase(w.disk, w.table, id, w.animes[id].expected) ==> PlainCase(w'.disk, w'.table, id, w.animes[id].expected))
  {
    hide Inv, PlanOf, RenameAnime, RenameLoop, BeforeFiles, AllPlanned, OthersBear, NumbersFree, AllBear, Lists, PlainCase;
    var plan := PlanOf(w, id, env.ids);
    var w1 := BeforeFiles(w, id, plan);
    var w' := RenameAnime(w, id, env).0;
    RenameUnfolds(w, id, env);
    PlanIsPlanned(w, id, env.ids);
    NamesBeforeFiles(w, id, plan);
    SameNamesSamePlan(w.table, w1.table, id, env.ids, plan.fileRenames, w.animes[id].folderTitle, w.animes[id].expected);
    LoopBears(w1, id, env.ids, plan.fileRenames, w.animes[id].folderTitle, w.animes[id].expected, env.turns, 0);
    ListsKept(env.ids, w.table, w1.table, w'.table, id);
    if PlainCase(w.disk, w.table, id, w.animes[id].expected) {
      SameNamesSameCase(w.disk, w1.disk, w.table, w1.table, id, w.animes[id].expected);
      CaseKept(w1.disk, w'.disk, w1.table, w'.table, id, w.animes[id].expected);
    }
  }

  lemma ListsKept(ids: seq<nat>, t: Table, t1: Table, t': Table, anime: nat)
    requires Lists(ids, t, anime) && SameNames(t, t1) && OnlyStemsChanged(t1, t')
    ensures Lists(ids, t', anime)
  {
    hide Extension;
    assert IdsOf(t', anime) == IdsOf(t, anime);
  }

  lemma SameNamesSameCase(d: Disk, d': Disk, t: Table, t': Table, anime: nat, expected: seq<Expected>)
    requires SameNames(t, t') && d'.foldCase == d.foldCase && PlainCase(d, t, anime, expected)
    ensures PlainCase(d', t', anime, expected)
  {
    hide Extension, Lower, Match;
  }

  /** Planning again after a rename that ran to its end never asks for the directory, and
      asks for no file if and only if no numbered name was in the way of its file when that
      was moved, and no two files ended up under names that differ in case alone. */
  lemma QueueAfterRename(w: World, id: nat, env: RenameEnv, ids: seq<nat>)
    requires Inv(w) && id in w.animes && w.animes[id].dir != [] && w.animes[id].anidb.Some?
    requires Lists(env.ids, w.table, id) && (forall i | i in env.ids :: i in w.table.rows)
    requires RenameAnime(w, id, env).1 == Done && Lists(ids, RenameAnime(w, id, env).0.table, id)
    ensures
      var w' := RenameAnime(w, id, env).0;
      && id in w'.animes && (forall i | i in ids :: i in w'.table.rows)
      && !PlanOf(w', id, ids).dirNeedsRename
      && (PlanOf(w', id, ids).fileRenames == [] <==> NumbersStayFree(w, id, env) && KeysApart(w'.table, id, w.animes[id].expected))
  {
    hide Inv, PlanFor, RenameAnime, NumbersStayFree, AllBear, KeysApart, Lists, Sanitize;
    var w' := RenameAnime(w, id, env).0;
    RenameBears(w, id, env);
    ListedAreOwn(ids, w'.table, id);
    PlanEmptyIffSettled(w'.animes[id].dir, w'.animes[id].folderTitle, w'.table, id, ids, w'.animes[id].expected);
    DirIsSettled(w, w', id, env.ids, ids);
  }

  lemma DirIsSettled(w: World, w': World, id: nat, before: seq<nat>, ids: seq<nat>)
    requires id in w.animes && w.animes[id].dir != [] && (forall i | i in before :: i in w.table.rows)
    requires id in w'.animes && (forall i | i in ids :: i in w'.table.rows)
    requires w'.animes[id] == w.animes[id].(dir := RenamedDir(w.animes[id].dir, PlanOf(w, id, before)))
    ensures !PlanOf(w', id, ids).dirNeedsRename
  {
    hide Sanitize, Items, Renames, Reindexed;
  }

  /** Where the file system ignores case, or the extensions are lower case, a rename that
      ran to its end has settled the anime if and only if no numbered name was in the way
      of its file when that was moved. A plain name that is taken does no harm by itself:
      its file takes the next number; but that number may be the one planned for the next. */
  lemma RenameSettlesIff(w: World, id: nat, env: RenameEnv, ids: seq<nat>)
    requires Inv(w) && id in w.animes && w.animes[id].dir != [] && w.animes[id].anidb.Some?
    requires Lists(env.ids, w.table, id) && (forall i | i in env.ids :: i in w.table.rows)
    requires RenameAllowed(w, id, env) && RenameAnime(w, id, env).1 == Done && Lists(ids, RenameAnime(w, id, env).0.table, id)
    requires PlainCase(w.disk, w.table, id, w.animes[id].expected)
    ensures
      var w' := RenameAnime(w, id, env).0;
      && id in w'.animes && (forall i | i in ids :: i in w'.table.rows)
      && !PlanOf(w', id, ids).dirNeedsRename
      && (PlanOf(w', id, ids).fileRenames == [] <==> NumbersStayFree(w, id, env))
  {
    hide Inv, PlanOf, RenameAnime, NumbersStayFree, AllBear, KeysApart, Lists, Sanitize, RenameAllowed, PlainCase;
    RenameBears(w, id, env);
    QueueAfterRename(w, id, env, ids);
    RenameKeepsInv(w, id, env);
    if NumbersStayFree(w, id, env) {
      BearersApart(RenameAnime(w, id, env).0, id, w.animes[id].folderTitle, w.animes[id].expected);
    }
  }

  lemma RowsAreTitled(t: Table, anime: nat, ids: seq<nat>, renames: seq<Rename>, title: string, expected: seq<Expected>)
    requires PlanFits(t, ids, renames) && OthersBear(t, anime, ids, renames, title, expected, 0)
    requires forall i | i in t.rows && t.rows[i].anime == anime :: IsExtension(Extension(t.rows[i].path.name))
    ensures OthersTitled(t, anime, ids, renames, title, expected, 0)
  {
    hide Bears, Titled, Extension;
    forall i | i in t.rows && t.rows[i].anime == anime && (forall j | 0 <= j < |renames| :: ids[renames[j].index] != i)
      ensures Titled(t.rows[i], title, expected)
    {
      BearsIsTitled(t.rows[i], title, expected);
    }
  }

  /** After a rename that ran to its end, whatever was in its way, a scan reads a matched
      file of the anime as the episode it is matched to if and only if the title and the
      number allow it; the row it then writes is matched to the same episode. */
  lemma RenamedRowsReadBack(w: World, id: nat, env: RenameEnv, i: nat)
    requires Inv(w) && id in w.animes && w.animes[id].dir != [] && w.animes[id].anidb.Some?
    requires Lists(env.ids, w.table, id) && (forall i | i in env.ids :: i in w.table.rows)
    requires RenameAnime(w, id, env).1 == Done
    requires i in w.table.rows && w.table.rows[i].anime == id && IsMatched(w.table.rows[i], w.animes[id].expected)
    requires
      var e := EpisodeOf(w.animes[id].expected, w.table.rows[i].number);
      MarkerStands(Sanitize(w.animes[id].folderTitle), Value(e.epNumber), e.title)
    ensures
      var w' := RenameAnime(w, id, env).0;
      var e := EpisodeOf(w.animes[id].expected, w.table.rows[i].number);
      && i in w'.table.rows && w'.table.rows[i] == w.table.rows[i].(path := w'.table.rows[i].path)
      && (Guess(w'.table.rows[i].path.name) == Normalize(Some(e.epNumber)) <==> ReadsAs(Sanitize(w.animes[id].folderTitle), Value(e.epNumber)))
      && (ReadsAs(Sanitize(w.animes[id].folderTitle), Value(e.epNumber)) ==>
            Match(w.animes[id].expected, Guess(w'.table.rows[i].path.name)) == Match(w.animes[id].expected, w.table.rows[i].number))
  {
    hide Inv, PlanOf, RenameAnime, RenameLoop, BeforeFiles, AllPlanned, OthersBear, NumbersFree, AllBear, Lists, Match, Guess, Sanitize, Value, MarkerStands, ReadsAs, EpisodeStem, BuiltOn, Extension, OthersTitled;
    var plan := PlanOf(w, id, env.ids);
    var w1 := BeforeFiles(w, id, plan);
    var title, expected := w.animes[id].folderTitle, w.animes[id].expected;
    RenameUnfolds(w, id, env);
    PlanIsPlanned(w, id, env.ids);
    NamesBeforeFiles(w, id, plan);
    SameNamesSamePlan(w.table, w1.table, id, env.ids, plan.fileRenames, title, expected);
    forall j | j in w1.table.rows && w1.table.rows[j].anime == id ensures IsExtension(Extension(w1.table.rows[j].path.name)) {
      RowIsVideo(w, j);
      EpisodeExtension(w.table.rows[j].path.name);
    }
    RowsAreTitled(w1.table, id, env.ids, plan.fileRenames, title, expected);
    LoopTitles(w1, id, env.ids, plan.fileRenames, title, expected, env.turns, 0);
    LoopBears(w1, id, env.ids, plan.fileRenames, title, expected, env.turns, 0);
    var row' := RenameAnime(w, id, env).0.table.rows[i];
    assert Titled(row', title, expected);
    var e := EpisodeOf(expected, row'.number);
    NameReadsBack(row'.path.name, Sanitize(title), e.epNumber, e.title, Extension(row'.path.name));
    if ReadsAs(Sanitize(title), Value(e.epNumber)) {
      SameNumberSameMatch(expected, Guess(row'.path.name), row'.number);
    }
  }
}
