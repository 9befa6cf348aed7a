/** A rename none of whose numbered names is taken beforehand, and which still leaves a file
    in the queue: a plain name that is taken makes the first file take the number planned
    for the second. */
module RenameLimits {
  import opened Text
  import opened Numbering
  import opened Disk
  import opened Episodes
  import opened ReleaseName
  import opened Naming
  import opened Catalog
  import opened RenamePlan
  import opened Library
  import opened LibraryInvariant
  import opened RenameSettled
  import opened RenameQueue

  const Smooth := Fates(true, Renamed, Returned(0), true, true, true)

  function SmoothTurn(k: nat): Turn {
    Turn(Script(Smooth, []), true)
  }

  const Ids: seq<nat> := [0, 1, 2]
  const Only: seq<Expected> := [Expected("1", None)]
  const Env := RenameEnv(Ids, false, true, SmoothTurn)

  function Home(title: string): Dir {
    ["root", Sanitize(title)]
  }

  function StemOf(title: string): string {
    EpisodeStem(Sanitize(title), "1", None)
  }

  /** The name of episode 1, and the first number for it. */
  function Plain(title: string): string {
    StemOf(title) + ".mkv"
  }

  function Second(title: string): string {
    Numbered(StemOf(title), 2, ".mkv")
  }

  function At(title: string, name: string): Path {
    Path(Home(title), name)
  }

  /** Two files of episode 1 under other names, and a third, set by hand to a special, under
      the name of episode 1. */
  function Crowded(title: string, a: Content, b: Content, c: Content): Disk {
    Disk(false, map[
      At(title, "a.mkv") := File("a.mkv", a, 0),
      At(title, "b.mkv") := File("b.mkv", b, 0),
      At(title, Plain(title)) := File(Plain(title), c, 0)
    ])
  }

  function Rows(title: string, a: Content, b: Content, c: Content): Table {
    Table(map[
      0 := Row(0, At(title, "a.mkv"), Some("1"), false, |a|, 0),
      1 := Row(0, At(title, "b.mkv"), Some("1"), false, |b|, 0),
      2 := Row(0, At(title, Plain(title)), Some("S1"), true, |c|, 0)
    ], 3)
  }

  function Before(title: string, a: Content, b: Content, c: Content): World {
    World(Crowded(title, a, b, c), map[], map[0 := Anime(0, Home(title), Some(7), title, true, Only)], Rows(title, a, b, c))
  }

  // ------------------------------------------------------------ the names

  lemma LongNames(title: string)
    ensures |StemOf(title)| > 5 && StemOf(title) != ""
    ensures exists k | 0 <= k < |StemOf(title)| :: StemOf(title)[k] != '.'
    ensures |Plain(title)| > 9 && |Second(title)| > |Plain(title)|
  {
    hide Padded, EpisodeTitle, Value, Sanitize, Decimal;
    assert |EpisodeStem(Sanitize(title), "1", None)| > 5;
  }

  lemma ShortName(name: string)
    requires name == "a.mkv" || name == "b.mkv"
    ensures Extension(name) == Suffix(name) == ".mkv" && IsEpisodeName(name)
  {
    hide Suffix, Extension, HasVideoExtension;
    assert name == name[..1] + ".mkv" && name[..1][0] != '.';
    SplitBuilt(name[..1], ".mkv");
    IsVideo(name);
  }

  lemma IsVideo(name: string)
    requires Suffix(name) == ".mkv"
    ensures HasVideoExtension(name)
  {
    hide Suffix;
    assert Lower(".mkv") == ".mkv";
  }

  lemma BuiltName(title: string)
    ensures Extension(Plain(title)) == Suffix(Plain(title)) == ".mkv" && IsEpisodeName(Plain(title))
    ensures Stem(Plain(title)) == Root(Plain(title)) == StemOf(title)
  {
    hide Suffix, Extension, HasVideoExtension, Stem, Root, StemOf;
    LongNames(title);
    SplitBuilt(StemOf(title), ".mkv");
    IsVideo(Plain(title));
  }

  lemma ShortIsNoVariant(title: string, name: string)
    requires |name| == 5
    ensures !IsNameVariant(name, Plain(title))
  {
    hide StemOf;
    LongNames(title);
    BuiltName(title);
  }

  // ------------------------------------------------------------ the plan

  lemma Numbers()
    ensures Match(Only, Some("1")) == Some(Only[0]) && Match(Only, Some("S1")) == None
    ensures IsNumeral("1")
  {
    assert Normalize(Some("1")).Some?;
    assert !IsDigit("S1"[0]);
    assert Only[|Only| - 1] == Only[0];
    NoNumberNoMatch(Only, Some("S1"));
  }

  function Locals(title: string): seq<Local> {
    [Local(At(title, "a.mkv"), Some("1")), Local(At(title, "b.mkv"), Some("1")), Local(At(title, Plain(title)), Some("S1"))]
  }

  lemma TheyMatch(title: string)
    ensures Matched(Locals(title), Only) == [0, 1]
  {
    hide Match, Plain, Home;
    Numbers();
    var l := Locals(title);
    assert MatchedUpTo(l, Only, 0) == [];
    assert MatchedUpTo(l, Only, 1) == [0];
    assert MatchedUpTo(l, Only, 2) == [0, 1];
    assert MatchedUpTo(l, Only, 3) == [0, 1];
  }

  function Two(title: string): seq<Item> {
    [Item(At(title, "a.mkv"), Plain(title)), Item(At(title, "b.mkv"), Plain(title))]
  }

  lemma TheItems(title: string)
    ensures Items(Sanitize(title), Locals(title), Only) == Two(title)
  {
    hide Match, EpisodeStem, Matched, Extension, Home, Sanitize;
    Numbers();
    TheyMatch(title);
    ShortName("a.mkv");
    ShortName("b.mkv");
    var items := Items(Sanitize(title), Locals(title), Only);
    assert items[0] == Two(title)[0] && items[1] == Two(title)[1];
  }

  lemma NobodySettled(title: string)
    ensures Settle(Two(title)) == ({}, [false, false])
  {
    hide IsNameVariant, Plain, Home;
    ShortIsNoVariant(title, "a.mkv");
    ShortIsNoVariant(title, "b.mkv");
    var items := Two(title);
    assert items[..0] == [] && items[..2] == items;
    assert Settle([]) == ({}, []);
    SettleStep(items, 0);
    SettleStep(items, 1);
    assert [] + [false] == [false] && [false] + [false] == [false, false];
  }

  lemma NamesGiven(title: string)
    ensures Finals(Two(title)) == [Plain(title), Second(title)]
  {
    hide Settle, Plain, Home, Lower, LowestFree, Numbered, FreeVariant, Key;
    NobodySettled(title);
    var items := Two(title);
    FirstFree(title);
    NextFree(title);
    var key := Key(At(title, Plain(title)));
    assert Assign(items, 0) == ({}, []);
    assert {} + {key} == {key} && [] + [Plain(title)] == [Plain(title)];
    assert Assign(items, 1) == ({key}, [Plain(title)]);
    assert Assign(items, 2).1 == [Plain(title), Second(title)];
  }

  lemma FirstFree(title: string)
    ensures FreeVariant(Home(title), Plain(title), {}) == Plain(title)
  {
    hide Plain, Home, Lower, LowestFree;
    assert TakenIn({}, Home(title)) == {};
  }

  lemma NextFree(title: string)
    ensures FreeVariant(Home(title), Plain(title), {Key(At(title, Plain(title)))}) == Second(title)
  {
    hide Plain, Second, Home, Lower, LowestFree, Root, Extension;
    var taken := {Key(At(title, Plain(title)))};
    var names := TakenIn(taken, Home(title));
    assert names == {Lower(Plain(title))} by { assert Key(At(title, Plain(title))) in taken; }
    BuiltName(title);
    SecondIsFree(title, names);
  }

  lemma SecondIsFree(title: string, names: set<string>)
    requires names == {Lower(Plain(title))}
    ensures LowestFree(names, true, StemOf(title), ".mkv", 2) == 2 && Second(title) == Numbered(StemOf(title), 2, ".mkv")
  {
    hide StemOf, Numbered, LowestFree;
    LongNames(title);
    assert |Lower(Second(title))| == |Second(title)| && |Lower(Plain(title))| == |Plain(title)|;
    LowestFreeUnique(names, true, StemOf(title), ".mkv", 2, 2);
  }

  lemma ThePlan(title: string, a: Content, b: Content, c: Content)
    ensures
      var plan := PlanOf(Before(title, a, b, c), 0, Ids);
      && !plan.dirNeedsRename
      && plan.fileRenames == [Rename(0, Plain(title)), Rename(1, Second(title))]
  {
    hide Match, Matched, Items, Renames, Sanitize, Plain, Second, LocalsOf, Locals;
    TheItems(title);
    TheyMatch(title);
    TheRenames(title);
    SameLocals(title, a, b, c);
    assert Home(title)[1] == Sanitize(title);
  }

  lemma TheRenames(title: string)
    ensures Renames(Two(title)) == [Rename(0, Plain(title)), Rename(1, Second(title))]
  {
    hide Finals, Settle, Plain, Second, Home;
    NamesGiven(title);
    NobodySettled(title);
    DifferentNames(title);
    var items, names := Two(title), Finals(Two(title));
    assert RenamesUpTo(items, names, 0) == [];
    assert RenamesUpTo(items, names, 1) == [Rename(0, Plain(title))];
    assert RenamesUpTo(items, names, 2) == [Rename(0, Plain(title)), Rename(1, Second(title))];
  }

  lemma SameLocals(title: string, a: Content, b: Content, c: Content)
    ensures LocalsOf(Rows(title, a, b, c).rows, Ids) == Locals(title)
  {
    hide Plain, Home;
  }

  // ------------------------------------------------------------ carrying it out

  /** After the first file, which found the plain name taken. */
  function FirstMoved(title: string, a: Content, b: Content, c: Content): Disk {
    Disk(false, map[
      At(title, Second(title)) := File(Second(title), a, 0),
      At(title, "b.mkv") := File("b.mkv", b, 0),
      At(title, Plain(title)) := File(Plain(title), c, 0)
    ])
  }

  lemma DifferentNames(title: string)
    ensures "a.mkv" != "b.mkv" && Plain(title) != "a.mkv" && Plain(title) != "b.mkv"
    ensures Second(title) != "a.mkv" && Second(title) != "b.mkv" && Second(title) != Plain(title)
  {
    hide Plain, Second;
    LongNames(title);
    assert "a.mkv"[0] != "b.mkv"[0];
  }

  lemma MakesWay(title: string, a: Content, b: Content, c: Content)
    ensures Crowded(title, a, b, c).Dedupe(At(title, "a.mkv"), At(title, Plain(title))) == At(title, Second(title))
  {
    hide Plain, Second, Home, LowestFree, Stem, Suffix, StemOf, Numbered;
    DifferentNames(title);
    BuiltName(title);
    var d := Crowded(title, a, b, c);
    var src := At(title, "a.mkv");
    assert Second(title) == Numbered(StemOf(title), 2, ".mkv") by { SecondIs(title); }
    assert d.Occupied(src, Home(title)) == {"b.mkv", Plain(title)} by {
      assert At(title, "b.mkv") in d.files && At(title, Plain(title)) in d.files;
    }
    LowestFreeUnique(d.Occupied(src, Home(title)), false, StemOf(title), ".mkv", 2, 2);
  }

  lemma SecondIs(title: string)
    ensures Second(title) == Numbered(StemOf(title), 2, ".mkv")
  {
  }

  lemma FirstTurn(title: string, a: Content, b: Content, c: Content)
    ensures MoveEpisode(Crowded(title, a, b, c), At(title, "a.mkv"), At(title, Plain(title)), Script(Smooth, []))
      == (FirstMoved(title, a, b, c), Some(At(title, Second(title))))
  {
    hide Plain, Second, Home, MoveFile, Disk.Dedupe;
    DifferentNames(title);
    MakesWay(title, a, b, c);
    var d := Crowded(title, a, b, c);
    MoveSucceedsIff(d, At(title, "a.mkv"), At(title, Plain(title)), Smooth);
    MoveSucceeded(d, At(title, "a.mkv"), At(title, Plain(title)), Smooth);
    assert MoveFile(d, At(title, "a.mkv"), At(title, Plain(title)), Smooth).0.files == FirstMoved(title, a, b, c).files;
  }

  lemma SecondTurn(title: string, a: Content, b: Content, c: Content)
    ensures MoveEpisode(FirstMoved(title, a, b, c), At(title, "b.mkv"), At(title, Second(title)), Script(Smooth, [])).1.Some?
    ensures !FirstMoved(title, a, b, c).IsFreeFor(At(title, "b.mkv"), At(title, Second(title)))
  {
    hide Plain, Second, Home, MoveFile, Disk.Dedupe;
    DifferentNames(title);
    MoveSucceedsIff(FirstMoved(title, a, b, c), At(title, "b.mkv"), At(title, Second(title)), Smooth);
  }

  // ------------------------------------------------------------ the whole call

  lemma IsThere(d: Disk, p: Path)
    requires !d.foldCase && p in d.files && IsEpisodeName(p.name)
    ensures OnDisk(d, p)
  {
    hide HasVideoExtension;
  }

  lemma FilesAreEpisodes(title: string, a: Content, b: Content, c: Content)
    ensures OnDisk(Crowded(title, a, b, c), At(title, "a.mkv")) && OnDisk(Crowded(title, a, b, c), At(title, "b.mkv"))
    ensures OnDisk(Crowded(title, a, b, c), At(title, Plain(title)))
  {
    hide Plain, Home, IsEpisodeName, OnDisk, Suffix, Extension, Stem, Root;
    BuiltName(title);
    ShortName("a.mkv");
    ShortName("b.mkv");
    IsThere(Crowded(title, a, b, c), At(title, "a.mkv"));
    IsThere(Crowded(title, a, b, c), At(title, "b.mkv"));
    IsThere(Crowded(title, a, b, c), At(title, Plain(title)));
  }

  lemma CrowdedIsValid(title: string, a: Content, b: Content, c: Content)
    ensures Crowded(title, a, b, c).Valid()
  {
    hide Plain, Home;
    DifferentNames(title);
  }

  lemma RowsAreApart(title: string, a: Content, b: Content, c: Content)
    ensures RowsDistinct(Crowded(title, a, b, c), Rows(title, a, b, c))
  {
    hide Plain, Home, Crowded;
    DifferentNames(title);
    NoFold(title, a, b, c);
  }

  lemma BeforeIsConsistent(title: string, a: Content, b: Content, c: Content)
    ensures Inv(Before(title, a, b, c))
  {
    hide Plain, OnDisk, Crowded, Disk.Valid, RowsDistinct, Home;
    FilesAreEpisodes(title, a, b, c);
    CrowdedIsValid(title, a, b, c);
    RowsAreApart(title, a, b, c);
    assert Home(title) != [] by { BeforeIs(title, a, b, c); }
  }

  lemma NoFold(title: string, a: Content, b: Content, c: Content)
    ensures !Crowded(title, a, b, c).foldCase
  {
  }

  lemma ThreeRows(title: string, a: Content, b: Content, c: Content)
    ensures Lists(Ids, Rows(title, a, b, c), 0)
  {
    hide Plain, Home;
    forall i ensures i in (set j | j in Ids) <==> i in IdsOf(Rows(title, a, b, c), 0) {
      if i in IdsOf(Rows(title, a, b, c), 0) { assert i == Ids[0] || i == Ids[1] || i == Ids[2]; }
    }
  }

  /** The library between the two turns. */
  function Between(title: string, a: Content, b: Content, c: Content): World {
    RowFollows(Before(title, a, b, c), 0, FirstMoved(title, a, b, c), At(title, Second(title)))
  }

  /** Every move of this rename succeeds and no numbered name was taken when it began; yet
      the second file ends up under a name with two numbers, and the anime in the queue. */
  lemma TakenPlainNameStrandsTheNext(title: string, a: Content, b: Content, c: Content)
    ensures
      var w := Before(title, a, b, c);
      && Inv(w) && Lists(Ids, w.table, 0)
      && PlanOf(w, 0, Ids).fileRenames == [Rename(0, Plain(title)), Rename(1, Second(title))]
      && !w.disk.Exists(At(title, Second(title)))
      && RenameAnime(w, 0, Env).1 == Done
      && var w' := RenameAnime(w, 0, Env).0;
      0 in w'.animes && (forall i | i in Ids :: i in w'.table.rows) && PlanOf(w', 0, Ids).fileRenames != []
  {
    hide Inv, PlanOf, Before, Plain, Second, Lists, RenameAnime, Home, NumbersStayFree, KeysApart, RenameLoop, BeforeFiles;
    var w := Before(title, a, b, c);
    BeforeIsConsistent(title, a, b, c);
    ThreeRows(title, a, b, c);
    ThePlan(title, a, b, c);
    BeforeIs(title, a, b, c);
    TheCall(title, a, b, c);
    TheLoop(title, a, b, c);
    NumberNotFree(title, a, b, c);
    RenameBears(w, 0, Env);
    QueueAfterRename(w, 0, Env, Ids);
  }

  lemma BeforeIs(title: string, a: Content, b: Content, c: Content)
    ensures
      var w := Before(title, a, b, c);
      && w.disk == Crowded(title, a, b, c) && w.table == Rows(title, a, b, c) && 0 in w.animes
      && w.animes[0] == Anime(0, Home(title), Some(7), title, true, Only) && w.animes[0].dir != []
      && (forall i | i in Ids :: i in w.table.rows)
      && !w.disk.Exists(At(title, Second(title)))
  {
    hide Plain, Second, Sanitize;
    DifferentNames(title);
  }

  function Planned(title: string): seq<Rename> {
    [Rename(0, Plain(title)), Rename(1, Second(title))]
  }

  /** The directory already has its name, so the call is the loop. */
  lemma TheCall(title: string, a: Content, b: Content, c: Content)
    ensures
      var w := Before(title, a, b, c);
      && (forall i | i in Ids :: i in w.table.rows) && 0 in w.animes && w.animes[0].dir != []
      && PlanFits(w.table, Ids, Planned(title))
      && BeforeFiles(w, 0, PlanOf(w, 0, Ids)) == w
      && RenameAnime(w, 0, Env) == RenameLoop(w, Ids, Planned(title), SmoothTurn)
  {
    hide Plain, Second, Before, Home, RenameLoop, PlanFor;
    BeforeIs(title, a, b, c);
    ThePlan(title, a, b, c);
  }

  lemma TheLoop(title: string, a: Content, b: Content, c: Content)
    requires PlanFits(Before(title, a, b, c).table, Ids, Planned(title))
    ensures RenameLoop(Before(title, a, b, c), Ids, Planned(title), SmoothTurn).1 == Done
    ensures !NumbersFree(Before(title, a, b, c), Ids, Planned(title), title, Only, SmoothTurn)
  {
    hide Plain, Second, Before, Home, MoveEpisode, FirstMoved, NumberIsFree, IsMatched;
    var w, w1 := Before(title, a, b, c), Between(title, a, b, c);
    BeforeIs(title, a, b, c);
    FirstTurn(title, a, b, c);
    SecondTurn(title, a, b, c);
    BetweenIs(title, a, b, c);
    assert Planned(title)[0] in Planned(title) && Planned(title)[1] in Planned(title);
    assert RenameLoop(w1, Ids, Planned(title), SmoothTurn, 1).1 == Done;
    assert RenameLoop(w, Ids, Planned(title), SmoothTurn, 0) == RenameLoop(w1, Ids, Planned(title), SmoothTurn, 1);
    assert !NumbersFree(w1, Ids, Planned(title), title, Only, SmoothTurn, 1);
  }

  /** The second file's turn. */
  lemma BetweenIs(title: string, a: Content, b: Content, c: Content)
    ensures
      var w1 := Between(title, a, b, c);
      && w1.disk == FirstMoved(title, a, b, c) && 0 in w1.table.rows && 1 in w1.table.rows && 2 in w1.table.rows
      && w1.table.rows[1].path == At(title, "b.mkv") && PlanFits(w1.table, Ids, Planned(title))
      && IsMatched(w1.table.rows[1], Only)
      && !NumberIsFree(w1.disk, w1.table.rows[1], Second(title), title, Only)
  {
    hide Plain, Second, Home, FirstMoved, IsMatched, Disk.IsFreeFor, Before, TargetOf, Rows;
    BeforeIs(title, a, b, c);
    SecondTurn(title, a, b, c);
    DifferentNames(title);
    TargetIs(title, a, b, c);
    RowsAre(title, a, b, c);
    assert Planned(title)[0].index == 0 && Planned(title)[1].index == 1;
  }

  lemma RowsAre(title: string, a: Content, b: Content, c: Content)
    ensures Rows(title, a, b, c).rows.Keys == {0, 1, 2} && Rows(title, a, b, c).rows[1].path == At(title, "b.mkv")
  {
    hide Plain, Home;
  }

  lemma TargetIs(title: string, a: Content, b: Content, c: Content)
    ensures IsMatched(Rows(title, a, b, c).rows[1], Only) && TargetOf(Rows(title, a, b, c).rows[1], title, Only) == Plain(title)
  {
    hide Match, Extension, EpisodeStem, Sanitize;
    Numbers();
    ShortName("b.mkv");
  }

  lemma NumberNotFree(title: string, a: Content, b: Content, c: Content)
    ensures var w := Before(title, a, b, c); 0 in w.animes && w.animes[0].dir != [] && (forall i | i in Ids :: i in w.table.rows)
    ensures !NumbersStayFree(Before(title, a, b, c), 0, Env)
  {
    hide Plain, Second, Before, Home, PlanOf, BeforeFiles, NumbersFree;
    BeforeIs(title, a, b, c);
    TheCall(title, a, b, c);
    TheLoop(title, a, b, c);
    ThePlan(title, a, b, c);
  }
}
