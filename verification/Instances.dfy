/** Concrete situations in which the hypotheses of the main theorems hold. */
module Instances {
  import opened Text
  import opened Disk
  import opened Episodes
  import opened Rollback
  import opened RollbackLimits
  import opened Naming
  import opened Catalog
  import opened Library
  import opened LibraryInvariant
  import opened RelocationInvariant
  import opened LibraryRuns

  // ------------------------------------------------------------ rows left behind

  /** Both episodes move; the first of them then cannot be looked at. */
  function BlindTurns(): nat -> Turn {
    k => Turn(if k == 0 then Out("a.ass") else Alone, k != 0)
  }

  const BlindEnv := SortEnv(Ids, true, BlindTurns(), BlindTurns(), 0, [])

  lemma SecondMoves(title: string, a: Content, s: Content, c: Content)
    requires IsNumeral("2")
    ensures MoveEpisode(Between(title, a, s, c), Path(Here, "c.mkv"), Second(title), Alone).1.Some?
    ensures Fits(Between(title, a, s, c), Path(Here, "c.mkv"), Alone)
  {
    hide New, There, MoveFile, Disk.Dedupe, StemOf;
    PlacesDiffer(title);
    MoveSucceedsIff(Between(title, a, s, c), Path(Here, "c.mkv"), Second(title), Smooth);
  }

  lemma BothMove(title: string, a: Content, s: Content, c: Content)
    requires IsNumeral("2")
    ensures
      var jobs := [Job(OldVideo, NewVideo(title)), Job(Path(Here, "c.mkv"), Second(title))];
      var scripts := Scripts(BlindTurns(), 2);
      Forward(Start("a.ass", a, s, c), jobs, scripts).2 && ForwardLists(Start("a.ass", a, s, c), jobs, scripts)
  {
    hide MoveEpisode, Between, Start, Fits, NewVideo, Second, AllTidy;
    var jobs := [Job(OldVideo, NewVideo(title)), Job(Path(Here, "c.mkv"), Second(title))];
    var scripts := Scripts(BlindTurns(), 2);
    FirstGoes(title, "a.ass", a, s, c);
    SecondMoves(title, a, s, c);
    assert scripts == [Out("a.ass"), Alone];
    assert jobs[1..] == [jobs[1]] && scripts[1..] == [Alone] && jobs[1..][1..] == [] && scripts[1..][1..] == [];
    var d1, d2 := Between(title, a, s, c), MoveEpisode(Between(title, a, s, c), jobs[1].src, jobs[1].dest, Alone).0;
    assert Forward(d2, [], []) == (d2, [], true) && ForwardLists(d2, [], []);
    assert Forward(d1, jobs[1..], scripts[1..]).2 && ForwardLists(d1, jobs[1..], scripts[1..]);
  }

  lemma ShelfIsListed(title: string, d: Disk, a: Content, c: Content)
    ensures Lists(Ids, Rows(a, c), 0) && Unclaimed(Shelf(title, d, a, c), There(title))
  {
    hide Sanitize;
    assert Here[0] != There(title)[0];
    forall i ensures i in (set j | j in Ids) <==> i in IdsOf(Rows(a, c), 0) {
      if i in IdsOf(Rows(a, c), 0) { assert i == Ids[0] || i == Ids[1]; }
    }
  }

  /** A sort of two episodes, both moved, that ends in an error nobody catches: each row
      lies under its anime's directory, but one of them names a file that is gone. */
  lemma RowsAreLeftBehind(title: string, a: Content, s: Content, c: Content)
    ensures
      var w := Shelf(title, Start("a.ass", a, s, c), a, c);
      && Inv(w) && (forall i | i in Ids :: i in w.table.rows) && 1 in w.folders
      && var (w', end) := SortAnime(w, 0, 1, BlindEnv);
      end == Raised && RowsPlaced(w') && !RowsOnDisk(w') && !Inv(w')
  {
    hide MoveEpisode, Forward, ForwardLists, Start, Tasks, Twins, BlindTurns, Jobs, NewVideo, Second, There, SortAnime, Inv, Disk.Valid, RowsPlaced, RowsOnDisk, Rows, Unclaimed;
    var w := Shelf(title, Start("a.ass", a, s, c), a, c);
    StartsAreValid(title, "a.ass", a, s, c);
    ShelfIsConsistent(title, w.disk, a, c);
    ShelfIsListed(title, w.disk, a, c);
    BothAreTasks(title, w.disk, a, c);
    TheJobs(title);
    BothMove(title, a, s, c);
    ThereIs(title, w.disk, a, c);
    FirstIsBlind();
    SortStrandsRows(w, 0, 1, BlindEnv, 0);
  }

  lemma FirstIsBlind()
    ensures !BlindTurns()(0).stat
  {
  }

  // ------------------------------------------------------------ a run

  const OneFolder: map<nat, Dir> := map[0 := ["root"]]

  function OneFile(mkv: Content): Disk {
    Disk(false, map[Path(Here, "a.mkv") := File("a.mkv", mkv, 0)])
  }

  function Empty(mkv: Content): World {
    World(OneFile(mkv), OneFolder, map[], Table(map[], 0))
  }

  const Found := Anime(0, Here, None, "A", false, [])

  function Known(mkv: Content): World {
    Empty(mkv).(animes := map[0 := Found])
  }

  function Seen(mkv: Content): seq<Listed> {
    [Listed(Path(Here, "a.mkv"), |mkv|, 0)]
  }

  lemma DiscoverAllowed(mkv: Content)
    ensures Allowed(Empty(mkv), {}, Discover(0, Found)) && Step(Empty(mkv), {}, Discover(0, Found)) == Known(mkv)
  {
    hide HasVideoExtension;
    assert map[][0 := Found] == map[0 := Found];
  }

  lemma EpisodeThere(mkv: Content)
    ensures OnDisk(OneFile(mkv), Path(Here, "a.mkv")) && OneFile(mkv).Valid()
  {
    hide Stem, Suffix, HasVideoExtension, Extension;
    OldNames("a.mkv");
  }

  lemma NoRowsYet()
    ensures Table(map[], 0).Valid() && Table(map[], 0).Of(0) == map[]
  {
  }

  lemma WalkFits(mkv: Content)
    ensures IsWalk(Known(mkv), 0, Seen(mkv)) && PathsOf(Seen(mkv)) == {Path(Here, "a.mkv")}
    ensures Separate(Table(map[], 0), 0, Seen(mkv)) && PathSet([]) == {}
  {
    hide HasVideoExtension, IsEpisodeName;
    EpisodeThere(mkv);
    assert Seen(mkv)[0] in Seen(mkv);
  }

  lemma ScanAllowed(mkv: Content)
    ensures Allowed(Known(mkv), {}, Scan(ScanOf(0, Seen(mkv), [])))
    ensures Step(Known(mkv), {}, Scan(ScanOf(0, Seen(mkv), []))).table.Valid()
    ensures Step(Known(mkv), {}, Scan(ScanOf(0, Seen(mkv), []))).table.Of(0).Keys == {Path(Here, "a.mkv")}
  {
    hide IsWalk, Table.Of, Table.Valid, Separate, PathsOf, PathSet, Scanned, Sweep, Refresh, AssignLone, RowsFor, IsLone, Overrides, Seen, OneFile;
    var t := Table(map[], 0);
    NoRowsYet();
    WalkFits(mkv);
    SeenOnce(mkv);
    assert t.Of(0).Keys - PathsOf(Seen(mkv)) == {};
    ScanIsHistoryFree(t, 0, Seen(mkv), [], Found.expected);
    ScannedKeys(0, Seen(mkv), Overrides(t.Of(0)), Found.expected);
  }

  lemma SeenOnce(mkv: Content)
    ensures DistinctPaths(Seen(mkv))
  {
  }

  /** A disk with one episode, found and scanned: the run is one of those the invariant is
      about, and leaves one row. */
  lemma RunDoesHappen(mkv: Content)
    ensures
      var ops := [Discover(0, Found), Scan(ScanOf(0, Seen(mkv), []))];
      && OneFile(mkv).Valid() && IsRun(Empty(mkv), {}, ops)
      && var (w, stale) := After(Empty(mkv), {}, ops);
      stale == {} && w.table.Valid() && w.table.Of(0).Keys == {Path(Here, "a.mkv")}
  {
    hide Step, Allowed, Empty, Known, OneFile, Disk.Valid, Table.Valid, Table.Of;
    EpisodeThere(mkv);
    DiscoverAllowed(mkv);
    ScanAllowed(mkv);
    var ops := [Discover(0, Found), Scan(ScanOf(0, Seen(mkv), []))];
    assert ops[1..] == [ops[1]];
    OneStep(Known(mkv), ops[1]);
  }

  /** A run of a single operation that leaves nothing out of step. */
  lemma OneStep(w: World, op: Op)
    requires Allowed(w, {}, op) && StaleAfter(w, {}, op) == {}
    ensures IsRun(w, {}, [op]) && After(w, {}, [op]) == (Step(w, {}, op), {})
  {
    hide Step, Allowed, StaleAfter;
    var w' := Step(w, {}, op);
    assert IsRun(w', {}, []) && After(w', {}, []) == (w', {});
    assert [op][1..] == [];
  }
}
