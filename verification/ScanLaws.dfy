/** What a scan makes of one listed file, and what becomes of a number set by hand. */
module ScanLaws {
  import opened Text
  import opened Disk
  import opened ReleaseName
  import opened Naming
  import opened Catalog

  /** A scan of an anime and what is asked of it: a walk that lists each file once, and of
      files no other anime has rows for; and the rows to be deleted. */
  ghost predicate IsScan(t: Table, anime: nat, listing: seq<Listed>, gone: seq<Path>) {
    t.Valid() && DistinctPaths(listing) && Separate(t, anime, listing) && PathSet(gone) == t.Of(anime).Keys - PathsOf(listing)
  }

  ghost function AfterScan(t: Table, anime: nat, listing: seq<Listed>, gone: seq<Path>, expected: seq<Expected>): Table
    requires t.Valid()
  {
    AssignLone(Sweep(Refresh(t, anime, t.Of(anime), listing, |listing|), gone, |gone|), anime, expected).0
  }

  /** Someone has set the number of this file by hand. */
  predicate SetByHand(t: Table, p: Path, number: Option<string>) {
    exists i | i in t.rows :: t.rows[i].path == p && t.rows[i].manual && t.rows[i].number == number
  }

  /** All episodes the anime is to have are one to the database: number `n`. */
  predicate OneEpisode(expected: seq<Expected>, n: nat) {
    && (exists e | e in expected :: IsNumeral(e.epNumber))
    && forall e | e in expected && IsNumeral(e.epNumber) :: n == if Value(e.epNumber) > 0x7FFF_FFFF_FFFF_FFFF then 0x7FFF_FFFF_FFFF_FFFF else Value(e.epNumber)
  }

  lemma OneEpisodeIff(expected: seq<Expected>)
    ensures |ExpectedNumbers(expected)| == 1 <==> exists n: nat :: OneEpisode(expected, n)
    ensures forall n: nat | OneEpisode(expected, n) :: ExpectedNumbers(expected) == {n}
  {
    hide Value;
    forall n: nat | OneEpisode(expected, n) ensures ExpectedNumbers(expected) == {n} {
      var e :| e in expected && IsNumeral(e.epNumber);
      assert Cast(e.epNumber) in ExpectedNumbers(expected);
    }
    if |ExpectedNumbers(expected)| == 1 {
      var n := TheElement(ExpectedNumbers(expected));
      assert n in ExpectedNumbers(expected);
      assert OneEpisode(expected, n) by {
        forall e | e in expected && IsNumeral(e.epNumber) ensures Cast(e.epNumber) == n { assert Cast(e.epNumber) in ExpectedNumbers(expected); }
      }
    }
  }

  lemma OverridesAre(t: Table, anime: nat, listing: seq<Listed>, gone: seq<Path>, l: Listed)
    requires IsScan(t, anime, listing, gone) && l in listing
    ensures l.path in Overrides(t.Of(anime)) <==> exists number :: SetByHand(t, l.path, number)
    ensures forall number | SetByHand(t, l.path, number) :: l.path in Overrides(t.Of(anime)) && Overrides(t.Of(anime))[l.path] == number
  {
    forall number | SetByHand(t, l.path, number) ensures l.path in Overrides(t.Of(anime)) && Overrides(t.Of(anime))[l.path] == number {
      var i :| i in t.rows && t.rows[i].path == l.path && t.rows[i].manual && t.rows[i].number == number;
      t.OfHas(anime, i);
    }
    if l.path in Overrides(t.Of(anime)) {
      var i := t.OfFrom(anime, l.path);
      assert SetByHand(t, l.path, t.rows[i].number);
    }
  }

  /** Every file of the walk has a row, with its size and time. A number set by hand is kept;
      any other is read off the name, and where there is none to be read off the only file of
      an anime of one episode, it is that one's. */
  lemma ScanReads(t: Table, anime: nat, listing: seq<Listed>, gone: seq<Path>, expected: seq<Expected>, l: Listed) returns (i: nat)
    requires IsScan(t, anime, listing, gone) && l in listing
    ensures
      var t' := AfterScan(t, anime, listing, gone, expected);
      && i in t'.rows && t'.rows[i].anime == anime && t'.rows[i].path == l.path && t'.rows[i].size == l.size && t'.rows[i].mtime == l.mtime
      && (forall number | SetByHand(t, l.path, number) :: t'.rows[i].manual && t'.rows[i].number == number)
      && ((forall number :: !SetByHand(t, l.path, number)) ==>
            && !t'.rows[i].manual
            && (Guess(l.path.name).Some? || |listing| != 1 ==> t'.rows[i].number == Guess(l.path.name))
            && (Guess(l.path.name).None? && |listing| == 1 ==>
                  && (forall n: nat | OneEpisode(expected, n) :: t'.rows[i].number == Some(Decimal(n)))
                  && ((forall n: nat :: !OneEpisode(expected, n)) ==> t'.rows[i].number == None)))
  {
    hide Guess, Refresh, Sweep, AssignLone, Separate, SetByHand, OneEpisode, RowsFor, ExpectedNumbers, Scanned, IsLone, Overrides, TheElement;
    ScanIsHistoryFree(t, anime, listing, gone, expected);
    var overrides := Overrides(t.Of(anime));
    ScannedAt(anime, listing, overrides, expected, l);
    i := AfterScan(t, anime, listing, gone, expected).OfFrom(anime, l.path);
    OverridesAre(t, anime, listing, gone, l);
    OneEpisodeIff(expected);
    LoneIff(anime, listing, overrides, expected, l);
    forall n: nat | OneEpisode(expected, n) ensures |ExpectedNumbers(expected)| == 1 && TheElement(ExpectedNumbers(expected)) == n { OnlyElement(ExpectedNumbers(expected), n); }
  }

  lemma OnlyElement(s: set<nat>, n: nat)
    requires s == {n}
    ensures |s| == 1 && TheElement(s) == n
  {
    assert TheElement(s) in s;
  }

  lemma LoneIff(anime: nat, listing: seq<Listed>, overrides: map<Path, Option<string>>, expected: seq<Expected>, l: Listed)
    requires DistinctPaths(listing) && l in listing
    ensures IsLone(RowsFor(anime, listing, overrides), expected) <==>
      |listing| == 1 && l.path !in overrides && Guess(l.path.name).None? && |ExpectedNumbers(expected)| == 1
  {
    hide Guess, RowsFor, ExpectedNumbers;
    var rows := RowsFor(anime, listing, overrides);
    RowsForAt(anime, listing, overrides, l);
    RowCount(listing);
    if |listing| == 1 { assert rows.Keys == {l.path} by { OnlyPath(listing, l); } }
    assert |rows| == |rows.Keys|;
  }

  lemma OnlyPath(listing: seq<Listed>, l: Listed)
    requires |listing| == 1 && l in listing
    ensures PathsOf(listing) == {l.path}
  {
  }

  lemma {:induction false} RowCount(listing: seq<Listed>)
    requires DistinctPaths(listing)
    ensures |PathsOf(listing)| == |listing|
    decreases |listing|
  {
    if listing == [] {
      assert PathsOf(listing) == {};
    } else {
      var init, last := listing[..|listing| - 1], listing[|listing| - 1];
      RowCount(init);
      assert listing == init + [last];
      assert PathsOf(listing) == PathsOf(init) + {last.path};
      forall k | 0 <= k < |init| ensures init[k].path != last.path { assert listing[k].path != listing[|listing| - 1].path; }
      assert last.path !in PathsOf(init);
    }
  }

  /** A number set by hand outlives every scan that still finds the file; taken back, the
      next scan reads the name again. */
  lemma ManualSticks(t: Table, row: nat, number: Option<string>, anime: nat, listing: seq<Listed>, gone: seq<Path>, expected: seq<Expected>, l: Listed) returns (i: nat)
    requires row in t.rows && t.rows[row].path == l.path && l in listing && IsScan(SetManual(t, row, number), anime, listing, gone)
    ensures
      var t' := AfterScan(SetManual(t, row, number), anime, listing, gone, expected);
      && i in t'.rows && t'.rows[i].path == l.path
      && (number.Some? ==> t'.rows[i].manual && t'.rows[i].number == number)
      && (number.None? ==> !t'.rows[i].manual && (Guess(l.path.name).Some? || |listing| != 1 ==> t'.rows[i].number == Guess(l.path.name)))
  {
    hide Guess, AfterScan;
    var t1 := SetManual(t, row, number);
    i := ScanReads(t1, anime, listing, gone, expected, l);
    if number.Some? {
      assert SetByHand(t1, l.path, number);
    } else {
      assert t1.rows[row].path == l.path && !t1.rows[row].manual;
      assert forall j | j in t1.rows && t1.rows[j].path == l.path :: j == row;
      assert forall n :: !SetByHand(t1, l.path, n);
    }
  }
}
