/** The table of local episodes, and the scan that reconciles an anime's rows with the
    video files found in its directory. */
module Catalog {
  import opened Text
  import opened Disk
  import opened ReleaseName
  import opened Naming

  datatype Row = Row(anime: nat, path: Path, number: Option<string>, manual: bool, size: nat, mtime: int)

  /** Rows by id; ids are handed out in order. */
  datatype Table = Table(rows: map<nat, Row>, next: nat) {

    /** `file_path` is unique. */
    ghost predicate Valid() {
      && (forall i | i in rows :: i < next)
      && (forall i, j | i in rows && j in rows && rows[i].path == rows[j].path :: i == j)
    }

    predicate Has(path: Path) {
      exists i | i in rows :: rows[i].path == path
    }

    ghost function Find(path: Path): (i: nat)
      requires Has(path)
      ensures i in rows && rows[i].path == path
    {
      var i :| i in rows && rows[i].path == path;
      i
    }

    /** The rows of one anime, by path; ids are of no interest to anyone. */
    ghost function Of(anime: nat): (facts: map<Path, Row>)
      requires Valid()
    {
      map p | p in (set i | i in rows && rows[i].anime == anime :: rows[i].path) :: rows[Find(p)]
    }

    lemma OfHas(anime: nat, i: nat)
      requires Valid() && i in rows && rows[i].anime == anime
      ensures rows[i].path in Of(anime) && Of(anime)[rows[i].path] == rows[i]
    {
    }

    lemma OfFrom(anime: nat, path: Path) returns (i: nat)
      requires Valid() && path in Of(anime)
      ensures i in rows && rows[i].anime == anime && rows[i].path == path && Of(anime)[path] == rows[i]
    {
      i :| i in rows && rows[i].anime == anime && rows[i].path == path;
    }

    /** The rows of an anime are `facts` if each is among them and each of them is one. */
    lemma OfIs(anime: nat, facts: map<Path, Row>)
      requires Valid()
      requires forall i | i in rows && rows[i].anime == anime :: rows[i].path in facts && facts[rows[i].path] == rows[i]
      requires forall p | p in facts :: exists i :: i in rows && rows[i].anime == anime && rows[i].path == p
      ensures Of(anime) == facts
    {
      forall p | p in facts ensures p in Of(anime) {
        var i :| i in rows && rows[i].anime == anime && rows[i].path == p;
        OfHas(anime, i);
      }
      forall p | p in Of(anime) ensures p in facts && facts[p] == Of(anime)[p] {
        var i := OfFrom(anime, p);
      }
    }
  }

  /** What `upsert` writes into a row that exists: a number set by hand is kept. */
  function Refreshed(row: Row, size: nat, mtime: int, number: Option<string>): Row {
    row.(size := size, mtime := mtime, number := if row.manual then row.number else number)
  }

  /** `LocalEpisodeRepo.upsert` */
  function Upsert(t: Table, anime: nat, path: Path, size: nat, mtime: int, number: Option<string>): Table {
    if t.Has(path) then
      t.(rows := map i | i in t.rows :: if t.rows[i].path == path then Refreshed(t.rows[i], size, mtime, number) else t.rows[i])
    else
      Table(t.rows[t.next := Row(anime, path, number, false, size, mtime)], t.next + 1)
  }

  /** `LocalEpisodeRepo.delete_by_path` */
  function DeleteByPath(t: Table, path: Path): Table {
    t.(rows := map i | i in t.rows && t.rows[i].path != path :: t.rows[i])
  }

  /** `LocalEpisodeRepo.set_manual_ep_number` */
  function SetManual(t: Table, id: nat, number: Option<string>): Table {
    if id in t.rows then t.(rows := t.rows[id := t.rows[id].(number := number, manual := number.Some?)]) else t
  }

  lemma UpsertValid(t: Table, anime: nat, path: Path, size: nat, mtime: int, number: Option<string>)
    requires t.Valid()
    ensures Upsert(t, anime, path, size, mtime, number).Valid()
  {
  }

  lemma UpsertFacts(t: Table, anime: nat, path: Path, size: nat, mtime: int, number: Option<string>)
    requires t.Valid()
    requires forall i | i in t.rows && t.rows[i].path == path :: t.rows[i].anime == anime
    ensures Upsert(t, anime, path, size, mtime, number).Valid()
    ensures Upsert(t, anime, path, size, mtime, number).Of(anime) == t.Of(anime)[path :=
      if path in t.Of(anime) then Refreshed(t.Of(anime)[path], size, mtime, number) else Row(anime, path, number, false, size, mtime)]
  {
    var t' := Upsert(t, anime, path, size, mtime, number);
    var facts := t.Of(anime);
    var row := if path in facts then Refreshed(facts[path], size, mtime, number) else Row(anime, path, number, false, size, mtime);
    UpsertValid(t, anime, path, size, mtime, number);
    var facts' := facts[path := row];
    forall i | i in t'.rows && t'.rows[i].anime == anime ensures t'.rows[i].path in facts' && facts'[t'.rows[i].path] == t'.rows[i] {
      if i in t.rows { t.OfHas(anime, i); }
      if path in facts { var j := t.OfFrom(anime, path); }
    }
    forall p | p in facts' ensures exists i :: i in t'.rows && t'.rows[i].anime == anime && t'.rows[i].path == p {
      if p in facts {
        var j := t.OfFrom(anime, p);
        assert t'.rows[j].path == p;
      } else {
        if t.Has(p) { t.OfHas(anime, t.Find(p)); }
        assert t'.rows[t.next].path == p;
      }
    }
    t'.OfIs(anime, facts');
  }

  /** Writing a row of one anime leaves the others' alone. */
  lemma UpsertOthers(t: Table, anime: nat, path: Path, size: nat, mtime: int, number: Option<string>, other: nat)
    requires t.Valid() && other != anime
    requires forall i | i in t.rows && t.rows[i].path == path :: t.rows[i].anime == anime
    ensures Upsert(t, anime, path, size, mtime, number).Valid()
    ensures Upsert(t, anime, path, size, mtime, number).Of(other) == t.Of(other)
  {
    var t' := Upsert(t, anime, path, size, mtime, number);
    UpsertValid(t, anime, path, size, mtime, number);
    forall i | i in t'.rows && t'.rows[i].anime == other
      ensures t'.rows[i].path in t.Of(other) && t.Of(other)[t'.rows[i].path] == t'.rows[i]
    {
      assert i in t.rows;
      t.OfHas(other, i);
    }
    forall p | p in t.Of(other) ensures exists i :: i in t'.rows && t'.rows[i].anime == other && t'.rows[i].path == p {
      var j := t.OfFrom(other, p);
      assert t'.rows[j].path == p;
    }
    t'.OfIs(other, t.Of(other));
  }

  lemma DeleteFacts(t: Table, path: Path, anime: nat)
    requires t.Valid()
    ensures DeleteByPath(t, path).Valid()
    ensures DeleteByPath(t, path).Of(anime) == t.Of(anime) - {path}
  {
    var t' := DeleteByPath(t, path);
    var left := t.Of(anime) - {path};
    forall i | i in t'.rows && t'.rows[i].anime == anime ensures t'.rows[i].path in left && left[t'.rows[i].path] == t'.rows[i] {
      t.OfHas(anime, i);
    }
    forall p | p in left ensures exists i :: i in t'.rows && t'.rows[i].anime == anime && t'.rows[i].path == p {
      var j := t.OfFrom(anime, p);
      assert t'.rows[j].path == p;
    }
    t'.OfIs(anime, left);
  }

  // ------------------------------------------------------------ scanning

  /** One entry of the directory walk. */
  datatype Listed = Listed(path: Path, size: nat, mtime: int)

  /** Size, time and number all agree with the row: the file need not be written. */
  predicate Unchanged(row: Row, l: Listed) {
    row.size == l.size && row.mtime == l.mtime && (row.manual || row.number == Guess(l.path.name))
  }

  /** The first loop, over the first `k` entries; `existing` are the rows as read before it. */
  function Refresh(t: Table, anime: nat, existing: map<Path, Row>, listing: seq<Listed>, k: nat): Table
    requires k <= |listing|
  {
    if k == 0 then t
    else
      var before := Refresh(t, anime, existing, listing, k - 1);
      var l := listing[k - 1];
      if l.path in existing && Unchanged(existing[l.path], l) then before
      else Upsert(before, anime, l.path, l.size, l.mtime, Guess(l.path.name))
  }

  /** The second loop: rows of files no longer listed go. */
  function Sweep(t: Table, gone: seq<Path>, k: nat): Table
    requires k <= |gone|
  {
    if k == 0 then t else DeleteByPath(Sweep(t, gone, k - 1), gone[k - 1])
  }

  const MaxInteger: nat := 0x7FFF_FFFF_FFFF_FFFF

  /** SQL's `CAST(... AS INTEGER)` of a string of digits: 64 bits, the largest where the
      number does not fit. */
  function Cast(s: string): nat
    requires DigitsOnly(s)
  {
    if Value(s) > MaxInteger then MaxInteger else Value(s)
  }

  /** The distinct episode numbers an anime is expected to have, as the database sees them. */
  function ExpectedNumbers(expected: seq<Expected>): set<nat> {
    set e | e in expected && IsNumeral(e.epNumber) :: Cast(e.epNumber)
  }

  /** `assign_lone_file` applies: one file, without a number, of an anime of one episode. */
  predicate IsLone(rows: map<Path, Row>, expected: seq<Expected>) {
    && |rows| == 1
    && (forall p | p in rows :: rows[p].number.None? && !rows[p].manual)
    && |ExpectedNumbers(expected)| == 1
  }

  function TheElement(s: set<nat>): (n: nat)
    requires |s| == 1
    ensures s == {n}
  {
    var n :| n in s;
    assert s == {n} by { assert |s - {n}| == 0; }
    n
  }

  function WithNumber(row: Row, number: string): Row {
    row.(number := Some(number))
  }

  function IdsOf(t: Table, anime: nat): set<nat> {
    set i | i in t.rows && t.rows[i].anime == anime
  }

  /** `assign_lone_file`: the table afterwards, and whether a number was set. */
  function AssignLone(t: Table, anime: nat, expected: seq<Expected>): (Table, bool) {
    var files := IdsOf(t, anime);
    if |files| == 1 && (forall i | i in files :: t.rows[i].number.None? && !t.rows[i].manual) && |ExpectedNumbers(expected)| == 1 then
      var number := Decimal(TheElement(ExpectedNumbers(expected)));
      (t.(rows := map i | i in t.rows :: if t.rows[i].anime == anime then WithNumber(t.rows[i], number) else t.rows[i]), true)
    else (t, false)
  }

  // ------------------------------------------------------------ what a scan amounts to

  /** The numbers set by hand. */
  function Overrides(rows: map<Path, Row>): map<Path, Option<string>> {
    map p | p in rows && rows[p].manual :: rows[p].number
  }

  /** The row a listed file ends up with: the number set by hand, or the one in its name. */
  function RowFor(anime: nat, l: Listed, overrides: map<Path, Option<string>>): Row {
    Row(anime, l.path, if l.path in overrides then overrides[l.path] else Guess(l.path.name), l.path in overrides, l.size, l.mtime)
  }

  predicate DistinctPaths(listing: seq<Listed>) {
    forall i, j | 0 <= i < j < |listing| :: listing[i].path != listing[j].path
  }

  function RowsFor(anime: nat, listing: seq<Listed>, overrides: map<Path, Option<string>>): (rows: map<Path, Row>)
    ensures rows.Keys == set l | l in listing :: l.path
  {
    if listing == [] then map[]
    else
      var l := listing[|listing| - 1];
      RowsFor(anime, listing[..|listing| - 1], overrides)[l.path := RowFor(anime, l, overrides)]
  }

  /** The rows an anime has after a scan, from the listing, the overrides and the
      expected episodes alone. */
  function Scanned(anime: nat, listing: seq<Listed>, overrides: map<Path, Option<string>>, expected: seq<Expected>): map<Path, Row> {
    var rows := RowsFor(anime, listing, overrides);
    if IsLone(rows, expected) then
      map p | p in rows :: WithNumber(rows[p], Decimal(TheElement(ExpectedNumbers(expected))))
    else rows
  }

  /** Row paths name one anime only where the listing is concerned. */
  ghost predicate Separate(t: Table, anime: nat, listing: seq<Listed>) {
    forall i, l | i in t.rows && l in listing && t.rows[i].path == l.path :: t.rows[i].anime == anime
  }

  lemma {:induction false} RowsForAt(anime: nat, listing: seq<Listed>, overrides: map<Path, Option<string>>, l: Listed)
    requires DistinctPaths(listing) && l in listing
    ensures l.path in RowsFor(anime, listing, overrides) && RowsFor(anime, listing, overrides)[l.path] == RowFor(anime, l, overrides)
    decreases |listing|
  {
    hide RowFor;
    var init := listing[..|listing| - 1];
    if l != listing[|listing| - 1] {
      assert l in init;
      RowsForAt(anime, init, overrides, l);
    }
  }

  /** A skipped file has exactly the row it would have been given. */
  lemma SkippedIsRight(t: Table, anime: nat, l: Listed)
    requires t.Valid() && l.path in t.Of(anime) && Unchanged(t.Of(anime)[l.path], l)
    ensures t.Of(anime)[l.path] == RowFor(anime, l, Overrides(t.Of(anime)))
  {
    hide Guess;
    var i := t.OfFrom(anime, l.path);
  }

  /** A file that is written gets the row it is to have. */
  lemma WrittenIsRight(t: Table, anime: nat, l: Listed)
    requires t.Valid()
    ensures
      RowFor(anime, l, Overrides(t.Of(anime))) ==
      if l.path in t.Of(anime) then Refreshed(t.Of(anime)[l.path], l.size, l.mtime, Guess(l.path.name))
      else Row(anime, l.path, Guess(l.path.name), false, l.size, l.mtime)
  {
    hide Guess;
    if l.path in t.Of(anime) { var i := t.OfFrom(anime, l.path); }
  }

  lemma RowsForStep(anime: nat, listing: seq<Listed>, k: nat, overrides: map<Path, Option<string>>)
    requires k < |listing|
    ensures RowsFor(anime, listing[..k + 1], overrides)
      == RowsFor(anime, listing[..k], overrides)[listing[k].path := RowFor(anime, listing[k], overrides)]
    ensures DistinctPaths(listing) ==> listing[k].path !in RowsFor(anime, listing[..k], overrides)
  {
    hide RowFor;
    assert listing[..k + 1][..k] == listing[..k];
  }

  /** After the first loop the listed files have their rows and the others are as before,
      although unchanged files were skipped. */
  lemma {:induction false} RefreshFacts(t: Table, anime: nat, listing: seq<Listed>, k: nat)
    requires t.Valid() && DistinctPaths(listing) && Separate(t, anime, listing) && k <= |listing|
    ensures Refresh(t, anime, t.Of(anime), listing, k).Valid()
    ensures Separate(Refresh(t, anime, t.Of(anime), listing, k), anime, listing)
    ensures Refresh(t, anime, t.Of(anime), listing, k).Of(anime) == t.Of(anime) + RowsFor(anime, listing[..k], Overrides(t.Of(anime)))
    decreases k
  {
    hide Guess, RowFor, Upsert, RowsFor, Overrides, Unchanged, Separate, Refresh, Table.Of, Table.Valid;
    var facts := t.Of(anime);
    RefreshIs(t, anime, facts, listing, k);
    if k == 0 {
      NoRows(anime, Overrides(facts));
      assert listing[..0] == [];
      assert facts + map[] == facts;
    } else {
      RefreshFacts(t, anime, listing, k - 1);
      RowsForStep(anime, listing, k - 1, Overrides(facts));
      RefreshStep(t, Refresh(t, anime, facts, listing, k - 1), anime, listing, k - 1, RowsFor(anime, listing[..k - 1], Overrides(facts)));
    }
  }

  lemma RefreshIs(t: Table, anime: nat, existing: map<Path, Row>, listing: seq<Listed>, k: nat)
    requires k <= |listing|
    ensures k == 0 ==> Refresh(t, anime, existing, listing, k) == t
    ensures k > 0 ==>
      var before, l := Refresh(t, anime, existing, listing, k - 1), listing[k - 1];
      Refresh(t, anime, existing, listing, k) == if l.path in existing && Unchanged(existing[l.path], l) then before
                                                 else Upsert(before, anime, l.path, l.size, l.mtime, Guess(l.path.name))
  {
    hide Guess, Unchanged, Upsert;
  }

  /** The first loop's turn at one entry. */
  lemma RefreshStep(t: Table, before: Table, anime: nat, listing: seq<Listed>, k: nat, rows: map<Path, Row>)
    requires t.Valid() && before.Valid() && Separate(before, anime, listing) && k < |listing|
    requires before.Of(anime) == t.Of(anime) + rows && listing[k].path !in rows
    ensures
      var l := listing[k];
      var after := if l.path in t.Of(anime) && Unchanged(t.Of(anime)[l.path], l) then before
                   else Upsert(before, anime, l.path, l.size, l.mtime, Guess(l.path.name));
      && after.Valid() && Separate(after, anime, listing)
      && after.Of(anime) == t.Of(anime) + rows[l.path := RowFor(anime, l, Overrides(t.Of(anime)))]
  {
    hide Guess, RowFor, Upsert, Overrides, Unchanged, Separate;
    var facts, l := t.Of(anime), listing[k];
    MergeOne(facts, rows, l.path, RowFor(anime, l, Overrides(facts)));
    if l.path in facts && Unchanged(facts[l.path], l) {
      SkippedIsRight(t, anime, l);
    } else {
      WrittenIsRight(t, anime, l);
      SeparateAt(before, anime, listing, k);
      UpsertFacts(before, anime, l.path, l.size, l.mtime, Guess(l.path.name));
      UpsertSeparate(before, anime, listing, l);
    }
  }

  lemma MergeOne(facts: map<Path, Row>, rows: map<Path, Row>, p: Path, row: Row)
    requires p !in rows
    ensures facts + rows[p := row] == (facts + rows)[p := row]
    ensures p in facts + rows <==> p in facts
    ensures p in facts ==> (facts + rows)[p] == facts[p]
    ensures p in facts && facts[p] == row ==> facts + rows[p := row] == facts + rows
  {
  }

  lemma NoRows(anime: nat, overrides: map<Path, Option<string>>)
    ensures RowsFor(anime, [], overrides) == map[]
  {
  }

  lemma SeparateAt(t: Table, anime: nat, listing: seq<Listed>, k: nat)
    requires Separate(t, anime, listing) && k < |listing|
    ensures forall i | i in t.rows && t.rows[i].path == listing[k].path :: t.rows[i].anime == anime
  {
    assert listing[k] in listing;
  }

  lemma UpsertSeparate(t: Table, anime: nat, listing: seq<Listed>, l: Listed)
    requires Separate(t, anime, listing)
    ensures Separate(Upsert(t, anime, l.path, l.size, l.mtime, Guess(l.path.name)), anime, listing)
  {
    hide Guess;
  }

  lemma {:induction false} RefreshOthers(t: Table, anime: nat, listing: seq<Listed>, k: nat, other: nat)
    requires t.Valid() && DistinctPaths(listing) && Separate(t, anime, listing) && k <= |listing| && other != anime
    ensures Refresh(t, anime, t.Of(anime), listing, k).Valid()
    ensures Refresh(t, anime, t.Of(anime), listing, k).Of(other) == t.Of(other)
    decreases k
  {
    hide Guess, Upsert, Unchanged, Separate;
    RefreshFacts(t, anime, listing, k);
    if k > 0 {
      RefreshFacts(t, anime, listing, k - 1);
      RefreshOthers(t, anime, listing, k - 1, other);
      var before := Refresh(t, anime, t.Of(anime), listing, k - 1);
      var l := listing[k - 1];
      SeparateAt(before, anime, listing, k - 1);
      UpsertOthers(before, anime, l.path, l.size, l.mtime, Guess(l.path.name), other);
    }
  }

  lemma {:induction false} SweepFacts(t: Table, gone: seq<Path>, k: nat, anime: nat)
    requires t.Valid() && k <= |gone|
    ensures Sweep(t, gone, k).Valid()
    ensures Sweep(t, gone, k).Of(anime) == t.Of(anime) - PathSet(gone[..k])
    decreases k
  {
    hide DeleteByPath, Table.Of, PathSet;
    if k == 0 {
      RemoveNone(t.Of(anime), gone);
    } else {
      SweepFacts(t, gone, k - 1, anime);
      DeleteFacts(Sweep(t, gone, k - 1), gone[k - 1], anime);
      PathSetStep(gone, k - 1);
      RemoveOneMore(t.Of(anime), PathSet(gone[..k - 1]), gone[k - 1]);
    }
  }

  function PathSet(paths: seq<Path>): set<Path> {
    set p | p in paths
  }

  lemma PathSetStep(paths: seq<Path>, k: nat)
    requires k < |paths|
    ensures PathSet(paths[..k + 1]) == PathSet(paths[..k]) + {paths[k]}
  {
  }

  lemma RemoveNone(facts: map<Path, Row>, gone: seq<Path>)
    ensures facts - PathSet(gone[..0]) == facts
  {
  }

  lemma RemoveOneMore(facts: map<Path, Row>, gone: set<Path>, p: Path)
    ensures facts - gone - {p} == facts - (gone + {p})
  {
  }

  /** The sizes agree, so one row by id is one row by path. */
  lemma LoneByPath(t: Table, anime: nat)
    requires t.Valid()
    ensures |IdsOf(t, anime)| == 1 <==> |t.Of(anime)| == 1
  {
    var ids := IdsOf(t, anime);
    if |ids| == 1 {
      var i := TheElement(ids);
      t.OfHas(anime, i);
      forall p | p in t.Of(anime) ensures p == t.rows[i].path {
        var j := t.OfFrom(anime, p);
        assert j in ids;
      }
      assert t.Of(anime).Keys == {t.rows[i].path};
      assert |t.Of(anime)| == |t.Of(anime).Keys|;
    }
    if |t.Of(anime)| == 1 {
      var p :| p in t.Of(anime);
      assert |t.Of(anime).Keys| == 1;
      assert t.Of(anime).Keys == {p} by { assert |t.Of(anime).Keys - {p}| == 0; }
      var i := t.OfFrom(anime, p);
      forall j | j in ids ensures j == i { t.OfHas(anime, j); }
      assert ids == {i};
    }
  }

  /** The condition read off the rows by id is the one read off the rows by path. */
  lemma LoneIffByPath(t: Table, anime: nat, expected: seq<Expected>)
    requires t.Valid()
    ensures AssignLone(t, anime, expected).1 <==> IsLone(t.Of(anime), expected)
  {
    hide Decimal, IsNumeral, TheElement, WithNumber;
    LoneByPath(t, anime);
    forall i | i in IdsOf(t, anime) ensures t.rows[i].path in t.Of(anime) && t.Of(anime)[t.rows[i].path] == t.rows[i] {
      t.OfHas(anime, i);
    }
    forall p | p in t.Of(anime) ensures exists i :: i in IdsOf(t, anime) && t.rows[i] == t.Of(anime)[p] {
      var i := t.OfFrom(anime, p);
      assert i in IdsOf(t, anime);
    }
  }

  /** All rows of one anime are given a number. */
  lemma NumberedRows(t: Table, t': Table, anime: nat, number: string)
    requires t.Valid()
    requires t' == t.(rows := map i | i in t.rows :: if t.rows[i].anime == anime then WithNumber(t.rows[i], number) else t.rows[i])
    ensures t'.Valid() && t'.Of(anime) == map p | p in t.Of(anime) :: WithNumber(t.Of(anime)[p], number)
  {
    var facts' := map p | p in t.Of(anime) :: WithNumber(t.Of(anime)[p], number);
    forall i | i in t'.rows && t'.rows[i].anime == anime ensures t'.rows[i].path in facts' && facts'[t'.rows[i].path] == t'.rows[i] {
      t.OfHas(anime, i);
    }
    forall p | p in facts' ensures exists i :: i in t'.rows && t'.rows[i].anime == anime && t'.rows[i].path == p {
      var i := t.OfFrom(anime, p);
      assert t'.rows[i].path == p;
    }
    t'.OfIs(anime, facts');
  }

  /** Rows left as they were are the same facts. */
  lemma SameRowsSameFacts(t: Table, t': Table, other: nat)
    requires t.Valid() && t'.Valid() && t'.rows.Keys == t.rows.Keys
    requires forall i | i in t.rows && (t.rows[i].anime == other || t'.rows[i].anime == other) :: t'.rows[i] == t.rows[i]
    ensures t'.Of(other) == t.Of(other)
  {
    forall i | i in t'.rows && t'.rows[i].anime == other ensures t'.rows[i].path in t.Of(other) && t.Of(other)[t'.rows[i].path] == t'.rows[i] {
      t.OfHas(other, i);
    }
    forall p | p in t.Of(other) ensures exists i :: i in t'.rows && t'.rows[i].anime == other && t'.rows[i].path == p {
      var i := t.OfFrom(other, p);
      assert t'.rows[i] == t.rows[i];
    }
    t'.OfIs(other, t.Of(other));
  }

  lemma AssignLoneFacts(t: Table, anime: nat, expected: seq<Expected>)
    requires t.Valid()
    ensures AssignLone(t, anime, expected).0.Valid()
    ensures AssignLone(t, anime, expected).1 <==> IsLone(t.Of(anime), expected)
    ensures AssignLone(t, anime, expected).0.Of(anime) ==
      if IsLone(t.Of(anime), expected)
      then map p | p in t.Of(anime) :: WithNumber(t.Of(anime)[p], Decimal(TheElement(ExpectedNumbers(expected))))
      else t.Of(anime)
    ensures forall other | other != anime :: AssignLone(t, anime, expected).0.Of(other) == t.Of(other)
  {
    hide Decimal, IsNumeral, IsLone, ExpectedNumbers;
    var (t', set') := AssignLone(t, anime, expected);
    LoneIffByPath(t, anime, expected);
    LoneMeansOneNumber(t.Of(anime), expected);
    if set' {
      NumberedRows(t, t', anime, Decimal(TheElement(ExpectedNumbers(expected))));
      forall other | other != anime ensures t'.Of(other) == t.Of(other) { SameRowsSameFacts(t, t', other); }
    }
  }

  lemma LoneMeansOneNumber(rows: map<Path, Row>, expected: seq<Expected>)
    ensures IsLone(rows, expected) ==> |ExpectedNumbers(expected)| == 1
  {
  }

  // ------------------------------------------------------------ history does not matter

  function PathsOf(listing: seq<Listed>): set<Path> {
    set l | l in listing :: l.path
  }

  /** Whether the scan has anything to report: a file came, changed or went, or a lone
      file was given its number. */
  predicate Reports(existing: map<Path, Row>, listing: seq<Listed>, lone: bool) {
    || (exists l | l in listing :: !(l.path in existing && Unchanged(existing[l.path], l)))
    || existing.Keys - PathsOf(listing) != {}
    || lone
  }

  lemma KeysMinus(facts: map<Path, Row>, rows: map<Path, Row>)
    ensures (facts + rows) - (facts.Keys - rows.Keys) == rows
  {
  }

  /** After a scan the anime's rows are exactly the listed files, each numbered by hand,
      by its name, or by the lone-file rule; and nobody else's rows have changed. Nothing
      else about the rows there were before plays a part. */
  lemma ScanIsHistoryFree(t: Table, anime: nat, listing: seq<Listed>, gone: seq<Path>, expected: seq<Expected>)
    requires t.Valid() && DistinctPaths(listing) && Separate(t, anime, listing)
    requires PathSet(gone) == t.Of(anime).Keys - PathsOf(listing)
    ensures
      var swept := Sweep(Refresh(t, anime, t.Of(anime), listing, |listing|), gone, |gone|);
      var (t', lone) := AssignLone(swept, anime, expected);
      && t'.Valid()
      && t'.Of(anime) == Scanned(anime, listing, Overrides(t.Of(anime)), expected)
      && (lone <==> IsLone(RowsFor(anime, listing, Overrides(t.Of(anime))), expected))
  {
    hide Guess, Refresh, Sweep, RowsFor, AssignLone, IsLone, Separate, Overrides, WithNumber;
    var facts := t.Of(anime);
    var refreshed := Refresh(t, anime, facts, listing, |listing|);
    RefreshFacts(t, anime, listing, |listing|);
    assert listing[..|listing|] == listing;
    var rows := RowsFor(anime, listing, Overrides(facts));
    SweepFacts(refreshed, gone, |gone|, anime);
    assert gone[..|gone|] == gone;
    KeysMinus(facts, rows);
    AssignLoneFacts(Sweep(refreshed, gone, |gone|), anime, expected);
  }

  lemma ScanKeepsOthers(t: Table, anime: nat, listing: seq<Listed>, gone: seq<Path>, expected: seq<Expected>, other: nat)
    requires t.Valid() && DistinctPaths(listing) && Separate(t, anime, listing) && other != anime
    requires PathSet(gone) == t.Of(anime).Keys - PathsOf(listing)
    ensures
      var swept := Sweep(Refresh(t, anime, t.Of(anime), listing, |listing|), gone, |gone|);
      AssignLone(swept, anime, expected).0.Valid() && AssignLone(swept, anime, expected).0.Of(other) == t.Of(other)
  {
    hide Guess, Refresh, Sweep, AssignLone, IsLone, Separate, WithNumber;
    var refreshed := Refresh(t, anime, t.Of(anime), listing, |listing|);
    RefreshOthers(t, anime, listing, |listing|, other);
    SweepFacts(refreshed, gone, |gone|, other);
    assert gone[..|gone|] == gone;
    OthersNotGone(t, anime, gone, other, PathsOf(listing));
    AssignLoneFacts(Sweep(refreshed, gone, |gone|), anime, expected);
  }

  lemma OthersNotGone(t: Table, anime: nat, gone: seq<Path>, other: nat, listed: set<Path>)
    requires t.Valid() && other != anime && PathSet(gone) == t.Of(anime).Keys - listed
    ensures t.Of(other) - PathSet(gone) == t.Of(other)
  {
    forall p | p in t.Of(other) ensures p !in t.Of(anime) {
      var i := t.OfFrom(other, p);
      if p in t.Of(anime) { var j := t.OfFrom(anime, p); }
    }
  }

  /** What the listed files' rows are, one by one. */
  lemma ScannedAt(anime: nat, listing: seq<Listed>, overrides: map<Path, Option<string>>, expected: seq<Expected>, l: Listed)
    requires DistinctPaths(listing) && l in listing
    ensures
      var rows := RowsFor(anime, listing, overrides);
      var scanned := Scanned(anime, listing, overrides, expected);
      && scanned.Keys == PathsOf(listing)
      && l.path in scanned
      && scanned[l.path] == if IsLone(rows, expected)
         then WithNumber(RowFor(anime, l, overrides), Decimal(TheElement(ExpectedNumbers(expected))))
         else RowFor(anime, l, overrides)
  {
    hide RowFor, RowsFor, IsLone, WithNumber;
    RowsForAt(anime, listing, overrides, l);
  }

  /** Only the overrides of listed files are looked at. */
  lemma {:induction false} RowsForAgree(anime: nat, listing: seq<Listed>, a: map<Path, Option<string>>, b: map<Path, Option<string>>)
    requires forall l | l in listing :: RowFor(anime, l, a) == RowFor(anime, l, b)
    ensures RowsFor(anime, listing, a) == RowsFor(anime, listing, b)
    decreases |listing|
  {
    hide RowFor;
    if listing != [] { RowsForAgree(anime, listing[..|listing| - 1], a, b); }
  }

  /** A lone file carries no number set by hand. */
  lemma LoneIsNotManual(anime: nat, listing: seq<Listed>, overrides: map<Path, Option<string>>, expected: seq<Expected>, l: Listed)
    requires DistinctPaths(listing) && l in listing && IsLone(RowsFor(anime, listing, overrides), expected)
    ensures l.path !in overrides && Guess(l.path.name) == None
  {
    hide Guess;
    RowsForAt(anime, listing, overrides, l);
  }

  lemma RescanRow(anime: nat, listing: seq<Listed>, overrides: map<Path, Option<string>>, expected: seq<Expected>, l: Listed)
    requires DistinctPaths(listing) && l in listing
    ensures RowFor(anime, l, Overrides(Scanned(anime, listing, overrides, expected))) == RowFor(anime, l, overrides)
  {
    hide Guess, RowsFor, IsLone, Scanned;
    ScannedAt(anime, listing, overrides, expected, l);
    if IsLone(RowsFor(anime, listing, overrides), expected) {
      LoneIsNotManual(anime, listing, overrides, expected, l);
    }
  }

  /** Scanning twice equals scanning once. */
  lemma ScanIsIdempotent(anime: nat, listing: seq<Listed>, overrides: map<Path, Option<string>>, expected: seq<Expected>)
    requires DistinctPaths(listing)
    ensures
      var once := Scanned(anime, listing, overrides, expected);
      Scanned(anime, listing, Overrides(once), expected) == once
  {
    hide Guess, RowFor, IsLone, Overrides;
    var once := Scanned(anime, listing, overrides, expected);
    forall l | l in listing ensures RowFor(anime, l, Overrides(once)) == RowFor(anime, l, overrides) {
      RescanRow(anime, listing, overrides, expected, l);
    }
    RowsForAgree(anime, listing, Overrides(once), overrides);
  }

  /** Scanning an unchanged directory again reports a change exactly when the lone-file
      rule applies: the name alone gives no number, so the stored one is cleared and set
      anew every time. */
  lemma RescanIsQuietIff(anime: nat, listing: seq<Listed>, overrides: map<Path, Option<string>>, expected: seq<Expected>)
    requires DistinctPaths(listing)
    ensures
      var lone := IsLone(RowsFor(anime, listing, overrides), expected);
      Reports(Scanned(anime, listing, overrides, expected), listing, lone) <==> lone
  {
    hide Guess, RowsFor, IsLone, Scanned;
    var once := Scanned(anime, listing, overrides, expected);
    forall l | l in listing
      ensures l.path in once && once.Keys == PathsOf(listing)
      ensures !IsLone(RowsFor(anime, listing, overrides), expected) ==> Unchanged(once[l.path], l)
    {
      ScannedAt(anime, listing, overrides, expected, l);
    }
    if listing == [] { NothingScanned(anime, overrides, expected); }
    else { assert listing[0] in listing; }
  }

  lemma NothingScanned(anime: nat, overrides: map<Path, Option<string>>, expected: seq<Expected>)
    ensures Scanned(anime, [], overrides, expected).Keys == {}
  {
    NoRows(anime, overrides);
  }

  lemma SweepMore(t: Table, gone: seq<Path>, p: Path)
    ensures Sweep(t, gone + [p], |gone| + 1) == DeleteByPath(Sweep(t, gone, |gone|), p)
    ensures PathSet(gone + [p]) == PathSet(gone) + {p}
  {
    SweepPrefix(t, gone, [p], |gone|);
  }

  lemma {:induction false} SweepPrefix(t: Table, gone: seq<Path>, more: seq<Path>, k: nat)
    requires k <= |gone|
    ensures Sweep(t, gone + more, k) == Sweep(t, gone, k)
    decreases k
  {
    if k > 0 { SweepPrefix(t, gone, more, k - 1); }
  }
}
