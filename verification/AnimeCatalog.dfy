/** The anime rows of the catalog, as far as two derived things go: the duplicate flags
    within each group of rows that share an AniDB id, and the full-text index. */
module AnimeCatalog {
  import opened Text

  datatype Variant = Main | English | Japanese
  datatype Variants = Variants(main: Option<string>, en: Option<string>, ja: Option<string>)

  datatype Entry = Entry(
    folder: nat,
    anidb: Option<nat>,
    isDuplicate: bool,
    duplicateOf: Option<nat>,
    title: string,
    variants: Variants,
    altTitles: seq<string>
  )

  /** One row of `anime_search_fts`; nothing keeps that table from holding two for one anime. */
  datatype Indexed = Indexed(id: nat, title: string, altText: string)

  datatype Store = Store(rows: map<nat, Entry>, index: seq<Indexed>)

  // ------------------------------------------------------------ duplicate groups

  function Group(rows: map<nat, Entry>, anidb: nat): set<nat> {
    set a | a in rows && rows[a].anidb == Some(anidb)
  }

  predicate IsLowest(n: nat, s: set<nat>) {
    n in s && forall m | m in s :: n <= m
  }

  function Lowest(s: set<nat>): (n: nat)
    requires s != {}
    ensures IsLowest(n, s)
  {
    HasLowest(s);
    var n :| n in s && IsLowest(n, s);
    n
  }

  lemma {:induction false} HasLowest(s: set<nat>)
    requires s != {}
    ensures exists n :: n in s && IsLowest(n, s)
    decreases |s|
  {
    var x :| x in s;
    var rest := s - {x};
    assert s == rest + {x};
    if rest == {} {
      assert IsLowest(x, s);
    } else {
      HasLowest(rest);
      var y :| y in rest && IsLowest(y, rest);
      assert IsLowest(if x < y then x else y, s);
    }
  }

  /** What `recompute_duplicate_flags` makes of one row of the group. */
  function Flagged(e: Entry, id: nat, lowest: nat): Entry {
    if id == lowest then e.(isDuplicate := false, duplicateOf := None)
    else e.(isDuplicate := true, duplicateOf := Some(lowest))
  }

  /** `recompute_duplicate_flags` */
  function Recompute(rows: map<nat, Entry>, anidb: Option<nat>): (r: map<nat, Entry>)
    ensures r.Keys == rows.Keys
  {
    if anidb.None? || Group(rows, anidb.value) == {} then rows
    else
      var group := Group(rows, anidb.value);
      map a | a in rows :: if a in group then Flagged(rows[a], a, Lowest(group)) else rows[a]
  }

  /** A row is flagged exactly if a row with a lower id has its AniDB id, and it then
      points at the lowest of them. */
  ghost predicate FlagRight(rows: map<nat, Entry>, a: nat)
    requires a in rows
  {
    var e := rows[a];
    && (e.isDuplicate <==> exists b :: b in rows && b < a && e.anidb.Some? && rows[b].anidb == e.anidb)
    && (e.isDuplicate ==>
        && e.duplicateOf.Some? && e.duplicateOf.value in rows && rows[e.duplicateOf.value].anidb == e.anidb
        && forall b | b in rows && rows[b].anidb == e.anidb :: e.duplicateOf.value <= b)
    && (!e.isDuplicate ==> e.duplicateOf.None?)
  }

  ghost predicate FlagsRight(rows: map<nat, Entry>) {
    forall a | a in rows :: FlagRight(rows, a)
  }

  /** All rows but those of the groups named have the right flags. */
  ghost predicate FlagsRightBut(rows: map<nat, Entry>, groups: set<nat>) {
    forall a | a in rows && !(rows[a].anidb.Some? && rows[a].anidb.value in groups) :: FlagRight(rows, a)
  }

  /** Whether a row's flags are right depends on the row and on who shares its AniDB id. */
  lemma FlagFrame(rows: map<nat, Entry>, rows': map<nat, Entry>, a: nat)
    requires a in rows && a in rows' && rows'[a].anidb == rows[a].anidb
    requires rows'[a].isDuplicate == rows[a].isDuplicate && rows'[a].duplicateOf == rows[a].duplicateOf
    requires rows[a].anidb.Some? ==> Group(rows', rows[a].anidb.value) == Group(rows, rows[a].anidb.value)
    requires FlagRight(rows, a)
    ensures FlagRight(rows', a)
  {
    if rows[a].anidb.Some? {
      var g, g' := Group(rows, rows[a].anidb.value), Group(rows', rows[a].anidb.value);
      assert forall b: nat :: b in g <==> b in rows && rows[b].anidb == rows[a].anidb;
      assert forall b: nat :: b in g' <==> b in rows' && rows'[b].anidb == rows[a].anidb;
    }
  }

  /** Recomputing a group puts its flags right and leaves the others alone. */
  lemma RecomputeRepairs(rows: map<nat, Entry>, anidb: Option<nat>, groups: set<nat>)
    requires FlagsRightBut(rows, groups)
    ensures FlagsRightBut(Recompute(rows, anidb), if anidb.Some? then groups - {anidb.value} else groups)
    ensures forall a | a in rows :: Recompute(rows, anidb)[a].anidb == rows[a].anidb
  {
    hide FlagRight;
    var r := Recompute(rows, anidb);
    assert forall a | a in rows :: r[a].anidb == rows[a].anidb;
    forall a | a in r && !(r[a].anidb.Some? && r[a].anidb.value in (if anidb.Some? then groups - {anidb.value} else groups))
      ensures FlagRight(r, a)
    {
      if anidb.Some? && rows[a].anidb == anidb {
        assert a in Group(rows, anidb.value);
        RecomputedFlag(rows, anidb.value, a);
      } else {
        if rows[a].anidb.Some? { assert Group(r, rows[a].anidb.value) == Group(rows, rows[a].anidb.value); }
        FlagFrame(rows, r, a);
      }
    }
  }

  lemma RecomputedFlag(rows: map<nat, Entry>, anidb: nat, a: nat)
    requires a in Group(rows, anidb)
    ensures FlagRight(Recompute(rows, Some(anidb)), a)
  {
    var r := Recompute(rows, Some(anidb));
    var group := Group(rows, anidb);
    var low := Lowest(group);
    assert low in group;
    assert forall b | b in r :: r[b].anidb == Some(anidb) <==> b in group;
    assert r[a] == Flagged(rows[a], a, low);
  }

  // ------------------------------------------------------------ titles and the index

  function Chosen(v: Variants, which: Variant): Option<string> {
    match which
    case Main => v.main
    case English => v.en
    case Japanese => v.ja
  }

  predicate NonEmpty(s: Option<string>) {
    s.Some? && s.value != ""
  }

  /** `resolve_title` */
  function ResolveTitle(v: Variants, order: seq<Variant>, fallback: string): string {
    if order == [] then fallback
    else if NonEmpty(Chosen(v, order[0])) then Chosen(v, order[0]).value
    else ResolveTitle(v, order[1..], fallback)
  }

  /** `has_known_variants` */
  predicate KnowsVariants(v: Variants) {
    NonEmpty(v.main) || NonEmpty(v.en) || NonEmpty(v.ja)
  }

  function Given(s: Option<string>): seq<string> {
    if s.Some? then [s.value] else []
  }

  /** What is put into the index beside the title: the first occurrence of each non-empty string. */
  function FirstsOf(titles: seq<string>): (firsts: seq<string>)
    ensures forall t | t in titles && t != "" :: t in firsts
    ensures forall t | t in firsts :: t in titles && t != ""
    ensures forall i, j | 0 <= i < j < |firsts| :: firsts[i] != firsts[j]
  {
    if titles == [] then []
    else
      var init, last := FirstsOf(titles[..|titles| - 1]), titles[|titles| - 1];
      assert titles == titles[..|titles| - 1] + [last];
      if last == "" || last in init then init else init + [last]
  }

  function Searchable(e: Entry): seq<string> {
    e.altTitles + Given(e.variants.main) + Given(e.variants.en) + Given(e.variants.ja)
  }

  function Row(id: nat, e: Entry): Indexed {
    Indexed(id, e.title, Join(FirstsOf(Searchable(e)), ' '))
  }

  lemma RowId(id: nat, e: Entry)
    ensures Row(id, e).id == id
  {
  }

  predicate Occurs(part: string, whole: string) {
    exists i | 0 <= i <= |whole| :: part <= whole[i..]
  }

  lemma OccursIn(part: string, before: string, after: string)
    ensures Occurs(part, before + part + after)
  {
    assert (before + part + after)[|before|..] == part + after;
  }

  lemma OccursFurther(part: string, whole: string, more: string)
    requires Occurs(part, whole)
    ensures Occurs(part, whole + more)
  {
    var i :| 0 <= i <= |whole| && part <= whole[i..];
    assert (whole + more)[i..] == whole[i..] + more;
  }

  lemma {:induction false} JoinHolds(parts: seq<string>, part: string)
    requires part in parts
    ensures Occurs(part, Join(parts, ' '))
    decreases |parts|
  {
    if |parts| == 1 {
      assert part <= Join(parts, ' ')[0..];
    } else {
      var init, last := parts[..|parts| - 1], parts[|parts| - 1];
      if part == last {
        OccursIn(part, Join(init, ' ') + " ", "");
        assert Join(init, ' ') + " " + part + "" == Join(parts, ' ');
      } else {
        assert part in init;
        JoinHolds(init, part);
        OccursFurther(part, Join(init, ' '), " " + last);
        assert Join(init, ' ') + (" " + last) == Join(parts, ' ');
      }
    }
  }

  /** Whichever title is on display, every alternative title and every language variant
      of an anime can be searched for. */
  lemma EveryTitleIsIndexed(id: nat, e: Entry, title: string)
    requires title != "" && (title in e.altTitles || Some(title) in {e.variants.main, e.variants.en, e.variants.ja})
    ensures Occurs(title, Row(id, e).altText)
  {
    assert title in Searchable(e);
    JoinHolds(FirstsOf(Searchable(e)), title);
  }

  /** The index rows of one anime. */
  function OnlyOf(index: seq<Indexed>, id: nat): seq<Indexed> {
    if index == [] then []
    else OnlyOf(index[..|index| - 1], id) + if index[|index| - 1].id == id then [index[|index| - 1]] else []
  }

  /** `DELETE FROM anime_search_fts WHERE anime_id = ?` */
  function Without(index: seq<Indexed>, id: nat): seq<Indexed> {
    if index == [] then []
    else Without(index[..|index| - 1], id) + if index[|index| - 1].id == id then [] else [index[|index| - 1]]
  }

  /** `sync_fts` */
  function Sync(s: Store, id: nat): Store
    requires id in s.rows
  {
    s.(index := Without(s.index, id) + [Row(id, s.rows[id])])
  }

  lemma OnlyOfMore(index: seq<Indexed>, e: Indexed, id: nat)
    ensures OnlyOf(index + [e], id) == OnlyOf(index, id) + if e.id == id then [e] else []
  {
    assert (index + [e])[..|index|] == index;
  }

  lemma {:induction false} OnlyOfWithout(index: seq<Indexed>, id: nat, other: nat)
    ensures OnlyOf(Without(index, id), other) == if other == id then [] else OnlyOf(index, other)
    decreases |index|
  {
    if index != [] {
      var init, last := index[..|index| - 1], index[|index| - 1];
      OnlyOfWithout(init, id, other);
      if last.id != id {
        OnlyOfMore(Without(init, id), last, other);
      } else {
        assert Without(init, id) + [] == Without(init, id);
      }
    }
  }

  /** Each anime has exactly one index row, the one a rebuild would give it, but for those
      named, which may have anything; and no anime that is gone has any. */
  ghost predicate IndexRightBut(s: Store, stale: set<nat>) {
    && (forall a | a in s.rows && a !in stale :: OnlyOf(s.index, a) == [Row(a, s.rows[a])])
    && (forall a | a !in s.rows :: OnlyOf(s.index, a) == [])
  }

  ghost predicate IndexRight(s: Store) {
    IndexRightBut(s, {})
  }

  lemma SyncedAtAll(s: Store, id: nat)
    requires id in s.rows
    ensures forall a: nat :: OnlyOf(Sync(s, id).index, a) == if a == id then [Row(id, s.rows[id])] else OnlyOf(s.index, a)
  {
    hide Row, OnlyOf, Without, Sync;
    forall a: nat ensures OnlyOf(Sync(s, id).index, a) == if a == id then [Row(id, s.rows[id])] else OnlyOf(s.index, a) {
      SyncedAt(s, id, a);
    }
  }

  lemma SyncedAt(s: Store, id: nat, a: nat)
    requires id in s.rows
    ensures OnlyOf(Sync(s, id).index, a) == if a == id then [Row(id, s.rows[id])] else OnlyOf(s.index, a)
  {
    hide Row, OnlyOf, Without;
    OnlyOfWithout(s.index, id, a);
    OnlyOfMore(Without(s.index, id), Row(id, s.rows[id]), a);
    RowId(id, s.rows[id]);
    if a == id { assert [] + [Row(id, s.rows[id])] == [Row(id, s.rows[id])]; }
    else { assert OnlyOf(s.index, a) + [] == OnlyOf(s.index, a); }
  }

  lemma SyncRepairs(s: Store, id: nat, stale: set<nat>)
    requires id in s.rows && IndexRightBut(s, stale)
    ensures IndexRightBut(Sync(s, id), stale - {id})
  {
    hide Row, OnlyOf, Without;
    SyncedAtAll(s, id);
  }

  /** Index and table agree row for row: the index is the table's rebuild, in some order. */
  lemma {:induction false} IndexIsRebuilt(s: Store)
    requires IndexRight(s)
    ensures forall e :: multiset(s.index)[e] == if e.id in s.rows && e == Row(e.id, s.rows[e.id]) then 1 else 0
  {
    hide Row;
    forall e ensures multiset(s.index)[e] == if e.id in s.rows && e == Row(e.id, s.rows[e.id]) then 1 else 0 {
      CountIsInFilter(s.index, e);
    }
  }

  lemma {:induction false} CountIsInFilter(index: seq<Indexed>, e: Indexed)
    ensures multiset(index)[e] == multiset(OnlyOf(index, e.id))[e]
    decreases |index|
  {
    if index != [] {
      CountIsInFilter(index[..|index| - 1], e);
      assert index == index[..|index| - 1] + [index[|index| - 1]];
    }
  }

  // ------------------------------------------------------------ operations

  /** `create_pending`; the database picks an id not in use. */
  function Create(s: Store, id: nat, folder: nat, title: string): Store
    requires id !in s.rows
  {
    Sync(s.(rows := s.rows[id := Entry(folder, None, false, None, title, Variants(None, None, None), [])]), id)
  }

  /** What a provider knows about an anime. */
  datatype Metadata = Metadata(title: string, variants: Variants, altTitles: seq<string>)

  /** `apply_identification`; `other` is the row the query for a namesake returned first. */
  function ApplyIdentification(s: Store, id: nat, anidb: Option<nat>, m: Metadata, other: Option<nat>): Store
    requires id in s.rows
  {
    var flagged := if anidb.Some? then s.rows[id].(isDuplicate := other.Some?, duplicateOf := other)
                   else s.rows[id].(isDuplicate := false, duplicateOf := None);
    Sync(s.(rows := s.rows[id := flagged.(anidb := anidb, title := m.title, variants := m.variants, altTitles := m.altTitles)]), id)
  }

  /** The bookkeeping of `_finalize_identification`. */
  function Identify(s: Store, id: nat, anidb: Option<nat>, m: Metadata, order: seq<Variant>, other: Option<nat>): Store
    requires id in s.rows
  {
    var previous := s.rows[id].anidb;
    var applied := ApplyIdentification(s, id, anidb, m.(title := ResolveTitle(m.variants, order, m.title)), other);
    var once := applied.(rows := Recompute(applied.rows, anidb));
    if previous.Some? && previous != anidb then once.(rows := Recompute(once.rows, previous)) else once
  }

  /** Rows that pointed at a removed anime. */
  function ClearPointers(rows: map<nat, Entry>, id: nat): map<nat, Entry> {
    map a | a in rows :: if rows[a].duplicateOf == Some(id) then rows[a].(isDuplicate := false, duplicateOf := None) else rows[a]
  }

  /** `AnimeRepo.delete` */
  function Delete(s: Store, id: nat): Store {
    if id !in s.rows then s
    else Store(Recompute(ClearPointers(s.rows, id) - {id}, s.rows[id].anidb), Without(s.index, id))
  }

  function InFolder(rows: map<nat, Entry>, folder: nat): set<nat> {
    set a | a in rows && rows[a].folder == folder
  }

  /** A row stays behind that points at one of those to be removed: the foreign key on
      `duplicate_of_anime_id` refuses. */
  predicate Refused(rows: map<nat, Entry>, gone: set<nat>) {
    exists a | a in rows && a !in gone :: rows[a].duplicateOf.Some? && rows[a].duplicateOf.value in gone
  }

  ghost function WithoutAll(index: seq<Indexed>, ids: set<nat>): seq<Indexed> {
    if index == [] then []
    else WithoutAll(index[..|index| - 1], ids) + if index[|index| - 1].id in ids then [] else [index[|index| - 1]]
  }

  /** `FolderRepo.delete`: all anime of the folder, or, if the database refuses, nothing. */
  ghost function DeleteFolder(s: Store, folder: nat): Store {
    var gone := InFolder(s.rows, folder);
    if Refused(s.rows, gone) then s else Store(s.rows - gone, WithoutAll(s.index, gone))
  }

  /** What is found locally about an anime: the cached response's variants, the sidecar's,
      and whether there is anything else to fill in. */
  datatype Source = Source(cached: Option<Variants>, sidecar: Option<Variants>, fillsGap: bool)

  /** One turn of the loop in `resync_titles`: the row, and whether it must be indexed again. */
  function Resynced(e: Entry, source: Source, order: seq<Variant>): (Entry, bool) {
    var found := if e.anidb.None? || KnowsVariants(e.variants) then None
                 else if source.cached.Some? && KnowsVariants(source.cached.value) then source.cached else source.sidecar;
    var e1 := if found.Some? then e.(variants := found.value) else e;
    var title := ResolveTitle(e1.variants, order, e1.title);
    (e1.(title := title), title != e1.title || found.Some?)
  }

  /** One turn of the loop in `run_repair_scan`. */
  function Repaired(e: Entry, source: Source, order: seq<Variant>): (Entry, bool) {
    var source := if e.anidb.None? then Source(None, None, false) else source;
    var found := if KnowsVariants(e.variants) then None
                 else if source.cached.Some? then (if KnowsVariants(source.cached.value) then source.cached else None)
                 else source.sidecar;
    var e1 := if found.Some? then e.(variants := found.value) else e;
    var title := ResolveTitle(e1.variants, order, e1.title);
    (e1.(title := title), found.Some? || source.fillsGap || title != e1.title)
  }

  /** The index rows written at the end of either loop, in the order the rows came. */
  function SyncAll(s: Store, ids: seq<nat>): Store
    requires forall i | i in ids :: i in s.rows
    ensures SyncAll(s, ids).rows == s.rows
  {
    if ids == [] then s else Sync(SyncAll(s, ids[..|ids| - 1]), ids[|ids| - 1])
  }

  type Turning = (Entry, Source, seq<Variant>) -> (Entry, bool)

  /** The ids, in order, of the rows a turn says must be indexed again. */
  function Touched(rows: map<nat, Entry>, ids: seq<nat>, turn: Turning, source: nat -> Source, order: seq<Variant>): (r: seq<nat>)
    requires forall i | i in ids :: i in rows
    ensures forall i :: i in r <==> i in ids && turn(rows[i], source(i), order).1
  {
    if ids == [] then []
    else
      var last := ids[|ids| - 1];
      assert ids == ids[..|ids| - 1] + [last];
      Touched(rows, ids[..|ids| - 1], turn, source, order) + if turn(rows[last], source(last), order).1 then [last] else []
  }

  /** `resync_titles` and the title part of `run_repair_scan`: every row is looked at, and
      those a turn touched are indexed again. */
  function RewriteTitles(s: Store, ids: seq<nat>, turn: Turning, source: nat -> Source, order: seq<Variant>): Store
    requires forall i :: i in ids <==> i in s.rows
  {
    var touched := Touched(s.rows, ids, turn, source, order);
    SyncAll(s.(rows := map a | a in s.rows :: turn(s.rows[a], source(a), order).0), touched)
  }

  /** A turn touches nothing the index shows unless it says so, and no flags at all. */
  ghost predicate Honest(turn: Turning) {
    forall e, source, order ::
      var (e', again) := turn(e, source, order);
      && e' == e.(title := e'.title, variants := e'.variants)
      && (!again ==> e' == e)
  }

  lemma TurnsAreHonest()
    ensures Honest(Resynced) && Honest(Repaired)
  {
    hide ResolveTitle, KnowsVariants;
  }

  // ------------------------------------------------------------ every operation keeps both

  ghost predicate Right(s: Store) {
    FlagsRight(s.rows) && IndexRight(s)
  }

  lemma CreateKeepsRight(s: Store, id: nat, folder: nat, title: string)
    requires Right(s) && id !in s.rows
    ensures Right(Create(s, id, folder, title))
  {
    hide Row, FlagRight, OnlyOf;
    var e := Entry(folder, None, false, None, title, Variants(None, None, None), []);
    var s1 := s.(rows := s.rows[id := e]);
    SyncRepairs(s1, id, {id});
    assert {id} - {id} == {};
    forall a | a in s1.rows ensures FlagRight(s1.rows, a) {
      if a == id {
        Unidentified(s1.rows, id);
      } else {
        if s.rows[a].anidb.Some? { assert Group(s1.rows, s.rows[a].anidb.value) == Group(s.rows, s.rows[a].anidb.value); }
        FlagFrame(s.rows, s1.rows, a);
      }
    }
  }

  lemma Unidentified(rows: map<nat, Entry>, a: nat)
    requires a in rows && rows[a].anidb.None? && !rows[a].isDuplicate && rows[a].duplicateOf.None?
    ensures FlagRight(rows, a)
  {
  }

  /** Changing one row's id spoils at most the flags of the group it left and the group it joined. */
  lemma OneRowReidentified(rows: map<nat, Entry>, id: nat, e: Entry, groups: set<nat>)
    requires FlagsRight(rows) && id in rows
    requires groups == (if rows[id].anidb.Some? then {rows[id].anidb.value} else {}) + if e.anidb.Some? then {e.anidb.value} else {}
    requires e.anidb.None? ==> !e.isDuplicate && e.duplicateOf.None?
    ensures FlagsRightBut(rows[id := e], groups)
  {
    hide FlagRight;
    var r := rows[id := e];
    forall a | a in r && !(r[a].anidb.Some? && r[a].anidb.value in groups) ensures FlagRight(r, a) {
      if a == id {
        Unidentified(r, id);
      } else {
        if r[a].anidb.Some? { assert Group(r, r[a].anidb.value) == Group(rows, r[a].anidb.value); }
        FlagFrame(rows, r, a);
      }
    }
  }

  lemma SameIndexed(s: Store, s': Store)
    requires IndexRight(s) && s'.index == s.index && s'.rows.Keys == s.rows.Keys
    requires forall a | a in s.rows :: Row(a, s'.rows[a]) == Row(a, s.rows[a])
    ensures IndexRight(s')
  {
    hide Row;
  }

  lemma RecomputeKeepsIndex(s: Store, anidb: Option<nat>)
    requires IndexRight(s)
    ensures IndexRight(s.(rows := Recompute(s.rows, anidb)))
  {
    hide FirstsOf, Join, IndexRight;
    SameIndexed(s, s.(rows := Recompute(s.rows, anidb)));
  }

  lemma IdentifyKeepsRight(s: Store, id: nat, anidb: Option<nat>, m: Metadata, order: seq<Variant>, other: Option<nat>)
    requires Right(s) && id in s.rows
    ensures Right(Identify(s, id, anidb, m, order, other))
  {
    hide Row, Recompute, FlagRight, ResolveTitle;
    var previous := s.rows[id].anidb;
    var applied := ApplyIdentification(s, id, anidb, m.(title := ResolveTitle(m.variants, order, m.title)), other);
    SyncRepairs(s.(rows := applied.rows), id, {id});
    var groups := (if previous.Some? then {previous.value} else {}) + if anidb.Some? then {anidb.value} else {};
    OneRowReidentified(s.rows, id, applied.rows[id], groups);
    assert applied.rows == s.rows[id := applied.rows[id]];
    RecomputeRepairs(applied.rows, anidb, groups);
    RecomputeKeepsIndex(applied, anidb);
    var once := applied.(rows := Recompute(applied.rows, anidb));
    if previous.Some? && previous != anidb {
      var left := if anidb.Some? then groups - {anidb.value} else groups;
      RecomputeRepairs(once.rows, previous, left);
      RecomputeKeepsIndex(once, previous);
      assert left - {previous.value} == {};
    } else {
      assert (if anidb.Some? then groups - {anidb.value} else groups) == {};
    }
  }

  lemma IndexWithout(s: Store, id: nat, rows: map<nat, Entry>)
    requires IndexRight(s) && rows.Keys == s.rows.Keys - {id}
    requires forall a | a in rows :: Row(a, rows[a]) == Row(a, s.rows[a])
    ensures IndexRight(Store(rows, Without(s.index, id)))
  {
    hide Row;
    forall a ensures OnlyOf(Without(s.index, id), a) == if a == id then [] else OnlyOf(s.index, a) {
      OnlyOfWithout(s.index, id, a);
    }
  }

  lemma DeleteKeepsRight(s: Store, id: nat)
    requires Right(s)
    ensures Right(Delete(s, id))
  {
    hide Row, FlagRight, OnlyOf, Without, Recompute, ClearPointers;
    if id in s.rows {
      var anidb := s.rows[id].anidb;
      var left := ClearPointers(s.rows, id) - {id};
      var groups := if anidb.Some? then {anidb.value} else {};
      ClearedBut(s.rows, id, groups);
      RecomputeRepairs(left, anidb, groups);
      DeletedRows(s, id);
      IndexWithout(s, id, Delete(s, id).rows);
      assert (if anidb.Some? then groups - {anidb.value} else groups) == {};
    }
  }

  lemma DeletedRows(s: Store, id: nat)
    requires id in s.rows
    ensures Delete(s, id).rows.Keys == s.rows.Keys - {id}
    ensures forall a | a in Delete(s, id).rows :: Row(a, Delete(s, id).rows[a]) == Row(a, s.rows[a])
  {
    hide FirstsOf, Join, Lowest, Without;
  }

  lemma ClearedBut(rows: map<nat, Entry>, id: nat, groups: set<nat>)
    requires FlagsRight(rows) && id in rows
    requires groups == if rows[id].anidb.Some? then {rows[id].anidb.value} else {}
    ensures FlagsRightBut(ClearPointers(rows, id) - {id}, groups)
  {
    hide FlagRight;
    var left := ClearPointers(rows, id) - {id};
    forall a | a in left && !(left[a].anidb.Some? && left[a].anidb.value in groups) ensures FlagRight(left, a) {
      PointsInGroup(rows, id, a);
      if rows[a].anidb.Some? { assert Group(left, rows[a].anidb.value) == Group(rows, rows[a].anidb.value); }
      FlagFrame(rows, left, a);
    }
  }

  lemma PointsInGroup(rows: map<nat, Entry>, id: nat, a: nat)
    requires a in rows && id in rows && FlagRight(rows, a) && (rows[a].anidb.None? || rows[a].anidb != rows[id].anidb)
    ensures rows[a].duplicateOf != Some(id)
  {
  }

  lemma {:induction false} OnlyOfWithoutAll(index: seq<Indexed>, ids: set<nat>, other: nat)
    ensures OnlyOf(WithoutAll(index, ids), other) == if other in ids then [] else OnlyOf(index, other)
    decreases |index|
  {
    if index != [] {
      var init, last := index[..|index| - 1], index[|index| - 1];
      OnlyOfWithoutAll(init, ids, other);
      if last.id !in ids {
        OnlyOfMore(WithoutAll(init, ids), last, other);
      } else {
        assert WithoutAll(init, ids) + [] == WithoutAll(init, ids);
      }
    }
  }

  /** Removing a folder recomputes no flags, and need not: where the database does not
      refuse, all flags are still right, and the index goes with the rows. */
  lemma DeleteFolderKeepsRight(s: Store, folder: nat)
    requires Right(s)
    ensures Right(DeleteFolder(s, folder))
  {
    hide Row, OnlyOf, WithoutAll, FlagRight, Refused;
    var gone := InFolder(s.rows, folder);
    if !Refused(s.rows, gone) {
      forall a | a in s.rows && a !in gone ensures FlagRight(s.rows - gone, a) { SurvivorRight(s.rows, gone, a); }
      forall a: nat ensures OnlyOf(WithoutAll(s.index, gone), a) == if a in gone then [] else OnlyOf(s.index, a) {
        OnlyOfWithoutAll(s.index, gone, a);
      }
    }
  }

  /** The row is the lowest of a group with members on both sides. */
  ghost predicate LosesItsLowest(rows: map<nat, Entry>, gone: set<nat>, a: nat) {
    && a in rows && a !in gone && rows[a].anidb.Some?
    && exists b :: b in gone && b in rows && rows[b].anidb == rows[a].anidb
         && forall c | c in rows && rows[c].anidb == rows[a].anidb :: b <= c
  }

  /** The database refuses to remove a folder exactly if some anime outside it shares its
      AniDB id with one inside that is the lowest of their group. */
  lemma FolderRefusedIff(s: Store, folder: nat)
    requires FlagsRight(s.rows)
    ensures Refused(s.rows, InFolder(s.rows, folder)) <==> exists a :: LosesItsLowest(s.rows, InFolder(s.rows, folder), a)
  {
    var gone := InFolder(s.rows, folder);
    forall a | a in s.rows && a !in gone
      ensures (s.rows[a].duplicateOf.Some? && s.rows[a].duplicateOf.value in gone) <==> LosesItsLowest(s.rows, gone, a)
    {
      PointsAtLowest(s.rows, gone, a);
    }
  }

  lemma PointsAtLowest(rows: map<nat, Entry>, gone: set<nat>, a: nat)
    requires FlagsRight(rows) && a in rows && a !in gone
    ensures (rows[a].duplicateOf.Some? && rows[a].duplicateOf.value in gone) <==> LosesItsLowest(rows, gone, a)
  {
    assert FlagRight(rows, a);
    if LosesItsLowest(rows, gone, a) {
      var b :| b in gone && b in rows && rows[b].anidb == rows[a].anidb && forall c | c in rows && rows[c].anidb == rows[a].anidb :: b <= c;
      assert b < a;
      assert rows[a].isDuplicate && rows[a].duplicateOf == Some(b);
    }
  }

  lemma SurvivorRight(rows: map<nat, Entry>, gone: set<nat>, a: nat)
    requires FlagsRight(rows) && !Refused(rows, gone) && a in rows && a !in gone
    ensures FlagRight(rows - gone, a)
  {
    assert FlagRight(rows, a);
    if rows[a].isDuplicate {
      var p := rows[a].duplicateOf.value;
      assert p in rows - gone;
      var b :| b in rows && b < a && rows[b].anidb == rows[a].anidb;
      assert p <= b;
    }
  }

  lemma {:induction false} SyncAllRepairs(s: Store, ids: seq<nat>, stale: set<nat>)
    requires (forall i | i in ids :: i in s.rows) && IndexRightBut(s, stale)
    ensures IndexRightBut(SyncAll(s, ids), stale - set i | i in ids)
    decreases |ids|
  {
    hide Row, IndexRightBut, Sync;
    if ids != [] {
      var init, last := ids[..|ids| - 1], ids[|ids| - 1];
      SyncAllRepairs(s, init, stale);
      SyncRepairs(SyncAll(s, init), last, stale - set i | i in init);
      assert ids == init + [last];
      assert (stale - set i | i in init) - {last} == stale - set i | i in ids;
    } else {
      assert stale - (set i | i in ids) == stale;
    }
  }

  lemma RewriteKeepsRight(s: Store, ids: seq<nat>, turn: Turning, source: nat -> Source, order: seq<Variant>)
    requires Right(s) && Honest(turn) && forall i :: i in ids <==> i in s.rows
    ensures Right(RewriteTitles(s, ids, turn, source, order))
  {
    hide Row;
    var touched := Touched(s.rows, ids, turn, source, order);
    var s1 := s.(rows := map a | a in s.rows :: turn(s.rows[a], source(a), order).0);
    var stale := set i | i in touched;
    forall a | a in s1.rows ensures s1.rows[a] == s.rows[a].(title := s1.rows[a].title, variants := s1.rows[a].variants)
      ensures a !in stale ==> s1.rows[a] == s.rows[a]
    {
      assert s1.rows[a] == turn(s.rows[a], source(a), order).0;
    }
    assert IndexRightBut(s1, stale);
    SyncAllRepairs(s1, touched, stale);
    assert stale - stale == {};
    FlagsIgnoreTitles(s.rows, s1.rows);
  }

  lemma FlagsIgnoreTitles(rows: map<nat, Entry>, rows': map<nat, Entry>)
    requires FlagsRight(rows) && rows'.Keys == rows.Keys
    requires forall a | a in rows :: rows'[a].anidb == rows[a].anidb && rows'[a].isDuplicate == rows[a].isDuplicate && rows'[a].duplicateOf == rows[a].duplicateOf
    ensures FlagsRight(rows')
  {
    hide FlagRight;
    forall a | a in rows' ensures FlagRight(rows', a) {
      if rows[a].anidb.Some? { assert Group(rows', rows[a].anidb.value) == Group(rows, rows[a].anidb.value); }
      FlagFrame(rows, rows', a);
    }
  }

  // ------------------------------------------------------------ runs

  datatype Op =
    | CreateOp(id: nat, folder: nat, title: string)
    | IdentifyOp(id: nat, anidb: Option<nat>, metadata: Metadata, order: seq<Variant>, other: Option<nat>)
    | DeleteOp(id: nat)
    | DeleteFolderOp(folder: nat)
    | ResyncOp(ids: seq<nat>, source: nat -> Source, order: seq<Variant>)
    | RepairOp(ids: seq<nat>, source: nat -> Source, order: seq<Variant>)

  ghost predicate Allowed(s: Store, op: Op) {
    match op
    case CreateOp(id, _, _) => id !in s.rows
    case IdentifyOp(id, _, _, _, _) => id in s.rows
    case DeleteOp(_) => true
    case DeleteFolderOp(_) => true
    case ResyncOp(ids, _, _) => forall i :: i in ids <==> i in s.rows
    case RepairOp(ids, _, _) => forall i :: i in ids <==> i in s.rows
  }

  ghost function Step(s: Store, op: Op): Store
    requires Allowed(s, op)
  {
    match op
    case CreateOp(id, folder, title) => Create(s, id, folder, title)
    case IdentifyOp(id, anidb, m, order, other) => Identify(s, id, anidb, m, order, other)
    case DeleteOp(id) => Delete(s, id)
    case DeleteFolderOp(folder) => DeleteFolder(s, folder)
    case ResyncOp(ids, source, order) => RewriteTitles(s, ids, Resynced, source, order)
    case RepairOp(ids, source, order) => RewriteTitles(s, ids, Repaired, source, order)
  }

  ghost predicate IsRun(s: Store, ops: seq<Op>)
    decreases |ops|
  {
    ops == [] || (Allowed(s, ops[0]) && IsRun(Step(s, ops[0]), ops[1..]))
  }

  ghost function After(s: Store, ops: seq<Op>): Store
    requires IsRun(s, ops)
    decreases |ops|
  {
    if ops == [] then s else After(Step(s, ops[0]), ops[1..])
  }

  /** After any run of creations, identifications, re-identifications, removals, title
      resyncs and repairs: a row is flagged exactly if a lower id shares its AniDB id, and
      points at the lowest; and the index is what rebuilding it would give. */
  lemma {:induction false} RunKeepsRight(s: Store, ops: seq<Op>)
    requires Right(s) && IsRun(s, ops)
    ensures Right(After(s, ops))
    decreases |ops|
  {
    hide Right, Create, Identify, Delete, DeleteFolder, RewriteTitles, Honest;
    if ops != [] {
      match ops[0] {
        case CreateOp(id, folder, title) => CreateKeepsRight(s, id, folder, title);
        case IdentifyOp(id, anidb, m, order, other) => IdentifyKeepsRight(s, id, anidb, m, order, other);
        case DeleteOp(id) => DeleteKeepsRight(s, id);
        case DeleteFolderOp(folder) => DeleteFolderKeepsRight(s, folder);
        case ResyncOp(ids, source, order) => TurnsAreHonest(); RewriteKeepsRight(s, ids, Resynced, source, order);
        case RepairOp(ids, source, order) => TurnsAreHonest(); RewriteKeepsRight(s, ids, Repaired, source, order);
      }
      RunKeepsRight(Step(s, ops[0]), ops[1..]);
    }
  }
}
