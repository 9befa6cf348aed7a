/** What the operations on the anime rows do to them: which rows come and go, and what title is
    on display. */
module CatalogLaws {
  import opened Text
  import opened AnimeCatalog

  // ------------------------------------------------------------ titles

  /** The variant in that language, if there is one. */
  predicate IsNamed(v: Variants, which: Variant, title: string) {
    && title != ""
    && ((which == Main && v.main == Some(title)) || (which == English && v.en == Some(title)) || (which == Japanese && v.ja == Some(title)))
  }

  ghost predicate IsNameless(v: Variants, which: Variant) {
    forall title :: !IsNamed(v, which, title)
  }

  /** The first of the languages asked for that there is a title in, or else the one there was. */
  ghost predicate ShowsFirst(v: Variants, order: seq<Variant>, before: string, title: string) {
    || (exists k | 0 <= k < |order| :: IsNamed(v, order[k], title) && forall j | 0 <= j < k :: IsNameless(v, order[j]))
    || (title == before && forall j | 0 <= j < |order| :: IsNameless(v, order[j]))
  }

  lemma NamedIff(v: Variants, which: Variant)
    ensures NonEmpty(Chosen(v, which)) <==> !IsNameless(v, which)
    ensures NonEmpty(Chosen(v, which)) ==> IsNamed(v, which, Chosen(v, which).value)
  {
    if NonEmpty(Chosen(v, which)) { assert IsNamed(v, which, Chosen(v, which).value); }
  }

  lemma {:induction false} ResolvesFirst(v: Variants, order: seq<Variant>, before: string)
    ensures ShowsFirst(v, order, before, ResolveTitle(v, order, before))
    decreases |order|
  {
    hide IsNamed, IsNameless, Chosen;
    if order != [] {
      NamedIff(v, order[0]);
      var title := ResolveTitle(v, order, before);
      if IsNameless(v, order[0]) {
        ResolvesFirst(v, order[1..], before);
        if exists k | 0 <= k < |order[1..]| :: IsNamed(v, order[1..][k], title) && forall j | 0 <= j < k :: IsNameless(v, order[1..][j]) {
          var k :| 0 <= k < |order[1..]| && IsNamed(v, order[1..][k], title) && forall j | 0 <= j < k :: IsNameless(v, order[1..][j]);
          assert IsNamed(v, order[k + 1], title);
          forall j | 0 <= j < k + 1 ensures IsNameless(v, order[j]) { if j > 0 { assert order[j] == order[1..][j - 1]; } }
        } else {
          forall j | 0 <= j < |order| ensures IsNameless(v, order[j]) { if j > 0 { assert order[j] == order[1..][j - 1]; } }
        }
      } else {
        assert IsNamed(v, order[0], title);
      }
    }
  }

  ghost predicate IsKnown(v: Variants) {
    exists which :: !IsNameless(v, which)
  }

  lemma KnownIff(v: Variants)
    ensures KnowsVariants(v) <==> IsKnown(v)
  {
    hide IsNameless;
    NamedIff(v, Main);
    NamedIff(v, English);
    NamedIff(v, Japanese);
    if IsKnown(v) {
      var which :| !IsNameless(v, which);
      NamedIff(v, which);
    }
  }

  /** The variants an anime has after a title job: its own if it has any; otherwise the cached
      response's or the sidecar's. */
  ghost predicate HasFound(e: Entry, source: Source, repair: bool, v: Variants) {
    if e.anidb.None? || IsKnown(e.variants) then v == e.variants
    else if source.cached.Some? && (repair || IsKnown(source.cached.value)) then v == (if IsKnown(source.cached.value) then source.cached.value else e.variants)
    else if source.sidecar.Some? then v == source.sidecar.value
    else v == e.variants
  }

  /** One row's turn in either job. */
  lemma TurnShowsFirst(e: Entry, source: Source, order: seq<Variant>)
    ensures
      var r := Resynced(e, source, order).0;
      r == e.(title := r.title, variants := r.variants) && HasFound(e, source, false, r.variants) && ShowsFirst(r.variants, order, e.title, r.title)
    ensures
      var r := Repaired(e, source, order).0;
      r == e.(title := r.title, variants := r.variants) && HasFound(e, source, true, r.variants) && ShowsFirst(r.variants, order, e.title, r.title)
  {
    hide IsKnown, KnowsVariants, ResolveTitle, ShowsFirst;
    KnownIff(e.variants);
    if source.cached.Some? { KnownIff(source.cached.value); }
    ResolvesFirst(Resynced(e, source, order).0.variants, order, e.title);
    ResolvesFirst(Repaired(e, source, order).0.variants, order, e.title);
  }

  /** After a resync or a repair every anime shows the first title there is in the order asked
      for, and nothing else about the rows has changed. */
  lemma JobsShowFirst(s: Store, ids: seq<nat>, source: nat -> Source, order: seq<Variant>, repair: bool)
    requires forall i :: i in ids <==> i in s.rows
    ensures
      var s' := RewriteTitles(s, ids, if repair then Repaired else Resynced, source, order);
      && s'.rows.Keys == s.rows.Keys
      && forall a | a in s.rows ::
           && s'.rows[a] == s.rows[a].(title := s'.rows[a].title, variants := s'.rows[a].variants)
           && HasFound(s.rows[a], source(a), repair, s'.rows[a].variants)
           && ShowsFirst(s'.rows[a].variants, order, s.rows[a].title, s'.rows[a].title)
  {
    hide HasFound, ShowsFirst, Resynced, Repaired;
    forall a | a in s.rows
      ensures
        var r := (if repair then Repaired else Resynced)(s.rows[a], source(a), order).0;
        r == s.rows[a].(title := r.title, variants := r.variants) && HasFound(s.rows[a], source(a), repair, r.variants) && ShowsFirst(r.variants, order, s.rows[a].title, r.title)
    {
      TurnShowsFirst(s.rows[a], source(a), order);
    }
  }

  // ------------------------------------------------------------ rows that come and go

  /** But for whether it is a duplicate, and of what. */
  predicate SameButFlags(e: Entry, e': Entry) {
    e' == e.(isDuplicate := e'.isDuplicate, duplicateOf := e'.duplicateOf)
  }

  lemma RecomputeOnlyFlags(rows: map<nat, Entry>, anidb: Option<nat>)
    ensures Recompute(rows, anidb).Keys == rows.Keys && forall a | a in rows :: SameButFlags(rows[a], Recompute(rows, anidb)[a])
  {
  }

  /** A directory that was found gets a row that is not identified yet; the others stay. */
  lemma CreateAdds(s: Store, id: nat, folder: nat, title: string)
    requires id !in s.rows
    ensures
      var s' := Create(s, id, folder, title);
      && s'.rows.Keys == s.rows.Keys + {id} && (forall a | a in s.rows :: s'.rows[a] == s.rows[a])
      && s'.rows[id].folder == folder && s'.rows[id].title == title && s'.rows[id].anidb.None? && !s'.rows[id].isDuplicate
      && (forall which :: IsNameless(s'.rows[id].variants, which)) && s'.rows[id].altTitles == []
  {
  }

  /** An identified anime has the id and the titles found, and shows the first in the order
      asked for; the others are changed in their flags at most. */
  lemma IdentifyWrites(s: Store, id: nat, anidb: Option<nat>, m: Metadata, order: seq<Variant>, other: Option<nat>)
    requires id in s.rows
    ensures
      var s' := Identify(s, id, anidb, m, order, other);
      && s'.rows.Keys == s.rows.Keys && (forall a | a in s.rows && a != id :: SameButFlags(s.rows[a], s'.rows[a]))
      && s'.rows[id].anidb == anidb && s'.rows[id].folder == s.rows[id].folder
      && s'.rows[id].variants == m.variants && s'.rows[id].altTitles == m.altTitles
      && ShowsFirst(m.variants, order, m.title, s'.rows[id].title)
  {
    hide ShowsFirst, ResolveTitle, Recompute;
    ResolvesFirst(m.variants, order, m.title);
    var applied := ApplyIdentification(s, id, anidb, m.(title := ResolveTitle(m.variants, order, m.title)), other);
    RecomputeOnlyFlags(applied.rows, anidb);
    RecomputeOnlyFlags(Recompute(applied.rows, anidb), s.rows[id].anidb);
  }

  /** A removed anime is gone, and the others are changed in their flags at most. */
  lemma DeleteRemoves(s: Store, id: nat)
    ensures
      var s' := Delete(s, id);
      s'.rows.Keys == s.rows.Keys - {id} && forall a | a in s'.rows :: SameButFlags(s.rows[a], s'.rows[a])
  {
    hide Recompute;
    if id in s.rows { RecomputeOnlyFlags(ClearPointers(s.rows, id) - {id}, s.rows[id].anidb); }
  }

  /** With a folder all its animes go and no others, unchanged; or else, where a duplicate
      outside points into it, nothing happens at all. */
  lemma DeleteFolderRemoves(s: Store, folder: nat)
    ensures
      var s' := DeleteFolder(s, folder);
      if exists a, b :: a in s.rows && b in s.rows && s.rows[a].folder != folder && s.rows[a].duplicateOf == Some(b) && s.rows[b].folder == folder then s' == s
      else (forall a :: a in s'.rows <==> a in s.rows && s.rows[a].folder != folder) && forall a | a in s'.rows :: s'.rows[a] == s.rows[a]
  {
    hide WithoutAll;
    var gone := InFolder(s.rows, folder);
    if exists a, b :: a in s.rows && b in s.rows && s.rows[a].folder != folder && s.rows[a].duplicateOf == Some(b) && s.rows[b].folder == folder {
      var a, b :| a in s.rows && b in s.rows && s.rows[a].folder != folder && s.rows[a].duplicateOf == Some(b) && s.rows[b].folder == folder;
      assert a !in gone && b in gone;
    }
    if Refused(s.rows, gone) {
      var a :| a in s.rows && a !in gone && s.rows[a].duplicateOf.Some? && s.rows[a].duplicateOf.value in gone;
      assert s.rows[s.rows[a].duplicateOf.value].folder == folder;
    }
  }

  // ------------------------------------------------------------ the index

  /** The one row of an anime that has one, and that every row is some anime's. */
  lemma {:induction false} OnlyRow(index: seq<Indexed>, id: nat, row: Indexed) returns (k: nat)
    requires OnlyOf(index, id) == [row]
    ensures k < |index| && index[k] == row && row.id == id && forall j | 0 <= j < |index| && j != k :: index[j].id != id
    decreases |index|
  {
    var init, last := index[..|index| - 1], index[|index| - 1];
    if last.id == id {
      k := |index| - 1;
      assert |OnlyOf(init, id) + [last]| == 1;
      assert OnlyOf(init, id) == [] && OnlyOf(index, id)[0] == last;
      NoRow(init, id);
    } else {
      k := OnlyRow(init, id, row);
    }
  }

  lemma {:induction false} NoRow(index: seq<Indexed>, id: nat)
    requires OnlyOf(index, id) == []
    ensures forall j | 0 <= j < |index| :: index[j].id != id
    decreases |index|
  {
    if index != [] { NoRow(index[..|index| - 1], id); }
  }

  /** What an index that is right says of an anime: it has one row, with the title shown and,
      set apart by blanks, each other title it is known by once, and nothing else; and no row
      is about an anime that is not there. */
  lemma IndexSays(s: Store, a: nat) returns (k: nat, titles: seq<string>)
    requires IndexRight(s) && a in s.rows
    ensures k < |s.index| && s.index[k] == Indexed(a, s.rows[a].title, Join(titles, ' '))
    ensures forall j | 0 <= j < |s.index| && j != k :: s.index[j].id != a && s.index[j].id in s.rows
    ensures forall i, j | 0 <= i < j < |titles| :: titles[i] != titles[j]
    ensures forall t :: t in titles <==> t != "" && (t in s.rows[a].altTitles || Some(t) in [s.rows[a].variants.main, s.rows[a].variants.en, s.rows[a].variants.ja])
  {
    hide FirstsOf;
    var e := s.rows[a];
    titles := FirstsOf(Searchable(e));
    k := OnlyRow(s.index, a, Row(a, e));
    forall j | 0 <= j < |s.index| ensures s.index[j].id in s.rows {
      if s.index[j].id !in s.rows { NoRow(s.index, s.index[j].id); }
    }
  }
}
