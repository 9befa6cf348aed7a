/** The repository of anime rows, and the jobs that rewrite indexed titles, as they run. */
module AnimeRepository {
  import opened Text
  import opened AnimeCatalog

  class AnimeRepo {
    var rows: map<nat, Entry>
    var index: seq<Indexed>

    function S(): Store
      reads this
    {
      Store(rows, index)
    }

    constructor ()
      ensures S() == Store(map[], []) && Right(S())
    {
      rows, index := map[], [];
    }

    method CreatePending(id: nat, folder: nat, title: string)
      requires id !in rows
      modifies this
      ensures S() == Create(old(S()), id, folder, title)
      ensures old(Right(S())) ==> Right(S())
    {
      if Right(S()) { CreateKeepsRight(S(), id, folder, title); }
      rows := rows[id := Entry(folder, None, false, None, title, Variants(None, None, None), [])];
      SyncFts(id);
    }

    method SyncFts(id: nat)
      requires id in rows
      modifies this`index
      ensures S() == Sync(old(S()), id)
    {
      index := AnimeCatalog.Without(index, id) + [Row(id, rows[id])];
    }

    /** `select(Anime).where(...).order_by(Anime.id)` */
    method GroupById(anidb: nat) returns (group: seq<nat>)
      ensures forall a :: a in group <==> a in Group(rows, anidb)
      ensures forall i, j | 0 <= i < j < |group| :: group[i] < group[j]
    {
      var left := set a | a in rows && rows[a].anidb == Some(anidb);
      group := [];
      while left != {}
        invariant forall a :: a in Group(rows, anidb) <==> a in group || a in left
        invariant forall i, j | 0 <= i < j < |group| :: group[i] < group[j]
        invariant forall i, b | 0 <= i < |group| && b in left :: group[i] < b
        decreases left
      {
        var a := Lowest(left);
        group := group + [a];
        left := left - {a};
      }
    }

    method RecomputeDuplicateFlags(anidb: Option<nat>)
      modifies this`rows
      ensures rows == Recompute(old(rows), anidb)
    {
      if anidb.None? {
        return;
      }
      var group := GroupById(anidb.value);
      if group == [] {
        assert Group(rows, anidb.value) == {};
        return;
      }
      hide Recompute, Group;
      ghost var before := rows;
      var primary := group[0];
      assert primary in Group(before, anidb.value);
      InGroup(before, anidb.value, primary);
      rows := rows[primary := rows[primary].(isDuplicate := false, duplicateOf := None)];
      assert group[..1] == [primary];
      for i := 1 to |group|
        invariant FlaggedUpTo(before, rows, group, i)
      {
        assert group[i] in Group(before, anidb.value);
        InGroup(before, anidb.value, group[i]);
        OneMoreFlagged(before, rows, group, i);
        rows := rows[group[i] := rows[group[i]].(isDuplicate := true, duplicateOf := Some(primary))];
      }
      AllFlagged(before, rows, group, anidb.value);
    }

    /** `AnimeRepo.delete` */
    method Delete(id: nat)
      modifies this
      ensures S() == AnimeCatalog.Delete(old(S()), id)
      ensures old(Right(S())) ==> Right(S())
    {
      if Right(S()) { DeleteKeepsRight(S(), id); }
      if id !in rows {
        return;
      }
      var anidb := rows[id].anidb;
      rows := ClearPointers(rows, id);
      index := AnimeCatalog.Without(index, id);
      rows := rows - {id};
      RecomputeDuplicateFlags(anidb);
    }

    /** `FolderRepo.delete`: one transaction, which the database refuses as a whole if a
        row elsewhere points at one of those to go. */
    method DeleteFolder(folder: nat) returns (ok: bool)
      modifies this
      ensures S() == AnimeCatalog.DeleteFolder(old(S()), folder)
      ensures ok == !Refused(old(rows), InFolder(old(rows), folder))
      ensures old(Right(S())) ==> Right(S())
    {
      hide Refused, Row, FlagRight, OnlyOf, Right, AnimeCatalog.Without, WithoutAll;
      if Right(S()) { DeleteFolderKeepsRight(S(), folder); }
      var gone := InFolder(rows, folder);
      var indexed := index;
      var left := gone;
      NothingWithout(index);
      assert gone - left == {};
      while left != {}
        invariant S() == old(S()) && left <= gone && indexed == WithoutAll(index, gone - left)
        decreases left
      {
        var id :| id in left;
        WithoutOneMore(index, gone - left, id);
        assert gone - left + {id} == gone - (left - {id});
        indexed := AnimeCatalog.Without(indexed, id);
        left := left - {id};
      }
      assert gone - left == gone;
      ok := !Refused(rows, gone);
      if ok {
        rows, index := rows - gone, indexed;
      }
    }

    /** `apply_identification`; the query for a namesake returns any one first. */
    method ApplyIdentification(id: nat, anidb: Option<nat>, m: Metadata) returns (ghost other: Option<nat>)
      requires id in rows
      modifies this
      ensures S() == AnimeCatalog.ApplyIdentification(old(S()), id, anidb, m, other)
      ensures anidb.Some? ==> if other.Some? then other.value in Group(old(rows), anidb.value) - {id} else Group(old(rows), anidb.value) <= {id}
    {
      other := None;
      var e := rows[id];
      if anidb.Some? {
        var namesakes := set a | a in rows && rows[a].anidb == anidb && a != id;
        var first: Option<nat> := None;
        if namesakes != {} {
          var any :| any in namesakes;
          first := Some(any);
        }
        other := first;
        e := e.(isDuplicate := first.Some?, duplicateOf := first);
      } else {
        e := e.(isDuplicate := false, duplicateOf := None);
      }
      rows := rows[id := e.(anidb := anidb, title := m.title, variants := m.variants, altTitles := m.altTitles)];
      SyncFts(id);
    }

    /** The row, then the group joined and the group left: the flags and the index are right
        afterwards, whichever namesake the query came up with. */
    method Identify(id: nat, anidb: Option<nat>, m: Metadata, order: seq<Variant>)
      requires id in rows && Right(S())
      modifies this
      ensures Right(S())
      ensures rows.Keys == old(rows.Keys) && rows[id].anidb == anidb && rows[id].title == ResolveTitle(m.variants, order, m.title)
      ensures forall a | a in rows && a != id :: rows[a] == old(rows)[a].(isDuplicate := rows[a].isDuplicate, duplicateOf := rows[a].duplicateOf)
    {
      hide Recompute, Row, FlagRight, ResolveTitle, OnlyOf, AnimeCatalog.Without, Group, Right;
      ghost var s := S();
      var previous := rows[id].anidb;
      var title := ResolveTitle(m.variants, order, m.title);
      ghost var other := ApplyIdentification(id, anidb, m.(title := title));
      IdentifyKeepsRight(s, id, anidb, m, order, other);
      RecomputeOnlyFlags(rows, anidb);
      RecomputeDuplicateFlags(anidb);
      if previous.Some? && previous != anidb {
        RecomputeOnlyFlags(rows, previous);
        RecomputeDuplicateFlags(previous);
      }
    }

    /** `_finalize_identification`. If the database refuses the row, nothing of it is kept;
        the anime goes to the review queue, which is no part of this state. */
    method FinalizeIdentification(id: nat, anidb: Option<nat>, m: Metadata, order: seq<Variant>, refused: bool)
      requires id in rows && Right(S())
      modifies this
      ensures Right(S())
      ensures rows.Keys == old(rows.Keys) && (refused ==> S() == old(S()))
      ensures !refused ==> rows[id].anidb == anidb && rows[id].title == ResolveTitle(m.variants, order, m.title)
      ensures forall a | a in rows && a != id :: rows[a] == old(rows)[a].(isDuplicate := rows[a].isDuplicate, duplicateOf := rows[a].duplicateOf)
    {
      hide Right, ResolveTitle;
      if !refused {
        Identify(id, anidb, m, order);
      }
    }

    /** The first loop shared by `resync_titles` and `run_repair_scan`: the rows. */
    method RewriteRows(ids: seq<nat>, turn: Turning, source: nat -> Source, order: seq<Variant>) returns (needsFts: seq<nat>)
      requires forall i :: i in ids <==> i in rows
      requires forall i, j | 0 <= i < j < |ids| :: ids[i] != ids[j]
      modifies this`rows
      ensures rows == map a | a in old(rows) :: turn(old(rows)[a], source(a), order).0
      ensures needsFts == Touched(old(rows), ids, turn, source, order)
    {
      hide Touched, TurnedUpTo;
      ghost var before := rows;
      needsFts := [];
      NoneTurned(before, ids, turn, source, order);
      for k := 0 to |ids|
        invariant TurnedUpTo(before, rows, ids, k, turn, source, order)
        invariant needsFts == Touched(before, ids[..k], turn, source, order)
      {
        OneMoreTurned(before, rows, ids, k, turn, source, order);
        var (e, again) := turn(rows[ids[k]], source(ids[k]), order);
        rows := rows[ids[k] := e];
        if again {
          needsFts := needsFts + [ids[k]];
        }
      }
      AllTurned(before, rows, ids, turn, source, order);
      assert ids[..|ids|] == ids;
    }

    /** The second loop: the index rows of those that were touched. */
    method SyncEach(needsFts: seq<nat>)
      requires forall i | i in needsFts :: i in rows
      modifies this`index
      ensures S() == SyncAll(old(S()), needsFts)
    {
      hide Sync;
      for k := 0 to |needsFts|
        invariant S() == SyncAll(old(S()), needsFts[..k])
      {
        assert needsFts[k] in rows;
        assert needsFts[..k + 1][..k] == needsFts[..k];
        SyncFts(needsFts[k]);
      }
      assert needsFts[..|needsFts|] == needsFts;
    }

    /** `resync_titles`, and the title part of `run_repair_scan`. */
    method Rewrite(ids: seq<nat>, turn: Turning, source: nat -> Source, order: seq<Variant>)
      requires Right(S()) && Honest(turn) && forall i :: i in ids <==> i in rows
      requires forall i, j | 0 <= i < j < |ids| :: ids[i] != ids[j]
      modifies this
      ensures S() == RewriteTitles(old(S()), ids, turn, source, order)
      ensures Right(S())
    {
      hide Right, Honest, Touched;
      RewriteKeepsRight(S(), ids, turn, source, order);
      var needsFts := RewriteRows(ids, turn, source, order);
      SyncEach(needsFts);
    }
  }

  lemma {:induction false} NothingWithout(index: seq<Indexed>)
    ensures WithoutAll(index, {}) == index
  {
    if index != [] { NothingWithout(index[..|index| - 1]); }
  }

  lemma {:induction false} WithoutOneMore(index: seq<Indexed>, ids: set<nat>, id: nat)
    ensures AnimeCatalog.Without(WithoutAll(index, ids), id) == WithoutAll(index, ids + {id})
    decreases |index|
  {
    if index != [] {
      var init, last := index[..|index| - 1], index[|index| - 1];
      WithoutOneMore(init, ids, id);
      if last.id !in ids {
        assert (WithoutAll(init, ids) + [last])[..|WithoutAll(init, ids)|] == WithoutAll(init, ids);
      } else {
        assert WithoutAll(init, ids) + [] == WithoutAll(init, ids);
      }
    }
  }

  /** The first `k` rows listed have been turned. */
  ghost predicate TurnedUpTo(before: map<nat, Entry>, rows: map<nat, Entry>, ids: seq<nat>, k: nat, turn: Turning, source: nat -> Source, order: seq<Variant>)
    requires k <= |ids|
  {
    && rows.Keys == before.Keys
    && forall a | a in rows :: rows[a] == if a in ids[..k] then turn(before[a], source(a), order).0 else before[a]
  }

  lemma NoneTurned(before: map<nat, Entry>, ids: seq<nat>, turn: Turning, source: nat -> Source, order: seq<Variant>)
    ensures TurnedUpTo(before, before, ids, 0, turn, source, order) && Touched(before, ids[..0], turn, source, order) == []
  {
  }

  lemma OneMoreTurned(before: map<nat, Entry>, rows: map<nat, Entry>, ids: seq<nat>, k: nat, turn: Turning, source: nat -> Source, order: seq<Variant>)
    requires k < |ids| && TurnedUpTo(before, rows, ids, k, turn, source, order)
    requires forall i | i in ids :: i in before
    requires forall i, j | 0 <= i < j < |ids| :: ids[i] != ids[j]
    ensures ids[k] in rows && rows[ids[k]] == before[ids[k]]
    ensures
      var (e, again) := turn(rows[ids[k]], source(ids[k]), order);
      && TurnedUpTo(before, rows[ids[k] := e], ids, k + 1, turn, source, order)
      && Touched(before, ids[..k + 1], turn, source, order) == Touched(before, ids[..k], turn, source, order) + if again then [ids[k]] else []
  {
    assert ids[k] in ids && ids[k] !in ids[..k];
    assert ids[..k + 1] == ids[..k] + [ids[k]] && ids[..k + 1][..k] == ids[..k];
  }

  lemma AllTurned(before: map<nat, Entry>, rows: map<nat, Entry>, ids: seq<nat>, turn: Turning, source: nat -> Source, order: seq<Variant>)
    requires TurnedUpTo(before, rows, ids, |ids|, turn, source, order) && forall i :: i in ids <==> i in before
    ensures rows == map a | a in before :: turn(before[a], source(a), order).0
  {
    assert ids[..|ids|] == ids;
  }

  /** The first `k` rows of the group have been given their flags. */
  ghost predicate FlaggedUpTo(before: map<nat, Entry>, rows: map<nat, Entry>, group: seq<nat>, k: nat)
    requires 1 <= k <= |group|
  {
    && rows.Keys == before.Keys
    && forall a | a in rows :: rows[a] == if a in group[..k] then Flagged(before[a], a, group[0]) else before[a]
  }

  lemma InGroup(rows: map<nat, Entry>, anidb: nat, a: nat)
    requires a in Group(rows, anidb)
    ensures a in rows
  {
  }

  lemma OneMoreFlagged(before: map<nat, Entry>, rows: map<nat, Entry>, group: seq<nat>, k: nat)
    requires 1 <= k < |group| && FlaggedUpTo(before, rows, group, k) && group[k] in before
    requires forall i, j | 0 <= i < j < |group| :: group[i] < group[j]
    ensures group[k] in rows
    ensures FlaggedUpTo(before, rows[group[k] := rows[group[k]].(isDuplicate := true, duplicateOf := Some(group[0]))], group, k + 1)
  {
    assert group[..k + 1] == group[..k] + [group[k]];
    assert group[k] !in group[..k];
  }

  lemma AllFlagged(before: map<nat, Entry>, rows: map<nat, Entry>, group: seq<nat>, anidb: nat)
    requires group != [] && FlaggedUpTo(before, rows, group, |group|)
    requires forall a :: a in group <==> a in Group(before, anidb)
    requires forall i, j | 0 <= i < j < |group| :: group[i] < group[j]
    ensures rows == Recompute(before, Some(anidb))
  {
    assert group[..|group|] == group;
    assert group[0] in Group(before, anidb);
    assert group[0] == Lowest(Group(before, anidb));
  }

  lemma RecomputeOnlyFlags(rows: map<nat, Entry>, anidb: Option<nat>)
    ensures
      var r := Recompute(rows, anidb);
      forall a | a in rows :: r[a] == rows[a].(isDuplicate := r[a].isDuplicate, duplicateOf := r[a].duplicateOf)
  {
    hide Lowest;
  }
}
