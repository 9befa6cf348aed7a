/** The loop that rewrites a column of unique paths when a library is imported, one row at
    a time; a clash makes the database refuse, and the whole import is rolled back. */
module SnapshotImport {
  import opened Text
  import opened PathMap
  import opened PathRoundTrip

  /** A row's path once rewritten; a path no mapping applies to stays. */
  function Final(path: string, ms: seq<Mapping>): string {
    match MapPath(path, ms)
    case None => path
    case Some(p) => p
  }

  predicate Distinct(paths: seq<string>) {
    forall i, j | 0 <= i < j < |paths| :: paths[i] != paths[j]
  }

  /** When the update of row `i` is refused: its new path is that of an earlier row, as
      rewritten, or that of a later one, which still has its old path. */
  predicate Clashes(paths: seq<string>, ms: seq<Mapping>, i: nat)
    requires i < |paths|
  {
    var p := Final(paths[i], ms);
    || (exists j | 0 <= j < i :: Final(paths[j], ms) == p)
    || (exists j | i < j < |paths| :: paths[j] == p)
  }

  /** `_rewrite_paths` for one column: the rows afterwards and those no mapping applied
      to, or nothing if the database refused. */
  method RewriteColumn(paths: seq<string>, ms: seq<Mapping>) returns (result: Option<seq<string>>, unmapped: seq<string>)
    requires Distinct(paths)
    ensures result.Some? <==> forall i | 0 <= i < |paths| :: !Clashes(paths, ms, i)
    ensures result.Some? ==> |result.value| == |paths| && Distinct(result.value)
    ensures result.Some? ==> forall i | 0 <= i < |paths| :: result.value[i] == Final(paths[i], ms)
    ensures result.Some? ==> forall p :: p in unmapped <==> p in paths && MapPath(p, ms).None?
  {
    hide MapPath, Clashes, Final;
    var rows := paths;
    unmapped := [];
    for i := 0 to |paths|
      invariant |rows| == |paths| && Distinct(rows)
      invariant forall j | 0 <= j < |paths| :: rows[j] == if j < i then Final(paths[j], ms) else paths[j]
      invariant forall j | 0 <= j < i :: !Clashes(paths, ms, j)
      invariant forall p :: p in unmapped <==> p in paths[..i] && MapPath(p, ms).None?
    {
      assert paths[..i + 1] == paths[..i] + [paths[i]];
      ClashesIffTaken(paths, ms, rows, i);
      var mapped := FindMapping(rows[i], ms);
      FinalIs(rows[i], ms);
      if mapped.None? {
        unmapped := unmapped + [rows[i]];
      } else {
        if exists j | 0 <= j < |rows| && j != i :: rows[j] == mapped.value {
          return None, unmapped;
        }
        rows := rows[i := mapped.value];
      }
    }
    assert paths[..|paths|] == paths;
    return Some(rows), unmapped;
  }

  lemma FinalIs(path: string, ms: seq<Mapping>)
    ensures Final(path, ms) == if MapPath(path, ms).Some? then MapPath(path, ms).value else path
  {
  }

  lemma ClashesIffTaken(paths: seq<string>, ms: seq<Mapping>, rows: seq<string>, i: nat)
    requires i < |paths| == |rows|
    requires forall j | 0 <= j < |paths| :: rows[j] == if j < i then Final(paths[j], ms) else paths[j]
    ensures Clashes(paths, ms, i) <==> exists j :: 0 <= j < |rows| && j != i && rows[j] == Final(paths[i], ms)
  {
    hide Final;
    if Clashes(paths, ms, i) {
      var j :| 0 <= j < |paths| && j != i && (if j < i then Final(paths[j], ms) else paths[j]) == Final(paths[i], ms);
      assert rows[j] == Final(paths[i], ms);
    }
  }

  /** Two folders that trade places make an import impossible: the rewritten paths are
      all different, but the first one is taken by the second row until that is rewritten
      in its turn. */
  lemma TradingPlacesClashes(a: Place, b: Place, names: seq<string>)
    requires a.Valid() && b.Valid() && !a.IsEverything() && !b.IsEverything() && AreNames(names) && names != []
    requires Trim(a.Base()) == a.Base() && Trim(b.Base()) == b.Base()
    requires !IsUnder(a.Base(), b.Below(names).Text()) && !IsUnder(b.Base(), a.Below(names).Text())
    ensures
      var ms := [Mapping(a.Base(), b.Base()), Mapping(b.Base(), a.Base())];
      var paths := [a.Below(names).Text(), b.Below(names).Text()];
      && paths[0] != paths[1]
      && Final(paths[0], ms) == paths[1] && Final(paths[1], ms) == paths[0]
      && Clashes(paths, ms, 0)
  {
    hide Place.Valid, Rewrite, Join, Trim, AreNames;
    var m, n := Mapping(a.Base(), b.Base()), Mapping(b.Base(), a.Base());
    var pa, pb := a.Below(names).Text(), b.Below(names).Text();
    RewriteMovesNames(m, a, b, names);
    RewriteMovesNames(n, b, a, names);
    var rest := PathTail(a, names);
    OnlyOneApplies([m, n], pa, 0);
    OnlyOneApplies([m, n], pb, 1);
    assert MapPath(pa, [m]).Some? && Choice(pa, [m]) == 0;
    assert MapPath(pb, [n]).Some? && Choice(pb, [n]) == 0;
    assert pa != pb;
  }

  lemma OnlyOneApplies(ms: seq<Mapping>, path: string, k: nat)
    requires k < |ms| && forall j | 0 <= j < |ms| && j != k :: !Applies(ms[j], path)
    ensures Applies(ms[k], path) ==> MapPath(path, ms) == Some(Rewrite(ms[k], path))
  {
    hide Rewrite, Applies;
    if Applies(ms[k], path) {
      assert IsChosen(ms, path, k);
      assert Choice(path, ms) < |ms|;
      ChosenIsUnique(ms, path, k, Choice(path, ms));
    }
  }
}
