/** The repository of local episodes and the scanner's reconciliation, as they run. */
module EpisodeRepository {
  import opened Text
  import opened Disk
  import opened ReleaseName
  import opened Naming
  import opened Catalog

  class EpisodeRepo {
    var rows: map<nat, Row>
    var next: nat

    function T(): Table
      reads this
    {
      Table(rows, next)
    }

    constructor ()
      ensures T() == Table(map[], 0) && T().Valid()
    {
      rows, next := map[], 0;
    }

    method Upsert(anime: nat, path: Path, size: nat, mtime: int, number: Option<string>)
      requires T().Valid()
      modifies this
      ensures T() == Catalog.Upsert(old(T()), anime, path, size, mtime, number) && T().Valid()
    {
      UpsertValid(T(), anime, path, size, mtime, number);
      if exists i | i in rows :: rows[i].path == path {
        rows := map i | i in rows :: if rows[i].path == path then Refreshed(rows[i], size, mtime, number) else rows[i];
      } else {
        rows := rows[next := Row(anime, path, number, false, size, mtime)];
        next := next + 1;
      }
    }

    method DeleteByPath(path: Path)
      requires T().Valid()
      modifies this
      ensures T() == Catalog.DeleteByPath(old(T()), path) && T().Valid()
    {
      rows := map i | i in rows && rows[i].path != path :: rows[i];
    }

    /** The rows that go with their anime. */
    method DeleteByAnime(anime: nat)
      modifies this
      ensures T() == old(T()).(rows := map i | i in old(rows) && old(rows)[i].anime != anime :: old(rows)[i])
    {
      rows := map i | i in rows && rows[i].anime != anime :: rows[i];
    }

    /** `local.file_path = path`, as the renamer writes it */
    method SetPath(id: nat, path: Path)
      requires id in rows
      modifies this
      ensures T() == old(T()).(rows := old(rows)[id := old(rows)[id].(path := path)])
    {
      rows := rows[id := rows[id].(path := path)];
    }

    /** A number set by hand sticks; setting it back to none hands the row back to the parser. */
    method SetManual(id: nat, number: Option<string>)
      requires T().Valid()
      modifies this
      ensures T() == Catalog.SetManual(old(T()), id, number) && T().Valid()
    {
      if id in rows {
        rows := rows[id := rows[id].(number := number, manual := number.Some?)];
      }
    }

    /** `{ep.file_path: ep for ep in by_anime(anime)}` */
    method ByPath(anime: nat) returns (existing: map<Path, Row>)
      requires T().Valid()
      ensures existing == T().Of(anime)
    {
      existing := map[];
      var left := rows.Keys;
      while left != {}
        invariant left <= rows.Keys
        invariant forall i | i in rows && i !in left && rows[i].anime == anime :: rows[i].path in existing && existing[rows[i].path] == rows[i]
        invariant forall p | p in existing :: exists i :: i in rows && rows[i].anime == anime && rows[i].path == p
        decreases left
      {
        var i :| i in left;
        if rows[i].anime == anime {
          existing := existing[rows[i].path := rows[i]];
        }
        left := left - {i};
      }
      T().OfIs(anime, existing);
    }

    method AssignLone(anime: nat, expected: seq<Expected>) returns (set': bool)
      requires T().Valid()
      modifies this
      ensures (T(), set') == Catalog.AssignLone(old(T()), anime, expected) && T().Valid()
    {
      AssignLoneFacts(T(), anime, expected);
      var files := IdsOf(T(), anime);
      if |files| != 1 || exists i | i in files :: rows[i].number.Some? || rows[i].manual {
        return false;
      }
      var numbers := ExpectedNumbers(expected);
      if |numbers| != 1 {
        return false;
      }
      var number := Decimal(TheElement(numbers));
      rows := map i | i in rows :: if rows[i].anime == anime then WithNumber(rows[i], number) else rows[i];
      return true;
    }

    /** The scan's first loop: files whose size, time and number agree are skipped. */
    method RefreshListed(anime: nat, existing: map<Path, Row>, listing: seq<Listed>) returns (seen: set<Path>, changed: bool)
      requires T().Valid()
      modifies this
      ensures T() == Refresh(old(T()), anime, existing, listing, |listing|) && T().Valid()
      ensures seen == PathsOf(listing)
      ensures changed <==> exists l | l in listing :: !(l.path in existing && Unchanged(existing[l.path], l))
    {
      hide Guess, Unchanged;
      seen, changed := {}, false;
      for k := 0 to |listing|
        invariant T() == Refresh(old(T()), anime, existing, listing, k) && T().Valid()
        invariant seen == PathsOf(listing[..k])
        invariant changed <==> exists i | 0 <= i < k :: !(listing[i].path in existing && Unchanged(existing[listing[i].path], listing[i]))
      {
        var l := listing[k];
        assert listing[..k + 1] == listing[..k] + [l];
        seen := seen + {l.path};
        if !(l.path in existing && Unchanged(existing[l.path], l)) {
          Upsert(anime, l.path, l.size, l.mtime, Guess(l.path.name));
          changed := true;
        }
      }
      assert listing[..|listing|] == listing;
    }

    /** The scan's second loop: the rows of files no longer there go, in some order. */
    method SweepGone(paths: set<Path>) returns (ghost gone: seq<Path>)
      requires T().Valid()
      modifies this
      ensures PathSet(gone) == paths
      ensures T() == Sweep(old(T()), gone, |gone|) && T().Valid()
    {
      gone := [];
      var left := paths;
      while left != {}
        invariant left + PathSet(gone) == paths
        invariant T() == Sweep(old(T()), gone, |gone|) && T().Valid()
        decreases left
      {
        var p :| p in left;
        SweepMore(old(T()), gone, p);
        DeleteByPath(p);
        gone := gone + [p];
        left := left - {p};
      }
    }

    /** The reconciliation in `_process_anime_dir`. Unchanged files are skipped; the
        outcome is the one a scan without that shortcut, on an empty table with the same
        overrides, would have. */
    method ProcessListing(anime: nat, listing: seq<Listed>, expected: seq<Expected>) returns (changed: bool)
      requires T().Valid() && DistinctPaths(listing) && Separate(T(), anime, listing)
      modifies this
      ensures T().Valid()
      ensures T().Of(anime) == Scanned(anime, listing, Overrides(old(T().Of(anime))), expected)
      ensures forall other | other != anime :: T().Of(other) == old(T().Of(other))
      ensures changed <==> Reports(old(T().Of(anime)), listing,
                IsLone(RowsFor(anime, listing, Overrides(old(T().Of(anime)))), expected))
    {
      hide Guess, IsLone, Scanned, Separate, Overrides, RowsFor, Refresh, Sweep, Catalog.AssignLone, Unchanged;
      ghost var t := T();
      var existing := ByPath(anime);
      var seen: set<Path>;
      seen, changed := RefreshListed(anime, existing, listing);
      var vanished := existing.Keys - seen;
      ghost var gone := SweepGone(vanished);
      if vanished != {} {
        changed := true;
      }
      ScanIsHistoryFree(t, anime, listing, gone, expected);
      forall other | other != anime
        ensures Catalog.AssignLone(T(), anime, expected).0.Valid() && Catalog.AssignLone(T(), anime, expected).0.Of(other) == t.Of(other)
      {
        ScanKeepsOthers(t, anime, listing, gone, expected, other);
      }
      var lone := AssignLone(anime, expected);
      if lone {
        changed := true;
      }
    }
  }
}
