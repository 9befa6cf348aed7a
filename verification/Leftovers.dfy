/** What is left under an anime's directory when its episodes have moved to another: it goes
    along, each file to the same place below the new directory, or stays where it is. */
module Leftovers {
  import opened Text
  import opened Numbering
  import opened Disk
  import opened Episodes
  import opened Rollback
  import opened RenamePlan
  import opened Naming
  import opened Library
  import opened LibraryInvariant
  import opened LibrarySafety

  /** The answers of the operating system that let a file of that size go to another
      directory. */
  predicate Willing(f: Fates, size: nat) {
    f.mkdir && (f.rename.Renamed? || (f.rename.OtherDevice? && f.copy.Returned? && f.copy.length >= size && f.stat && f.dropSource))
  }

  /** A walk over a directory: files that are there, as spelled, each once. */
  ghost predicate Walked(d: Disk, from: Dir, leftovers: seq<CompanionMove>) {
    && (forall c | c in leftovers :: from <= c.path.dir && d.Exists(c.path) && d.FileAt(c.path).name == c.path.name)
    && (forall i, j | 0 <= i < j < |leftovers| :: leftovers[i].path != leftovers[j].path)
  }

  /** The slots of the files that can go. */
  function Going(d: Disk, leftovers: seq<CompanionMove>): set<Path>
    requires forall c | c in leftovers :: d.Exists(c.path)
  {
    set c | c in leftovers && Willing(c.fates, |d.FileAt(c.path).content|) :: d.Slot(c.path)
  }

  /** The name itself, or with a number before its suffix. */
  ghost predicate IsNumberedOr(name: string, base: string) {
    name == base || exists n | n >= 2 :: name == Numbered(Stem(base), n, Suffix(base))
  }

  /** Where each of the files has gone: to the place below `to` that it had below `from`,
      under its own name or a number of it, next to whatever was there. */
  ghost predicate WentTo(d: Disk, d': Disk, from: Dir, to: Dir, places: map<Path, Path>) {
    && (forall s | s in places :: s in d.files && from <= s.dir && s !in d'.files)
    && (forall s | s in places ::
          && places[s] in d'.files && places[s] !in d.files && places[s].dir == to + s.dir[|from|..]
          && d'.files[places[s]] == d.files[s].(name := d'.files[places[s]].name)
          && IsNumberedOr(d'.files[places[s]].name, d.files[s].name))
    && (forall s, t | s in places && t in places && places[s] == places[t] :: s == t)
    && (forall s | s in d.files && s !in places :: s in d'.files && d'.files[s] == d.files[s])
  }

  lemma NobodyGoes(d: Disk, from: Dir, to: Dir)
    ensures WentTo(d, d, from, to, map[])
  {
  }

  lemma LandsOutside(from: Dir, to: Dir, dir: Dir)
    requires Apart(from, to) && from <= dir
    ensures to <= Rebase(from, to, dir) && !(from <= Rebase(from, to, dir)) && Rebase(from, to, dir) == to + dir[|from|..]
  {
    var moved := Rebase(from, to, dir);
    if from <= moved { PrefixesCompare(from, to, moved); }
  }

  lemma MovesIffWilling(d: Disk, c: CompanionMove, dest: Path)
    requires d.Exists(c.path) && dest.dir != c.path.dir
    ensures MoveFile(d, c.path, dest, c.fates).1.Some? <==> Willing(c.fates, |d.FileAt(c.path).content|)
  {
    hide MoveFile, Spell, LowestFree, Numbered, Stem, Suffix;
    MoveSucceedsIff(d, c.path, dest, c.fates);
  }

  /** One file's turn. */
  ghost predicate Turned(d: Disk, d1: Disk, c: CompanionMove, to: Dir, r: Option<Path>) {
    && d1.foldCase == d.foldCase
    && (r.None? ==> forall s | s in d.files :: s in d1.files && d1.files[s] == d.files[s])
    && (r.None? ==> forall s | s in d1.files && s !in d.files :: s.dir == to)
    && (r.Some? ==>
          && r.value.dir == to && d.Slot(r.value) !in d.files && d.Exists(c.path)
          && d1.files == (d.files - {d.Slot(c.path)})[d.Slot(r.value) := d.FileAt(c.path).(name := r.value.name)])
  }

  lemma OneTurn(d: Disk, c: CompanionMove, dest: Path)
    requires dest.dir != c.path.dir
    ensures Turned(d, MoveFile(d, c.path, dest, c.fates).0, c, dest.dir, MoveFile(d, c.path, dest, c.fates).1)
    ensures MoveFile(d, c.path, dest, c.fates).1.Some? ==> IsNumberedOr(MoveFile(d, c.path, dest, c.fates).1.value.name, dest.name)
  {
    hide MoveFile, Spell, LowestFree, Numbered, Stem, Suffix;
    if MoveFile(d, c.path, dest, c.fates).1.Some? {
      MoveSucceeded(d, c.path, dest, c.fates);
      DedupeIsLowest(d, c.path, dest);
    } else {
      MoveFailed(d, c.path, dest, c.fates);
    }
  }

  lemma RestWalked(d: Disk, d1: Disk, from: Dir, to: Dir, leftovers: seq<CompanionMove>, r: Option<Path>)
    requires leftovers != [] && Walked(d, from, leftovers) && Turned(d, d1, leftovers[0], to, r)
    ensures Walked(d1, from, leftovers[1..])
    ensures forall c | c in leftovers[1..] :: d.Exists(c.path) && d.Slot(c.path) != d.Slot(leftovers[0].path)
    ensures forall c | c in leftovers[1..] :: d1.Slot(c.path) == d.Slot(c.path) && d1.FileAt(c.path) == d.FileAt(c.path)
  {
    hide Spell;
    forall c | c in leftovers[1..]
      ensures d.Exists(c.path) && d.Slot(c.path) != d.Slot(leftovers[0].path) && d1.Slot(c.path) == d.Slot(c.path)
      ensures d1.Exists(c.path) && d1.FileAt(c.path) == d.FileAt(c.path)
    {
      var k :| 0 <= k < |leftovers[1..]| && leftovers[1..][k] == c;
      assert c == leftovers[k + 1] && c.path != leftovers[0].path;
      assert leftovers[0] in leftovers && c in leftovers;
      if d.Slot(c.path) == d.Slot(leftovers[0].path) { SameFile(d, c.path, leftovers[0].path); }
    }
  }

  lemma SameFile(d: Disk, p: Path, q: Path)
    requires d.Slot(p) == d.Slot(q) && d.Exists(p) && d.FileAt(p).name == p.name && d.Exists(q) && d.FileAt(q).name == q.name
    ensures p == q
  {
  }

  lemma RestGoing(d: Disk, d1: Disk, leftovers: seq<CompanionMove>)
    requires leftovers != [] && forall c | c in leftovers :: d.Exists(c.path)
    requires forall c | c in leftovers[1..] :: d1.Exists(c.path) && d1.Slot(c.path) == d.Slot(c.path) && d1.FileAt(c.path) == d.FileAt(c.path)
    ensures
      var first := leftovers[0];
      Going(d, leftovers) == Going(d1, leftovers[1..]) + if Willing(first.fates, |d.FileAt(first.path).content|) then {d.Slot(first.path)} else {}
  {
    hide Willing, Disk.Slot, Disk.FileAt, Disk.Exists;
    assert leftovers == [leftovers[0]] + leftovers[1..];
  }

  /** Going through them one after another, each file that can be moved goes to its place
      below the new directory and every other stays. */
  lemma {:induction false} LeftoversGo(d: Disk, from: Dir, to: Dir, leftovers: seq<CompanionMove>) returns (places: map<Path, Path>)
    requires d.Valid() && Apart(from, to) && Walked(d, from, leftovers)
    ensures WentTo(d, MoveLeftovers(d, from, to, leftovers), from, to, places)
    ensures places.Keys == Going(d, leftovers)
    ensures forall s | s in MoveLeftovers(d, from, to, leftovers).files && s !in d.files :: to <= s.dir
    decreases |leftovers|
  {
    hide MoveFile, Spell, Going, Walked, Turned, WentTo, IsNumberedOr, Apart, Disk.Valid;
    WalkedExist(d, from, leftovers);
    if leftovers == [] {
      places := map[];
      NobodyGoes(d, from, to);
      NoneGoing(d);
    } else {
      var c := leftovers[0];
      assert c in leftovers;
      LandsOutside(from, to, c.path.dir);
      var dest := Path(Rebase(from, to, c.path.dir), c.path.name);
      var (d1, r) := MoveFile(d, c.path, dest, c.fates);
      MovesIffWilling(d, c, dest);
      OneTurn(d, c, dest);
      MoveKeepsValid(d, c.path, dest, c.fates);
      RestWalked(d, d1, from, dest.dir, leftovers, r);
      WalkedExist(d1, from, leftovers[1..]);
      RestGoing(d, d1, leftovers);
      var rest := LeftoversGo(d1, from, to, leftovers[1..]);
      GoingAreBelow(d1, from, leftovers[1..]);
      var d' := MoveLeftovers(d1, from, to, leftovers[1..]);
      if r.Some? {
        places := rest[d.Slot(c.path) := d.Slot(r.value)];
        OneMoreGoes(d, d1, d', from, to, c, r.value, rest);
      } else {
        places := rest;
        OneStays(d, d1, d', from, to, dest.dir, c, rest);
      }
      ComesBelow(d, d1, c, dest.dir, to, r);
    }
  }

  lemma ComesBelow(d: Disk, d1: Disk, c: CompanionMove, dir: Dir, to: Dir, r: Option<Path>)
    requires Turned(d, d1, c, dir, r) && to <= dir
    ensures forall s | s in d1.files && s !in d.files :: to <= s.dir
  {
    hide Spell;
  }

  lemma NoneGoing(d: Disk)
    ensures Going(d, []) == {}
  {
  }

  lemma WalkedExist(d: Disk, from: Dir, leftovers: seq<CompanionMove>)
    requires Walked(d, from, leftovers)
    ensures forall c | c in leftovers :: from <= c.path.dir && d.Exists(c.path) && d.FileAt(c.path).name == c.path.name
  {
  }

  lemma GoingAreBelow(d: Disk, from: Dir, leftovers: seq<CompanionMove>)
    requires forall c | c in leftovers :: from <= c.path.dir && d.Exists(c.path)
    ensures forall s | s in Going(d, leftovers) :: from <= s.dir && s in d.files
  {
    hide Spell;
  }

  lemma OneStays(d: Disk, d1: Disk, d': Disk, from: Dir, to: Dir, dir: Dir, c: CompanionMove, places: map<Path, Path>)
    requires Turned(d, d1, c, dir, None) && WentTo(d1, d', from, to, places) && !(from <= dir)
    ensures WentTo(d, d', from, to, places)
  {
    hide Spell, IsNumberedOr;
    forall s | s in places ensures s in d.files && d1.files[s] == d.files[s] {}
  }

  lemma OneMoreGoes(d: Disk, d1: Disk, d': Disk, from: Dir, to: Dir, c: CompanionMove, at: Path, rest: map<Path, Path>)
    requires Apart(from, to) && from <= c.path.dir && d.Exists(c.path) && d.FileAt(c.path).name == c.path.name
    requires Turned(d, d1, c, Rebase(from, to, c.path.dir), Some(at)) && IsNumberedOr(at.name, c.path.name)
    requires WentTo(d1, d', from, to, rest) && forall s | s in d'.files && s !in d1.files :: to <= s.dir
    ensures WentTo(d, d', from, to, rest[d.Slot(c.path) := d.Slot(at)])
  {
    hide Spell, IsNumberedOr;
    var s0, q0 := d.Slot(c.path), d.Slot(at);
    LandsOutside(from, to, c.path.dir);
    assert s0.dir == c.path.dir && q0.dir == at.dir;
    assert s0 !in d1.files && q0 in d1.files && d1.files[q0] == d.files[s0].(name := at.name);
    assert q0 !in rest && d'.files[q0] == d1.files[q0];
    if to <= s0.dir { PrefixesCompare(from, to, s0.dir); }
    assert s0 !in d'.files;
    forall s | s in rest ensures s in d.files && d1.files[s] == d.files[s] && s != s0 && rest[s] != q0 && rest[s] !in d.files {
      if rest[s] == s0 { PrefixesCompare(from, to, s0.dir); }
    }
  }

  // ------------------------------------------------------------ the whole relocation

  /** The disk once a relocation's files have moved and the rows are following. */
  function Moved(w: World, source: nat, folder: nat, tasks: seq<Task>, turns: nat -> Turn): Disk
    requires source in w.animes && folder in w.folders
  {
    Halfway(w, source, folder, tasks, turns).0
  }

  lemma {:induction false} ForwardValid(d: Disk, jobs: seq<Job>, scripts: seq<Script>)
    requires d.Valid() && |scripts| == |jobs|
    ensures Forward(d, jobs, scripts).0.Valid()
    decreases |jobs|
  {
    hide MoveEpisode, Disk.Valid;
    if jobs != [] {
      EpisodeOnlyLeaves(d, jobs[0].src, jobs[0].dest, scripts[0]);
      if MoveEpisode(d, jobs[0].src, jobs[0].dest, scripts[0]).1.Some? {
        ForwardValid(MoveEpisode(d, jobs[0].src, jobs[0].dest, scripts[0]).0, jobs[1..], scripts[1..]);
      }
    }
  }

  /** A relocation that has gone through has taken along what was left: each file the walk
      over the old directory came upon and the operating system let go is at the same place
      below the new one, under its own name or a number of it; every other file is where it
      was. */
  lemma RelocationTakesAlong(w: World, source: nat, folder: nat, tasks: seq<Task>, turns: nat -> Turn, back: nat -> Turn, leftovers: seq<CompanionMove>)
    returns (places: map<Path, Path>)
    requires w.disk.Valid() && source in w.animes && folder in w.folders && Apart(w.animes[source].dir, NewDir(w, source, folder))
    requires Relocate(w, source, folder, tasks, turns, back, leftovers).1 == Done
    requires Walked(Moved(w, source, folder, tasks, turns), w.animes[source].dir, leftovers)
    ensures
      var w' := Relocate(w, source, folder, tasks, turns, back, leftovers).0;
      var moved := Moved(w, source, folder, tasks, turns);
      && source in w'.animes && w'.animes[source].folder == folder
      && w'.animes[source].dir == w.folders[folder] + [Sanitize(w.animes[source].folderTitle)]
      && WentTo(moved, w'.disk, w.animes[source].dir, w'.animes[source].dir, places)
      && (forall c | c in leftovers :: moved.Exists(c.path)) && places.Keys == Going(moved, leftovers)
      && forall s | s in w'.disk.files && s !in moved.files :: w'.animes[source].dir <= s.dir
  {
    hide Forward, Back, RecordMoves, MoveLeftovers, WentTo, Walked, Going, Jobs, Disk.Valid;
    var dir := NewDir(w, source, folder);
    var jobs := Jobs(dir, w.animes[source].folderTitle, tasks);
    ForwardValid(w.disk, jobs, Scripts(turns, |tasks|));
    var (disk, moves, all) := Forward(w.disk, jobs, Scripts(turns, |tasks|));
    RecordKeepsDisk(w.(disk := disk), source, moves, tasks, turns, 0);
    WalkedExist(disk, w.animes[source].dir, leftovers);
    places := LeftoversGo(disk, w.animes[source].dir, dir, leftovers);
  }

  /** The walk came upon every file that was left, and all of them can go. */
  ghost predicate AllGo(d: Disk, from: Dir, leftovers: seq<CompanionMove>) {
    && Walked(d, from, leftovers)
    && (forall c | c in leftovers :: Willing(c.fates, |d.FileAt(c.path).content|))
    && (forall s | s in d.files && from <= s.dir :: exists c :: c in leftovers && d.Slot(c.path) == s)
  }

  /** Then a sort that has gone through, into a folder that did not have the anime yet,
      leaves no file under the old directory; and each that was still there is at the same
      place below the new one. */
  lemma NothingStaysBehind(w: World, source: nat, folder: nat, env: SortEnv) returns (places: map<Path, Path>)
    requires Inv(w) && (forall i | i in env.ids :: i in w.table.rows) && folder in w.folders
    requires source in w.animes && w.animes[source].anidb.Some? && Twins(w, w.animes[source].anidb.value, folder) == {}
    requires Apart(w.animes[source].dir, w.folders[folder] + [Sanitize(w.animes[source].folderTitle)])
    requires SortAnime(w, source, folder, env).1 == Done
    requires AllGo(Moved(w, source, folder, Tasks(w.table.rows, env.ids, w.animes[source].expected), env.turns), w.animes[source].dir, env.leftovers)
    ensures
      var w' := SortAnime(w, source, folder, env).0;
      var moved := Moved(w, source, folder, Tasks(w.table.rows, env.ids, w.animes[source].expected), env.turns);
      var home := w.animes[source].dir;
      && (forall s | s in w'.disk.files :: !(home <= s.dir))
      && source in w'.animes && w'.animes[source].dir == w.folders[folder] + [Sanitize(w.animes[source].folderTitle)]
      && WentTo(moved, w'.disk, home, w'.animes[source].dir, places)
      && forall s | s in moved.files :: s in places <==> home <= s.dir
  {
    hide Inv, Tasks, Relocate, WentTo, Moved, Sanitize, Walked, Willing, Twins;
    var tasks := Tasks(w.table.rows, env.ids, w.animes[source].expected);
    InvIsValid(w);
    places := RelocationTakesAlong(w, source, folder, tasks, env.turns, env.back, env.leftovers);
    var w' := SortAnime(w, source, folder, env).0;
    var home, moved := w.animes[source].dir, Moved(w, source, folder, tasks, env.turns);
    AllAreGoing(moved, home, env.leftovers);
    NoneLeft(moved, w'.disk, home, w'.animes[source].dir, places);
  }

  lemma NoneLeft(d: Disk, d': Disk, from: Dir, to: Dir, places: map<Path, Path>)
    requires Apart(from, to) && WentTo(d, d', from, to, places)
    requires forall s | s in d.files && from <= s.dir :: s in places
    requires forall s | s in d'.files && s !in d.files :: to <= s.dir
    ensures forall s | s in d'.files :: !(from <= s.dir)
  {
    hide IsNumberedOr;
    forall s | s in d'.files ensures !(from <= s.dir) {
      if from <= s.dir && s !in d.files { PrefixesCompare(from, to, s.dir); }
    }
  }

  lemma AllAreGoing(d: Disk, from: Dir, leftovers: seq<CompanionMove>)
    requires AllGo(d, from, leftovers)
    ensures forall c | c in leftovers :: d.Exists(c.path)
    ensures forall s | s in d.files :: s in Going(d, leftovers) <==> from <= s.dir
  {
    hide Spell, Willing, Disk.FileAt;
  }
}
