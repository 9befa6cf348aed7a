/** Taking back a relocation of different episodes: whether it will leave a trace can be read
    off the disk before the first file has moved. */
module RollbackBeforehand {
  import opened Text
  import opened Numbering
  import opened Disk
  import opened Episodes
  import opened Rollback
  import opened RollbackExact

  // ------------------------------------------------------------ the condition

  /** An episode that is there, spelled as its row says; so are those of its companions that
      will go along; and nothing lies where it will land that could be taken for one. */
  predicate IsTidy(d: Disk, j: Job, leaving: set<Path>) {
    && d.Exists(j.src) && d.FileAt(j.src).name == j.src.name
    && Companionless(d, d.Dedupe(j.src, j.dest))
    && forall c | c in Companions(d, j.src) && d.Slot(c) in leaving :: Stem(j.src.name) <= c.name
  }

  predicate StartsTidy(d: Disk, jobs: seq<Job>, leaving: set<Path>) {
    forall k | 0 <= k < |jobs| :: IsTidy(d, jobs[k], leaving)
  }

  /** If it is so for all companions and episodes, it is for those that leave. */
  lemma TidyAnyhow(d: Disk, jobs: seq<Job>, n: nat, leaving: set<Path>)
    requires d.Valid() && n <= |jobs| && StartsTidy(d, jobs, d.files.Keys)
    ensures StartsTidy(d, jobs[..n], leaving)
  {
    hide Companionless, Disk.Dedupe, Stem, Companions, Spell, Disk.FileAt, Disk.Valid;
    forall k | 0 <= k < n ensures IsTidy(d, jobs[k], leaving) {
      forall c | c in Companions(d, jobs[k].src) && d.Slot(c) in leaving ensures Stem(jobs[k].src.name) <= c.name {
        CompanionIsThere(d, jobs[k].src, c);
      }
    }
  }

  lemma CompanionIsThere(d: Disk, src: Path, c: Path)
    requires c in Companions(d, src)
    ensures d.Valid() ==> d.Slot(c) in d.files && d.files[d.Slot(c)].name == c.name
    ensures c.dir == src.dir
  {
    hide Spell, IsCompanionName;
  }

  /** The names the episodes are sent to are no beginnings of one another. */
  predicate SentApart(jobs: seq<Job>) {
    forall i, j | 0 <= i < j < |jobs| :: Unrelated(Stem(jobs[i].dest.name), Stem(jobs[j].dest.name))
  }

  // ------------------------------------------------------------ where they land

  lemma LongerUnrelated(a: string, b: string, a': string, b': string)
    requires Unrelated(a, b) && a <= a' && b <= b'
    ensures Unrelated(a', b')
  {
    assert Lower(a')[..|a|] == Lower(a) && Lower(b')[..|b|] == Lower(b);
    if Lower(a') <= Lower(b') { PrefixesCompare(Lower(a), Lower(b), Lower(b')); }
    if Lower(b') <= Lower(a') { PrefixesCompare(Lower(a), Lower(b), Lower(a')); }
  }

  lemma LandsLonger(d: Disk, src: Path, dest: Path)
    requires Travels(src, dest)
    ensures Stem(dest.name) <= Stem(d.Dedupe(src, dest).name)
  {
    hide HasVideoExtension, Stem, Suffix, Spell, LowestFree;
    VideoHasExtension(src.name);
    SameKind(src.name, dest.name);
    VideoHasExtension(dest.name);
    if !d.IsFreeFor(src, dest) {
      var n := LowestFree(d.Occupied(src, dest.dir), d.foldCase, Stem(dest.name), Suffix(dest.name), 2);
      SplitBuilt(Stem(dest.name) + " (" + Decimal(n) + ")", Suffix(dest.name));
    }
  }

  lemma SentApartLandApart(d: Disk, jobs: seq<Job>, into: Dir, scripts: seq<Script>)
    requires Stopped(d, jobs, into, scripts) && SentApart(jobs)
    ensures LandedApart(Forward(d, jobs, scripts).1)
  {
    hide Stopped, Forward, Unrelated, Stem, Stage, Disk.Dedupe, MoveEpisode, Travels, Fits, Disk.Valid;
    StoppedIs(d, jobs, into, scripts);
    var moves := Forward(d, jobs, scripts).1;
    forall i, j | 0 <= i < j < |moves| ensures Unrelated(Stem(moves[i].dest.name), Stem(moves[j].dest.name)) {
      StageTurn(d, jobs, into, scripts, i);
      StageTurn(d, jobs, into, scripts, j);
      LandsLonger(Stage(d, jobs, scripts, i), jobs[i].src, jobs[i].dest);
      LandsLonger(Stage(d, jobs, scripts, j), jobs[j].src, jobs[j].dest);
      LongerUnrelated(Stem(jobs[i].dest.name), Stem(jobs[j].dest.name), Stem(moves[i].dest.name), Stem(moves[j].dest.name));
    }
  }

  /** No episode that has landed takes a name that another is sent to. */
  lemma SamePlaces(d: Disk, jobs: seq<Job>, into: Dir, scripts: seq<Script>, k: nat, name: string)
    requires Stopped(d, jobs, into, scripts) && SentApart(jobs) && k < |Forward(d, jobs, scripts).1|
    requires Stem(jobs[k].dest.name) <= name
    ensures Stage(d, jobs, scripts, k).Exists(Path(into, name)) <==> d.Exists(Path(into, name))
    ensures Stage(d, jobs, scripts, k).foldCase == d.foldCase
  {
    hide Stopped, Forward, Unrelated, Stem, Stage, Disk.Dedupe, MoveEpisode, Travels, Fits, Spell, LowestFree;
    StoppedIs(d, jobs, into, scripts);
    var now := Stage(d, jobs, scripts, k);
    StageOnward(d, jobs, into, scripts, k);
    var p := Path(into, name);
    if now.Exists(p) && !d.Exists(p) {
      var s := now.Slot(p);
      Arrivals(d, jobs, into, scripts, k, s);
      var j :| 0 <= j < k && Stem(Forward(d, jobs, scripts).1[j].dest.name) <= now.files[s].name;
      StageTurn(d, jobs, into, scripts, j);
      LandsLonger(Stage(d, jobs, scripts, j), jobs[j].src, jobs[j].dest);
      assert now.Slot(Path(s.dir, now.files[s].name)) == s;
      SameSlotSameFold(now, Path(s.dir, now.files[s].name), p);
      BothBegin(Stem(jobs[j].dest.name), Stem(jobs[k].dest.name), now.files[s].name, name);
    }
  }

  lemma BothBegin(a: string, b: string, x: string, y: string)
    requires a <= x && b <= y && Lower(x) == Lower(y)
    ensures !Unrelated(a, b)
  {
    assert Lower(x)[..|a|] == Lower(a) && Lower(y)[..|b|] == Lower(b);
    PrefixesCompare(Lower(a), Lower(b), Lower(x));
  }

  /** So each lands where it would have as the first. */
  lemma LandsAsFirst(d: Disk, jobs: seq<Job>, into: Dir, scripts: seq<Script>, k: nat)
    requires Stopped(d, jobs, into, scripts) && SentApart(jobs) && k < |Forward(d, jobs, scripts).1|
    ensures Stage(d, jobs, scripts, k).Dedupe(jobs[k].src, jobs[k].dest) == d.Dedupe(jobs[k].src, jobs[k].dest)
  {
    hide Stopped, Forward, Stem, Suffix, Stage, MoveEpisode, Fits, Spell, LowestFree, HasVideoExtension, Disk.Valid;
    StoppedIs(d, jobs, into, scripts);
    StageTurn(d, jobs, into, scripts, k);
    var now, src, dest := Stage(d, jobs, scripts, k), jobs[k].src, jobs[k].dest;
    NameBegins(dest.name);
    SamePlaces(d, jobs, into, scripts, k, dest.name);
    assert dest == Path(into, dest.name) && src.dir != into;
    SlotsElsewhere(now, src, dest);
    SlotsElsewhere(d, src, dest);
    if !d.IsFreeFor(src, dest) {
      forall n: nat
        ensures Spell(d.foldCase, Numbered(Stem(dest.name), n, Suffix(dest.name))) in now.Occupied(src, into)
          <==> Spell(d.foldCase, Numbered(Stem(dest.name), n, Suffix(dest.name))) in d.Occupied(src, into)
      {
        var to := Path(into, Numbered(Stem(dest.name), n, Suffix(dest.name)));
        NumberBegins(dest.name, n);
        SamePlaces(d, jobs, into, scripts, k, to.name);
        now.OccupiedIffNotFree(src, to);
        d.OccupiedIffNotFree(src, to);
        SlotsElsewhere(now, src, to);
        SlotsElsewhere(d, src, to);
      }
      var r := LowestFree(now.Occupied(src, into), d.foldCase, Stem(dest.name), Suffix(dest.name), 2);
      LowestFreeUnique(d.Occupied(src, into), d.foldCase, Stem(dest.name), Suffix(dest.name), 2, r);
    }
  }

  lemma SlotsElsewhere(d: Disk, src: Path, dest: Path)
    requires src.dir != dest.dir
    ensures d.Slot(src) != d.Slot(dest) && (d.IsFreeFor(src, dest) <==> !d.Exists(dest))
  {
    hide Spell;
  }

  lemma NameBegins(name: string)
    ensures Stem(name) <= name
  {
  }

  lemma NumberBegins(name: string, n: nat)
    ensures Stem(name) <= Numbered(Stem(name), n, Suffix(name))
  {
    hide Stem, Suffix;
  }

  // ------------------------------------------------------------ who took a file

  lemma {:induction false} CompanionsTake(d: Disk, src: Path, to: Path, cs: seq<CompanionMove>, s: Path)
    requires s in d.files && s !in MoveCompanions(d, src, to, cs).files
    ensures exists c :: c in Followers(d, src, to, cs) && d.Slot(c.path) == s
    decreases |cs|
  {
    hide MoveFile, Spell, Stem;
    if cs != [] {
      var dest := CompanionTarget(src, to, cs[0].path);
      var (d1, r) := MoveFile(d, cs[0].path, dest, cs[0].fates);
      if s in d1.files {
        CompanionsTake(d1, src, to, cs[1..], s);
        MoveFileOnlyLeaves(d, cs[0].path, dest, cs[0].fates);
        var c :| c in Followers(d1, src, to, cs[1..]) && d1.Slot(c.path) == s;
        assert c in Followers(d, src, to, cs) && d.Slot(c.path) == s;
      } else {
        if r.None? { MoveFailed(d, cs[0].path, dest, cs[0].fates); }
        if d.Slot(cs[0].path) != s { MoveNeverOverwrites(d, cs[0].path, dest, cs[0].fates, s); }
        assert cs[0] in Followers(d, src, to, cs);
      }
    }
  }

  lemma SameFoldSameSlot(d: Disk, d': Disk, p: Path)
    requires d'.foldCase == d.foldCase
    ensures d'.Slot(p) == d.Slot(p)
  {
  }

  /** What a successful move of an episode takes away is the video or one of the companions
      that go along. */
  lemma EpisodeTakes(d: Disk, src: Path, dest: Path, script: Script, s: Path)
    requires MoveEpisode(d, src, dest, script).1.Some? && s in d.files && s !in MoveEpisode(d, src, dest, script).0.files
    ensures s == d.Slot(src) || exists c :: c in Along(d, src, dest, script) && d.Slot(c.path) == s
  {
    hide MoveFile, Spell, Followers, MoveCompanions, Disk.Dedupe;
    MoveSucceeded(d, src, dest, script.video);
    var moved := MoveFile(d, src, dest, script.video).0;
    if s in moved.files {
      MoveFileOnlyLeaves(d, src, dest, script.video);
      assert moved.foldCase == d.foldCase;
      CompanionsTake(moved, src, d.Dedupe(src, dest), script.companions, s);
      assert exists c :: c in Along(d, src, dest, script) && moved.Slot(c.path) == s;
      var c :| c in Along(d, src, dest, script) && moved.Slot(c.path) == s;
      SameFoldSameSlot(d, moved, c.path);
    } else if d.Slot(src) != s {
      MoveNeverOverwrites(d, src, dest, script.video, s);
    }
  }

  /** A companion that is gone went along at somebody's turn. */
  lemma {:induction false} WentAlong(d: Disk, jobs: seq<Job>, into: Dir, scripts: seq<Script>, n: nat, c: Path) returns (k: nat)
    requires Stopped(d, jobs, into, scripts) && n <= |Forward(d, jobs, scripts).1|
    requires d.Slot(c) in d.files && d.files[d.Slot(c)].name == c.name && c.dir != into && !HasVideoExtension(c.name)
    requires d.Slot(c) !in Stage(d, jobs, scripts, n).files
    ensures k < n && c.dir == jobs[k].src.dir
    ensures exists m :: m in Along(Stage(d, jobs, scripts, k), jobs[k].src, jobs[k].dest, scripts[k]) && m.path == c
    decreases n
  {
    hide Stopped, Forward, Along, Fits, Disk.Dedupe, MoveEpisode, HasVideoExtension, Spell, Companions, Disk.Valid;
    StoppedIs(d, jobs, into, scripts);
    assert n > 0;
    var now, s := Stage(d, jobs, scripts, n - 1), d.Slot(c);
    var job, script := jobs[n - 1], scripts[n - 1];
    if s in now.files {
      StageTurn(d, jobs, into, scripts, n - 1);
      StageOnward(d, jobs, into, scripts, n - 1);
      EpisodeTakes(now, job.src, job.dest, script, s);
      assert now.files[s].name == c.name;
      NoVideoHere(now, job.src, c);
      var m :| m in Along(now, job.src, job.dest, script) && now.Slot(m.path) == s;
      AlongIsListed(now, job.src, job.dest, script, m);
      ListedCompanion(now, job.src, script, m);
      assert m.path == c;
      k := n - 1;
    } else {
      k := WentAlong(d, jobs, into, scripts, n - 1, c);
    }
  }

  lemma NoVideoHere(d: Disk, video: Path, c: Path)
    requires HasVideoExtension(video.name) && !HasVideoExtension(c.name)
    ensures d.Slot(video) != d.Slot(c)
  {
    hide HasVideoExtension;
    if d.Slot(video) == d.Slot(c) {
      SameSlotSameFold(d, video, c);
      FoldKeepsKind(video.name, c.name);
    }
  }

  // ------------------------------------------------------------ before and at each turn

  /** The files a relocation that stopped has moved away. */
  function Left(d: Disk, jobs: seq<Job>, scripts: seq<Script>): set<Path>
    requires |scripts| == |jobs|
  {
    d.files.Keys - Forward(d, jobs, scripts).0.files.Keys
  }

  lemma TidyMeansTraceless(d: Disk, jobs: seq<Job>, into: Dir, scripts: seq<Script>, k: nat)
    requires Stopped(d, jobs, into, scripts) && SentApart(jobs) && k < |Forward(d, jobs, scripts).1|
    requires StartsTidy(d, jobs[..|Forward(d, jobs, scripts).1|], Left(d, jobs, scripts))
    ensures var now := Stage(d, jobs, scripts, k); now.Exists(jobs[k].src) && LeavesNoTrace(now, jobs[k].src, jobs[k].dest, scripts[k])
  {
    hide Stopped, Forward, Stage, Along, Fits, Disk.Dedupe, MoveEpisode, HasVideoExtension, Spell, Companions, Disk.Valid, Stem, IsCompanionName, LandedApart, SentApart;
    StoppedIs(d, jobs, into, scripts);
    var now, src, dest := Stage(d, jobs, scripts, k), jobs[k].src, jobs[k].dest;
    var moves := Forward(d, jobs, scripts).1;
    assert jobs[..|moves|][k] == jobs[k] && IsTidy(d, jobs[k], Left(d, jobs, scripts));
    StageTurn(d, jobs, into, scripts, k);
    StageOnward(d, jobs, into, scripts, k);
    VideoIsGone(now, src, dest, scripts[k]);
    LandsAsFirst(d, jobs, into, scripts, k);
    SentApartLandApart(d, jobs, into, scripts);
    forall c | c in Along(now, src, dest, scripts[k]) ensures Stem(src.name) <= c.path.name {
      WasThere(d, jobs, into, scripts, k, c);
    }
    var to := d.Dedupe(src, dest);
    forall s | s in now.files && s.dir == to.dir ensures !IsCompanionName(to.name, now.files[s].name) {
      Arrivals(d, jobs, into, scripts, k, s);
      if !(s in d.files && d.files[s] == now.files[s]) && IsCompanionName(to.name, now.files[s].name) {
        var j :| 0 <= j < k && Stem(moves[j].dest.name) <= now.files[s].name;
        NotBoth(Stem(moves[j].dest.name), to.name, now.files[s].name);
        ApartAt(moves, j, k);
      }
    }
  }

  lemma ApartAt(moves: seq<Job>, j: nat, k: nat)
    requires LandedApart(moves) && j < k < |moves|
    ensures Unrelated(Stem(moves[j].dest.name), Stem(moves[k].dest.name))
  {
  }

  lemma TracelessMeansTidy(d: Disk, jobs: seq<Job>, into: Dir, scripts: seq<Script>, k: nat)
    requires Stopped(d, jobs, into, scripts) && SentApart(jobs) && k < |Forward(d, jobs, scripts).1|
    requires NoTraces(d, jobs, scripts) && KnowTheirVideo(d, Forward(d, jobs, scripts).1)
    ensures IsTidy(d, jobs[k], Left(d, jobs, scripts))
  {
    hide Stopped, Forward, Stage, Along, Fits, Disk.Dedupe, MoveEpisode, HasVideoExtension, Spell, Disk.Valid, Stem, IsCompanionName, SentApart, KnowTheirVideo, Companions;
    StoppedIs(d, jobs, into, scripts);
    var now, src, dest := Stage(d, jobs, scripts, k), jobs[k].src, jobs[k].dest;
    StageTurn(d, jobs, into, scripts, k);
    StageOnward(d, jobs, into, scripts, k);
    LandsAsFirst(d, jobs, into, scripts, k);
    LastStage(d, jobs, into, scripts);
    forall c | c in Companions(d, src) && d.Slot(c) in Left(d, jobs, scripts) ensures Stem(src.name) <= c.name {
      CompanionIsThere(d, src, c);
      CompanionIsNoVideo(d, src, c);
      var i := WentAlong(d, jobs, into, scripts, |Forward(d, jobs, scripts).1|, c);
      var m :| m in Along(Stage(d, jobs, scripts, i), jobs[i].src, jobs[i].dest, scripts[i]) && m.path == c;
      MovedFrom(d, jobs, into, scripts, i);
      MovedFrom(d, jobs, into, scripts, k);
      KnowsAt(d, Forward(d, jobs, scripts).1, k, i, c);
    }
  }

  lemma CompanionIsNoVideo(d: Disk, src: Path, c: Path)
    requires c in Companions(d, src)
    ensures !HasVideoExtension(c.name)
  {
    hide HasVideoExtension, Lower, Stem;
  }

  lemma KnowsAt(d: Disk, moves: seq<Job>, i: nat, j: nat, c: Path)
    requires KnowTheirVideo(d, moves) && i < |moves| && j < |moves| && c in Companions(d, moves[i].src)
    requires moves[i].src.dir == moves[j].src.dir && Stem(moves[j].src.name) <= c.name
    ensures Stem(moves[i].src.name) <= c.name
  {
    hide Companions, Stem;
  }

  /** The condition on the disk before the call is the one on each turn. */
  lemma TracelessIffTidy(d: Disk, jobs: seq<Job>, into: Dir, scripts: seq<Script>)
    requires Stopped(d, jobs, into, scripts) && SentApart(jobs) && KnowTheirVideo(d, Forward(d, jobs, scripts).1)
    ensures |scripts| == |jobs|
    ensures NoTraces(d, jobs, scripts) <==> StartsTidy(d, jobs[..|Forward(d, jobs, scripts).1|], Left(d, jobs, scripts))
  {
    hide Stopped, Forward, Stage, Disk.Dedupe, Spell, Stem, IsCompanionName, SentApart, KnowTheirVideo, Companions, Left, LeavesNoTrace, Companionless, IsTidy;
    StoppedIs(d, jobs, into, scripts);
    var n := |Forward(d, jobs, scripts).1|;
    if StartsTidy(d, jobs[..n], Left(d, jobs, scripts)) {
      forall k | 0 <= k < n ensures Stage(d, jobs, scripts, k).Exists(jobs[k].src) && LeavesNoTrace(Stage(d, jobs, scripts, k), jobs[k].src, jobs[k].dest, scripts[k]) {
        TidyMeansTraceless(d, jobs, into, scripts, k);
      }
    }
    if NoTraces(d, jobs, scripts) {
      forall k | 0 <= k < n ensures IsTidy(d, jobs[k], Left(d, jobs, scripts)) { TracelessMeansTidy(d, jobs, into, scripts, k); }
    }
  }
}
