/** Exactly when taking back a relocation that stopped half-way leaves no trace of it: a
    condition on each of the episodes that had moved, at its turn. */
module RollbackExact {
  import opened Text
  import opened Numbering
  import opened Disk
  import opened Episodes
  import opened Rollback
  import opened LibraryInvariant
  import opened RelocationInvariant

  // ------------------------------------------------------------ the way out, turn by turn

  /** The disk when the `k`-th episode's turn comes. */
  function Stage(d: Disk, jobs: seq<Job>, scripts: seq<Script>, k: nat): Disk
    requires |scripts| == |jobs| && k <= |jobs|
    decreases |jobs|
  {
    if k == 0 then d else Stage(MoveEpisode(d, jobs[0].src, jobs[0].dest, scripts[0]).0, jobs[1..], scripts[1..], k - 1)
  }

  /** Every episode that moves travels, at its turn, without a trace. */
  ghost predicate NoTraces(d: Disk, jobs: seq<Job>, scripts: seq<Script>)
    requires |scripts| == |jobs|
  {
    NoTracesTo(d, jobs, scripts, |Forward(d, jobs, scripts).1|)
  }

  ghost predicate NoTracesTo(d: Disk, jobs: seq<Job>, scripts: seq<Script>, n: nat)
    requires |scripts| == |jobs| && n <= |jobs|
  {
    forall k | 0 <= k < n ::
      && Stage(d, jobs, scripts, k).Exists(jobs[k].src)
      && LeavesNoTrace(Stage(d, jobs, scripts, k), jobs[k].src, jobs[k].dest, scripts[k])
  }

  /** Videos on their way into one directory. */
  predicate AllTravel(jobs: seq<Job>, into: Dir) {
    forall j | j in jobs :: Travels(j.src, j.dest) && j.dest.dir == into
  }

  lemma RestTravels(jobs: seq<Job>, into: Dir)
    requires jobs != [] && AllTravel(jobs, into)
    ensures AllTravel(jobs[1..], into) && Travels(jobs[0].src, jobs[0].dest) && jobs[0].dest.dir == into
  {
    hide Travels;
    assert jobs[0] in jobs;
  }

  lemma ForwardStep(d: Disk, jobs: seq<Job>, scripts: seq<Script>)
    requires |scripts| == |jobs| && jobs != [] && MoveEpisode(d, jobs[0].src, jobs[0].dest, scripts[0]).1.Some?
    ensures
      var d1 := MoveEpisode(d, jobs[0].src, jobs[0].dest, scripts[0]).0;
      && Forward(d, jobs, scripts).0 == Forward(d1, jobs[1..], scripts[1..]).0
      && Forward(d, jobs, scripts).1 == [Job(jobs[0].src, d.Dedupe(jobs[0].src, jobs[0].dest))] + Forward(d1, jobs[1..], scripts[1..]).1
  {
    hide MoveEpisode, Disk.Dedupe;
    LandsAt(d, jobs[0].src, jobs[0].dest, scripts[0]);
  }

  lemma NoTracesFirst(d: Disk, jobs: seq<Job>, scripts: seq<Script>)
    requires |scripts| == |jobs| && jobs != [] && MoveEpisode(d, jobs[0].src, jobs[0].dest, scripts[0]).1.Some?
    requires NoTraces(d, jobs, scripts)
    ensures d.Exists(jobs[0].src) && LeavesNoTrace(d, jobs[0].src, jobs[0].dest, scripts[0])
    ensures NoTraces(MoveEpisode(d, jobs[0].src, jobs[0].dest, scripts[0]).0, jobs[1..], scripts[1..])
  {
    hide MoveEpisode, LeavesNoTrace, Disk.Exists, Disk.Dedupe;
    var d1 := MoveEpisode(d, jobs[0].src, jobs[0].dest, scripts[0]).0;
    ForwardStep(d, jobs, scripts);
    assert Stage(d, jobs, scripts, 0) == d;
    forall k | 0 <= k < |Forward(d1, jobs[1..], scripts[1..]).1|
      ensures
        && Stage(d1, jobs[1..], scripts[1..], k).Exists(jobs[1..][k].src)
        && LeavesNoTrace(Stage(d1, jobs[1..], scripts[1..], k), jobs[1..][k].src, jobs[1..][k].dest, scripts[1..][k])
    {
      assert Stage(d, jobs, scripts, k + 1) == Stage(d1, jobs[1..], scripts[1..], k);
      assert jobs[k + 1] == jobs[1..][k] && scripts[k + 1] == scripts[1..][k];
    }
  }

  /** The condition suffices, whatever the new names have in common. */
  lemma {:induction false} NoTracesComesBack(d: Disk, jobs: seq<Job>, into: Dir, scripts: seq<Script>, back: seq<Script>)
    requires d.Valid() && |scripts| == |jobs| && AllTravel(jobs, into) && ForwardFits(d, jobs, scripts)
    requires !Forward(d, jobs, scripts).2 && |back| == |Forward(d, jobs, scripts).1|
    requires BackGoesThrough(Forward(d, jobs, scripts).0, Forward(d, jobs, scripts).1, back)
    requires NoTraces(d, jobs, scripts)
    ensures Back(Forward(d, jobs, scripts).0, Forward(d, jobs, scripts).1, back) == d
    decreases |jobs|
  {
    hide MoveEpisode, Fits, Tidy, AllTidy, GoesThrough, Travels, LeavesNoTrace, NoTraces, AllTravel, Disk.Dedupe, Disk.Exists;
    var j, script := jobs[0], scripts[0];
    var (d1, r) := MoveEpisode(d, j.src, j.dest, script);
    RestTravels(jobs, into);
    if r.None? {
      FailedEpisode(d, j.src, j.dest, script);
    } else {
      EpisodeOnlyLeaves(d, j.src, j.dest, script);
      NoTracesFirst(d, jobs, scripts);
      ForwardStep(d, jobs, scripts);
      LandsAt(d, j.src, j.dest, script);
      assert Forward(d, jobs, scripts).1[1..] == Forward(d1, jobs[1..], scripts[1..]).1;
      NoTracesComesBack(d1, jobs[1..], into, scripts[1..], back[1..]);
      ComesBack(d, j.src, j.dest, script, back[0]);
    }
  }

  // ------------------------------------------------------------ what the way back brings

  lemma BackReturnsToo(d: Disk, moves: seq<Job>, back: seq<Script>)
    requires |back| == |moves| && BackGoesThrough(d, moves, back)
    ensures BackReturns(d, moves, back)
    decreases |moves|
  {
    hide GoesThrough, MoveEpisode, Fits;
    if moves != [] {
      BackReturnsToo(d, moves[1..], back[1..]);
      GoingThrough(Back(d, moves[1..], back[1..]), moves[0].dest, moves[0].src, back[0]);
    }
  }

  /** The last one to come back finds its place free, and is there afterwards. */
  lemma LastComesHome(d: Disk, moves: seq<Job>, into: Dir, back: seq<Script>)
    requires d.Valid() && |back| == |moves| && moves != [] && Returnable(d, moves, into) && BackGoesThrough(d, moves, back)
    ensures
      var e1, e, m := Back(d, moves[1..], back[1..]), Back(d, moves, back), moves[0];
      && e1.Valid() && e.Valid() && e1.foldCase == e.foldCase == d.foldCase && !e1.Exists(m.src)
      && HasVideoExtension(m.src.name) && m.src.dir != into && m.dest.dir == into
      && GoesThrough(e1, m.dest, m.src, back[0]) && Fits(e1, m.dest, back[0])
      && MoveEpisode(e1, m.dest, m.src, back[0]) == (e, Some(m.src))
      && e.Exists(m.src) && e.FileAt(m.src).name == m.src.name
      && OnlyLeaves(e1, e, m.src.dir)
  {
    hide IsEpisodeName, Spell, Videos, HasVideoExtension, MoveEpisode, Returnable, HaveReturned, Fits, GoesThrough, OnlyLeaves, Disk.Valid, BackReturns;
    var m := moves[0];
    var e1 := Back(d, moves[1..], back[1..]);
    BackReturnsToo(d, moves[1..], back[1..]);
    RestReturnable(d, moves, into);
    BackVideos(d, moves[1..], back[1..], into);
    ReturnedFolds(d, e1, moves[1..]);
    PlaceIsFree(d, e1, moves, into);
    EpisodeName(m.src.name);
    FreeIfNoVideo(e1, m.src);
    GoingThrough(e1, m.dest, m.src, back[0]);
    ReturnedToSource(e1, m.dest, m.src, back[0]);
    EpisodeOnlyLeaves(e1, m.dest, m.src, back[0]);
  }

  lemma ReturnedFolds(d: Disk, d': Disk, moves: seq<Job>)
    requires HaveReturned(d, d', moves)
    ensures d'.foldCase == d.foldCase
  {
  }

  /** Each video is back under the name it is called by. */
  ghost predicate VideosHome(d: Disk, moves: seq<Job>) {
    forall i | 0 <= i < |moves| :: d.Exists(moves[i].src) && d.FileAt(moves[i].src).name == moves[i].src.name
  }

  lemma {:induction false} VideosComeHome(d: Disk, moves: seq<Job>, into: Dir, back: seq<Script>)
    requires d.Valid() && |back| == |moves| && Returnable(d, moves, into) && BackGoesThrough(d, moves, back)
    ensures VideosHome(Back(d, moves, back), moves)
    decreases |moves|
  {
    hide IsEpisodeName, Spell, Videos, HasVideoExtension, MoveEpisode, Returnable, Fits, GoesThrough, OnlyLeaves, Disk.Valid;
    if moves != [] {
      var e1, e, m := Back(d, moves[1..], back[1..]), Back(d, moves, back), moves[0];
      LastComesHome(d, moves, into, back);
      RestReturnable(d, moves, into);
      VideosComeHome(d, moves[1..], into, back[1..]);
      forall i | 1 <= i < |moves| ensures e.Exists(moves[i].src) && e.FileAt(moves[i].src).name == moves[i].src.name {
        assert moves[i] == moves[1..][i - 1];
        SourceDirs(d, moves, into, i);
        EpisodeSpares(e1, m.dest, m.src, back[0], e1.Slot(moves[i].src));
      }
    }
  }

  lemma SourceDirs(d: Disk, moves: seq<Job>, into: Dir, i: nat)
    requires Returnable(d, moves, into) && i < |moves|
    ensures moves[i].src.dir != into && moves[i].dest.dir == into && HasVideoExtension(moves[i].dest.name)
  {
    hide HasVideoExtension;
    assert moves[i] in moves;
  }

  /** A file in the directory everything left for, after the way back, was there before it. */
  lemma {:induction false} NothingEntersInto(d: Disk, moves: seq<Job>, into: Dir, back: seq<Script>, s: Path)
    requires d.Valid() && |back| == |moves| && Returnable(d, moves, into) && BackGoesThrough(d, moves, back)
    requires s in Back(d, moves, back).files && s.dir == into
    ensures s in d.files && d.files[s] == Back(d, moves, back).files[s]
    decreases |moves|
  {
    hide IsEpisodeName, Spell, Videos, HasVideoExtension, MoveEpisode, Returnable, Fits, GoesThrough, Disk.Valid;
    if moves != [] {
      LastComesHome(d, moves, into, back);
      RestReturnable(d, moves, into);
      NothingEntersInto(d, moves[1..], into, back[1..], s);
    }
  }

  /** The file was there before the way back, or is spelled with the stem of one of the
      videos of its directory that came back. */
  ghost predicate EnteredSpelled(d: Disk, e: Disk, moves: seq<Job>, s: Path)
    requires s in e.files
  {
    || (s in d.files && d.files[s] == e.files[s])
    || exists j | 0 <= j < |moves| :: s.dir == moves[j].src.dir && Stem(moves[j].src.name) <= e.files[s].name
  }

  lemma {:induction false} BackEntersSpelled(d: Disk, moves: seq<Job>, into: Dir, back: seq<Script>, s: Path)
    requires d.Valid() && |back| == |moves| && Returnable(d, moves, into) && BackGoesThrough(d, moves, back)
    requires s in Back(d, moves, back).files && s.dir != into
    ensures EnteredSpelled(d, Back(d, moves, back), moves, s)
    decreases |moves|
  {
    hide IsEpisodeName, Spell, Videos, HasVideoExtension, MoveEpisode, Returnable, Fits, GoesThrough, Disk.Valid, Stem;
    if moves != [] {
      var e1, e, m := Back(d, moves[1..], back[1..]), Back(d, moves, back), moves[0];
      LastComesHome(d, moves, into, back);
      RestReturnable(d, moves, into);
      EpisodeEntersSpelled(e1, m.dest, m.src, back[0]);
      if s in e1.files && e1.files[s] == e.files[s] {
        BackEntersSpelled(d, moves[1..], into, back[1..], s);
        EnteredEarlier(d, e1, e, moves, s);
      } else {
        assert s.dir == m.src.dir && Stem(moves[0].src.name) <= e.files[s].name;
      }
    }
  }

  lemma EnteredEarlier(d: Disk, e1: Disk, e: Disk, moves: seq<Job>, s: Path)
    requires moves != [] && s in e1.files && s in e.files && e1.files[s] == e.files[s] && EnteredSpelled(d, e1, moves[1..], s)
    ensures EnteredSpelled(d, e, moves, s)
  {
    hide Stem;
    if !(s in d.files && d.files[s] == e.files[s]) {
      var j :| 0 <= j < |moves[1..]| && s.dir == moves[1..][j].src.dir && Stem(moves[1..][j].src.name) <= e1.files[s].name;
      assert moves[j + 1] == moves[1..][j];
    }
  }

  /** A file that could be taken for a companion of a video where that had landed is gone
      after the way back. */
  lemma {:induction false} ForeignerIsGone(d: Disk, moves: seq<Job>, into: Dir, back: seq<Script>, k: nat, s: Path)
    requires d.Valid() && |back| == |moves| && Returnable(d, moves, into) && BackGoesThrough(d, moves, back)
    requires k < |moves| && s in d.files && s.dir == into && IsCompanionName(moves[k].dest.name, d.files[s].name)
    ensures s !in Back(d, moves, back).files
    decreases |moves|
  {
    hide IsEpisodeName, Spell, Videos, HasVideoExtension, MoveEpisode, Returnable, Fits, GoesThrough, Disk.Valid, IsCompanionName;
    var e1, m := Back(d, moves[1..], back[1..]), moves[0];
    LastComesHome(d, moves, into, back);
    RestReturnable(d, moves, into);
    if k > 0 {
      assert moves[k] == moves[1..][k - 1];
      ForeignerIsGone(d, moves[1..], into, back[1..], k - 1, s);
    } else if s in e1.files {
      NothingEntersInto(d, moves[1..], into, back[1..], s);
      ForeignerLeaves(e1, m.dest, m.src, back[0], s);
    }
  }

  // ------------------------------------------------------------ what the way out leaves alone

  /** A relocation that stopped half-way, its listings complete or failed, its failed copies
      cleaned up. */
  ghost predicate Stopped(d: Disk, jobs: seq<Job>, into: Dir, scripts: seq<Script>) {
    && d.Valid() && |scripts| == |jobs| && AllTravel(jobs, into)
    && ForwardFits(d, jobs, scripts) && !Forward(d, jobs, scripts).2
  }

  lemma RestStopped(d: Disk, jobs: seq<Job>, into: Dir, scripts: seq<Script>)
    requires Stopped(d, jobs, into, scripts) && MoveEpisode(d, jobs[0].src, jobs[0].dest, scripts[0]).1.Some?
    ensures jobs != [] && Stopped(MoveEpisode(d, jobs[0].src, jobs[0].dest, scripts[0]).0, jobs[1..], into, scripts[1..])
    ensures Fits(d, jobs[0].src, scripts[0]) && AllTidy(scripts[0].companions)
    ensures Travels(jobs[0].src, jobs[0].dest) && jobs[0].dest.dir == into
  {
    hide MoveEpisode, Fits, Tidy, AllTidy, Travels, AllTravel;
    RestTravels(jobs, into);
    EpisodeOnlyLeaves(d, jobs[0].src, jobs[0].dest, scripts[0]);
  }

  lemma SomethingMoved(d: Disk, jobs: seq<Job>, into: Dir, scripts: seq<Script>)
    requires Stopped(d, jobs, into, scripts)
    ensures jobs != []
    ensures Forward(d, jobs, scripts).1 != [] <==> MoveEpisode(d, jobs[0].src, jobs[0].dest, scripts[0]).1.Some?
    ensures Forward(d, jobs, scripts).1 == [] ==> Forward(d, jobs, scripts).0 == d
  {
    hide MoveEpisode, Fits, AllTidy, Travels, AllTravel;
    if MoveEpisode(d, jobs[0].src, jobs[0].dest, scripts[0]).1.None? { FailedEpisode(d, jobs[0].src, jobs[0].dest, scripts[0]); }
  }

  /** What is known of the `k`-th turn. */
  ghost predicate TurnIs(d: Disk, job: Job, script: Script, move: Job, d': Disk, into: Dir) {
    && d.Valid() && Fits(d, job.src, script) && AllTidy(script.companions) && Travels(job.src, job.dest)
    && MoveEpisode(d, job.src, job.dest, script) == (d', Some(move.dest))
    && move == Job(job.src, d.Dedupe(job.src, job.dest)) && job.dest.dir == move.dest.dir == into
  }

  lemma {:induction false} StageTurn(d: Disk, jobs: seq<Job>, into: Dir, scripts: seq<Script>, k: nat)
    requires Stopped(d, jobs, into, scripts) && k < |Forward(d, jobs, scripts).1|
    ensures TurnIs(Stage(d, jobs, scripts, k), jobs[k], scripts[k], Forward(d, jobs, scripts).1[k], Stage(d, jobs, scripts, k + 1), into)
    decreases k
  {
    hide MoveEpisode, Fits, AllTidy, Travels, AllTravel, Disk.Dedupe, Stopped, Disk.Valid, Forward;
    SomethingMoved(d, jobs, into, scripts);
    StoppedIs(d, jobs, into, scripts);
    RestStopped(d, jobs, into, scripts);
    ForwardStep(d, jobs, scripts);
    var d1 := MoveEpisode(d, jobs[0].src, jobs[0].dest, scripts[0]).0;
    if k == 0 {
      LandsAt(d, jobs[0].src, jobs[0].dest, scripts[0]);
      assert Stage(d1, jobs[1..], scripts[1..], 0) == d1;
    } else {
      StageTurn(d1, jobs[1..], into, scripts[1..], k - 1);
    }
  }

  lemma StoppedIs(d: Disk, jobs: seq<Job>, into: Dir, scripts: seq<Script>)
    requires Stopped(d, jobs, into, scripts)
    ensures d.Valid() && |scripts| == |jobs|
  {
  }

  lemma TurnLeaves(d: Disk, job: Job, script: Script, move: Job, d': Disk, into: Dir)
    requires TurnIs(d, job, script, move, d', into)
    ensures OnlyLeaves(d, d', into) && d'.Valid()
    ensures forall s | s in d.files && s.dir == into :: s in d'.files && d'.files[s] == d.files[s]
  {
    hide MoveEpisode, Fits, AllTidy, Disk.Dedupe, HasVideoExtension, Disk.Valid, Spell;
    EpisodeOnlyLeaves(d, job.src, job.dest, script);
    forall s | s in d.files && s.dir == into ensures s in d'.files && d'.files[s] == d.files[s] {
      EpisodeSpares(d, job.src, job.dest, script, s);
    }
  }

  /** Outside the target, files only leave; inside, what is there stays. */
  ghost predicate Onward(d: Disk, d': Disk, into: Dir) {
    && OnlyLeaves(d, d', into)
    && forall s | s in d.files && s.dir == into :: s in d'.files && d'.files[s] == d.files[s]
  }

  lemma OnwardTwice(d: Disk, d1: Disk, d2: Disk, into: Dir)
    requires Onward(d, d1, into) && Onward(d1, d2, into)
    ensures Onward(d, d2, into)
  {
  }

  lemma {:induction false} StageOnward(d: Disk, jobs: seq<Job>, into: Dir, scripts: seq<Script>, k: nat)
    requires Stopped(d, jobs, into, scripts) && k <= |Forward(d, jobs, scripts).1|
    ensures Onward(d, Stage(d, jobs, scripts, k), into) && Stage(d, jobs, scripts, k).Valid()
    decreases k
  {
    hide TurnIs, Stopped, Forward, Onward, Disk.Valid, OnlyLeaves;
    StoppedIs(d, jobs, into, scripts);
    if k == 0 {
      OnwardSelf(d, into);
    } else {
      StageOnward(d, jobs, into, scripts, k - 1);
      StageTurn(d, jobs, into, scripts, k - 1);
      TurnOnward(Stage(d, jobs, scripts, k - 1), jobs[k - 1], scripts[k - 1], Forward(d, jobs, scripts).1[k - 1], Stage(d, jobs, scripts, k), into);
      OnwardTwice(d, Stage(d, jobs, scripts, k - 1), Stage(d, jobs, scripts, k), into);
    }
  }

  lemma OnwardSelf(d: Disk, into: Dir)
    ensures Onward(d, d, into)
  {
  }

  lemma TurnOnward(d: Disk, job: Job, script: Script, move: Job, d': Disk, into: Dir)
    requires TurnIs(d, job, script, move, d', into)
    ensures Onward(d, d', into) && d'.Valid()
  {
    hide TurnIs, Disk.Valid, OnlyLeaves;
    TurnLeaves(d, job, script, move, d', into);
  }

  lemma {:induction false} RestOnward(d: Disk, jobs: seq<Job>, into: Dir, scripts: seq<Script>, k: nat)
    requires Stopped(d, jobs, into, scripts) && k <= |Forward(d, jobs, scripts).1|
    ensures Onward(Stage(d, jobs, scripts, k), Forward(d, jobs, scripts).0, into)
    decreases |Forward(d, jobs, scripts).1| - k
  {
    hide TurnIs, Stopped, Forward, Onward, Disk.Valid, OnlyLeaves;
    StoppedIs(d, jobs, into, scripts);
    if k < |Forward(d, jobs, scripts).1| {
      StageTurn(d, jobs, into, scripts, k);
      TurnOnward(Stage(d, jobs, scripts, k), jobs[k], scripts[k], Forward(d, jobs, scripts).1[k], Stage(d, jobs, scripts, k + 1), into);
      RestOnward(d, jobs, into, scripts, k + 1);
      OnwardTwice(Stage(d, jobs, scripts, k), Stage(d, jobs, scripts, k + 1), Forward(d, jobs, scripts).0, into);
    } else {
      LastStage(d, jobs, into, scripts);
      OnwardSelf(Forward(d, jobs, scripts).0, into);
    }
  }

  lemma {:induction false} LastStage(d: Disk, jobs: seq<Job>, into: Dir, scripts: seq<Script>)
    requires Stopped(d, jobs, into, scripts)
    ensures Stage(d, jobs, scripts, |Forward(d, jobs, scripts).1|) == Forward(d, jobs, scripts).0
    decreases |jobs|
  {
    hide MoveEpisode, Stopped, Forward, Disk.Dedupe;
    StoppedIs(d, jobs, into, scripts);
    SomethingMoved(d, jobs, into, scripts);
    if Forward(d, jobs, scripts).1 != [] {
      RestStopped(d, jobs, into, scripts);
      ForwardStep(d, jobs, scripts);
      LastStage(MoveEpisode(d, jobs[0].src, jobs[0].dest, scripts[0]).0, jobs[1..], into, scripts[1..]);
    }
  }

  /** What is in the target when the `k`-th turn comes was there before the call, or is
      spelled with the stem under which an earlier episode landed. */
  lemma {:induction false} Arrivals(d: Disk, jobs: seq<Job>, into: Dir, scripts: seq<Script>, k: nat, s: Path)
    requires Stopped(d, jobs, into, scripts) && k <= |Forward(d, jobs, scripts).1|
    requires s in Stage(d, jobs, scripts, k).files && s.dir == into
    ensures
      || (s in d.files && d.files[s] == Stage(d, jobs, scripts, k).files[s])
      || exists j | 0 <= j < k :: Stem(Forward(d, jobs, scripts).1[j].dest.name) <= Stage(d, jobs, scripts, k).files[s].name
    decreases k
  {
    hide TurnIs, Stopped, Forward, Disk.Valid, OnlyLeaves, Stem;
    StoppedIs(d, jobs, into, scripts);
    if k > 0 {
      var before, after := Stage(d, jobs, scripts, k - 1), Stage(d, jobs, scripts, k);
      StageTurn(d, jobs, into, scripts, k - 1);
      TurnEnters(before, jobs[k - 1], scripts[k - 1], Forward(d, jobs, scripts).1[k - 1], after, into, s);
      if s in before.files && before.files[s] == after.files[s] { Arrivals(d, jobs, into, scripts, k - 1, s); }
    }
  }

  /** An episode that leaves no trace brings its companions and nothing else. */
  lemma TurnBrings(d: Disk, job: Job, script: Script, move: Job, d': Disk, into: Dir, s: Path)
    requires TurnIs(d, job, script, move, d', into) && s in d'.files && s.dir == into
    requires d.Exists(job.src) && LeavesNoTrace(d, job.src, job.dest, script)
    ensures
      || (s in d.files && d.files[s] == d'.files[s])
      || BelongsTo(move.dest.name, d'.files[s].name)
  {
    hide HasVideoExtension, Lower, Spell, MoveFile, Stem, Suffix, IsShift, Ready, Disk.Dedupe, Companions, Along, TailsAlong, LeavesNoTrace, Disk.Valid, IsCompanionName;
    var to := move.dest;
    var tails := TailsAlong(d, job.src, job.dest, script);
    LandsAsVideo(d, job.src, job.dest);
    TracelessIsReady(d, job.src, job.dest, script);
    EpisodeShifts(d, job.src, job.dest, script);
    TailsAreCompanionTails(d, job.src, job.dest, script);
    VideoHasExtension(job.src.name);
    BroughtBy(d, d', job.src, to, tails, s);
  }

  /** The name of a video or of one of its companions. */
  predicate BelongsTo(video: string, name: string) {
    name == video || IsCompanionName(video, name)
  }

  lemma BroughtBy(d: Disk, d': Disk, src: Path, to: Path, tails: set<string>, s: Path)
    requires IsShift(d, d', Base(src), Base(to), tails) && s in d'.files
    requires Stem(src.name) != "" && Stem(to.name) != "" && to.name == Stem(to.name) + Suffix(src.name)
    requires forall t | t in tails && t != Suffix(src.name) :: t != "" && t[0] == '.' && !HasVideoExtension(Stem(src.name) + t)
    ensures (s in d.files && d.files[s] == d'.files[s]) || BelongsTo(to.name, d'.files[s].name)
  {
    hide HasVideoExtension, Lower, Spell, Stem, Suffix, IsCompanionName;
    if s in Slots(d, Base(to), tails) {
      var t :| t in tails && s == d.Slot(At(Base(to), t));
      assert d'.FileAt(At(Base(to), t)).name == Stem(to.name) + t;
      if t != Suffix(src.name) { BuiltCompanion(to.name, src.name, t); }
    } else {
      StayedSince(d, d', Base(src), Base(to), tails, s);
    }
  }

  /** Where none of the earlier ones has left a trace, what is in the target when the `k`-th
      turn comes was there before the call, or is one of them or a companion of one. */
  lemma {:induction false} ArrivalsBelong(d: Disk, jobs: seq<Job>, into: Dir, scripts: seq<Script>, k: nat, s: Path)
    requires Stopped(d, jobs, into, scripts) && k <= |Forward(d, jobs, scripts).1| && NoTracesTo(d, jobs, scripts, k)
    requires s in Stage(d, jobs, scripts, k).files && s.dir == into
    ensures
      || (s in d.files && d.files[s] == Stage(d, jobs, scripts, k).files[s])
      || exists j | 0 <= j < k :: BelongsTo(Forward(d, jobs, scripts).1[j].dest.name, Stage(d, jobs, scripts, k).files[s].name)
    decreases k
  {
    hide TurnIs, Stopped, Forward, Disk.Valid, LeavesNoTrace, BelongsTo;
    StoppedIs(d, jobs, into, scripts);
    if k > 0 {
      var before, after := Stage(d, jobs, scripts, k - 1), Stage(d, jobs, scripts, k);
      StageTurn(d, jobs, into, scripts, k - 1);
      TurnBrings(before, jobs[k - 1], scripts[k - 1], Forward(d, jobs, scripts).1[k - 1], after, into, s);
      if s in before.files && before.files[s] == after.files[s] { ArrivalsBelong(d, jobs, into, scripts, k - 1, s); }
    }
  }

  lemma TurnEnters(d: Disk, job: Job, script: Script, move: Job, d': Disk, into: Dir, s: Path)
    requires TurnIs(d, job, script, move, d', into) && s in d'.files && s.dir == into
    ensures (s in d.files && d.files[s] == d'.files[s]) || Stem(move.dest.name) <= d'.files[s].name
  {
    hide Fits, AllTidy, Disk.Dedupe, HasVideoExtension, Disk.Valid, Spell, MoveFile, Stem, Suffix, MoveCompanions;
    SentWhereItLands(d, job.src, job.dest, script.video);
    LandsAsVideo(d, job.src, job.dest);
    assert MoveEpisode(d, job.src, move.dest, script) == MoveEpisode(d, job.src, job.dest, script);
    EpisodeEntersSpelled(d, job.src, move.dest, script);
  }

  // ------------------------------------------------------------ the condition is needed

  /** A companion that carries the stem of another video of its directory carries its own
      video's, too. */
  predicate KnowTheirVideo(d: Disk, moves: seq<Job>) {
    forall i, j, c | 0 <= i < |moves| && 0 <= j < |moves| && c in Companions(d, moves[i].src)
      && moves[i].src.dir == moves[j].src.dir && Stem(moves[j].src.name) <= c.name :: Stem(moves[i].src.name) <= c.name
  }

  /** No two episodes landed under names one of which could carry the other's companions. */
  predicate LandedApart(moves: seq<Job>) {
    forall i, j | 0 <= i < j < |moves| :: Unrelated(Stem(moves[i].dest.name), Stem(moves[j].dest.name))
  }

  /** No file that has come along could be taken for a companion of two of the episodes. */
  ghost predicate NoneShared(d: Disk, d': Disk, moves: seq<Job>) {
    forall i, j, s | 0 <= i < j < |moves| && s in d'.files && s !in d.files && s.dir == moves[i].dest.dir ::
      !IsCompanionName(moves[i].dest.name, d'.files[s].name) || !IsCompanionName(moves[j].dest.name, d'.files[s].name)
  }

  lemma ApartShareNothing(d: Disk, d': Disk, moves: seq<Job>)
    requires LandedApart(moves)
    ensures NoneShared(d, d', moves)
  {
    hide IsCompanionName, Unrelated, Stem;
    forall i, j, s | 0 <= i < j < |moves| && s in d'.files && s !in d.files && s.dir == moves[i].dest.dir
      ensures !IsCompanionName(moves[i].dest.name, d'.files[s].name) || !IsCompanionName(moves[j].dest.name, d'.files[s].name)
    {
      var name := d'.files[s].name;
      if IsCompanionName(moves[i].dest.name, name) && IsCompanionName(moves[j].dest.name, name) {
        SharedMeansRelated(moves[i].dest.name, moves[j].dest.name, name);
      }
    }
  }

  lemma SharedMeansRelated(a: string, b: string, name: string)
    requires IsCompanionName(a, name) && IsCompanionName(b, name)
    ensures !Unrelated(Stem(a), Stem(b))
  {
    hide HasVideoExtension, Stem;
    var p, q := Lower(Stem(a)), Lower(Stem(b));
    assert p == Lower(name)[..|p|] by { assert (p + ".")[..|p|] == p; }
    assert q == Lower(name)[..|q|] by { assert (q + ".")[..|q|] == q; }
    PrefixesCompare(p, q, Lower(name));
  }

  lemma CompanionsRemain(d: Disk, d': Disk, src: Path, into: Dir, c: Path)
    requires OnlyLeaves(d, d', into) && src.dir != into && c in Companions(d', src)
    ensures c in Companions(d, src) && d'.Slot(c) == d.Slot(c)
  {
    hide IsCompanionName, Spell;
  }

  /** Stems that are unrelated have no companion in common. */
  lemma NotBoth(a: string, video: string, name: string)
    requires a <= name && IsCompanionName(video, name)
    ensures !Unrelated(a, Stem(video))
  {
    hide HasVideoExtension, Stem;
    var s := Lower(Stem(video));
    assert Lower(a) == Lower(name)[..|a|];
    assert s == Lower(name)[..|s|] by { assert (s + ".")[..|s|] == s; }
    PrefixesCompare(Lower(a), s, Lower(name));
  }

  /** A companion that came along was there before the call, and is gone when it stops. */
  lemma WasThere(d: Disk, jobs: seq<Job>, into: Dir, scripts: seq<Script>, k: nat, c: CompanionMove)
    requires Stopped(d, jobs, into, scripts) && k < |Forward(d, jobs, scripts).1|
    requires c in Along(Stage(d, jobs, scripts, k), jobs[k].src, jobs[k].dest, scripts[k])
    ensures c.path in Companions(d, jobs[k].src) && c.path.dir == jobs[k].src.dir != into
    ensures d.Slot(c.path) in d.files && d.files[d.Slot(c.path)].name == c.path.name
    ensures d.Slot(c.path) !in Forward(d, jobs, scripts).0.files
  {
    hide Stopped, Forward, Companions, Disk.Dedupe, MoveEpisode, Along, Stem, Fits, HasVideoExtension, Spell, IsCompanionName, AllTidy;
    StoppedIs(d, jobs, into, scripts);
    var now, after := Stage(d, jobs, scripts, k), Stage(d, jobs, scripts, k + 1);
    StageTurn(d, jobs, into, scripts, k);
    StageOnward(d, jobs, into, scripts, k);
    RestOnward(d, jobs, into, scripts, k + 1);
    AlongIsListed(now, jobs[k].src, jobs[k].dest, scripts[k], c);
    ListedCompanion(now, jobs[k].src, scripts[k], c);
    AlongIsGone(now, jobs[k].src, jobs[k].dest, scripts[k], c);
    CompanionsRemain(d, now, jobs[k].src, into, c.path);
    assert d.Slot(c.path) !in after.files;
  }

  /** A companion that came along and is back under its old name was spelled like its video. */
  lemma BackMeansSpelled(d: Disk, jobs: seq<Job>, into: Dir, scripts: seq<Script>, back: seq<Script>, k: nat, c: CompanionMove)
    requires Stopped(d, jobs, into, scripts) && k < |Forward(d, jobs, scripts).1| == |back|
    requires
      var (dm, moves, _) := Forward(d, jobs, scripts);
      dm.Valid() && Returnable(dm, moves, into) && BackGoesThrough(dm, moves, back) && Back(dm, moves, back) == d && KnowTheirVideo(d, moves)
    requires c in Along(Stage(d, jobs, scripts, k), jobs[k].src, jobs[k].dest, scripts[k])
    ensures Stem(jobs[k].src.name) <= c.path.name
  {
    hide Stopped, Forward, Returnable, Companions, MoveEpisode, GoesThrough, Back, BackGoesThrough, Along, Stem, Spell, Stage, Disk.Valid;
    StoppedIs(d, jobs, into, scripts);
    var (dm, moves, all) := Forward(d, jobs, scripts);
    WasThere(d, jobs, into, scripts, k, c);
    var s := d.Slot(c.path);
    BackEntersSpelled(dm, moves, into, back, s);
    var j :| 0 <= j < |moves| && s.dir == moves[j].src.dir && Stem(moves[j].src.name) <= d.files[s].name;
    MovedFrom(d, jobs, into, scripts, k);
  }

  lemma MovedFrom(d: Disk, jobs: seq<Job>, into: Dir, scripts: seq<Script>, k: nat)
    requires Stopped(d, jobs, into, scripts) && k < |Forward(d, jobs, scripts).1|
    ensures Forward(d, jobs, scripts).1[k].src == jobs[k].src
  {
    hide Stopped, Forward, MoveEpisode, Fits, AllTidy, Disk.Dedupe, Travels, Stage;
    StoppedIs(d, jobs, into, scripts);
    StageTurn(d, jobs, into, scripts, k);
  }

  /** Where everything is back, no file could be taken for a companion where an episode landed. */
  lemma BackMeansCompanionless(d: Disk, jobs: seq<Job>, into: Dir, scripts: seq<Script>, back: seq<Script>, k: nat)
    requires Stopped(d, jobs, into, scripts) && k < |Forward(d, jobs, scripts).1| == |back| && NoTracesTo(d, jobs, scripts, k)
    requires
      var (dm, moves, _) := Forward(d, jobs, scripts);
      dm.Valid() && Returnable(dm, moves, into) && BackGoesThrough(dm, moves, back) && Back(dm, moves, back) == d && NoneShared(d, dm, moves)
    ensures Companionless(Stage(d, jobs, scripts, k), Stage(d, jobs, scripts, k).Dedupe(jobs[k].src, jobs[k].dest))
  {
    hide Stopped, Forward, Returnable, Companions, Disk.Dedupe, MoveEpisode, GoesThrough, Back, BackGoesThrough, Stem, Fits, HasVideoExtension, Spell, IsCompanionName, AllTidy, OnlyLeaves, NoTracesTo, NoneShared, Disk.Valid;
    StoppedIs(d, jobs, into, scripts);
    var (dm, moves, all) := Forward(d, jobs, scripts);
    var now := Stage(d, jobs, scripts, k);
    StageTurn(d, jobs, into, scripts, k);
    StageOnward(d, jobs, into, scripts, k);
    RestOnward(d, jobs, into, scripts, k);
    var to := now.Dedupe(jobs[k].src, jobs[k].dest);
    assert to == moves[k].dest;
    forall s | s in now.files && s.dir == to.dir ensures !IsCompanionName(to.name, now.files[s].name) {
      if IsCompanionName(to.name, now.files[s].name) {
        ArrivalsBelong(d, jobs, into, scripts, k, s);
        if s in d.files && d.files[s] == now.files[s] {
          ForeignerIsGone(dm, moves, into, back, k, s);
        } else {
          var j :| 0 <= j < k && BelongsTo(moves[j].dest.name, now.files[s].name);
          assert s !in d.files && dm.files[s] == now.files[s];
          SourceDirs(dm, moves, into, j);
          BelongsToOne(d, dm, moves, j, k, s);
        }
      }
    }
  }

  lemma BelongsToOne(d: Disk, d': Disk, moves: seq<Job>, j: nat, k: nat, s: Path)
    requires NoneShared(d, d', moves) && j < k < |moves| && s in d'.files && s !in d.files && s.dir == moves[j].dest.dir
    requires BelongsTo(moves[j].dest.name, d'.files[s].name) && HasVideoExtension(moves[j].dest.name)
    ensures !IsCompanionName(moves[k].dest.name, d'.files[s].name)
  {
    hide HasVideoExtension, Stem;
  }

  lemma BackMeansHome(d: Disk, jobs: seq<Job>, into: Dir, scripts: seq<Script>, back: seq<Script>, k: nat)
    requires Stopped(d, jobs, into, scripts) && k < |Forward(d, jobs, scripts).1| == |back|
    requires
      var (dm, moves, _) := Forward(d, jobs, scripts);
      dm.Valid() && Returnable(dm, moves, into) && BackGoesThrough(dm, moves, back) && Back(dm, moves, back) == d
    ensures var now := Stage(d, jobs, scripts, k); now.Exists(jobs[k].src) && now.FileAt(jobs[k].src).name == jobs[k].src.name
  {
    hide Stopped, Forward, Returnable, Disk.Dedupe, MoveEpisode, GoesThrough, Back, BackGoesThrough, Fits, HasVideoExtension, Spell, AllTidy;
    StoppedIs(d, jobs, into, scripts);
    var (dm, moves, all) := Forward(d, jobs, scripts);
    StageTurn(d, jobs, into, scripts, k);
    StageOnward(d, jobs, into, scripts, k);
    VideoIsGone(Stage(d, jobs, scripts, k), jobs[k].src, jobs[k].dest, scripts[k]);
    VideosComeHome(dm, moves, into, back);
    assert moves[k].src == jobs[k].src;
  }

  /** Turn by turn: where everything is back, none of them has left a trace. */
  lemma {:induction false} BackMeansTraceless(d: Disk, jobs: seq<Job>, into: Dir, scripts: seq<Script>, back: seq<Script>, k: nat)
    requires Stopped(d, jobs, into, scripts) && k <= |Forward(d, jobs, scripts).1| == |back|
    requires
      var (dm, moves, _) := Forward(d, jobs, scripts);
      && dm.Valid() && Returnable(dm, moves, into) && BackGoesThrough(dm, moves, back) && Back(dm, moves, back) == d
      && NoneShared(d, dm, moves) && KnowTheirVideo(d, moves)
    ensures NoTracesTo(d, jobs, scripts, k)
    decreases k
  {
    hide Stopped, Forward, Returnable, MoveEpisode, GoesThrough, Back, BackGoesThrough, Fits, NoneShared, KnowTheirVideo, AllTidy, Along, Companionless, Disk.Dedupe, Disk.Exists, Disk.Valid, Stem, Stage;
    StoppedIs(d, jobs, into, scripts);
    if k > 0 {
      var j := k - 1;
      BackMeansTraceless(d, jobs, into, scripts, back, j);
      BackMeansHome(d, jobs, into, scripts, back, j);
      BackMeansCompanionless(d, jobs, into, scripts, back, j);
      forall c | c in Along(Stage(d, jobs, scripts, j), jobs[j].src, jobs[j].dest, scripts[j]) ensures Stem(jobs[j].src.name) <= c.path.name {
        BackMeansSpelled(d, jobs, into, scripts, back, j, c);
      }
    }
  }

  /** Taking back a relocation that stopped half-way, every compensating move going through,
      restores the disk -- every path, every name as spelled, every content -- if and only if
      every episode that had moved was, at its turn, one that leaves no trace. */
  lemma RollbackIsExactIff(d: Disk, jobs: seq<Job>, into: Dir, scripts: seq<Script>, back: seq<Script>)
    requires Stopped(d, jobs, into, scripts)
    requires |back| == |Forward(d, jobs, scripts).1|
    requires
      var (dm, moves, _) := Forward(d, jobs, scripts);
      Returnable(dm, moves, into) && BackGoesThrough(dm, moves, back) && NoneShared(d, dm, moves) && KnowTheirVideo(d, moves)
    ensures Back(Forward(d, jobs, scripts).0, Forward(d, jobs, scripts).1, back) == d <==> NoTraces(d, jobs, scripts)
  {
    hide Forward, Returnable, Back, BackGoesThrough, NoneShared, KnowTheirVideo, ForwardFits, AllTravel, Disk.Valid, NoTracesTo;
    var (dm, moves, all) := Forward(d, jobs, scripts);
    LastStage(d, jobs, into, scripts);
    StageOnward(d, jobs, into, scripts, |moves|);
    if NoTraces(d, jobs, scripts) {
      NoTracesComesBack(d, jobs, into, scripts, back);
    }
    if Back(dm, moves, back) == d {
      BackMeansTraceless(d, jobs, into, scripts, back, |moves|);
    }
  }
}
