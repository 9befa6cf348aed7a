/** Which files count as episodes and which ones travel with an episode, and
    `move_episode_file`, which moves them together. */
module Episodes {
  import opened Text
  import opened Numbering
  import opened Disk
  import opened Conservation

  const VideoExtensions: set<string> :=
    {".mkv", ".mp4", ".avi", ".ts", ".m2ts", ".webm", ".wmv", ".flv", ".mov"}

  const IgnoredSuffixes: set<string> :=
    {".part", ".crdownload", ".!ut", ".tmp", ".downloading"}

  predicate HasVideoExtension(name: string) {
    Lower(Suffix(name)) in VideoExtensions
  }

  /** `is_video_file` */
  predicate IsVideoFile(name: string) {
    HasVideoExtension(name) && Lower(Suffix(name)) !in IgnoredSuffixes
  }

  /** No extension is on both lists, so the scanner's notion of an episode and the
      companion rule's notion of a video agree. */
  lemma VideoIsNeverIgnored(name: string)
    ensures IsVideoFile(name) <==> HasVideoExtension(name)
  {
    assert VideoExtensions !! IgnoredSuffixes;
  }

  lemma VideoHasExtension(name: string)
    requires HasVideoExtension(name)
    ensures name != "" && Stem(name) != "" && IsExtension(Suffix(name))
    ensures name == Stem(name) + Suffix(name)
  {
    StemAndSuffix(name);
    assert "" !in VideoExtensions;
  }

  /** `companion_files`: the siblings that carry the video's stem and a dot, whatever
      the case, and are no videos themselves. */
  predicate IsCompanionName(video: string, name: string) {
    && name != video
    && Lower(Stem(video)) + "." <= Lower(name)
    && !HasVideoExtension(name)
  }

  function Companions(d: Disk, video: Path): set<Path> {
    set s | s in d.files && s.dir == video.dir && IsCompanionName(video.name, d.files[s].name)
      :: Path(s.dir, d.files[s].name)
  }

  /** One companion in the order the directory lists them, and what the operating
      system answers when it is moved. */
  datatype CompanionMove = CompanionMove(path: Path, fates: Fates)
  datatype Script = Script(video: Fates, companions: seq<CompanionMove>)

  predicate Distinct(cs: seq<CompanionMove>) {
    forall i, j | 0 <= i < j < |cs| :: cs[i].path != cs[j].path
  }

  function Paths(cs: seq<CompanionMove>): set<Path> {
    set c | c in cs :: c.path
  }

  /** The directory lists each companion once, in some order, or cannot be listed. */
  predicate Fits(d: Disk, src: Path, script: Script) {
    && Distinct(script.companions)
    && (Paths(script.companions) == Companions(d, src) || script.companions == [])
  }

  /** Python's `s[k:]` */
  function From(s: string, k: nat): string {
    if k <= |s| then s[k..] else ""
  }

  /** The companion's new place: everything after the episode's own stem stays. */
  function CompanionTarget(src: Path, to: Path, companion: Path): Path {
    Path(to.dir, Stem(to.name) + From(companion.name, |Stem(src.name)|))
  }

  /** The companions follow one by one; one that cannot is left behind. */
  function MoveCompanions(d: Disk, src: Path, to: Path, cs: seq<CompanionMove>): Disk
    decreases |cs|
  {
    if cs == [] then d
    else MoveCompanions(MoveFile(d, cs[0].path, CompanionTarget(src, to, cs[0].path), cs[0].fates).0, src, to, cs[1..])
  }

  /** `move_episode_file` */
  function MoveEpisode(d: Disk, src: Path, dest: Path, script: Script): (Disk, Option<Path>) {
    var (moved, r) := MoveFile(d, src, dest, script.video);
    if r.None? then (moved, None)
    else (MoveCompanions(moved, src, r.value, script.companions), r)
  }

  // ------------------------------------------------------------ nothing is lost

  lemma {:induction false} CompanionsKeepContents(d: Disk, src: Path, to: Path, cs: seq<CompanionMove>)
    ensures KeepsContents(d.files, MoveCompanions(d, src, to, cs).files)
    decreases |cs|
  {
    if cs != [] {
      var d1 := MoveFile(d, cs[0].path, CompanionTarget(src, to, cs[0].path), cs[0].fates).0;
      MoveKeepsContents(d, cs[0].path, CompanionTarget(src, to, cs[0].path), cs[0].fates);
      CompanionsKeepContents(d1, src, to, cs[1..]);
      KeepsTransitive(d.files, d1.files, MoveCompanions(d, src, to, cs).files);
    }
  }

  /** Moving an episode with its companions loses no content, at whatever point the
      operating system stops cooperating. */
  lemma EpisodeKeepsContents(d: Disk, src: Path, dest: Path, script: Script)
    ensures KeepsContents(d.files, MoveEpisode(d, src, dest, script).0.files)
  {
    var (moved, r) := MoveFile(d, src, dest, script.video);
    MoveKeepsContents(d, src, dest, script.video);
    if r.Some? {
      CompanionsKeepContents(moved, src, r.value, script.companions);
      KeepsTransitive(d.files, moved.files, MoveEpisode(d, src, dest, script).0.files);
    }
  }

  // ------------------------------------------------------------ the frame

  /** Nothing new or changed turns up outside the directory moved into. */
  ghost predicate OnlyLeaves(d: Disk, d': Disk, into: Dir) {
    && d'.foldCase == d.foldCase
    && forall s | s in d'.files && s.dir != into :: s in d.files && d.files[s] == d'.files[s]
  }

  lemma MoveFileOnlyLeaves(d: Disk, src: Path, dest: Path, f: Fates)
    ensures OnlyLeaves(d, MoveFile(d, src, dest, f).0, dest.dir)
    ensures d.Valid() ==> MoveFile(d, src, dest, f).0.Valid()
  {
    if d.Valid() { MoveKeepsValid(d, src, dest, f); }
    if MoveFile(d, src, dest, f).1.Some? { MoveSucceeded(d, src, dest, f); } else { MoveFailed(d, src, dest, f); }
  }

  lemma {:induction false} CompanionsOnlyLeave(d: Disk, src: Path, to: Path, cs: seq<CompanionMove>)
    ensures OnlyLeaves(d, MoveCompanions(d, src, to, cs), to.dir)
    ensures d.Valid() ==> MoveCompanions(d, src, to, cs).Valid()
    decreases |cs|
  {
    if cs != [] {
      MoveFileOnlyLeaves(d, cs[0].path, CompanionTarget(src, to, cs[0].path), cs[0].fates);
      CompanionsOnlyLeave(MoveFile(d, cs[0].path, CompanionTarget(src, to, cs[0].path), cs[0].fates).0, src, to, cs[1..]);
    }
  }

  lemma EpisodeOnlyLeaves(d: Disk, src: Path, dest: Path, script: Script)
    ensures OnlyLeaves(d, MoveEpisode(d, src, dest, script).0, dest.dir)
    ensures d.Valid() ==> MoveEpisode(d, src, dest, script).0.Valid()
  {
    var (moved, r) := MoveFile(d, src, dest, script.video);
    MoveFileOnlyLeaves(d, src, dest, script.video);
    if r.Some? { CompanionsOnlyLeave(moved, src, r.value, script.companions); }
  }

  lemma EpisodeFolds(d: Disk, src: Path, dest: Path, script: Script)
    ensures MoveEpisode(d, src, dest, script).0.foldCase == d.foldCase
  {
    EpisodeOnlyLeaves(d, src, dest, script);
  }

  // ------------------------------------------------------------ what happens to the videos

  /** The episodes on the disk. */
  function Videos(d: Disk): map<Path, File> {
    map s | s in d.files && HasVideoExtension(s.name) :: d.files[s]
  }

  lemma SpellKeepsKind(fold: bool, name: string)
    ensures HasVideoExtension(Spell(fold, name)) == HasVideoExtension(name)
  {
    SuffixOfLower(name);
    LowerIdempotent(Suffix(name));
  }

  /** Numbering a name does not change what kind of file it names. */
  lemma NumberedKeepsKind(name: string, n: nat)
    ensures HasVideoExtension(Numbered(Stem(name), n, Suffix(name))) == HasVideoExtension(name)
    ensures name != "" && Suffix(name) != "" ==> Suffix(Numbered(Stem(name), n, Suffix(name))) == Suffix(name)
  {
    StemAndSuffix(name);
    var numbered := Numbered(Stem(name), n, Suffix(name));
    if Suffix(name) != "" {
      SplitBuilt(Stem(name) + " (" + Decimal(n) + ")", Suffix(name));
    } else {
      assert numbered[|numbered| - 1] == ')';
      var ext := Lower(Suffix(numbered));
      assert ext != "" ==> ext[|ext| - 1] == ')';
      assert forall e | e in VideoExtensions :: e[|e| - 1] != ')';
      assert "" !in VideoExtensions;
    }
  }

  lemma DedupeKeepsKind(d: Disk, src: Path, dest: Path)
    ensures HasVideoExtension(d.Dedupe(src, dest).name) == HasVideoExtension(dest.name)
    ensures Suffix(dest.name) != "" ==> Suffix(d.Dedupe(src, dest).name) == Suffix(dest.name)
  {
    if !d.IsFreeFor(src, dest) {
      NumberedKeepsKind(dest.name, LowestFree(d.Occupied(src, dest.dir), d.foldCase, Stem(dest.name), Suffix(dest.name), 2));
    }
  }

  lemma CarryOther(d: Disk, d': Disk, from: Path, to: Path, f: File)
    requires d'.files == (d.files - {from})[to := f]
    requires !HasVideoExtension(from.name) && !HasVideoExtension(to.name)
    ensures Videos(d') == Videos(d)
  {
  }

  lemma CarryVideo(d: Disk, d': Disk, from: Path, to: Path, f: File)
    requires d'.files == (d.files - {from})[to := f]
    requires HasVideoExtension(from.name) && HasVideoExtension(to.name)
    ensures Videos(d') == (Videos(d) - {from})[to := f]
  {
  }

  lemma AddAnything(d: Disk, d': Disk, to: Path, f: File)
    requires d'.files == d.files[to := f] && to !in d.files
    ensures Kept(Videos(d), Videos(d'))
    ensures !HasVideoExtension(to.name) ==> Videos(d') == Videos(d)
  {
  }

  /** Every file of the one is, unchanged, a file of the other. */
  predicate Kept(before: map<Path, File>, after: map<Path, File>) {
    forall s | s in before :: s in after && after[s] == before[s]
  }

  /** Moving something that is no episode leaves the episodes alone. */
  lemma MoveOfOtherFile(d: Disk, src: Path, dest: Path, f: Fates)
    requires !HasVideoExtension(src.name) && !HasVideoExtension(dest.name)
    ensures Videos(MoveFile(d, src, dest, f).0) == Videos(d)
  {
    var (d', r) := MoveFile(d, src, dest, f);
    var to := d.Dedupe(src, dest);
    DedupeKeepsKind(d, src, dest);
    SpellKeepsKind(d.foldCase, src.name);
    SpellKeepsKind(d.foldCase, to.name);
    if r.Some? {
      MoveSucceeded(d, src, dest, f);
      CarryOther(d, d', d.Slot(src), d.Slot(to), d.FileAt(src).(name := to.name));
    } else {
      MoveFailed(d, src, dest, f);
      if d' != d { AddAnything(d, d', d.Slot(to), d'.files[d.Slot(to)]); }
    }
  }

  /** One episode has changed its place, to a slot no other episode holds; or, if the
      move failed, every episode is where it was. */
  predicate OneVideoMoved(d: Disk, d': Disk, src: Path, r: Option<Path>) {
    match r
    case Some(to) =>
      && d.Slot(src) in Videos(d)
      && (d.Slot(to) in Videos(d) ==> d.Slot(to) == d.Slot(src))
      && HasVideoExtension(to.name)
      && Videos(d') == (Videos(d) - {d.Slot(src)})[d.Slot(to) := d.FileAt(src).(name := to.name)]
    case None => Kept(Videos(d), Videos(d'))
  }

  lemma MoveOfVideo(d: Disk, src: Path, dest: Path, f: Fates)
    requires HasVideoExtension(src.name) && HasVideoExtension(dest.name)
    ensures OneVideoMoved(d, MoveFile(d, src, dest, f).0, src, MoveFile(d, src, dest, f).1)
  {
    var (d', r) := MoveFile(d, src, dest, f);
    var to := d.Dedupe(src, dest);
    DedupeKeepsKind(d, src, dest);
    SpellKeepsKind(d.foldCase, src.name);
    SpellKeepsKind(d.foldCase, to.name);
    if r.Some? {
      MoveSucceeded(d, src, dest, f);
      CarryVideo(d, d', d.Slot(src), d.Slot(to), d.FileAt(src).(name := to.name));
    } else {
      MoveFailed(d, src, dest, f);
      if d' != d { AddAnything(d, d', d.Slot(to), d'.files[d.Slot(to)]); }
    }
  }

  /** What is left of a companion's name starts with the dot its stem was followed by. */
  lemma CompanionTail(video: string, name: string)
    requires IsCompanionName(video, name)
    ensures |Stem(video)| < |name| && name[|Stem(video)|] == '.'
    ensures From(name, |Stem(video)|) != "" && From(name, |Stem(video)|)[0] == '.'
    ensures Lower(name[..|Stem(video)|]) == Lower(Stem(video))
  {
    var k := |Stem(video)|;
    var p := Lower(Stem(video)) + ".";
    assert Lower(name)[..k + 1] == p;
    assert LowerChar(name[k]) == p[k] == '.';
    assert Lower(name[..k]) == Lower(name)[..k] == p[..k];
  }

  /** A companion keeps its suffix on the way, so it stays a companion. */
  lemma TargetIsNoVideo(src: Path, to: Path, c: Path)
    requires IsCompanionName(src.name, c.name) && to.name != "" && src.name != ""
    ensures !HasVideoExtension(CompanionTarget(src, to, c).name)
  {
    hide Stem, Suffix, Lower;
    var k := |Stem(src.name)|;
    CompanionTail(src.name, c.name);
    StemAndSuffix(src.name);
    StemAndSuffix(to.name);
    SuffixIgnoresStem(c.name[..k], Stem(to.name), c.name[k..]);
    assert c.name == c.name[..k] + c.name[k..];
  }

  lemma {:induction false} CompanionsLeaveVideos(d: Disk, src: Path, to: Path, cs: seq<CompanionMove>)
    requires src.name != "" && to.name != ""
    requires forall c | c in cs :: IsCompanionName(src.name, c.path.name)
    ensures Videos(MoveCompanions(d, src, to, cs)) == Videos(d)
    decreases |cs|
  {
    if cs != [] {
      var c := cs[0].path;
      assert cs[0] in cs;
      TargetIsNoVideo(src, to, c);
      MoveOfOtherFile(d, c, CompanionTarget(src, to, c), cs[0].fates);
      CompanionsLeaveVideos(MoveFile(d, c, CompanionTarget(src, to, c), cs[0].fates).0, src, to, cs[1..]);
    }
  }

  lemma ListedAreCompanions(d: Disk, src: Path, script: Script)
    requires Fits(d, src, script)
    ensures forall c | c in script.companions :: c.path.dir == src.dir && IsCompanionName(src.name, c.path.name)
  {
    forall c | c in script.companions
      ensures c.path.dir == src.dir && IsCompanionName(src.name, c.path.name)
    {
      assert c.path in Paths(script.companions);
    }
  }

  /** What moving an episode does to the episodes on the disk, companions and all:
      exactly one of them changes its place, or, on failure, none does. */
  lemma EpisodeMovesOneVideo(d: Disk, src: Path, dest: Path, script: Script)
    requires HasVideoExtension(src.name) && HasVideoExtension(dest.name)
    requires Fits(d, src, script)
    ensures
      var (d', r) := MoveEpisode(d, src, dest, script);
      && d'.foldCase == d.foldCase
      && OneVideoMoved(d, d', src, r)
      && (r.Some? ==> r.value == d.Dedupe(src, dest))
  {
    hide HasVideoExtension, Videos;
    var (moved, r) := MoveFile(d, src, dest, script.video);
    MoveOfVideo(d, src, dest, script.video);
    EpisodeOnlyLeaves(d, src, dest, script);
    if r.Some? {
      MoveSucceeded(d, src, dest, script.video);
      ListedAreCompanions(d, src, script);
      VideoHasExtension(src.name);
      VideoHasExtension(r.value.name);
      CompanionsLeaveVideos(moved, src, r.value, script.companions);
    }
  }
}
