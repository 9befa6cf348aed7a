/** Relocations that stop half-way and are taken back, every compensating move going
    through: one that leaves no trace, and the ways in which one does. */
module RollbackLimits {
  import opened Text
  import opened Numbering
  import opened Disk
  import opened Episodes
  import opened Rollback
  import opened ReleaseName
  import opened Naming
  import opened Catalog
  import opened Library
  import opened LibraryInvariant
  import opened LibrarySafety

  /** What belongs to the one copy belongs to the other. */
  lemma CopiesShareCompanions(stem: string, e: string, f: string, c: string)
    requires stem != "" && IsExtension(e) && IsExtension(f)
    requires IsCompanionName(stem + e, c) && c != stem + f
    ensures IsCompanionName(stem + f, c)
  {
    SplitBuilt(stem, e);
    SplitBuilt(stem, f);
  }

  // ------------------------------------------------------------ names and places

  const Here: Dir := ["downloads", "show"]
  const Folders: map<nat, Dir> := map[0 := ["downloads"], 1 := ["library"]]
  const Both: seq<Expected> := [Expected("1", None), Expected("2", None)]
  const Smooth := Fates(true, Renamed, Returned(0), true, true, true)
  const Refused := Fates(true, Denied, Returned(0), true, true, true)

  function There(title: string): Dir {
    ["library", Sanitize(title)]
  }

  function StemOf(title: string, number: string): string
    requires IsNumeral(number)
  {
    EpisodeStem(Sanitize(title), number, None)
  }

  /** The name of a file of the first episode once sorted. */
  function New(title: string, ext: string): string {
    StemOf(title, "1") + ext
  }

  function Show(title: string): Anime {
    Anime(0, Here, Some(7), title, true, Both)
  }

  lemma Numerals()
    ensures IsNumeral("1") && IsNumeral("2") && Value("1") == 1 && Value("2") == 2
  {
    assert "1"[..0] == "" && "2"[..0] == "";
  }

  lemma Matches()
    ensures Match(Both, Some("1")) == Some(Both[0]) && Match(Both, Some("2")) == Some(Both[1])
  {
    Numerals();
    NormalizeComparesValues(Some("1"), Some("2"));
    NormalizeComparesValues(Some("1"), Some("1"));
    NormalizeComparesValues(Some("2"), Some("2"));
    assert Both[..1] == [Both[0]] && [Both[0]][..0] == [];
    assert Match(Both[..1], Some("1")) == Some(Both[0]);
  }

  lemma NewName(title: string, ext: string)
    requires IsExtension(ext)
    ensures Stem(New(title, ext)) == StemOf(title, "1") && Suffix(New(title, ext)) == ext && |New(title, ext)| > 7
    ensures StemOf(title, "1") != ""
  {
    hide Stem, Suffix, Padded, EpisodeTitle, Value, Sanitize;
    SplitBuilt(StemOf(title, "1"), ext);
    assert |EpisodeStem(Sanitize(title), "1", None)| > 5;
  }

  lemma Named(name: string, stem: string, ext: string)
    requires name == stem + ext && |stem| == 1 && stem[0] != '.' && IsExtension(ext)
    ensures Stem(name) == stem && Suffix(name) == Extension(name) == ext
  {
    hide Stem, Suffix, Extension;
    SplitBuilt(stem, ext);
  }

  lemma Kinds()
    ensures Lower(".mkv") in VideoExtensions && Lower(".mp4") in VideoExtensions && Lower(".ass") !in VideoExtensions
  {
    assert Lower(".mkv") == ".mkv" && Lower(".mp4") == ".mp4" && Lower(".ass") == ".ass";
    assert forall e | e in VideoExtensions :: e != ".ass" by {
      assert forall e | e in VideoExtensions :: e[1] != 'a' || e[2] != 's';
      assert ".ass"[1] == 'a' && ".ass"[2] == 's';
    }
  }

  /** "a.mkv" and the like are episodes; "a.ass" and "A.ass" are companions of "a.mkv". */
  lemma OldNames(name: string)
    requires name in ["a.mkv", "b.mp4", "c.mkv"]
    ensures IsEpisodeName(name) && HasVideoExtension(name) && Stem(name) == name[..1]
    ensures Suffix(name) == name[1..] && IsExtension(name[1..])
  {
    hide Stem, Suffix, Extension;
    Kinds();
    Named(name, name[..1], name[1..]);
  }

  lemma OldSubtitles(name: string)
    requires name in ["a.ass", "A.ass", "b.ass"]
    ensures !HasVideoExtension(name) && Suffix(name) == ".ass" && Lower(name) == (if name == "b.ass" then "b.ass" else "a.ass")
    ensures |name| == 5 && name[1..] == ".ass"
  {
    hide Stem, Suffix, Extension;
    Kinds();
    Named(name, name[..1], ".ass");
  }

  /** Of the old names only subtitles spelled, ignoring case, like the video follow it. */
  lemma OldCompanions(video: string, name: string)
    requires video in ["a.mkv", "b.mp4", "c.mkv"] && name in ["a.mkv", "b.mp4", "c.mkv", "a.ass", "A.ass", "b.ass"]
    ensures IsCompanionName(video, name) <==> (video == "a.mkv" && name in ["a.ass", "A.ass"]) || (video == "b.mp4" && name == "b.ass")
  {
    hide Stem, Suffix, HasVideoExtension;
    OldNames(video);
    if name in ["a.ass", "A.ass", "b.ass"] { OldSubtitles(name); } else { OldNames(name); }
    assert Lower(video[..1]) == video[..1];
    assert (video[..1] + ".")[0] == video[0];
    if name in ["a.ass", "A.ass", "b.ass"] { assert Lower(name)[..2] == [Lower(name)[0]] + "."; }
  }

  /** Of the new names only the subtitles follow a video. */
  lemma NewCompanions(title: string, e: string, f: string)
    requires e in [".mkv", ".mp4"] && f in [".mkv", ".mp4", ".ass"]
    ensures IsCompanionName(New(title, e), New(title, f)) <==> f == ".ass"
    ensures HasVideoExtension(New(title, f)) <==> f != ".ass"
  {
    hide Stem, Suffix, StemOf;
    NewName(title, e);
    NewName(title, f);
    Kinds();
    DotStemIsPrefix(StemOf(title, "1"), f);
    assert e != f ==> New(title, e) != New(title, f) by {
      assert New(title, e)[|StemOf(title, "1")|..] == e && New(title, f)[|StemOf(title, "1")|..] == f;
    }
  }

  /** A move to a free place, the rename going through. */
  lemma SmoothMove(d: Disk, src: Path, dest: Path)
    requires !d.foldCase && src in d.files && dest !in d.files
    ensures MoveFile(d, src, dest, Smooth) == (Disk(false, (d.files - {src})[dest := d.files[src].(name := dest.name)]), Some(dest))
  {
  }

  lemma RefusedMove(d: Disk, src: Path, dest: Path)
    ensures MoveEpisode(d, src, dest, Script(Refused, [])) == (d, None)
    ensures Tidy(Refused) && Fits(d, src, Script(Refused, []))
  {
    hide LowestFree, Stem, Suffix;
  }

  // ------------------------------------------------------------ one episode moves, the next does not

  /** "a.mkv" with its subtitles and "c.mkv", the second episode. */
  function Start(subtitles: string, a: Content, s: Content, c: Content): Disk {
    Disk(false, map[
      Path(Here, "a.mkv") := File("a.mkv", a, 0),
      Path(Here, subtitles) := File(subtitles, s, 0),
      Path(Here, "c.mkv") := File("c.mkv", c, 0)
    ])
  }

  /** The video gone ahead. */
  function VideoAhead(title: string, subtitles: string, a: Content, s: Content, c: Content): Disk {
    Disk(false, map[
      Path(There(title), New(title, ".mkv")) := File(New(title, ".mkv"), a, 0),
      Path(Here, subtitles) := File(subtitles, s, 0),
      Path(Here, "c.mkv") := File("c.mkv", c, 0)
    ])
  }

  /** The first episode moved. */
  function Between(title: string, a: Content, s: Content, c: Content): Disk {
    Disk(false, map[
      Path(There(title), New(title, ".mkv")) := File(New(title, ".mkv"), a, 0),
      Path(There(title), New(title, ".ass")) := File(New(title, ".ass"), s, 0),
      Path(Here, "c.mkv") := File("c.mkv", c, 0)
    ])
  }

  /** "a.mkv" and "c.mkv" without subtitles; what looks like some lies where "a.mkv" will go. */
  function Foreign(title: string, a: Content, s: Content, c: Content): Disk {
    Disk(false, map[
      Path(Here, "a.mkv") := File("a.mkv", a, 0),
      Path(There(title), New(title, ".ass")) := File(New(title, ".ass"), s, 0),
      Path(Here, "c.mkv") := File("c.mkv", c, 0)
    ])
  }

  const OldVideo := Path(Here, "a.mkv")

  function NewVideo(title: string): Path {
    Path(There(title), New(title, ".mkv"))
  }

  /** With the subtitles, or with nothing. */
  function Out(subtitles: string): Script {
    Script(Smooth, [CompanionMove(Path(Here, subtitles), Smooth)])
  }

  const Alone := Script(Smooth, [])

  function Home(title: string): Script {
    Script(Smooth, [CompanionMove(Path(There(title), New(title, ".ass")), Smooth)])
  }

  lemma PlacesDiffer(title: string)
    ensures Here != There(title) && New(title, ".mkv") != New(title, ".ass")
  {
    hide StemOf, Sanitize;
    assert Here[0] != There(title)[0];
    assert New(title, ".mkv")[|StemOf(title, "1")|..] == ".mkv" && New(title, ".ass")[|StemOf(title, "1")|..] == ".ass";
  }

  lemma SubtitlesDiffer(subtitles: string)
    requires subtitles in ["a.ass", "A.ass"]
    ensures subtitles != "a.mkv" && subtitles != "c.mkv"
  {
    assert subtitles[1..] == ".ass" && "a.mkv"[1..] == ".mkv" && "c.mkv"[1..] == ".mkv";
  }

  lemma VideoMoves(title: string, subtitles: string, a: Content, s: Content, c: Content)
    requires subtitles in ["a.ass", "A.ass"]
    ensures MoveFile(Start(subtitles, a, s, c), OldVideo, NewVideo(title), Smooth) == (VideoAhead(title, subtitles, a, s, c), Some(NewVideo(title)))
    ensures MoveFile(Foreign(title, a, s, c), OldVideo, NewVideo(title), Smooth) == (Between(title, a, s, c), Some(NewVideo(title)))
  {
    hide MoveFile, New, There;
    PlacesDiffer(title);
    SubtitlesDiffer(subtitles);
    SmoothMove(Start(subtitles, a, s, c), OldVideo, NewVideo(title));
    assert MoveFile(Start(subtitles, a, s, c), OldVideo, NewVideo(title), Smooth).0.files == VideoAhead(title, subtitles, a, s, c).files;
    SmoothMove(Foreign(title, a, s, c), OldVideo, NewVideo(title));
    assert MoveFile(Foreign(title, a, s, c), OldVideo, NewVideo(title), Smooth).0.files == Between(title, a, s, c).files;
  }

  lemma SubtitlesMove(title: string, subtitles: string, a: Content, s: Content, c: Content)
    requires subtitles in ["a.ass", "A.ass"]
    ensures MoveFile(VideoAhead(title, subtitles, a, s, c), Path(Here, subtitles), Path(There(title), New(title, ".ass")), Smooth)
      == (Between(title, a, s, c), Some(Path(There(title), New(title, ".ass"))))
  {
    hide MoveFile, New, There;
    PlacesDiffer(title);
    SubtitlesDiffer(subtitles);
    SmoothMove(VideoAhead(title, subtitles, a, s, c), Path(Here, subtitles), Path(There(title), New(title, ".ass")));
    assert MoveFile(VideoAhead(title, subtitles, a, s, c), Path(Here, subtitles), Path(There(title), New(title, ".ass")), Smooth).0.files
      == Between(title, a, s, c).files;
  }

  lemma WayBack(title: string, a: Content, s: Content, c: Content)
    ensures MoveFile(Between(title, a, s, c), NewVideo(title), OldVideo, Smooth) == (Foreign(title, a, s, c), Some(OldVideo))
    ensures MoveFile(Foreign(title, a, s, c), Path(There(title), New(title, ".ass")), Path(Here, "a.ass"), Smooth)
      == (Start("a.ass", a, s, c), Some(Path(Here, "a.ass")))
  {
    hide MoveFile, New, There;
    PlacesDiffer(title);
    SubtitlesDiffer("a.ass");
    SmoothMove(Between(title, a, s, c), NewVideo(title), OldVideo);
    assert MoveFile(Between(title, a, s, c), NewVideo(title), OldVideo, Smooth).0.files == Foreign(title, a, s, c).files;
    SmoothMove(Foreign(title, a, s, c), Path(There(title), New(title, ".ass")), Path(Here, "a.ass"));
    assert MoveFile(Foreign(title, a, s, c), Path(There(title), New(title, ".ass")), Path(Here, "a.ass"), Smooth).0.files == Start("a.ass", a, s, c).files;
  }

  lemma OldFollow(subtitles: string, a: Content, s: Content, c: Content)
    requires subtitles in ["a.ass", "A.ass"]
    ensures Companions(Start(subtitles, a, s, c), OldVideo) == {Path(Here, subtitles)}
  {
    hide IsCompanionName;
    OldCompanions("a.mkv", "a.mkv");
    OldCompanions("a.mkv", "c.mkv");
    OldCompanions("a.mkv", subtitles);
    SubtitlesDiffer(subtitles);
    var p := Path(Here, subtitles);
    assert p in Start(subtitles, a, s, c).files && Start(subtitles, a, s, c).files[p].name == subtitles;
  }

  lemma WhatIsBetween(title: string, a: Content, s: Content, c: Content, p: Path)
    ensures Path(There(title), New(title, ".ass")) in Between(title, a, s, c).files
    ensures p in Between(title, a, s, c).files && p.dir == There(title) ==>
      Between(title, a, s, c).files[p].name == p.name && (p.name == New(title, ".mkv") || p.name == New(title, ".ass"))
  {
    hide New, There;
    PlacesDiffer(title);
  }

  lemma NewFollow(title: string, a: Content, s: Content, c: Content)
    ensures Companions(Between(title, a, s, c), NewVideo(title)) == {Path(There(title), New(title, ".ass"))}
  {
    hide IsCompanionName, New, There, Between;
    NewCompanions(title, ".mkv", ".mkv");
    NewCompanions(title, ".mkv", ".ass");
    var d, q := Between(title, a, s, c), Path(There(title), New(title, ".ass"));
    WhatIsBetween(title, a, s, c, q);
    forall p | p in d.files && p.dir == There(title) ensures d.files[p].name == p.name && (IsCompanionName(New(title, ".mkv"), p.name) ==> p == q) {
      WhatIsBetween(title, a, s, c, p);
    }
    assert IsCompanionName(New(title, ".mkv"), d.files[q].name);
  }

  lemma ListsOne(p: Path)
    ensures Paths([CompanionMove(p, Smooth)]) == {p} && Distinct([CompanionMove(p, Smooth)]) && AllTidy([CompanionMove(p, Smooth)])
  {
    var cs := [CompanionMove(p, Smooth)];
    assert cs[0] in cs;
  }

  /** The first episode goes with its subtitles, whatever their case ... */
  lemma FirstGoes(title: string, subtitles: string, a: Content, s: Content, c: Content)
    requires subtitles in ["a.ass", "A.ass"]
    ensures MoveEpisode(Start(subtitles, a, s, c), OldVideo, NewVideo(title), Out(subtitles)) == (Between(title, a, s, c), Some(NewVideo(title)))
    ensures Fits(Start(subtitles, a, s, c), OldVideo, Out(subtitles)) && AllTidy(Out(subtitles).companions)
  {
    hide MoveFile, Companions, Start, Between, VideoAhead, Stem, StemOf, There;
    OldFollow(subtitles, a, s, c);
    ListsOne(Path(Here, subtitles));
    VideoMoves(title, subtitles, a, s, c);
    SubtitlesMove(title, subtitles, a, s, c);
    OldNames("a.mkv");
    OldSubtitles(subtitles);
    NewName(title, ".mkv");
    var cs := Out(subtitles).companions;
    assert From(subtitles, 1) == ".ass" && Stem(NewVideo(title).name) + ".ass" == New(title, ".ass");
    assert CompanionTarget(OldVideo, NewVideo(title), cs[0].path) == Path(There(title), New(title, ".ass"));
    OneMovesAlong(VideoAhead(title, subtitles, a, s, c), OldVideo, NewVideo(title), cs, Between(title, a, s, c));
  }

  lemma OneMovesAlong(d: Disk, src: Path, to: Path, cs: seq<CompanionMove>, d': Disk)
    requires |cs| == 1 && MoveFile(d, cs[0].path, CompanionTarget(src, to, cs[0].path), cs[0].fates).0 == d'
    requires MoveFile(d, cs[0].path, CompanionTarget(src, to, cs[0].path), cs[0].fates).1.Some?
    ensures MoveCompanions(d, src, to, cs) == d' && AllFollow(d, src, to, cs)
  {
    hide MoveFile;
    assert cs[1..] == [];
    assert MoveCompanions(d', src, to, []) == d' && AllFollow(d', src, to, []);
  }

  /** ... or without any, where others are waiting. */
  lemma FirstGoesAlone(title: string, a: Content, s: Content, c: Content)
    ensures MoveEpisode(Foreign(title, a, s, c), OldVideo, NewVideo(title), Alone) == (Between(title, a, s, c), Some(NewVideo(title)))
    ensures Fits(Foreign(title, a, s, c), OldVideo, Alone) && AllTidy(Alone.companions)
  {
    hide MoveFile, Foreign, Between, New, There;
    VideoMoves(title, "a.ass", a, s, c);
  }

  /** The way back is the same. */
  lemma FirstReturns(title: string, a: Content, s: Content, c: Content)
    ensures GoesThrough(Between(title, a, s, c), NewVideo(title), OldVideo, Home(title))
    ensures MoveEpisode(Between(title, a, s, c), NewVideo(title), OldVideo, Home(title)).0 == Start("a.ass", a, s, c)
  {
    hide MoveFile, Companions, Start, Between, Foreign, Stem, StemOf, There;
    NewFollow(title, a, s, c);
    ListsOne(Path(There(title), New(title, ".ass")));
    WayBack(title, a, s, c);
    OldNames("a.mkv");
    NewName(title, ".mkv");
    var cs := Home(title).companions;
    assert New(title, ".ass")[|StemOf(title, "1")|..] == ".ass" && "a" + ".ass" == "a.ass" && "a.mkv"[..1] == "a";
    assert CompanionTarget(NewVideo(title), OldVideo, cs[0].path) == Path(Here, "a.ass");
    OneMovesAlong(Foreign(title, a, s, c), NewVideo(title), OldVideo, cs, Start("a.ass", a, s, c));
  }

  // ------------------------------------------------------------ the whole call

  /** The second episode. */
  function Second(title: string): Path
    requires IsNumeral("2")
  {
    Path(There(title), StemOf(title, "2") + ".mkv")
  }

  function TurnsOf(first: Script, later: Script): nat -> Turn {
    k => Turn(if k == 0 then first else later, true)
  }

  const Ids: seq<nat> := [0, 1]

  function Rows(a: Content, c: Content): Table {
    Table(map[
      0 := Row(0, OldVideo, Some("1"), false, |a|, 0),
      1 := Row(0, Path(Here, "c.mkv"), Some("2"), false, |c|, 0)
    ], 2)
  }

  function Shelf(title: string, d: Disk, a: Content, c: Content): World {
    World(d, Folders, map[0 := Show(title)], Rows(a, c))
  }

  function EnvOf(title: string, out: Script): SortEnv {
    SortEnv(Ids, true, TurnsOf(out, Script(Refused, [])), TurnsOf(Home(title), Alone), 0, [])
  }

  lemma BothAreTasks(title: string, d: Disk, a: Content, c: Content)
    ensures (forall i | i in Ids :: i in Rows(a, c).rows) && IsNumeral("1") && IsNumeral("2")
    ensures Tasks(Rows(a, c).rows, Ids, Both) == [Task(0, OldVideo, Both[0]), Task(1, Path(Here, "c.mkv"), Both[1])]
    ensures Twins(Shelf(title, d, a, c), 7, 1) == {}
  {
    hide Match;
    Numerals();
    Matches();
    assert Ids[1..] == [1] && Ids[1..][1..] == [];
    var rows := Rows(a, c).rows;
    assert Tasks(rows, [], Both) == [];
    assert Tasks(rows, [1], Both) == [Task(1, Path(Here, "c.mkv"), Both[1])];
  }

  lemma SentTo(title: string, id: nat, name: string, second: bool)
    requires name in ["a.mkv", "b.mp4", "c.mkv"] && IsNumeral("1") && IsNumeral("2")
    ensures Target(There(title), title, Task(id, Path(Here, name), Both[if second then 1 else 0]))
      == Path(There(title), StemOf(title, if second then "2" else "1") + name[1..])
  {
    hide EpisodeStem, Sanitize, Suffix;
    OldNames(name);
  }

  lemma TheJobs(title: string)
    requires IsNumeral("1") && IsNumeral("2")
    ensures Jobs(There(title), title, [Task(0, OldVideo, Both[0]), Task(1, Path(Here, "c.mkv"), Both[1])])
      == [Job(OldVideo, NewVideo(title)), Job(Path(Here, "c.mkv"), Second(title))]
  {
    hide Target, There, StemOf;
    SentTo(title, 0, "a.mkv", false);
    SentTo(title, 1, "c.mkv", true);
  }

  /** One out, one refused, one back. */
  lemma OneOutOneBack(title: string, d: Disk, out: Script, a: Content, s: Content, c: Content)
    requires IsNumeral("2")
    requires MoveEpisode(d, OldVideo, NewVideo(title), out) == (Between(title, a, s, c), Some(NewVideo(title)))
    requires Fits(d, OldVideo, out) && Tidy(out.video) && AllTidy(out.companions)
    ensures
      var jobs := [Job(OldVideo, NewVideo(title)), Job(Path(Here, "c.mkv"), Second(title))];
      var scripts := Scripts(TurnsOf(out, Script(Refused, [])), 2);
      var back := Scripts(TurnsOf(Home(title), Alone), 1);
      && Forward(d, jobs, scripts) == (Between(title, a, s, c), [jobs[0]], false)
      && ForwardFits(d, jobs, scripts)
      && BackGoesThrough(Between(title, a, s, c), [jobs[0]], back)
      && Back(Between(title, a, s, c), [jobs[0]], back) == Start("a.ass", a, s, c)
  {
    hide MoveEpisode, Between, Start, GoesThrough, Fits, NewVideo, Second, AllTidy, Tidy;
    var jobs := [Job(OldVideo, NewVideo(title)), Job(Path(Here, "c.mkv"), Second(title))];
    var scripts := Scripts(TurnsOf(out, Script(Refused, [])), 2);
    var back := Scripts(TurnsOf(Home(title), Alone), 1);
    var d1 := Between(title, a, s, c);
    FirstReturns(title, a, s, c);
    RefusedMove(d1, jobs[1].src, jobs[1].dest);
    assert scripts == [out, Script(Refused, [])] && back == [Home(title)];
    assert jobs[1..] == [jobs[1]] && scripts[1..] == [scripts[1]] && jobs[1..][1..] == [] && scripts[1..][1..] == [];
    assert Forward(d1, jobs[1..], scripts[1..]) == (d1, [], false);
    assert [jobs[0]] + [] == [jobs[0]] && [jobs[0]][1..] == [] && back[1..] == [];
    NoneTidy();
    assert ForwardFits(MoveEpisode(d1, jobs[1].src, jobs[1].dest, scripts[1]).0, [], []);
    assert ForwardFits(d1, jobs[1..], scripts[1..]);
    assert BackGoesThrough(d1, [], []) && Back(d1, [], []) == d1;
  }

  lemma NoneTidy()
    ensures AllTidy([])
  {
  }

  /** The whole sort: the episode that had moved is put back, and the call ends in a conflict. */
  lemma SortGoesBack(title: string, d: Disk, out: Script, a: Content, s: Content, c: Content)
    requires MoveEpisode(d, OldVideo, NewVideo(title), out) == (Between(title, a, s, c), Some(NewVideo(title)))
    requires Fits(d, OldVideo, out) && Tidy(out.video) && AllTidy(out.companions)
    ensures
      var w := Shelf(title, d, a, c);
      && (forall i | i in Ids :: i in w.table.rows) && 0 in w.animes && 1 in w.folders
      && StopsAndGoesBack(w, 0, 1, Tasks(w.table.rows, Ids, Both), EnvOf(title, out).turns, EnvOf(title, out).back)
      && DifferentEpisodes(Tasks(w.table.rows, Ids, Both))
      && SortAnime(w, 0, 1, EnvOf(title, out)) == (w.(disk := Start("a.ass", a, s, c)), Conflict)
  {
    hide MoveEpisode, Forward, Back, ForwardFits, BackGoesThrough, Between, Start, Fits, AllTidy, Tidy, Tasks, Twins, TurnsOf, Jobs, NewVideo, Second, There;
    BothAreTasks(title, d, a, c);
    TheJobs(title);
    OneOutOneBack(title, d, out, a, s, c);
    Numerals();
    ThereIs(title, d, a, c);
  }

  lemma ThereIs(title: string, d: Disk, a: Content, c: Content)
    ensures 0 in Shelf(title, d, a, c).animes && 1 in Shelf(title, d, a, c).folders
    ensures NewDir(Shelf(title, d, a, c), 0, 1) == There(title)
  {
    hide Sanitize;
  }

  /** All that the theorems ask of a library holds of these. */
  lemma ShelfIsConsistent(title: string, d: Disk, a: Content, c: Content)
    requires d.Valid() && !d.foldCase && OldVideo in d.files && Path(Here, "c.mkv") in d.files
    ensures Inv(Shelf(title, d, a, c))
  {
    hide HasVideoExtension, Disk.Valid, OnDisk;
    IsThere(d, "a.mkv");
    IsThere(d, "c.mkv");
  }

  lemma IsThere(d: Disk, name: string)
    requires !d.foldCase && Path(Here, name) in d.files && name in ["a.mkv", "b.mp4", "c.mkv"]
    ensures OnDisk(d, Path(Here, name))
  {
    hide HasVideoExtension, Suffix, Extension, Stem;
    OldNames(name);
  }

  lemma StartsAreValid(title: string, subtitles: string, a: Content, s: Content, c: Content)
    requires subtitles in ["a.ass", "A.ass"]
    ensures Start(subtitles, a, s, c).Valid() && Foreign(title, a, s, c).Valid()
    ensures OldVideo in Start(subtitles, a, s, c).files && Path(Here, "c.mkv") in Start(subtitles, a, s, c).files && !Start(subtitles, a, s, c).foldCase
    ensures OldVideo in Foreign(title, a, s, c).files && Path(Here, "c.mkv") in Foreign(title, a, s, c).files && !Foreign(title, a, s, c).foldCase
  {
    hide New, There;
    SubtitlesDiffer(subtitles);
    PlacesDiffer(title);
  }

  lemma StartsDiffer(title: string, a: Content, s: Content, c: Content)
    ensures Start("A.ass", a, s, c) != Start("a.ass", a, s, c) && Foreign(title, a, s, c) != Start("a.ass", a, s, c)
  {
    hide New, There;
    SubtitlesDiffer("A.ass");
    SubtitlesDiffer("a.ass");
    assert "A.ass"[0] != "a.ass"[0];
    assert Path(Here, "a.ass") in Start("a.ass", a, s, c).files;
    assert Path(Here, "a.ass") !in Start("A.ass", a, s, c).files;
    PlacesDiffer(title);
    assert Path(Here, "a.ass") !in Foreign(title, a, s, c).files;
  }

  /** Three libraries that are one and the same when the second episode refuses to move, and
      so are all left alike by the way back: for the one whose subtitles are spelled like
      their video nothing has happened, ... */
  lemma TakenBackWithoutTrace(title: string, a: Content, s: Content, c: Content)
    ensures
      var w := Shelf(title, Start("a.ass", a, s, c), a, c);
      && Inv(w)
      && (forall i | i in Ids :: i in w.table.rows) && 1 in w.folders
      && SortAnime(w, 0, 1, EnvOf(title, Out("a.ass"))) == (w, Conflict)
  {
    hide MoveEpisode, Start, Between, Fits, AllTidy, Tidy, NewVideo, SortAnime, EnvOf, Inv, Disk.Valid;
    FirstGoes(title, "a.ass", a, s, c);
    StartsAreValid(title, "a.ass", a, s, c);
    ShelfIsConsistent(title, Start("a.ass", a, s, c), a, c);
    SmoothIsTidy();
    SortGoesBack(title, Start("a.ass", a, s, c), Out("a.ass"), a, s, c);
  }

  lemma SmoothIsTidy()
    ensures Tidy(Smooth)
  {
  }

  /** ... a companion spelled in another case comes back under another name, ... */
  lemma MisspelledIsRenamed(title: string, a: Content, s: Content, c: Content)
    ensures
      var w := Shelf(title, Start("A.ass", a, s, c), a, c);
      && Inv(w)
      && (forall i | i in Ids :: i in w.table.rows) && 1 in w.folders
      && SortAnime(w, 0, 1, EnvOf(title, Out("A.ass"))) == (w.(disk := Start("a.ass", a, s, c)), Conflict)
      && Start("a.ass", a, s, c) != w.disk
  {
    hide MoveEpisode, Start, Between, Fits, AllTidy, Tidy, NewVideo, SortAnime, EnvOf, Inv, Disk.Valid;
    FirstGoes(title, "A.ass", a, s, c);
    StartsAreValid(title, "A.ass", a, s, c);
    ShelfIsConsistent(title, Start("A.ass", a, s, c), a, c);
    SmoothIsTidy();
    SortGoesBack(title, Start("A.ass", a, s, c), Out("A.ass"), a, s, c);
    StartsDiffer(title, a, s, c);
  }

  /** ... and a stranger's file that carries the new name is carried off. */
  lemma ForeignIsCarriedOff(title: string, a: Content, s: Content, c: Content)
    ensures
      var w := Shelf(title, Foreign(title, a, s, c), a, c);
      && Inv(w)
      && (forall i | i in Ids :: i in w.table.rows) && 1 in w.folders
      && SortAnime(w, 0, 1, EnvOf(title, Alone)) == (w.(disk := Start("a.ass", a, s, c)), Conflict)
      && Start("a.ass", a, s, c) != w.disk
  {
    hide MoveEpisode, Start, Between, Foreign, Fits, AllTidy, Tidy, NewVideo, SortAnime, EnvOf, Inv, Disk.Valid;
    FirstGoesAlone(title, a, s, c);
    StartsAreValid(title, "a.ass", a, s, c);
    ShelfIsConsistent(title, Foreign(title, a, s, c), a, c);
    SmoothIsTidy();
    SortGoesBack(title, Foreign(title, a, s, c), Alone, a, s, c);
    StartsDiffer(title, a, s, c);
  }

  // ------------------------------------------------------------ two copies of one episode

  /** "a.mkv" with its subtitles, "b.mp4", a copy of the same episode, and "c.mkv", the
      second one. */
  function Copies(a: Content, s: Content, b: Content, c: Content): Disk {
    Disk(false, map[
      Path(Here, "a.mkv") := File("a.mkv", a, 0),
      Path(Here, "a.ass") := File("a.ass", s, 0),
      Path(Here, "b.mp4") := File("b.mp4", b, 0),
      Path(Here, "c.mkv") := File("c.mkv", c, 0)
    ])
  }

  function FirstAhead(title: string, a: Content, s: Content, b: Content, c: Content): Disk {
    Disk(false, map[
      Path(There(title), New(title, ".mkv")) := File(New(title, ".mkv"), a, 0),
      Path(Here, "a.ass") := File("a.ass", s, 0),
      Path(Here, "b.mp4") := File("b.mp4", b, 0),
      Path(Here, "c.mkv") := File("c.mkv", c, 0)
    ])
  }

  /** The first copy moved, with the subtitles. */
  function FirstAway(title: string, a: Content, s: Content, b: Content, c: Content): Disk {
    Disk(false, map[
      Path(There(title), New(title, ".mkv")) := File(New(title, ".mkv"), a, 0),
      Path(There(title), New(title, ".ass")) := File(New(title, ".ass"), s, 0),
      Path(Here, "b.mp4") := File("b.mp4", b, 0),
      Path(Here, "c.mkv") := File("c.mkv", c, 0)
    ])
  }

  /** Both moved. */
  function BothAway(title: string, a: Content, s: Content, b: Content, c: Content): Disk {
    Disk(false, map[
      Path(There(title), New(title, ".mkv")) := File(New(title, ".mkv"), a, 0),
      Path(There(title), New(title, ".ass")) := File(New(title, ".ass"), s, 0),
      Path(There(title), New(title, ".mp4")) := File(New(title, ".mp4"), b, 0),
      Path(Here, "c.mkv") := File("c.mkv", c, 0)
    ])
  }

  /** The second copy back, with what are now its subtitles. */
  function SecondBack(title: string, a: Content, s: Content, b: Content, c: Content): Disk {
    Disk(false, map[
      Path(There(title), New(title, ".mkv")) := File(New(title, ".mkv"), a, 0),
      Path(Here, "b.ass") := File("b.ass", s, 0),
      Path(Here, "b.mp4") := File("b.mp4", b, 0),
      Path(Here, "c.mkv") := File("c.mkv", c, 0)
    ])
  }

  /** Both back, the subtitles with the wrong one. */
  function Mixed(a: Content, s: Content, b: Content, c: Content): Disk {
    Disk(false, map[
      Path(Here, "a.mkv") := File("a.mkv", a, 0),
      Path(Here, "b.ass") := File("b.ass", s, 0),
      Path(Here, "b.mp4") := File("b.mp4", b, 0),
      Path(Here, "c.mkv") := File("c.mkv", c, 0)
    ])
  }

  const OldCopy := Path(Here, "b.mp4")

  function NewCopy(title: string): Path {
    Path(There(title), New(title, ".mp4"))
  }

  lemma NewNamesDiffer(title: string)
    ensures New(title, ".mkv") != New(title, ".ass") && New(title, ".ass") != New(title, ".mp4") && New(title, ".mp4") != New(title, ".mkv")
    ensures Here != There(title)
  {
    hide StemOf, There;
    PlacesDiffer(title);
    var n := |StemOf(title, "1")|;
    assert New(title, ".mkv")[n..] == ".mkv" && New(title, ".ass")[n..] == ".ass" && New(title, ".mp4")[n..] == ".mp4";
    assert ".mp4"[2] == 'p' && ".mkv"[2] == 'k' && ".ass"[2] == 's';
  }

  lemma FirstVideoOut(title: string, a: Content, s: Content, b: Content, c: Content)
    ensures MoveFile(Copies(a, s, b, c), OldVideo, NewVideo(title), Smooth) == (FirstAhead(title, a, s, b, c), Some(NewVideo(title)))
  {
    hide MoveFile, New, There;
    NewNamesDiffer(title);
    SmoothMove(Copies(a, s, b, c), OldVideo, NewVideo(title));
    assert MoveFile(Copies(a, s, b, c), OldVideo, NewVideo(title), Smooth).0.files == FirstAhead(title, a, s, b, c).files;
  }

  lemma SubtitlesOut(title: string, a: Content, s: Content, b: Content, c: Content)
    ensures MoveFile(FirstAhead(title, a, s, b, c), Path(Here, "a.ass"), Path(There(title), New(title, ".ass")), Smooth) == (FirstAway(title, a, s, b, c), Some(Path(There(title), New(title, ".ass"))))
  {
    hide MoveFile, New, There;
    NewNamesDiffer(title);
    SmoothMove(FirstAhead(title, a, s, b, c), Path(Here, "a.ass"), Path(There(title), New(title, ".ass")));
    assert MoveFile(FirstAhead(title, a, s, b, c), Path(Here, "a.ass"), Path(There(title), New(title, ".ass")), Smooth).0.files == FirstAway(title, a, s, b, c).files;
  }

  lemma SecondVideoOut(title: string, a: Content, s: Content, b: Content, c: Content)
    ensures MoveFile(FirstAway(title, a, s, b, c), OldCopy, NewCopy(title), Smooth) == (BothAway(title, a, s, b, c), Some(NewCopy(title)))
  {
    hide MoveFile, New, There;
    NewNamesDiffer(title);
    SmoothMove(FirstAway(title, a, s, b, c), OldCopy, NewCopy(title));
    assert MoveFile(FirstAway(title, a, s, b, c), OldCopy, NewCopy(title), Smooth).0.files == BothAway(title, a, s, b, c).files;
  }

  lemma SecondVideoBack(title: string, a: Content, s: Content, b: Content, c: Content)
    ensures MoveFile(BothAway(title, a, s, b, c), NewCopy(title), OldCopy, Smooth) == (FirstAway(title, a, s, b, c), Some(OldCopy))
  {
    hide MoveFile, New, There;
    NewNamesDiffer(title);
    SmoothMove(BothAway(title, a, s, b, c), NewCopy(title), OldCopy);
    assert MoveFile(BothAway(title, a, s, b, c), NewCopy(title), OldCopy, Smooth).0.files == FirstAway(title, a, s, b, c).files;
  }

  lemma SubtitlesBack(title: string, a: Content, s: Content, b: Content, c: Content)
    ensures MoveFile(FirstAway(title, a, s, b, c), Path(There(title), New(title, ".ass")), Path(Here, "b.ass"), Smooth) == (SecondBack(title, a, s, b, c), Some(Path(Here, "b.ass")))
  {
    hide MoveFile, New, There;
    NewNamesDiffer(title);
    SmoothMove(FirstAway(title, a, s, b, c), Path(There(title), New(title, ".ass")), Path(Here, "b.ass"));
    assert MoveFile(FirstAway(title, a, s, b, c), Path(There(title), New(title, ".ass")), Path(Here, "b.ass"), Smooth).0.files == SecondBack(title, a, s, b, c).files;
  }

  lemma FirstVideoBack(title: string, a: Content, s: Content, b: Content, c: Content)
    ensures MoveFile(SecondBack(title, a, s, b, c), NewVideo(title), OldVideo, Smooth) == (Mixed(a, s, b, c), Some(OldVideo))
  {
    hide MoveFile, New, There;
    NewNamesDiffer(title);
    SmoothMove(SecondBack(title, a, s, b, c), NewVideo(title), OldVideo);
    assert MoveFile(SecondBack(title, a, s, b, c), NewVideo(title), OldVideo, Smooth).0.files == Mixed(a, s, b, c).files;
  }

  lemma FirstCopyFollow(a: Content, s: Content, b: Content, c: Content)
    ensures Companions(Copies(a, s, b, c), OldVideo) == {Path(Here, "a.ass")}
  {
    hide IsCompanionName;
    OldCompanions("a.mkv", "a.mkv");
    OldCompanions("a.mkv", "a.ass");
    OldCompanions("a.mkv", "b.mp4");
    OldCompanions("a.mkv", "c.mkv");
    var p := Path(Here, "a.ass");
    assert p in Copies(a, s, b, c).files && Copies(a, s, b, c).files[p].name == "a.ass";
  }

  lemma WhatIsThere(title: string, a: Content, s: Content, b: Content, c: Content, p: Path)
    requires p in BothAway(title, a, s, b, c).files && p.dir == There(title)
    ensures BothAway(title, a, s, b, c).files[p].name == p.name
    ensures p.name == New(title, ".mkv") || p.name == New(title, ".ass") || p.name == New(title, ".mp4")
  {
    hide New, There;
    NewNamesDiffer(title);
  }

  lemma SecondCopyFollow(title: string, a: Content, s: Content, b: Content, c: Content)
    ensures Companions(BothAway(title, a, s, b, c), NewCopy(title)) == {Path(There(title), New(title, ".ass"))}
  {
    hide IsCompanionName, New, There, BothAway;
    NewCompanions(title, ".mp4", ".mkv");
    NewCompanions(title, ".mp4", ".mp4");
    NewCompanions(title, ".mp4", ".ass");
    var d, q := BothAway(title, a, s, b, c), Path(There(title), New(title, ".ass"));
    assert q in d.files by { SubtitlesThere(title, a, s, b, c); }
    forall p | p in d.files && p.dir == There(title) ensures d.files[p].name == p.name && (IsCompanionName(New(title, ".mp4"), p.name) ==> p == q) {
      WhatIsThere(title, a, s, b, c, p);
    }
    assert IsCompanionName(New(title, ".mp4"), d.files[q].name);
  }

  lemma SubtitlesThere(title: string, a: Content, s: Content, b: Content, c: Content)
    ensures Path(There(title), New(title, ".ass")) in BothAway(title, a, s, b, c).files
  {
    hide New, There;
  }

  lemma NobodyFollows(title: string, a: Content, s: Content, b: Content, c: Content)
    ensures Companions(SecondBack(title, a, s, b, c), NewVideo(title)) == {}
  {
    hide IsCompanionName, New, There;
    NewCompanions(title, ".mkv", ".mkv");
    NewNamesDiffer(title);
    forall p | p in SecondBack(title, a, s, b, c).files && p.dir == There(title) ensures p == NewVideo(title) {}
  }

  /** Out: the subtitles go with the first copy, as they should. */
  lemma CopiesGo(title: string, a: Content, s: Content, b: Content, c: Content)
    ensures MoveEpisode(Copies(a, s, b, c), OldVideo, NewVideo(title), Out("a.ass")) == (FirstAway(title, a, s, b, c), Some(NewVideo(title)))
    ensures Fits(Copies(a, s, b, c), OldVideo, Out("a.ass")) && AllTidy(Out("a.ass").companions)
    ensures MoveEpisode(FirstAway(title, a, s, b, c), OldCopy, NewCopy(title), Alone) == (BothAway(title, a, s, b, c), Some(NewCopy(title)))
    ensures Fits(FirstAway(title, a, s, b, c), OldCopy, Alone)
  {
    hide MoveFile, Companions, Copies, FirstAhead, FirstAway, BothAway, Stem, StemOf, There;
    FirstCopyFollow(a, s, b, c);
    ListsOne(Path(Here, "a.ass"));
    FirstVideoOut(title, a, s, b, c);
    SubtitlesOut(title, a, s, b, c);
    SecondVideoOut(title, a, s, b, c);
    OldNames("a.mkv");
    OldSubtitles("a.ass");
    NewName(title, ".mkv");
    var cs := Out("a.ass").companions;
    assert From("a.ass", 1) == ".ass" && Stem(NewVideo(title).name) + ".ass" == New(title, ".ass");
    assert CompanionTarget(OldVideo, NewVideo(title), cs[0].path) == Path(There(title), New(title, ".ass"));
    OneMovesAlong(FirstAhead(title, a, s, b, c), OldVideo, NewVideo(title), cs, FirstAway(title, a, s, b, c));
  }

  /** Back: they go with the second, which comes first. */
  lemma CopiesReturn(title: string, a: Content, s: Content, b: Content, c: Content)
    ensures GoesThrough(BothAway(title, a, s, b, c), NewCopy(title), OldCopy, Home(title))
    ensures MoveEpisode(BothAway(title, a, s, b, c), NewCopy(title), OldCopy, Home(title)).0 == SecondBack(title, a, s, b, c)
    ensures GoesThrough(SecondBack(title, a, s, b, c), NewVideo(title), OldVideo, Alone)
    ensures MoveEpisode(SecondBack(title, a, s, b, c), NewVideo(title), OldVideo, Alone).0 == Mixed(a, s, b, c)
  {
    hide MoveFile, Companions, BothAway, FirstAway, SecondBack, Mixed, Stem, StemOf, There;
    SecondCopyFollow(title, a, s, b, c);
    NobodyFollows(title, a, s, b, c);
    ListsOne(Path(There(title), New(title, ".ass")));
    SecondVideoBack(title, a, s, b, c);
    SubtitlesBack(title, a, s, b, c);
    FirstVideoBack(title, a, s, b, c);
    OldNames("b.mp4");
    NewName(title, ".mp4");
    NoneTidy();
    var cs := Home(title).companions;
    assert New(title, ".ass")[|StemOf(title, "1")|..] == ".ass" && "b" + ".ass" == "b.ass" && "b.mp4"[..1] == "b";
    assert CompanionTarget(NewCopy(title), OldCopy, cs[0].path) == Path(Here, "b.ass");
    OneMovesAlong(FirstAway(title, a, s, b, c), NewCopy(title), OldCopy, cs, SecondBack(title, a, s, b, c));
    assert Paths([]) == {};
  }

  const ThreeIds: seq<nat> := [0, 1, 2]

  function ThreeRows(a: Content, b: Content, c: Content): Table {
    Table(map[
      0 := Row(0, OldVideo, Some("1"), false, |a|, 0),
      1 := Row(0, OldCopy, Some("1"), false, |b|, 0),
      2 := Row(0, Path(Here, "c.mkv"), Some("2"), false, |c|, 0)
    ], 3)
  }

  function CopyShelf(title: string, d: Disk, a: Content, b: Content, c: Content): World {
    World(d, Folders, map[0 := Show(title)], ThreeRows(a, b, c))
  }

  function ThreeTurns(first: Script, second: Script, third: Script): nat -> Turn {
    k => Turn(if k == 0 then first else if k == 1 then second else third, true)
  }

  function CopyEnv(title: string): SortEnv {
    SortEnv(ThreeIds, true, ThreeTurns(Out("a.ass"), Alone, Script(Refused, [])), ThreeTurns(Alone, Home(title), Alone), 0, [])
  }

  function CopyTasks(): seq<Task>
    requires IsNumeral("1") && IsNumeral("2")
  {
    [Task(0, OldVideo, Both[0]), Task(1, OldCopy, Both[0]), Task(2, Path(Here, "c.mkv"), Both[1])]
  }

  lemma CopiesAreTasks(title: string, d: Disk, a: Content, b: Content, c: Content)
    ensures (forall i | i in ThreeIds :: i in ThreeRows(a, b, c).rows) && IsNumeral("1") && IsNumeral("2")
    ensures Tasks(ThreeRows(a, b, c).rows, ThreeIds, Both) == CopyTasks()
    ensures Twins(CopyShelf(title, d, a, b, c), 7, 1) == {}
  {
    hide Match;
    Numerals();
    Matches();
    assert ThreeIds[1..] == [1, 2] && [1, 2][1..] == [2] && [2][1..] == [];
    var rows := ThreeRows(a, b, c).rows;
    assert Tasks(rows, [], Both) == [];
    assert Tasks(rows, [2], Both) == [CopyTasks()[2]];
    assert Tasks(rows, [1, 2], Both) == [CopyTasks()[1], CopyTasks()[2]];
  }

  function CopyJobs(title: string): seq<Job>
    requires IsNumeral("2")
  {
    [Job(OldVideo, NewVideo(title)), Job(OldCopy, NewCopy(title)), Job(Path(Here, "c.mkv"), Second(title))]
  }

  lemma TheCopyJobs(title: string)
    requires IsNumeral("1") && IsNumeral("2")
    ensures Jobs(There(title), title, CopyTasks()) == CopyJobs(title)
  {
    hide Target, There, StemOf;
    SentTo(title, 0, "a.mkv", false);
    SentTo(title, 1, "b.mp4", false);
    SentTo(title, 2, "c.mkv", true);
  }

  lemma TwoOutTwoBack(title: string, a: Content, s: Content, b: Content, c: Content)
    requires IsNumeral("2")
    ensures
      var jobs, moves := CopyJobs(title), CopyJobs(title)[..2];
      var scripts, back := Scripts(CopyEnv(title).turns, 3), Scripts(CopyEnv(title).back, 2);
      && Forward(Copies(a, s, b, c), jobs, scripts) == (BothAway(title, a, s, b, c), moves, false)
      && ForwardFits(Copies(a, s, b, c), jobs, scripts)
      && BackGoesThrough(BothAway(title, a, s, b, c), moves, back)
      && Back(BothAway(title, a, s, b, c), moves, back) == Mixed(a, s, b, c)
  {
    hide MoveEpisode, Copies, FirstAway, BothAway, SecondBack, Mixed, GoesThrough, Fits, NewVideo, NewCopy, Second, AllTidy, Tidy;
    var jobs, moves := CopyJobs(title), CopyJobs(title)[..2];
    var scripts, back := Scripts(CopyEnv(title).turns, 3), Scripts(CopyEnv(title).back, 2);
    var d0, d1, d2 := Copies(a, s, b, c), FirstAway(title, a, s, b, c), BothAway(title, a, s, b, c);
    CopiesGo(title, a, s, b, c);
    CopiesReturn(title, a, s, b, c);
    RefusedMove(d2, jobs[2].src, jobs[2].dest);
    SmoothIsTidy();
    NoneTidy();
    assert scripts == [Out("a.ass"), Alone, Script(Refused, [])] && back == [Alone, Home(title)];
    assert jobs[1..] == [jobs[1], jobs[2]] && jobs[1..][1..] == [jobs[2]] && jobs[1..][1..][1..] == [];
    assert scripts[1..] == [Alone, Script(Refused, [])] && scripts[1..][1..] == [Script(Refused, [])] && scripts[1..][1..][1..] == [];
    assert Forward(d2, jobs[1..][1..], scripts[1..][1..]) == (d2, [], false);
    assert ForwardFits(MoveEpisode(d2, jobs[2].src, jobs[2].dest, Script(Refused, [])).0, [], []);
    assert ForwardFits(d2, jobs[1..][1..], scripts[1..][1..]);
    assert [jobs[1]] + [] == [jobs[1]];
    assert Forward(d1, jobs[1..], scripts[1..]) == (d2, [jobs[1]], false) && ForwardFits(d1, jobs[1..], scripts[1..]);
    assert [jobs[0]] + [jobs[1]] == moves;
    assert moves[1..] == [jobs[1]] && moves[1..][1..] == [] && back[1..] == [Home(title)] && back[1..][1..] == [];
    assert Back(d2, [], []) == d2 && BackGoesThrough(d2, [], []);
    assert Back(d2, moves[1..], back[1..]) == SecondBack(title, a, s, b, c) && BackGoesThrough(d2, moves[1..], back[1..]);
  }

  lemma CopiesAreValid(a: Content, s: Content, b: Content, c: Content)
    ensures
      var d := Copies(a, s, b, c);
      d.Valid() && !d.foldCase && OldVideo in d.files && OldCopy in d.files && Path(Here, "c.mkv") in d.files
  {
  }

  lemma CopyShelfIsConsistent(title: string, d: Disk, a: Content, b: Content, c: Content)
    requires d.Valid() && !d.foldCase && OldVideo in d.files && OldCopy in d.files && Path(Here, "c.mkv") in d.files
    ensures Inv(CopyShelf(title, d, a, b, c))
  {
    hide HasVideoExtension, Disk.Valid, OnDisk;
    IsThere(d, "a.mkv");
    IsThere(d, "b.mp4");
    IsThere(d, "c.mkv");
  }

  lemma MixedUp(a: Content, s: Content, b: Content, c: Content)
    ensures Mixed(a, s, b, c) != Copies(a, s, b, c)
  {
    assert Path(Here, "b.ass") in Mixed(a, s, b, c).files && Path(Here, "b.ass") !in Copies(a, s, b, c).files;
  }

  /** Two copies of one episode, told apart by their extensions only, share their stem and
      so their companions. When the next episode refuses to move, everything goes back, every
      single move going through; yet the first copy's subtitles end up with the second. */
  lemma SharedStemIsNotUndone(title: string, a: Content, s: Content, b: Content, c: Content)
    ensures
      var w := CopyShelf(title, Copies(a, s, b, c), a, b, c);
      && Inv(w)
      && (forall i | i in ThreeIds :: i in w.table.rows) && 0 in w.animes && 1 in w.folders
      && StopsAndGoesBack(w, 0, 1, Tasks(w.table.rows, ThreeIds, Both), CopyEnv(title).turns, CopyEnv(title).back)
      && SortAnime(w, 0, 1, CopyEnv(title)) == (w.(disk := Mixed(a, s, b, c)), Conflict)
      && Mixed(a, s, b, c) != w.disk
  {
    hide MoveEpisode, Forward, Back, ForwardFits, BackGoesThrough, Copies, BothAway, Mixed, Tasks, Twins, CopyTasks, ThreeTurns, Jobs, CopyJobs, There, Inv;
    CopiesAreValid(a, s, b, c);
    CopyShelfIsConsistent(title, Copies(a, s, b, c), a, b, c);
    CopiesAreTasks(title, Copies(a, s, b, c), a, b, c);
    TheCopyJobs(title);
    TwoOutTwoBack(title, a, s, b, c);
    MixedUp(a, s, b, c);
    CopyNewDir(title, Copies(a, s, b, c), a, b, c);
    ThreeAndTwo(title);
  }

  lemma ThreeAndTwo(title: string)
    requires IsNumeral("1") && IsNumeral("2")
    ensures |CopyTasks()| == 3 && |CopyJobs(title)[..2]| == 2
  {
  }

  lemma CopyNewDir(title: string, d: Disk, a: Content, b: Content, c: Content)
    ensures 0 in CopyShelf(title, d, a, b, c).animes && 1 in CopyShelf(title, d, a, b, c).folders
    ensures NewDir(CopyShelf(title, d, a, b, c), 0, 1) == There(title)
  {
    hide Sanitize;
  }
}
