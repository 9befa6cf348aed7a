/** Relocating an anime moves its episodes one after another and, when one cannot be
    moved, puts those already moved back in reverse order. This module proves for one
    episode exactly when moving it back undoes moving it: the disk is then, file for file,
    what it was. */
module Rollback {
  import opened Text
  import opened Numbering
  import opened Disk
  import opened Episodes

  // ------------------------------------------------------------ shifting a family of files

  /** The file that carries `tail` after the stem `base.name` in `base.dir`. */
  function At(base: Path, tail: string): Path {
    Path(base.dir, base.name + tail)
  }

  function Slots(d: Disk, base: Path, tails: set<string>): set<Path> {
    set t | t in tails :: d.Slot(At(base, t))
  }

  /** The files `a + t` are there, spelled so, and the places `b + t` are free. */
  ghost predicate Ready(d: Disk, a: Path, b: Path, tails: set<string>) {
    && a.dir != b.dir
    && forall t | t in tails ::
         && d.Exists(At(a, t)) && d.FileAt(At(a, t)).name == a.name + t
         && !d.Exists(At(b, t))
  }

  /** From `d` to `d'`, exactly the files `a + t` have become `b + t`. */
  ghost predicate IsShift(d: Disk, d': Disk, a: Path, b: Path, tails: set<string>) {
    && d'.foldCase == d.foldCase
    && (forall t | t in tails ::
         && d.Exists(At(a, t)) && d'.Exists(At(b, t))
         && d'.FileAt(At(b, t)) == d.FileAt(At(a, t)).(name := b.name + t))
    && (forall s | s !in Slots(d, b, tails) ::
         (s in d'.files <==> s in d.files && s !in Slots(d, a, tails))
         && (s in d'.files ==> d'.files[s] == d.files[s]))
  }

  /** Tails of files spelled alike are told apart by their slots, at either base. */
  lemma SlotsTellTails(d: Disk, a: Path, b: Path, tails: set<string>, t: string, u: string)
    requires Ready(d, a, b, tails) && t in tails && u in tails && t != u
    ensures d.Slot(At(a, t)) != d.Slot(At(a, u))
    ensures d.Slot(At(b, t)) != d.Slot(At(b, u))
  {
    assert a.name + t != a.name + u by {
      assert (a.name + t)[|a.name|..] == t;
      assert (a.name + u)[|a.name|..] == u;
    }
    SpellConcat(d.foldCase, a.name, t);
    SpellConcat(d.foldCase, a.name, u);
    SpellConcat(d.foldCase, b.name, t);
    SpellConcat(d.foldCase, b.name, u);
    assert Spell(d.foldCase, t) != Spell(d.foldCase, u);
    assert Spell(d.foldCase, b.name + t)[|b.name|..] == Spell(d.foldCase, t);
    assert Spell(d.foldCase, b.name + u)[|b.name|..] == Spell(d.foldCase, u);
  }

  lemma NothingShifted(d: Disk, a: Path, b: Path)
    ensures IsShift(d, d, a, b, {})
  {
  }

  lemma ShiftGrows(d: Disk, dk: Disk, d': Disk, a: Path, b: Path, tails: set<string>, t: string)
    requires IsShift(d, dk, a, b, tails)
    requires d.Exists(At(a, t)) && !d.Exists(At(b, t)) && a.dir != b.dir
    requires d.Slot(At(a, t)) !in Slots(d, a, tails) && d.Slot(At(b, t)) !in Slots(d, b, tails)
    requires dk.Exists(At(a, t)) && d'.foldCase == dk.foldCase
    requires d'.files == (dk.files - {dk.Slot(At(a, t))})[dk.Slot(At(b, t)) := dk.FileAt(At(a, t)).(name := b.name + t)]
    ensures IsShift(d, d', a, b, tails + {t})
  {
    hide Spell, At;
    SlotsGrow(d, a, tails, t);
    SlotsGrow(d, b, tails, t);
    assert d.Slot(At(a, t)).dir == a.dir && d.Slot(At(b, t)).dir == b.dir by { AtDir(a, t); AtDir(b, t); }
    SlotsLieIn(d, b, tails);
    forall u | u in tails + {t}
      ensures d.Exists(At(a, u)) && d'.Exists(At(b, u)) && d'.FileAt(At(b, u)) == d.FileAt(At(a, u)).(name := b.name + u)
    {
      if u != t { TailStays(d, dk, d', a, b, tails, t, u); }
    }
  }

  lemma AtDir(base: Path, t: string)
    ensures At(base, t).dir == base.dir
  {
  }

  lemma SlotsGrow(d: Disk, base: Path, tails: set<string>, t: string)
    ensures Slots(d, base, tails + {t}) == Slots(d, base, tails) + {d.Slot(At(base, t))}
  {
    hide Spell, At;
  }

  lemma SlotsLieIn(d: Disk, base: Path, tails: set<string>)
    ensures forall s | s in Slots(d, base, tails) :: s.dir == base.dir
  {
    hide Spell;
  }

  /** One that has moved stays where it is while another moves. */
  lemma TailStays(d: Disk, dk: Disk, d': Disk, a: Path, b: Path, tails: set<string>, t: string, u: string)
    requires IsShift(d, dk, a, b, tails) && u in tails && a.dir != b.dir
    requires d.Slot(At(b, t)) !in Slots(d, b, tails) && d'.foldCase == dk.foldCase && dk.Exists(At(a, t))
    requires d'.files == (dk.files - {dk.Slot(At(a, t))})[dk.Slot(At(b, t)) := dk.FileAt(At(a, t)).(name := b.name + t)]
    ensures d.Exists(At(a, u)) && d'.Exists(At(b, u)) && d'.FileAt(At(b, u)) == d.FileAt(At(a, u)).(name := b.name + u)
  {
    hide Spell;
    assert d.Slot(At(b, u)) in Slots(d, b, tails);
    assert d.Slot(At(b, u)) != d.Slot(At(b, t)) && d.Slot(At(b, u)) != d.Slot(At(a, t));
  }

  lemma FreshTail(d: Disk, a: Path, b: Path, all: set<string>, tails: set<string>, t: string)
    requires Ready(d, a, b, all) && tails <= all && t in all && t !in tails
    ensures d.Slot(At(a, t)) !in Slots(d, a, tails) && d.Slot(At(b, t)) !in Slots(d, b, tails)
  {
    forall u | u in tails ensures d.Slot(At(a, t)) != d.Slot(At(a, u)) && d.Slot(At(b, t)) != d.Slot(At(b, u)) {
      SlotsTellTails(d, a, b, all, t, u);
    }
  }

  /** One more file of the family moves: it lands where it was sent. */
  lemma ShiftOneMore(d: Disk, dk: Disk, a: Path, b: Path, all: set<string>, tails: set<string>, t: string, f: Fates)
    requires Ready(d, a, b, all) && tails <= all && t in all && t !in tails
    requires IsShift(d, dk, a, b, tails)
    requires MoveFile(dk, At(a, t), At(b, t), f).1.Some?
    ensures MoveFile(dk, At(a, t), At(b, t), f).1 == Some(At(b, t))
    ensures IsShift(d, MoveFile(dk, At(a, t), At(b, t), f).0, a, b, tails + {t})
  {
    hide MoveFile, Spell, Stem, Suffix, Numbered, LowestFree;
    FreshTail(d, a, b, all, tails, t);
    MoveSucceeded(dk, At(a, t), At(b, t), f);
    assert !dk.Exists(At(b, t));
    assert dk.Dedupe(At(a, t), At(b, t)) == At(b, t);
    ShiftGrows(d, dk, MoveFile(dk, At(a, t), At(b, t), f).0, a, b, tails, t);
  }

  /** After a shift everything is ready for the shift back ... */
  lemma ReadyToReturn(d: Disk, d': Disk, a: Path, b: Path, all: set<string>, tails: set<string>)
    requires Ready(d, a, b, all) && tails <= all && IsShift(d, d', a, b, tails)
    ensures Ready(d', b, a, tails)
  {
  }

  /** ... which restores the disk. */
  lemma ShiftThereAndBack(d: Disk, d1: Disk, d2: Disk, a: Path, b: Path, all: set<string>, tails: set<string>)
    requires Ready(d, a, b, all) && tails <= all
    requires IsShift(d, d1, a, b, tails) && IsShift(d1, d2, b, a, tails)
    ensures d2 == d
  {
    hide Ready, IsShift, Slots, Spell;
    forall s ensures s in d2.files <==> s in d.files
             ensures s in d2.files ==> d2.files[s] == d.files[s] {
      SlotThereAndBack(d, d1, d2, a, b, all, tails, s);
    }
    ShiftFoldsAlike(d, d1, a, b, tails);
    ShiftFoldsAlike(d1, d2, b, a, tails);
    assert d2.files == d.files;
  }

  lemma ShiftFoldsAlike(d: Disk, d': Disk, a: Path, b: Path, tails: set<string>)
    requires IsShift(d, d', a, b, tails)
    ensures d'.foldCase == d.foldCase
  {
  }

  lemma SlotThereAndBack(d: Disk, d1: Disk, d2: Disk, a: Path, b: Path, all: set<string>, tails: set<string>, s: Path)
    requires Ready(d, a, b, all) && tails <= all
    requires IsShift(d, d1, a, b, tails) && IsShift(d1, d2, b, a, tails)
    ensures s in d2.files <==> s in d.files
    ensures s in d2.files ==> d2.files[s] == d.files[s]
  {
    hide Spell;
    assert Slots(d1, a, tails) == Slots(d, a, tails) && Slots(d1, b, tails) == Slots(d, b, tails);
    if s in Slots(d, a, tails) {
      var t :| t in tails && s == d.Slot(At(a, t));
      assert d2.FileAt(At(a, t)) == d1.FileAt(At(b, t)).(name := a.name + t);
    } else if s in Slots(d, b, tails) {
      var t :| t in tails && s == d.Slot(At(b, t));
      assert !d.Exists(At(b, t));
    }
  }

  // ------------------------------------------------------------ one episode

  function Base(p: Path): Path {
    Path(p.dir, Stem(p.name))
  }

  /** Every listed companion actually moves. */
  predicate AllFollow(d: Disk, src: Path, to: Path, cs: seq<CompanionMove>)
    decreases |cs|
  {
    cs == [] ||
    var (d', r) := MoveFile(d, cs[0].path, CompanionTarget(src, to, cs[0].path), cs[0].fates);
    r.Some? && AllFollow(d', src, to, cs[1..])
  }

  /** The listed companions that move. */
  function Followers(d: Disk, src: Path, to: Path, cs: seq<CompanionMove>): (moved: seq<CompanionMove>)
    ensures forall c | c in moved :: c in cs
    decreases |cs|
  {
    if cs == [] then []
    else
      var (d', r) := MoveFile(d, cs[0].path, CompanionTarget(src, to, cs[0].path), cs[0].fates);
      var rest := Followers(d', src, to, cs[1..]);
      if r.Some? then [cs[0]] + rest else rest
  }

  lemma {:induction false} AllFollowAll(d: Disk, src: Path, to: Path, cs: seq<CompanionMove>)
    requires AllFollow(d, src, to, cs)
    ensures Followers(d, src, to, cs) == cs
    decreases |cs|
  {
    hide MoveFile;
    if cs != [] {
      AllFollowAll(MoveFile(d, cs[0].path, CompanionTarget(src, to, cs[0].path), cs[0].fates).0, src, to, cs[1..]);
      assert cs == [cs[0]] + cs[1..];
    }
  }

  predicate AllTidy(cs: seq<CompanionMove>) {
    forall c | c in cs :: Tidy(c.fates)
  }

  /** What follows the stem in a companion's name. */
  function TailOf(src: Path, c: CompanionMove): string {
    From(c.path.name, |Stem(src.name)|)
  }

  function TailsOf(src: Path, cs: seq<CompanionMove>): set<string> {
    set c | c in cs :: TailOf(src, c)
  }

  /** Spelled with the stem as the video has it. */
  predicate AtTail(src: Path, c: CompanionMove) {
    c.path == At(Base(src), TailOf(src, c))
  }

  /** Of the companions that move, each is one of the family and none is the same as
      another or as those that have moved before. */
  predicate FamilyMoves(src: Path, all: set<string>, tails: set<string>, moved: seq<CompanionMove>) {
    forall c | c in moved :: AtTail(src, c) && TailOf(src, c) in all - tails
  }

  lemma {:induction false} CompanionsShift(d: Disk, dk: Disk, src: Path, to: Path, all: set<string>, tails: set<string>, cs: seq<CompanionMove>)
    requires Ready(d, Base(src), Base(to), all) && tails <= all
    requires IsShift(d, dk, Base(src), Base(to), tails)
    requires Distinct(cs) && AllTidy(cs)
    requires FamilyMoves(src, all, tails, Followers(dk, src, to, cs))
    ensures IsShift(d, MoveCompanions(dk, src, to, cs), Base(src), Base(to), tails + TailsOf(src, Followers(dk, src, to, cs)))
    decreases |cs|
  {
    hide MoveFile, Spell, Stem, Suffix, IsShift, Ready, FamilyMoves;
    if cs == [] {
      NoTails(src, tails);
    } else {
      var (d', r) := MoveFile(dk, cs[0].path, CompanionTarget(src, to, cs[0].path), cs[0].fates);
      var rest := Followers(d', src, to, cs[1..]);
      assert cs[0] in cs;
      RestDistinct(cs);
      if r.Some? {
        var t := TailOf(src, cs[0]);
        FirstFollows(src, all, tails, cs, rest);
        assert CompanionTarget(src, to, cs[0].path) == At(Base(to), t);
        ShiftOneMore(d, dk, Base(src), Base(to), all, tails, t, cs[0].fates);
        CompanionsShift(d, d', src, to, all, tails + {t}, cs[1..]);
        assert tails + TailsOf(src, [cs[0]] + rest) == (tails + {t}) + TailsOf(src, rest) by { OneMoreTail(src, cs[0], rest); }
      } else {
        MoveFailed(dk, cs[0].path, CompanionTarget(src, to, cs[0].path), cs[0].fates);
        CompanionsShift(d, d', src, to, all, tails, cs[1..]);
      }
    }
  }

  lemma NoTails(src: Path, tails: set<string>)
    ensures tails + TailsOf(src, []) == tails
  {
  }

  lemma OneMoreTail(src: Path, c: CompanionMove, rest: seq<CompanionMove>)
    ensures TailsOf(src, [c] + rest) == {TailOf(src, c)} + TailsOf(src, rest)
  {
    hide TailOf;
    assert c in [c] + rest && forall e | e in rest :: e in [c] + rest;
  }

  lemma RestDistinct(cs: seq<CompanionMove>)
    requires cs != [] && Distinct(cs) && AllTidy(cs)
    ensures Distinct(cs[1..]) && AllTidy(cs[1..])
    ensures forall e | e in cs[1..] :: e.path != cs[0].path
  {
    forall e | e in cs[1..] ensures e.path != cs[0].path {
      var i :| 0 <= i < |cs[1..]| && cs[1..][i] == e;
      assert cs[i + 1].path != cs[0].path;
    }
  }

  lemma FirstFollows(src: Path, all: set<string>, tails: set<string>, cs: seq<CompanionMove>, rest: seq<CompanionMove>)
    requires cs != [] && FamilyMoves(src, all, tails, [cs[0]] + rest)
    requires forall e | e in rest :: e in cs[1..]
    requires forall e | e in cs[1..] :: e.path != cs[0].path
    ensures AtTail(src, cs[0]) && TailOf(src, cs[0]) in all - tails
    ensures FamilyMoves(src, all, tails + {TailOf(src, cs[0])}, rest)
  {
    hide TailOf;
    assert cs[0] in [cs[0]] + rest;
    forall e | e in rest ensures AtTail(src, e) && TailOf(src, e) in all - (tails + {TailOf(src, cs[0])}) {
      assert e in [cs[0]] + rest;
    }
  }

  /** The companions a move of the episode takes along. */
  function Along(d: Disk, src: Path, dest: Path, script: Script): seq<CompanionMove> {
    Followers(MoveFile(d, src, dest, script.video).0, src, d.Dedupe(src, dest), script.companions)
  }

  /** The tails a move of the episode takes along, the video's first. */
  function TailsAlong(d: Disk, src: Path, dest: Path, script: Script): set<string> {
    {Suffix(src.name)} + TailsOf(src, Along(d, src, dest, script))
  }

  /** Being sent where a file lands anyway makes no difference. */
  lemma SentWhereItLands(d: Disk, src: Path, dest: Path, f: Fates)
    ensures MoveFile(d, src, d.Dedupe(src, dest), f) == MoveFile(d, src, dest, f)
  {
    hide Spell, LowestFree, Stem, Suffix, Numbered, Prefix, Discard;
    assert d.Dedupe(src, d.Dedupe(src, dest)) == d.Dedupe(src, dest);
  }

  /** A successful move of an episode shifts the video and the companions that could
      follow, if those are spelled like it and their places are free. */
  lemma EpisodeShifts(d: Disk, src: Path, dest: Path, script: Script)
    requires HasVideoExtension(src.name) && MoveEpisode(d, src, dest, script).1.Some?
    requires
      var to := d.Dedupe(src, dest);
      && Stem(to.name) != "" && to.name == Stem(to.name) + Suffix(src.name)
      && Ready(d, Base(src), Base(to), TailsAlong(d, src, dest, script))
    requires Distinct(script.companions) && AllTidy(script.companions)
    requires forall c | c in Along(d, src, dest, script) :: AtTail(src, c) && TailOf(src, c) != Suffix(src.name)
    ensures MoveEpisode(d, src, dest, script).1 == Some(d.Dedupe(src, dest))
    ensures IsShift(d, MoveEpisode(d, src, dest, script).0, Base(src), Base(d.Dedupe(src, dest)), TailsAlong(d, src, dest, script))
  {
    hide HasVideoExtension, Spell, Stem, Suffix, MoveFile, Ready, IsShift, Disk.Dedupe, Followers;
    var to := d.Dedupe(src, dest);
    var suffix := Suffix(src.name);
    var all := TailsAlong(d, src, dest, script);
    MoveSucceeded(d, src, dest, script.video);
    SentWhereItLands(d, src, dest, script.video);
    VideoHasExtension(src.name);
    assert src == At(Base(src), suffix) && to == At(Base(to), suffix);
    NothingShifted(d, Base(src), Base(to));
    ShiftOneMore(d, d, Base(src), Base(to), all, {}, suffix, script.video);
    assert {} + {suffix} == {suffix};
    var after := MoveFile(d, src, dest, script.video).0;
    assert FamilyMoves(src, all, {suffix}, Along(d, src, dest, script));
    CompanionsShift(d, after, src, to, all, {suffix}, script.companions);
  }

  lemma SameKind(a: string, b: string)
    requires Suffix(a) == Suffix(b)
    ensures HasVideoExtension(a) == HasVideoExtension(b)
  {
  }

  // ------------------------------------------------------------ one episode, there and back

  lemma DotStemIsPrefix(stem: string, tail: string)
    requires tail != "" && tail[0] == '.'
    ensures Lower(stem) + "." <= Lower(stem + tail)
  {
    LowerConcat(stem, tail);
    assert Lower(tail)[0] == '.';
    assert Lower(stem + tail)[..|stem| + 1] == Lower(stem) + ".";
  }

  lemma SameSlotSameFold(d: Disk, p: Path, q: Path)
    requires d.Slot(p) == d.Slot(q)
    ensures Lower(p.name) == Lower(q.name)
  {
  }

  lemma BuiltCompanion(dest: string, src: string, t: string)
    requires Stem(dest) != "" && dest == Stem(dest) + Suffix(src)
    requires Stem(src) != "" && t != "" && t[0] == '.' && t != Suffix(src) && !HasVideoExtension(Stem(src) + t)
    ensures IsCompanionName(dest, Stem(dest) + t)
  {
    hide Lower;
    var name := Stem(dest) + t;
    DotStemIsPrefix(Stem(dest), t);
    assert name[|Stem(dest)|..] == t && dest[|Stem(dest)|..] == Suffix(src);
    SuffixIgnoresStem(Stem(src), Stem(dest), t);
  }

  /** The compensating move goes through in full: the directory can be listed, and the
      video and every companion can be moved. */
  predicate GoesThrough(d: Disk, src: Path, dest: Path, script: Script) {
    && Distinct(script.companions) && AllTidy(script.companions)
    && Paths(script.companions) == Companions(d, src)
    && var (moved, r) := MoveFile(d, src, dest, script.video);
       r.Some? && AllFollow(moved, src, r.value, script.companions)
  }

  /** No file in the directory is, by the rule companions are found by, one of the name's. */
  predicate Companionless(d: Disk, at: Path) {
    forall s | s in d.files && s.dir == at.dir :: !IsCompanionName(at.name, d.files[s].name)
  }

  /** What it takes for an episode to travel and come back without a trace: it and the
      companions that come along are spelled on disk as the name says, and where it lands
      no file that is there already could be taken for a companion of it. */
  predicate LeavesNoTrace(d: Disk, src: Path, dest: Path, script: Script)
    requires d.Exists(src)
  {
    && d.FileAt(src).name == src.name
    && (forall c | c in Along(d, src, dest, script) :: Stem(src.name) <= c.path.name)
    && Companionless(d, d.Dedupe(src, dest))
  }

  /** A video on its way to another directory, keeping its suffix. */
  predicate Travels(src: Path, dest: Path) {
    && HasVideoExtension(src.name) && Suffix(dest.name) == Suffix(src.name) && src.dir != dest.dir
  }

  lemma LandsAsVideo(d: Disk, src: Path, dest: Path)
    requires Travels(src, dest)
    ensures
      var to := d.Dedupe(src, dest);
      && to.dir == dest.dir && Suffix(to.name) == Suffix(src.name) && HasVideoExtension(to.name)
      && Stem(to.name) != "" && to.name == Stem(to.name) + Suffix(src.name)
  {
    hide HasVideoExtension, Spell, Stem, Suffix, Disk.Dedupe;
    VideoHasExtension(src.name);
    SameKind(src.name, dest.name);
    DedupeKeepsKind(d, src, dest);
    VideoHasExtension(d.Dedupe(src, dest).name);
  }

  /** What the directory lists is there, and is what it says. */
  lemma ListedCompanion(d: Disk, src: Path, script: Script, c: CompanionMove)
    requires d.Valid() && Fits(d, src, script) && c in script.companions
    ensures c.path in Companions(d, src) && c.path.dir == src.dir && IsCompanionName(src.name, c.path.name)
    ensures d.Exists(c.path) && d.FileAt(c.path).name == c.path.name
  {
    hide Spell, HasVideoExtension, Stem;
    assert c.path in Paths(script.companions);
    var s :| s in d.files && s.dir == src.dir && IsCompanionName(src.name, d.files[s].name) && c.path == Path(s.dir, d.files[s].name);
    assert d.Slot(c.path) == s;
  }

  lemma FoldKeepsKind(a: string, b: string)
    requires Lower(a) == Lower(b)
    ensures HasVideoExtension(a) == HasVideoExtension(b)
  {
    hide HasVideoExtension, Lower;
    SpellKeepsKind(true, a);
    SpellKeepsKind(true, b);
  }

  /** A taken place for a companion means that somebody claims to be one. */
  lemma TakenIsClaimed(d: Disk, at: Path, tail: string)
    requires d.Valid() && HasVideoExtension(at.name) && d.Exists(At(Base(at), tail))
    requires tail != "" && tail[0] == '.' && !HasVideoExtension(Stem(at.name) + tail)
    ensures !Companionless(d, at)
  {
    hide HasVideoExtension, Lower, Stem, Spell;
    var p := At(Base(at), tail);
    var name := d.FileAt(p).name;
    DotStemIsPrefix(Stem(at.name), tail);
    SameSlotSameFold(d, Path(p.dir, name), p);
    FoldKeepsKind(name, p.name);
    assert IsCompanionName(at.name, name);
    assert d.Slot(p) in d.files;
  }

  /** A companion that is spelled like its video. */
  lemma SpelledAtTail(src: Path, c: CompanionMove)
    requires HasVideoExtension(src.name) && c.path.dir == src.dir && IsCompanionName(src.name, c.path.name) && Stem(src.name) <= c.path.name
    ensures AtTail(src, c) && c.path.name == Stem(src.name) + TailOf(src, c)
    ensures TailOf(src, c) != "" && TailOf(src, c)[0] == '.' && TailOf(src, c) != Suffix(src.name)
  {
    hide HasVideoExtension, Stem, Suffix;
    CompanionTail(src.name, c.path.name);
    StemAndSuffix(src.name);
    assert c.path.name == Stem(src.name) + c.path.name[|Stem(src.name)|..];
  }

  lemma TracelessIsReady(d: Disk, src: Path, dest: Path, script: Script)
    requires d.Valid() && Travels(src, dest) && Fits(d, src, script) && d.Exists(src) && LeavesNoTrace(d, src, dest, script)
    ensures Ready(d, Base(src), Base(d.Dedupe(src, dest)), TailsAlong(d, src, dest, script))
    ensures forall c | c in Along(d, src, dest, script) :: AtTail(src, c) && TailOf(src, c) != Suffix(src.name)
  {
    hide HasVideoExtension, Lower, Stem, Suffix, Spell, Disk.Dedupe, Followers, MoveFile, IsCompanionName;
    var to := d.Dedupe(src, dest);
    LandsAsVideo(d, src, dest);
    VideoHasExtension(src.name);
    forall c | c in Along(d, src, dest, script) ensures AtTail(src, c) && TailOf(src, c) != Suffix(src.name) {
      ListedCompanion(d, src, script, c);
      SpelledAtTail(src, c);
    }
    forall t | t in TailsAlong(d, src, dest, script)
      ensures d.Exists(At(Base(src), t)) && d.FileAt(At(Base(src), t)).name == Stem(src.name) + t
      ensures !d.Exists(At(Base(to), t))
    {
      if t == Suffix(src.name) {
        assert src == At(Base(src), t) && to == At(Base(to), t);
        assert d.IsFreeFor(src, to);
      } else {
        var c :| c in Along(d, src, dest, script) && t == TailOf(src, c);
        ListedCompanion(d, src, script, c);
        SpelledAtTail(src, c);
        TargetIsNoVideo(src, to, c.path);
        if d.Exists(At(Base(to), t)) { TakenIsClaimed(d, to, t); }
      }
    }
  }

  /** The companions where the video landed are those of the shift. */
  ghost predicate CameWith(d: Disk, to: Path, tails: set<string>) {
    forall c :: c in Companions(d, to) <==> c.dir == to.dir && exists t | t in tails :: t != Suffix(to.name) && c.name == Stem(to.name) + t
  }

  /** What no shift has brought was there before. */
  lemma StayedSince(d: Disk, d': Disk, a: Path, b: Path, tails: set<string>, s: Path)
    requires IsShift(d, d', a, b, tails) && s in d'.files && s !in Slots(d, b, tails)
    ensures s in d.files && d.files[s] == d'.files[s]
  {
    hide Spell;
  }

  /** After the move the companions where the video landed are those that came along. */
  lemma ArrivedTails(d: Disk, d': Disk, src: Path, to: Path, tails: set<string>)
    requires d'.Valid() && Companionless(d, to) && HasVideoExtension(src.name) && HasVideoExtension(to.name) && src.dir != to.dir
    requires to.name == Stem(to.name) + Suffix(src.name) && Suffix(to.name) == Suffix(src.name) && Suffix(src.name) in tails
    requires IsShift(d, d', Base(src), Base(to), tails)
    requires forall t | t in tails && t != Suffix(src.name) :: t != "" && t[0] == '.' && !HasVideoExtension(Stem(src.name) + t)
    ensures CameWith(d', to, tails)
  {
    hide HasVideoExtension, Lower, Spell, Stem, Suffix;
    VideoHasExtension(src.name);
    VideoHasExtension(to.name);
    forall c | c in Companions(d', to) ensures c.dir == to.dir && exists t | t in tails :: t != Suffix(to.name) && c.name == Stem(to.name) + t {
      var s :| s in d'.files && s.dir == to.dir && IsCompanionName(to.name, d'.files[s].name) && c == Path(s.dir, d'.files[s].name);
      if s !in Slots(d, Base(to), tails) { StayedSince(d, d', Base(src), Base(to), tails, s); }
      var t :| t in tails && s == d.Slot(At(Base(to), t));
      assert d'.FileAt(At(Base(to), t)).name == Stem(to.name) + t;
      assert t == Suffix(to.name) ==> c.name == to.name;
    }
    forall t | t in tails && t != Suffix(to.name) ensures Path(to.dir, Stem(to.name) + t) in Companions(d', to) {
      BuiltCompanion(to.name, src.name, t);
      var slot := d'.Slot(At(Base(to), t));
      assert slot in d'.files && d'.files[slot].name == Stem(to.name) + t;
    }
  }

  lemma TailsAreCompanionTails(d: Disk, src: Path, dest: Path, script: Script)
    requires d.Valid() && Travels(src, dest) && Fits(d, src, script)
    requires forall c | c in Along(d, src, dest, script) :: AtTail(src, c)
    ensures forall t | t in TailsAlong(d, src, dest, script) && t != Suffix(src.name) :: t != "" && t[0] == '.' && !HasVideoExtension(Stem(src.name) + t)
  {
    hide HasVideoExtension, Lower, Stem, Suffix, Spell, Disk.Dedupe, Followers, MoveFile, IsCompanionName;
    forall t | t in TailsAlong(d, src, dest, script) && t != Suffix(src.name) ensures t != "" && t[0] == '.' && !HasVideoExtension(Stem(src.name) + t) {
      var c :| c in Along(d, src, dest, script) && t == TailOf(src, c);
      ListedCompanion(d, src, script, c);
      CompanionTail(src.name, c.path.name);
      KindOf(src.name, c.path.name);
      assert c.path.name == Stem(src.name) + t;
    }
  }

  lemma KindOf(video: string, name: string)
    requires IsCompanionName(video, name)
    ensures !HasVideoExtension(name)
  {
  }

  /** All of them go along on the way back. */
  lemma WayBackTails(d: Disk, to: Path, src: Path, tails: set<string>, back: Script)
    requires CameWith(d, to, tails) && Suffix(to.name) in tails && GoesThrough(d, to, src, back)
    ensures TailsAlong(d, to, src, back) == tails
    ensures forall c | c in Along(d, to, src, back) :: AtTail(to, c) && TailOf(to, c) != Suffix(to.name)
  {
    hide Stem, Suffix, MoveFile, Companions, AllFollow, Followers, Disk.Dedupe;
    MoveSucceeded(d, to, src, back.video);
    AllFollowAll(MoveFile(d, to, src, back.video).0, to, d.Dedupe(to, src), back.companions);
    assert Along(d, to, src, back) == back.companions;
    forall c | c in back.companions
      ensures c.path == At(Base(to), TailOf(to, c)) && TailOf(to, c) in tails && TailOf(to, c) != Suffix(to.name)
    {
      assert c.path in Paths(back.companions);
      var t :| t in tails && t != Suffix(to.name) && c.path.name == Stem(to.name) + t;
      assert (Stem(to.name) + t)[|Stem(to.name)|..] == t;
    }
    forall t | t in tails ensures t in TailsAlong(d, to, src, back) {
      if t != Suffix(to.name) {
        var p := Path(to.dir, Stem(to.name) + t);
        assert p in Companions(d, to) && p in Paths(back.companions);
        var c :| c in back.companions && c.path == p;
        assert (Stem(to.name) + t)[|Stem(to.name)|..] == t;
        assert TailOf(to, c) == t;
      }
    }
  }

  /** Their places are free again, and so is the video's. */
  lemma WayBackIsReady(d: Disk, d1: Disk, src: Path, to: Path, tails: set<string>)
    requires HasVideoExtension(src.name) && src.dir != to.dir && Suffix(src.name) in tails
    requires Ready(d, Base(src), Base(to), tails) && IsShift(d, d1, Base(src), Base(to), tails)
    ensures Ready(d1, Base(to), Base(src), tails) && !d1.Exists(src) && d1.Dedupe(to, src) == src
  {
    hide HasVideoExtension, Stem, Suffix, Spell, IsShift, LowestFree, Numbered;
    VideoHasExtension(src.name);
    ReadyToReturn(d, d1, Base(src), Base(to), tails, tails);
    assert src == At(Base(src), Suffix(src.name));
  }

  /** The condition suffices: what left comes back, and nothing else. */
  lemma ComesBack(d: Disk, src: Path, dest: Path, out: Script, back: Script)
    requires d.Valid() && Travels(src, dest) && Fits(d, src, out) && AllTidy(out.companions)
    requires MoveEpisode(d, src, dest, out).1.Some? && d.Exists(src) && LeavesNoTrace(d, src, dest, out)
    requires GoesThrough(MoveEpisode(d, src, dest, out).0, d.Dedupe(src, dest), src, back)
    ensures MoveEpisode(MoveEpisode(d, src, dest, out).0, d.Dedupe(src, dest), src, back) == (d, Some(src))
  {
    hide HasVideoExtension, Lower, Spell, MoveFile, Stem, Suffix, IsShift, Ready, Disk.Dedupe, Companions, Along, TailsAlong, GoesThrough, CameWith;
    var to := d.Dedupe(src, dest);
    var d1 := MoveEpisode(d, src, dest, out).0;
    var tails := TailsAlong(d, src, dest, out);
    LandsAsVideo(d, src, dest);
    EpisodeOnlyLeaves(d, src, dest, out);
    TracelessIsReady(d, src, dest, out);
    EpisodeShifts(d, src, dest, out);
    TailsAreCompanionTails(d, src, dest, out);
    VideoIsAlong(d, src, dest, out);
    ArrivedTails(d, d1, src, to, tails);
    WayBackIsReady(d, d1, src, to, tails);
    WayBackTails(d1, to, src, tails, back);
    GoingThrough(d1, to, src, back);
    VideoHasExtension(src.name);
    EpisodeShifts(d1, to, src, back);
    ShiftThereAndBack(d, d1, MoveEpisode(d1, to, src, back).0, Base(src), Base(to), tails, tails);
  }

  lemma VideoIsAlong(d: Disk, src: Path, dest: Path, script: Script)
    ensures Suffix(src.name) in TailsAlong(d, src, dest, script)
  {
  }

  lemma GoingThrough(d: Disk, src: Path, dest: Path, script: Script)
    requires GoesThrough(d, src, dest, script)
    ensures MoveEpisode(d, src, dest, script).1.Some? && Distinct(script.companions) && AllTidy(script.companions)
    ensures Fits(d, src, script)
  {
    hide MoveFile, AllFollow;
  }

  // ------------------------------------------------------------ what gives it away

  /** Whatever comes back to the source's directory is spelled with the source's stem. */
  ghost predicate EntersSpelled(d: Disk, d': Disk, into: Dir, stem: string) {
    forall s | s in d'.files && s.dir == into :: (s in d.files && d'.files[s] == d.files[s]) || stem <= d'.files[s].name
  }

  lemma NumberedStartsAlike(stem: string, tail: string, n: nat)
    requires tail != "" && tail[0] == '.'
    ensures stem <= Numbered(Stem(stem + tail), n, Suffix(stem + tail))
  {
    var name := stem + tail;
    assert name[|stem|] == '.';
    assert LastDot(name) >= |stem|;
    assert stem <= Stem(name);
  }

  lemma LandsSpelled(d: Disk, src: Path, dir: Dir, stem: string, tail: string)
    requires tail != "" && tail[0] == '.'
    ensures stem <= d.Dedupe(src, Path(dir, stem + tail)).name
  {
    hide Stem, Suffix, Spell, LowestFree, Numbered;
    if !d.IsFreeFor(src, Path(dir, stem + tail)) {
      NumberedStartsAlike(stem, tail, LowestFree(d.Occupied(src, dir), d.foldCase, Stem(stem + tail), Suffix(stem + tail), 2));
    }
  }

  lemma OneEntersSpelled(d: Disk, src: Path, dir: Dir, stem: string, tail: string, f: Fates)
    requires tail != "" && tail[0] == '.' && src.dir != dir
    ensures EntersSpelled(d, MoveFile(d, src, Path(dir, stem + tail), f).0, dir, stem)
  {
    hide MoveFile, Stem, Suffix, Spell, Disk.Dedupe;
    var dest := Path(dir, stem + tail);
    LandsSpelled(d, src, dir, stem, tail);
    if MoveFile(d, src, dest, f).1.Some? { MoveSucceeded(d, src, dest, f); } else { MoveFailed(d, src, dest, f); }
  }

  lemma EntersTwice(d: Disk, d1: Disk, d2: Disk, into: Dir, stem: string)
    requires EntersSpelled(d, d1, into, stem) && EntersSpelled(d1, d2, into, stem)
    ensures EntersSpelled(d, d2, into, stem)
  {
  }

  lemma {:induction false} CompanionsEnterSpelled(d: Disk, src: Path, to: Path, cs: seq<CompanionMove>)
    requires src.dir != to.dir && forall c | c in cs :: c.path.dir == src.dir && IsCompanionName(src.name, c.path.name)
    ensures EntersSpelled(d, MoveCompanions(d, src, to, cs), to.dir, Stem(to.name))
    decreases |cs|
  {
    hide MoveFile, Stem, EntersSpelled, IsCompanionName;
    if cs == [] {
      NothingEnters(d, to.dir, Stem(to.name));
    } else {
      assert cs[0] in cs;
      CompanionTail(src.name, cs[0].path.name);
      var d1 := MoveFile(d, cs[0].path, CompanionTarget(src, to, cs[0].path), cs[0].fates).0;
      OneEntersSpelled(d, cs[0].path, to.dir, Stem(to.name), From(cs[0].path.name, |Stem(src.name)|), cs[0].fates);
      CompanionsEnterSpelled(d1, src, to, cs[1..]);
      EntersTwice(d, d1, MoveCompanions(d, src, to, cs), to.dir, Stem(to.name));
    }
  }

  lemma NothingEnters(d: Disk, into: Dir, stem: string)
    ensures EntersSpelled(d, d, into, stem)
  {
  }

  /** All that a move of an episode brings into the directory is spelled with the stem it
      was sent to. */
  lemma EpisodeEntersSpelled(d: Disk, src: Path, dest: Path, script: Script)
    requires d.Valid() && HasVideoExtension(dest.name) && src.dir != dest.dir && Fits(d, src, script)
    requires MoveEpisode(d, src, dest, script).1 == Some(dest)
    ensures EntersSpelled(d, MoveEpisode(d, src, dest, script).0, dest.dir, Stem(dest.name))
  {
    hide MoveFile, Stem, Suffix, EntersSpelled, HasVideoExtension, Spell, IsCompanionName, Disk.Valid;
    var after := MoveFile(d, src, dest, script.video).0;
    VideoHasExtension(dest.name);
    OneEntersSpelled(d, src, dest.dir, Stem(dest.name), Suffix(dest.name), script.video);
    forall c | c in script.companions ensures c.path.dir == src.dir && IsCompanionName(src.name, c.path.name) {
      ListedCompanion(d, src, script, c);
    }
    CompanionsEnterSpelled(after, src, dest, script.companions);
    EntersTwice(d, after, MoveEpisode(d, src, dest, script).0, dest.dir, Stem(dest.name));
  }

  /** A companion that moves is gone from its directory. */
  lemma {:induction false} FollowersAreGone(d: Disk, src: Path, to: Path, cs: seq<CompanionMove>, c: CompanionMove)
    requires c in Followers(d, src, to, cs) && c.path.dir != to.dir
    ensures d.Slot(c.path) !in MoveCompanions(d, src, to, cs).files
    decreases |cs|
  {
    hide MoveFile, Spell, Stem;
    var (d', r) := MoveFile(d, cs[0].path, CompanionTarget(src, to, cs[0].path), cs[0].fates);
    MoveFileOnlyLeaves(d, cs[0].path, CompanionTarget(src, to, cs[0].path), cs[0].fates);
    if c in Followers(d', src, to, cs[1..]) {
      FollowersAreGone(d', src, to, cs[1..], c);
    } else {
      assert c == cs[0] && r.Some?;
      MoveSucceeded(d, c.path, CompanionTarget(src, to, c.path), c.fates);
      CompanionsOnlyLeave(d', src, to, cs[1..]);
    }
  }

  lemma AlongIsGone(d: Disk, src: Path, dest: Path, script: Script, c: CompanionMove)
    requires MoveEpisode(d, src, dest, script).1.Some? && c in Along(d, src, dest, script) && c.path.dir != dest.dir
    ensures d.Slot(c.path) !in MoveEpisode(d, src, dest, script).0.files
  {
    hide MoveFile, Spell, Followers, Disk.Dedupe, MoveCompanions;
    MoveSucceeded(d, src, dest, script.video);
    FollowersAreGone(MoveFile(d, src, dest, script.video).0, src, d.Dedupe(src, dest), script.companions, c);
  }

  /** The video is gone from its directory, too. */
  lemma VideoIsGone(d: Disk, src: Path, dest: Path, script: Script)
    requires MoveEpisode(d, src, dest, script).1.Some? && src.dir != dest.dir
    ensures d.Exists(src) && d.Slot(src) !in MoveEpisode(d, src, dest, script).0.files
  {
    hide MoveFile, Spell, Disk.Dedupe;
    MoveSucceeded(d, src, dest, script.video);
    CompanionsOnlyLeave(MoveFile(d, src, dest, script.video).0, src, d.Dedupe(src, dest), script.companions);
  }

  /** A file in a directory nothing is moved out of stays. */
  lemma {:induction false} CompanionsSpare(d: Disk, src: Path, to: Path, cs: seq<CompanionMove>, slot: Path)
    requires slot in d.files && forall c | c in cs :: c.path.dir != slot.dir
    ensures var d' := MoveCompanions(d, src, to, cs); slot in d'.files && d'.files[slot] == d.files[slot]
    decreases |cs|
  {
    hide MoveFile, Spell, Stem;
    if cs != [] {
      assert cs[0] in cs;
      MoveNeverOverwrites(d, cs[0].path, CompanionTarget(src, to, cs[0].path), cs[0].fates, slot);
      CompanionsSpare(MoveFile(d, cs[0].path, CompanionTarget(src, to, cs[0].path), cs[0].fates).0, src, to, cs[1..], slot);
    }
  }

  lemma EpisodeSpares(d: Disk, src: Path, dest: Path, script: Script, slot: Path)
    requires d.Valid() && Fits(d, src, script) && slot in d.files && slot.dir != src.dir
    ensures var d' := MoveEpisode(d, src, dest, script).0; slot in d'.files && d'.files[slot] == d.files[slot]
  {
    hide MoveFile, Spell, Fits, Disk.Valid;
    MoveNeverOverwrites(d, src, dest, script.video, slot);
    forall c | c in script.companions ensures c.path.dir != slot.dir { ListedCompanion(d, src, script, c); }
    if MoveFile(d, src, dest, script.video).1.Some? {
      CompanionsSpare(MoveFile(d, src, dest, script.video).0, src, MoveFile(d, src, dest, script.video).1.value, script.companions, slot);
    }
  }

  /** A file that could be taken for a companion where the video landed goes along on the
      way back. */
  lemma ForeignerLeaves(d: Disk, to: Path, src: Path, back: Script, slot: Path)
    requires d.Valid() && GoesThrough(d, to, src, back) && to.dir != src.dir
    requires slot in d.files && slot.dir == to.dir && IsCompanionName(to.name, d.files[slot].name)
    ensures slot !in MoveEpisode(d, to, src, back).0.files
  {
    hide MoveFile, Spell, IsCompanionName, AllFollow, Followers;
    var p := Path(slot.dir, d.files[slot].name);
    assert p in Companions(d, to);
    assert p in Paths(back.companions);
    var c :| c in back.companions && c.path == p;
    MoveSucceeded(d, to, src, back.video);
    AllFollowAll(MoveFile(d, to, src, back.video).0, to, d.Dedupe(to, src), back.companions);
    AlongIsGone(d, to, src, back, c);
    assert d.Slot(p) == slot;
  }

  /** Moving an episode back undoes moving it if and only if it and the companions that
      came along are spelled on disk as its name says, and no file that was there already
      could be taken for a companion of it where it landed. */
  lemma MoveEpisodeInverseIff(d: Disk, src: Path, dest: Path, out: Script, back: Script)
    requires d.Valid() && Travels(src, dest) && Fits(d, src, out) && AllTidy(out.companions)
    requires MoveEpisode(d, src, dest, out).1.Some?
    requires GoesThrough(MoveEpisode(d, src, dest, out).0, MoveEpisode(d, src, dest, out).1.value, src, back)
    ensures
      var (d1, to) := MoveEpisode(d, src, dest, out);
      && d.Exists(src) && to == Some(d.Dedupe(src, dest))
      && (MoveEpisode(d1, to.value, src, back).0 == d <==> LeavesNoTrace(d, src, dest, out))
  {
    hide HasVideoExtension, Lower, Spell, MoveFile, Stem, Suffix, Disk.Dedupe, Companions, Along, GoesThrough, MoveEpisode, Companionless;
    var d1 := MoveEpisode(d, src, dest, out).0;
    var to := d.Dedupe(src, dest);
    LandsAt(d, src, dest, out);
    LandsAsVideo(d, src, dest);
    VideoIsGone(d, src, dest, out);
    EpisodeOnlyLeaves(d, src, dest, out);
    if LeavesNoTrace(d, src, dest, out) {
      ComesBack(d, src, dest, out, back);
    } else if MoveEpisode(d1, to, src, back).0 == d {
      ReturnedToSource(d1, to, src, back);
      TracesShow(d, src, dest, out, back);
    }
  }

  lemma LandsAt(d: Disk, src: Path, dest: Path, script: Script)
    requires MoveEpisode(d, src, dest, script).1.Some?
    ensures MoveEpisode(d, src, dest, script).1.value == d.Dedupe(src, dest)
  {
    hide MoveFile, Disk.Dedupe;
    MoveSucceeded(d, src, dest, script.video);
  }

  /** A video sent to a free place is there afterwards, under the name it was sent to. */
  lemma ReturnedToSource(d: Disk, to: Path, src: Path, back: Script)
    requires GoesThrough(d, to, src, back) && !d.Exists(src) && to.dir != src.dir && d.Valid()
    ensures MoveEpisode(d, to, src, back).1 == Some(src)
    ensures MoveEpisode(d, to, src, back).0.Exists(src) && MoveEpisode(d, to, src, back).0.FileAt(src).name == src.name
    ensures MoveEpisode(d, to, src, back).0.foldCase == d.foldCase
  {
    hide MoveFile, Spell, Stem, Suffix, LowestFree, AllFollow, MoveCompanions, Companions, Disk.Valid;
    MoveSucceeded(d, to, src, back.video);
    var after := MoveFile(d, to, src, back.video).0;
    GoingThrough(d, to, src, back);
    forall c | c in back.companions ensures c.path.dir != src.dir { ListedCompanion(d, to, back, c); }
    CompanionsSpare(after, to, src, back.companions, d.Slot(src));
    CompanionsOnlyLeave(after, to, src, back.companions);
  }

  /** Where the disk is as it was, the condition was met. */
  lemma TracesShow(d: Disk, src: Path, dest: Path, out: Script, back: Script)
    requires d.Valid() && Travels(src, dest) && Fits(d, src, out) && d.Exists(src)
    requires MoveEpisode(d, src, dest, out).1.Some?
    requires
      var d1, to := MoveEpisode(d, src, dest, out).0, d.Dedupe(src, dest);
      && d1.Valid() && d1.foldCase == d.foldCase && GoesThrough(d1, to, src, back)
      && MoveEpisode(d1, to, src, back) == (d, Some(src))
    requires d.FileAt(src).name == src.name
    ensures LeavesNoTrace(d, src, dest, out)
  {
    hide HasVideoExtension, Lower, Spell, MoveFile, Stem, Suffix, Disk.Dedupe, Companions, Along, GoesThrough, MoveEpisode, Disk.Valid, IsCompanionName;
    var d1, to := MoveEpisode(d, src, dest, out).0, d.Dedupe(src, dest);
    LandsAsVideo(d, src, dest);
    GoingThrough(d1, to, src, back);
    EpisodeEntersSpelled(d1, to, src, back);
    forall c | c in Along(d, src, dest, out) ensures Stem(src.name) <= c.path.name {
      AlongIsListed(d, src, dest, out, c);
      ListedCompanion(d, src, out, c);
      AlongIsGone(d, src, dest, out, c);
    }
    forall s | s in d.files && s.dir == to.dir ensures !IsCompanionName(to.name, d.files[s].name) {
      EpisodeSpares(d, src, dest, out, s);
      if IsCompanionName(to.name, d.files[s].name) { ForeignerLeaves(d1, to, src, back, s); }
    }
  }

  lemma AlongIsListed(d: Disk, src: Path, dest: Path, script: Script, c: CompanionMove)
    requires c in Along(d, src, dest, script)
    ensures c in script.companions
  {
    hide MoveFile, Disk.Dedupe;
  }

  // ------------------------------------------------------------ a whole relocation

  datatype Job = Job(src: Path, dest: Path)

  /** The first loop of a relocation: the episodes one after another, until one cannot
      be moved. Returns what has been moved where, and whether that is all of it. */
  function Forward(d: Disk, jobs: seq<Job>, scripts: seq<Script>): (result: (Disk, seq<Job>, bool))
    requires |scripts| == |jobs|
    ensures |result.1| <= |jobs| && (result.2 <==> |result.1| == |jobs|)
    decreases |jobs|
  {
    if jobs == [] then (d, [], true)
    else
      var (d1, r) := MoveEpisode(d, jobs[0].src, jobs[0].dest, scripts[0]);
      if r.None? then (d1, [], false)
      else
        var (d2, moves, all) := Forward(d1, jobs[1..], scripts[1..]);
        (d2, [Job(jobs[0].src, r.value)] + moves, all)
  }

  /** The compensation: the last move is undone first. */
  function Back(d: Disk, moves: seq<Job>, scripts: seq<Script>): Disk
    requires |scripts| == |moves|
    decreases |moves|
  {
    if moves == [] then d
    else MoveEpisode(Back(d, moves[1..], scripts[1..]), moves[0].dest, moves[0].src, scripts[0]).0
  }

  /** Directory listings are complete, or fail, and failed copies are cleaned up. */
  predicate ForwardFits(d: Disk, jobs: seq<Job>, scripts: seq<Script>)
    requires |scripts| == |jobs|
    decreases |jobs|
  {
    jobs == [] ||
    (&& Fits(d, jobs[0].src, scripts[0]) && Tidy(scripts[0].video) && AllTidy(scripts[0].companions)
     && ForwardFits(MoveEpisode(d, jobs[0].src, jobs[0].dest, scripts[0]).0, jobs[1..], scripts[1..]))
  }

  predicate BackGoesThrough(d: Disk, moves: seq<Job>, scripts: seq<Script>)
    requires |scripts| == |moves|
    decreases |moves|
  {
    moves == [] ||
    (&& BackGoesThrough(d, moves[1..], scripts[1..])
     && GoesThrough(Back(d, moves[1..], scripts[1..]), moves[0].dest, moves[0].src, scripts[0]))
  }

  /** No name that starts with the one stem starts with the other, whatever the case. */
  predicate Unrelated(a: string, b: string) {
    !(Lower(a) <= Lower(b)) && !(Lower(b) <= Lower(a))
  }

  lemma FailedEpisode(d: Disk, src: Path, dest: Path, script: Script)
    requires MoveEpisode(d, src, dest, script).1.None? && Tidy(script.video)
    ensures MoveEpisode(d, src, dest, script).0 == d
  {
    MoveFailed(d, src, dest, script.video);
  }
}
