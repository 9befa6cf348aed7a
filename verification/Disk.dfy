/** The file tree the application moves episodes around in, and `move_file`, the one
    operation every sort, rename and rollback is made of. */
module Disk {
  import opened Text
  import opened Numbering

  /** A directory is the list of names leading to it. */
  type Dir = seq<string>
  datatype Path = Path(dir: Dir, name: string)

  type Content = seq<bv8>

  /** A file keeps the spelling its name was created with. */
  datatype File = File(name: string, content: Content, mtime: int)

  /** On a case-insensitive file system the slot a name occupies is its folded
      spelling; directories are compared as spelled. */
  datatype Disk = Disk(foldCase: bool, files: map<Path, File>) {

    function Slot(p: Path): Path {
      Path(p.dir, Spell(foldCase, p.name))
    }

    predicate Exists(p: Path) {
      Slot(p) in files
    }

    /** Every file sits in the slot its own name stands for. */
    ghost predicate Valid() {
      forall s | s in files :: Slot(Path(s.dir, files[s].name)) == s
    }

    function FileAt(p: Path): File
      requires Exists(p)
    {
      files[Slot(p)]
    }

    function Put(p: Path, f: File): Disk {
      this.(files := files[Slot(p) := f])
    }

    function Drop(p: Path): Disk {
      this.(files := files - {Slot(p)})
    }

    /** `src.rename(dest)`: the same file under another name. */
    function Rename(src: Path, dest: Path): Disk
      requires Exists(src)
    {
      Drop(src).Put(dest, FileAt(src).(name := dest.name))
    }

    /** The names a directory holds, the one in `src`'s own slot left out. */
    function Occupied(src: Path, dir: Dir): set<string> {
      set s | s in files && s.dir == dir && s != Slot(src) :: s.name
    }

    /** Nothing is there, or only the very file being moved. */
    predicate IsFreeFor(src: Path, dest: Path) {
      !Exists(dest) || Slot(dest) == Slot(src)
    }

    /** `_dedupe_path` */
    function Dedupe(src: Path, dest: Path): (to: Path)
      ensures IsFreeFor(src, to)
      ensures to.dir == dest.dir
    {
      if IsFreeFor(src, dest) then dest
      else
        var n := LowestFree(Occupied(src, dest.dir), foldCase, Stem(dest.name), Suffix(dest.name), 2);
        var to := Path(dest.dir, Numbered(Stem(dest.name), n, Suffix(dest.name)));
        OccupiedIffNotFree(src, to);
        to
    }

    lemma OccupiedIffNotFree(src: Path, dest: Path)
      ensures IsFreeFor(src, dest) <==> Spell(foldCase, dest.name) !in Occupied(src, dest.dir)
    {
    }
  }

  // ------------------------------------------------------------ operating system

  datatype RenameFate = Renamed | OtherDevice | Denied

  /** `shutil.copy2` either returns, having written the first `length` bytes (all of
      them if the source is no longer than that), or raises and leaves either nothing
      or the first `length` bytes behind. */
  datatype CopyFate = Returned(length: nat) | RaisedClean | RaisedPartial(length: nat)

  /** What the operating system answers to the calls one `move_file` makes. */
  datatype Fates = Fates(
    mkdir: bool,
    rename: RenameFate,
    copy: CopyFate,
    stat: bool,
    dropSource: bool,
    dropCopy: bool
  )

  function Prefix(f: File, length: nat): File {
    if length >= |f.content| then f else f.(content := f.content[..length])
  }

  /** The disk after `dest.unlink(missing_ok=True)`, which may itself be refused. */
  function Discard(d: Disk, p: Path, allowed: bool): Disk {
    if allowed then d.Drop(p) else d
  }

  /** `move_file`: the new disk, and the path the file ended up at unless an OSError is
      raised. A source that is not there makes the rename fail with an error other
      than EXDEV; a rename within one slot stays on one device. */
  function MoveFile(d: Disk, src: Path, dest: Path, f: Fates): (Disk, Option<Path>) {
    if !f.mkdir then (d, None)
    else
      var to := d.Dedupe(src, dest);
      if !d.Exists(src) || f.rename.Denied? then (d, None)
      else if f.rename.Renamed? || d.Slot(to) == d.Slot(src) then (d.Rename(src, to), Some(to))
      else
        var file := d.FileAt(src).(name := to.name);
        match f.copy
        case RaisedClean => (d, None)
        case RaisedPartial(length) => (d.Put(to, Prefix(file, length)), None)
        case Returned(length) =>
          var copied := d.Put(to, Prefix(file, length));
          if !f.stat then (copied, None)
          else if |copied.FileAt(to).content| != |file.content| then (Discard(copied, to, f.dropCopy), None)
          else if !f.dropSource then (Discard(copied, to, f.dropCopy), None)
          else (copied.Drop(src), Some(to))
  }

  /** The clean-up after a failed copy goes through: nothing is left at the destination. */
  predicate Tidy(f: Fates) {
    f.rename.OtherDevice? ==>
      match f.copy
      case RaisedClean => true
      case RaisedPartial(_) => false
      case Returned(_) => f.stat && f.dropCopy
  }

  /** On success exactly the source leaves and a destination that was free (or the
      source's own slot) receives its content; nothing else changes. */
  lemma MoveSucceeded(d: Disk, src: Path, dest: Path, f: Fates)
    requires MoveFile(d, src, dest, f).1.Some?
    ensures
      var (d', r) := MoveFile(d, src, dest, f);
      var to := r.value;
      && to == d.Dedupe(src, dest)
      && d.Exists(src) && d.IsFreeFor(src, to)
      && d'.foldCase == d.foldCase
      && d'.files == (d.files - {d.Slot(src)})[d.Slot(to) := d.FileAt(src).(name := to.name)]
  {
    var to := d.Dedupe(src, dest);
    if !f.rename.Renamed? && d.Slot(to) != d.Slot(src) {
      var file := d.FileAt(src).(name := to.name);
      var copied := d.Put(to, Prefix(file, f.copy.length));
      assert copied.FileAt(to) == Prefix(file, f.copy.length) == file;
      assert copied.Drop(src).files == (d.files - {d.Slot(src)})[d.Slot(to) := file];
    }
  }

  /** On failure every file that was there is still there, unchanged; at most a prefix
      of the source's content is left in one slot that was free before; and where the
      clean-up goes through, nothing changes at all. */
  lemma MoveFailed(d: Disk, src: Path, dest: Path, f: Fates)
    requires MoveFile(d, src, dest, f).1.None?
    ensures
      var d' := MoveFile(d, src, dest, f).0;
      var to := d.Dedupe(src, dest);
      && d'.foldCase == d.foldCase
      && (d' == d || (!d.Exists(to) && d.Exists(src) && exists n: nat ::
          d'.files == d.files[d.Slot(to) := Prefix(d.FileAt(src).(name := to.name), n)]))
      && (Tidy(f) ==> d' == d)
  {
    var to := d.Dedupe(src, dest);
    if f.mkdir && d.Exists(src) && f.rename.OtherDevice? && d.Slot(to) != d.Slot(src) && !f.copy.RaisedClean? {
      var file := d.FileAt(src).(name := to.name);
      var copied := d.Put(to, Prefix(file, f.copy.length));
      assert copied.files == d.files[d.Slot(to) := Prefix(file, f.copy.length)];
      assert copied.Drop(to).files == d.files;
    }
  }

  /** The move never overwrites: a file in any slot but the source's keeps its name and
      its content, whatever the operating system answers; and until the move has
      succeeded so does the source. */
  lemma MoveNeverOverwrites(d: Disk, src: Path, dest: Path, f: Fates, slot: Path)
    requires slot in d.files
    requires slot == d.Slot(src) ==> MoveFile(d, src, dest, f).1.None?
    ensures var d' := MoveFile(d, src, dest, f).0; slot in d'.files && d'.files[slot] == d.files[slot]
  {
    if MoveFile(d, src, dest, f).1.Some? { MoveSucceeded(d, src, dest, f); } else { MoveFailed(d, src, dest, f); }
  }

  /** The answers under which a move succeeds: the source exists and either the rename
      goes through, or it would leave the device and the copy is complete, can be
      checked, and the source can be removed. */
  lemma MoveSucceedsIff(d: Disk, src: Path, dest: Path, f: Fates)
    ensures MoveFile(d, src, dest, f).1.Some? <==>
      && f.mkdir && d.Exists(src) && !f.rename.Denied?
      && (f.rename.Renamed? || d.Slot(d.Dedupe(src, dest)) == d.Slot(src)
          || (f.copy.Returned? && f.copy.length >= |d.FileAt(src).content| && f.stat && f.dropSource))
  {
    var to := d.Dedupe(src, dest);
    if f.mkdir && d.Exists(src) && f.rename.OtherDevice? && d.Slot(to) != d.Slot(src) && f.copy.Returned? {
      var file := d.FileAt(src).(name := to.name);
      var copied := d.Put(to, Prefix(file, f.copy.length));
      assert copied.FileAt(to) == Prefix(file, f.copy.length);
    }
  }

  lemma MoveKeepsValid(d: Disk, src: Path, dest: Path, f: Fates)
    requires d.Valid()
    ensures MoveFile(d, src, dest, f).0.Valid()
    ensures MoveFile(d, src, dest, f).0.foldCase == d.foldCase
  {
    if MoveFile(d, src, dest, f).1.Some? { MoveSucceeded(d, src, dest, f); } else { MoveFailed(d, src, dest, f); }
  }

  /** `_dedupe_path` asks for the lowest usable number: the requested name if nothing
      else holds it, otherwise the first " (n)", from 2, that nothing else holds. */
  lemma DedupeIsLowest(d: Disk, src: Path, dest: Path)
    ensures
      var to := d.Dedupe(src, dest);
      if d.IsFreeFor(src, dest) then to == dest
      else exists n | n >= 2 ::
        && to == Path(dest.dir, Numbered(Stem(dest.name), n, Suffix(dest.name)))
        && forall k | 2 <= k < n :: !d.IsFreeFor(src, Path(dest.dir, Numbered(Stem(dest.name), k, Suffix(dest.name))))
  {
    if !d.IsFreeFor(src, dest) {
      var n := LowestFree(d.Occupied(src, dest.dir), d.foldCase, Stem(dest.name), Suffix(dest.name), 2);
      forall k | 2 <= k < n
        ensures !d.IsFreeFor(src, Path(dest.dir, Numbered(Stem(dest.name), k, Suffix(dest.name))))
      {
        d.OccupiedIffNotFree(src, Path(dest.dir, Numbered(Stem(dest.name), k, Suffix(dest.name))));
      }
    }
  }
}
