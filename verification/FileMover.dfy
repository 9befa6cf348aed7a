/** Moving files as the program does it, one call to the operating system after another. */
module FileMover {
  import opened Text
  import opened Numbering
  import opened Disk
  import opened Episodes
  import opened RenamePlan
  import opened Library

  class FileSystem {
    var disk: Disk

    constructor (disk: Disk)
      ensures this.disk == disk
    {
      this.disk := disk;
    }

    /** `os.rename`, which replaces whatever the destination held. */
    method Rename(src: Path, dest: Path, fate: RenameFate) returns (ok: bool)
      modifies this
      ensures ok == (old(disk).Exists(src) && (fate.Renamed? || (fate.OtherDevice? && old(disk).Slot(src) == old(disk).Slot(dest))))
      ensures disk == if ok then old(disk).Rename(src, dest) else old(disk)
    {
      ok := disk.Exists(src) && (fate.Renamed? || (fate.OtherDevice? && disk.Slot(src) == disk.Slot(dest)));
      if ok {
        disk := disk.Rename(src, dest);
      }
    }

    /** `shutil.copy2` */
    method Copy(src: Path, dest: Path, fate: CopyFate) returns (ok: bool)
      requires disk.Exists(src)
      modifies this
      ensures ok == fate.Returned?
      ensures
        var file := old(disk).FileAt(src).(name := dest.name);
        disk == if fate.RaisedClean? then old(disk) else old(disk).Put(dest, Prefix(file, fate.length))
    {
      ok := fate.Returned?;
      if !fate.RaisedClean? {
        disk := disk.Put(dest, Prefix(disk.FileAt(src).(name := dest.name), fate.length));
      }
    }

    /** `unlink` */
    method Unlink(p: Path, allowed: bool)
      modifies this
      ensures disk == Discard(old(disk), p, allowed)
    {
      if allowed {
        disk := disk.Drop(p);
      }
    }

    /** `_dedupe_path` */
    method DedupePath(src: Path, dest: Path) returns (to: Path)
      ensures to == disk.Dedupe(src, dest)
    {
      if !disk.Exists(dest) || disk.Slot(dest) == disk.Slot(src) {
        return dest;
      }
      var counter := CountUp(disk.Occupied(src, dest.dir), disk.foldCase, Stem(dest.name), Suffix(dest.name));
      to := Path(dest.dir, Numbered(Stem(dest.name), counter, Suffix(dest.name)));
    }

    /** `move_file` */
    method Move(src: Path, dest: Path, f: Fates) returns (r: Option<Path>)
      modifies this
      ensures (disk, r) == MoveFile(old(disk), src, dest, f)
    {
      if !f.mkdir {
        return None;
      }
      var to := DedupePath(src, dest);
      var renamed := Rename(src, to, f.rename);
      if renamed {
        return Some(to);
      }
      if !disk.Exists(src) || f.rename.Denied? {
        return None;
      }
      var copied := Copy(src, to, f.copy);
      if !copied || !f.stat {
        return None;
      }
      if |disk.FileAt(to).content| != |disk.FileAt(src).content| {
        Unlink(to, f.dropCopy);
        return None;
      }
      if !f.dropSource {
        Unlink(to, f.dropCopy);
        return None;
      }
      Unlink(src, true);
      return Some(to);
    }

    /** `move_episode_file`; a companion that cannot follow stays, and is no failure. */
    method MoveEpisodeFile(src: Path, dest: Path, script: Script) returns (r: Option<Path>)
      modifies this
      ensures (disk, r) == MoveEpisode(old(disk), src, dest, script)
    {
      hide MoveFile, CompanionTarget;
      r := Move(src, dest, script.video);
      if r.None? {
        return;
      }
      ghost var moved := disk;
      var cs := script.companions;
      for k := 0 to |cs|
        invariant MoveCompanions(disk, src, r.value, cs[k..]) == MoveCompanions(moved, src, r.value, cs)
      {
        assert cs[k..][1..] == cs[k + 1..];
        var left := Move(cs[k].path, CompanionTarget(src, r.value, cs[k].path), cs[k].fates);
      }
    }

    /** The best-effort loop of `_move_remaining_files` */
    method MoveRemainingFiles(from: Dir, to: Dir, leftovers: seq<CompanionMove>)
      modifies this
      ensures disk == MoveLeftovers(old(disk), from, to, leftovers)
    {
      hide MoveFile;
      for k := 0 to |leftovers|
        invariant MoveLeftovers(disk, from, to, leftovers[k..]) == MoveLeftovers(old(disk), from, to, leftovers)
      {
        assert leftovers[k..][1..] == leftovers[k + 1..];
        var p := leftovers[k].path;
        var left := Move(p, Path(if from <= p.dir then Rebase(from, to, p.dir) else p.dir, p.name), leftovers[k].fates);
      }
    }

    /** Renaming a directory, which takes every file under it along. */
    method RenameDir(from: Dir, to: Dir)
      modifies this
      ensures disk == RebaseDisk(old(disk), from, to)
    {
      disk := RebaseDisk(disk, from, to);
    }

    /** `_remove_sidecars`: whether all three unlinks went through. */
    method RemoveSidecars(dir: Dir, unlinks: nat) returns (ok: bool)
      modifies this
      ensures ok == (unlinks >= |Sidecars|)
      ensures disk == Library.RemoveSidecars(old(disk), dir, if ok then |Sidecars| else unlinks)
    {
      for k := 0 to |Sidecars|
        invariant k <= unlinks && disk == Library.RemoveSidecars(old(disk), dir, k)
      {
        if k == unlinks {
          return false;
        }
        Unlink(Path(dir, Sidecars[k]), true);
      }
      return true;
    }
  }
}
