/** Removing a directory tree that holds no files any more, one empty directory at a time. */
module DirTree {
  import opened Disk

  /** Python's order on strings. */
  predicate StringLess(a: string, b: string) {
    if a == "" then b != ""
    else if b == "" then false
    else a[0] < b[0] || (a[0] == b[0] && StringLess(a[1..], b[1..]))
  }

  /** Python's order on paths: part by part. */
  predicate PathLess(a: Dir, b: Dir) {
    if a == [] then b != []
    else if b == [] then false
    else StringLess(a[0], b[0]) || (a[0] == b[0] && PathLess(a[1..], b[1..]))
  }

  lemma {:induction false} StringLessIrreflexive(a: string)
    ensures !StringLess(a, a)
    decreases |a|
  {
    if a != "" { StringLessIrreflexive(a[1..]); }
  }

  /** A directory comes before everything below it. */
  lemma {:induction false} ParentIsLess(a: Dir, b: Dir)
    requires a < b
    ensures PathLess(a, b) && !PathLess(b, a)
    decreases |a|
  {
    if a != [] {
      assert a[0] == b[0] && a[1..] < b[1..];
      ParentIsLess(a[1..], b[1..]);
      StringLessIrreflexive(a[0]);
    }
  }

  class Tree {
    var dirs: set<Dir>
    var files: set<Path>

    /** Every file and every directory but the root lies in a directory. */
    ghost predicate Valid()
      reads this
    {
      && (forall f | f in files :: f.dir in dirs)
      && (forall d | d in dirs && d != [] :: d[..|d| - 1] in dirs)
    }

    function Under(directory: Dir): set<Dir>
      reads this
    {
      set d | d in dirs && directory <= d
    }

    /** Nothing at all is left in it. */
    predicate IsEmpty(directory: Dir)
      reads this
    {
      && (forall f | f in files :: f.dir != directory)
      && (forall d | d in dirs :: !(directory < d))
    }

    constructor (dirs: set<Dir>, files: set<Path>)
      ensures this.dirs == dirs && this.files == files
    {
      this.dirs, this.files := dirs, files;
    }

    /** `rmdir`, which refuses a directory that is not empty. */
    method Rmdir(directory: Dir) returns (ok: bool)
      modifies this`dirs
      ensures ok == (directory in old(dirs) && old(IsEmpty(directory)))
      ensures dirs == if ok then old(dirs) - {directory} else old(dirs)
    {
      ok := directory in dirs && IsEmpty(directory);
      if ok {
        dirs := dirs - {directory};
      }
    }

    /** `remove_dir_if_empty`, with its sub-directories as `sorted(..., reverse=True)` lists
        them: either a file is left and nothing changes, or the whole tree goes, and no
        `rmdir` on the way is refused. */
    method RemoveDirIfEmpty(directory: Dir, subs: seq<Dir>) returns (gone: bool, ghost refused: bool)
      requires Valid()
      requires forall d :: d in subs <==> d in dirs && directory < d
      requires forall i, j | 0 <= i < j < |subs| :: PathLess(subs[j], subs[i])
      modifies this`dirs
      ensures Valid() && !refused
      ensures gone <==> directory !in old(dirs) || forall f | f in files :: !(directory <= f.dir)
      ensures dirs == if directory in old(dirs) && gone then old(dirs) - old(Under(directory)) else old(dirs)
    {
      hide PathLess;
      refused := false;
      if directory !in dirs {
        return true, refused;
      }
      if exists f | f in files :: directory <= f.dir {
        return false, refused;
      }
      for i := 0 to |subs|
        invariant dirs == old(dirs) - AsSet(subs[..i])
        invariant !refused
      {
        hide Valid, AsSet;
        NextIsEmpty(old(dirs), files, directory, subs, i);
        OneLess(old(dirs), subs, i);
        var ok := Rmdir(subs[i]);
        refused := !ok;
      }
      assert subs[..|subs|] == subs;
      var ok := Rmdir(directory);
      refused := !ok;
      AllRemoved(old(dirs), dirs, directory, subs);
      RestStands(old(dirs), dirs, directory);
      return true, refused;
    }
  }

  function AsSet(subs: seq<Dir>): set<Dir> {
    set d | d in subs
  }

  lemma OneLess(dirs: set<Dir>, subs: seq<Dir>, i: nat)
    requires i < |subs|
    ensures dirs - AsSet(subs[..i + 1]) == dirs - AsSet(subs[..i]) - {subs[i]}
  {
    assert subs[..i + 1] == subs[..i] + [subs[i]];
  }

  /** When its turn comes, nothing is left in a sub-directory. */
  lemma NextIsEmpty(dirs: set<Dir>, files: set<Path>, directory: Dir, subs: seq<Dir>, i: nat)
    requires i < |subs| && forall d :: d in subs <==> d in dirs && directory < d
    requires forall a, b | 0 <= a < b < |subs| :: PathLess(subs[b], subs[a])
    requires forall f | f in files :: !(directory <= f.dir)
    ensures subs[i] in dirs - AsSet(subs[..i])
    ensures forall d | d in dirs - AsSet(subs[..i]) :: !(subs[i] < d)
    ensures forall f | f in files :: f.dir != subs[i]
  {
    hide PathLess;
    assert subs[i] in subs;
    OnlyLaterBelow(dirs, directory, subs, i);
    NotListedYet(subs, i);
  }

  /** What is left has its parent left. */
  lemma RestStands(before: set<Dir>, after: set<Dir>, directory: Dir)
    requires forall d | d in before && d != [] :: d[..|d| - 1] in before
    requires after == before - set d | d in before && directory <= d
    ensures forall d | d in after && d != [] :: d[..|d| - 1] in after
  {
    forall d | d in after && d != [] ensures d[..|d| - 1] in after {
      assert directory <= d[..|d| - 1] ==> directory <= d;
    }
  }

  lemma NotListedYet(subs: seq<Dir>, i: nat)
    requires i < |subs| && forall a, b | 0 <= a < b < |subs| :: PathLess(subs[b], subs[a])
    ensures subs[i] !in subs[..i]
  {
    if subs[i] in subs[..i] {
      var j :| 0 <= j < i && subs[j] == subs[i];
      PathLessIrreflexive(subs[i]);
    }
  }

  lemma {:induction false} PathLessIrreflexive(a: Dir)
    ensures !PathLess(a, a)
    decreases |a|
  {
    if a != [] {
      PathLessIrreflexive(a[1..]);
      StringLessIrreflexive(a[0]);
    }
  }

  /** What lies below a directory was listed before it. */
  lemma OnlyLaterBelow(dirs: set<Dir>, directory: Dir, subs: seq<Dir>, i: nat)
    requires i < |subs| && forall d :: d in subs <==> d in dirs && directory < d
    requires forall a, b | 0 <= a < b < |subs| :: PathLess(subs[b], subs[a])
    ensures forall d | d in dirs && subs[i] < d :: d in subs[..i]
  {
    forall d | d in dirs && subs[i] < d ensures d in subs[..i] {
      assert subs[i] in subs && directory < subs[i];
      Longer(directory, subs[i], d);
      var j :| 0 <= j < |subs| && subs[j] == d;
      ParentIsLess(subs[i], d);
      PathLessIrreflexive(d);
      assert j < i;
    }
  }

  lemma Longer(a: Dir, b: Dir, c: Dir)
    requires a < b && b < c
    ensures a < c
  {
    assert a == b[..|a|] == c[..|a|];
  }

  lemma AllRemoved(before: set<Dir>, after: set<Dir>, directory: Dir, subs: seq<Dir>)
    requires directory in before && forall d :: d in subs <==> d in before && directory < d
    requires after == before - AsSet(subs) - {directory}
    ensures after == before - set d | d in before && directory <= d
  {
    forall d | d in before ensures directory <= d <==> d == directory || directory < d {
      if directory <= d && |d| == |directory| { assert d == directory; }
    }
  }
}
