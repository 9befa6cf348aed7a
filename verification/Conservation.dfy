/** Counting what is on the disk: no move, whatever the operating system answers, ever
    loses the content of a file. */
module Conservation {
  import opened Disk

  /** The slots whose file has this content. */
  function Holders(files: map<Path, File>, c: Content): set<Path> {
    set p | p in files && files[p].content == c
  }

  /** Every content there was is still there, in at least as many files. */
  ghost predicate KeepsContents(before: map<Path, File>, after: map<Path, File>) {
    forall c :: |Holders(before, c)| <= |Holders(after, c)|
  }

  /** The same contents, each in exactly as many files. */
  ghost predicate SameContents(before: map<Path, File>, after: map<Path, File>) {
    forall c :: |Holders(before, c)| == |Holders(after, c)|
  }

  lemma SubsetSize<T>(a: set<T>, b: set<T>)
    requires a <= b
    ensures |a| <= |b|
  {
    assert b == a + (b - a);
  }

  /** Adding a file in a slot that was free. */
  lemma AddingKeeps(files: map<Path, File>, p: Path, f: File)
    requires p !in files
    ensures KeepsContents(files, files[p := f])
  {
    forall c ensures |Holders(files, c)| <= |Holders(files[p := f], c)| {
      SubsetSize(Holders(files, c), Holders(files[p := f], c));
    }
  }

  /** Carrying one file over to another slot. */
  lemma CarryingKeeps(files: map<Path, File>, from: Path, to: Path, f: File)
    requires from in files && (to !in files || to == from) && f.content == files[from].content
    ensures SameContents(files, (files - {from})[to := f])
  {
    var files' := (files - {from})[to := f];
    forall c ensures |Holders(files, c)| == |Holders(files', c)| {
      var rest := Holders(files, c) - {from};
      if files[from].content == c {
        assert Holders(files, c) == rest + {from};
        assert Holders(files', c) == rest + {to};
      } else {
        assert Holders(files, c) == rest;
        assert Holders(files', c) == rest;
      }
    }
  }

  /** A single move loses nothing, whether it succeeds, fails, or fails half-way. */
  lemma MoveKeepsContents(d: Disk, src: Path, dest: Path, f: Fates)
    ensures
      var (d', r) := MoveFile(d, src, dest, f);
      KeepsContents(d.files, d'.files) && (r.Some? ==> SameContents(d.files, d'.files))
  {
    var (d', r) := MoveFile(d, src, dest, f);
    if r.Some? {
      MoveSucceeded(d, src, dest, f);
      CarryingKeeps(d.files, d.Slot(src), d.Slot(r.value), d.FileAt(src).(name := r.value.name));
    } else {
      MoveFailed(d, src, dest, f);
      if d' != d {
        var to := d.Slot(d.Dedupe(src, dest));
        AddingKeeps(d.files, to, d'.files[to]);
      }
    }
  }

  lemma KeepsTransitive(a: map<Path, File>, b: map<Path, File>, c: map<Path, File>)
    requires KeepsContents(a, b) && KeepsContents(b, c)
    ensures KeepsContents(a, c)
  {
    forall x ensures |Holders(a, x)| <= |Holders(c, x)| {
      assert |Holders(a, x)| <= |Holders(b, x)|;
    }
  }

  /** If nothing was lost, and of the files in `gone` none has changed, then deleting
      those loses nothing else. */
  lemma DeletingKeepsTheRest(before: map<Path, File>, after: map<Path, File>, gone: set<Path>)
    requires KeepsContents(before, after)
    requires forall s | s in gone && s in after :: s in before && before[s] == after[s]
    ensures KeepsContents(before - gone, after - gone)
  {
    forall c ensures |Holders(before - gone, c)| <= |Holders(after - gone, c)| {
      var was, now := Holders(before, c), Holders(after, c);
      assert Holders(before - gone, c) == was - was * gone;
      assert Holders(after - gone, c) == now - now * gone;
      SubsetSize(now * gone, was * gone);
      assert |was| <= |now|;
    }
  }
}
