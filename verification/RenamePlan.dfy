/** The rename planner: which of an anime's matched files already bear their name, and
    what the others are to be called, without two of them ever claiming one name. */
module RenamePlan {
  import opened Text
  import opened Numbering
  import opened Disk
  import opened Episodes
  import opened Naming

  datatype Local = Local(path: Path, number: Option<string>)

  /** A matched file, and the canonical name of its episode. */
  datatype Item = Item(path: Path, target: string)

  /** The canonical name, or the canonical name with a number in brackets before its extension. */
  predicate IsNameVariant(name: string, target: string) {
    name == target || IsNumberedVariant(name, Root(target) + " (", ")" + Extension(target))
  }

  predicate IsNumberedVariant(name: string, before: string, after: string) {
    && |name| > |before| + |after|
    && before <= name
    && name[|name| - |after|..] == after
    && DigitsOnly(name[|before|..|name| - |after|])
  }

  lemma NumberedIsVariant(target: string, n: nat)
    ensures IsNameVariant(Numbered(Root(target), n, Extension(target)), target)
  {
    var before, after := Root(target) + " (", ")" + Extension(target);
    var name := before + Decimal(n) + after;
    assert Numbered(Root(target), n, Extension(target)) == name;
    assert name[|before|..|name| - |after|] == Decimal(n);
  }

  /** Names are reserved per directory, ignoring case. */
  function Key(p: Path): Path {
    Path(p.dir, Lower(p.name))
  }

  function TakenIn(taken: set<Path>, dir: Dir): set<string> {
    set k | k in taken && k.dir == dir :: k.name
  }

  /** `_free_name_variant` */
  function FreeVariant(dir: Dir, target: string, taken: set<Path>): (name: string)
    ensures IsNameVariant(name, target)
    ensures Key(Path(dir, name)) !in taken
  {
    var names := TakenIn(taken, dir);
    if Lower(target) !in names then
      assert Key(Path(dir, target)) !in taken;
      target
    else
      var n := LowestFree(names, true, Root(target), Extension(target), 2);
      NumberedIsVariant(target, n);
      assert Key(Path(dir, Numbered(Root(target), n, Extension(target)))) !in taken;
      Numbered(Root(target), n, Extension(target))
  }

  /** `_free_name_variant` as it runs. */
  method FreeNameVariant(dir: Dir, target: string, taken: set<Path>) returns (name: string)
    ensures name == FreeVariant(dir, target, taken)
  {
    var names := TakenIn(taken, dir);
    if Lower(target) !in names {
      return target;
    }
    var counter := CountUp(names, true, Root(target), Extension(target));
    name := Numbered(Root(target), counter, Extension(target));
  }

  /** The planner asks for the lowest number, too: the canonical name if it is not
      reserved, otherwise the first " (n)", from 2, that is not. */
  lemma FreeVariantIsLowest(dir: Dir, target: string, taken: set<Path>)
    ensures
      var name := FreeVariant(dir, target, taken);
      if Key(Path(dir, target)) !in taken then name == target
      else exists n | n >= 2 ::
        && name == Numbered(Root(target), n, Extension(target))
        && forall k | 2 <= k < n :: Key(Path(dir, Numbered(Root(target), k, Extension(target)))) in taken
  {
    hide Root, Extension, Numbered;
    if Key(Path(dir, target)) in taken {
      assert Lower(target) in TakenIn(taken, dir);
      var n := LowestFree(TakenIn(taken, dir), true, Root(target), Extension(target), 2);
      forall k | 2 <= k < n ensures Key(Path(dir, Numbered(Root(target), k, Extension(target)))) in taken {
        assert Spell(true, Numbered(Root(target), k, Extension(target))) in TakenIn(taken, dir);
      }
    }
  }

  /** The first loop: which files keep their name, and the names that reserves. */
  function Settle(items: seq<Item>): (result: (set<Path>, seq<bool>))
    ensures |result.1| == |items|
  {
    if items == [] then ({}, [])
    else
      var item := items[|items| - 1];
      var (taken, settled) := Settle(items[..|items| - 1]);
      if IsNameVariant(item.path.name, item.target) && Key(item.path) !in taken
      then (taken + {Key(item.path)}, settled + [true])
      else (taken, settled + [false])
  }

  /** The second loop, over the first `k` items: the names of those that kept theirs and
      of those that were given one. */
  function Assign(items: seq<Item>, k: nat): (result: (set<Path>, seq<string>))
    requires k <= |items|
    ensures |result.1| == k
  {
    if k == 0 then (Settle(items).0, [])
    else
      var item := items[k - 1];
      var (taken, names) := Assign(items, k - 1);
      if Settle(items).1[k - 1] then (taken, names + [item.path.name])
      else
        var name := FreeVariant(item.path.dir, item.target, taken);
        (taken + {Key(Path(item.path.dir, name))}, names + [name])
  }

  /** What every matched file is called once the plan is carried out. */
  function Finals(items: seq<Item>): (names: seq<string>)
    ensures |names| == |items|
  {
    Assign(items, |items|).1
  }

  datatype Rename = Rename(index: nat, name: string)

  /** `file_renames` */
  function Renames(items: seq<Item>): seq<Rename> {
    RenamesUpTo(items, Finals(items), |items|)
  }

  /** The renames among the first `k` items: those whose assigned name is not the current one. */
  function RenamesUpTo(items: seq<Item>, names: seq<string>, k: nat): seq<Rename>
    requires k <= |items| == |names|
  {
    if k == 0 then []
    else if !Settle(items).1[k - 1] && names[k - 1] != items[k - 1].path.name
    then RenamesUpTo(items, names, k - 1) + [Rename(k - 1, names[k - 1])]
    else RenamesUpTo(items, names, k - 1)
  }

  // ------------------------------------------------------------ what a plan guarantees

  predicate BearsItsName(item: Item) {
    IsNameVariant(item.path.name, item.target)
  }

  /** The names reserved by the first loop are those of the files that bear theirs. */
  lemma {:induction false} SettledKeys(items: seq<Item>)
    ensures Settle(items).0 == set i | 0 <= i < |items| && BearsItsName(items[i]) :: Key(items[i].path)
    ensures forall i | 0 <= i < |items| :: Settle(items).1[i] <==>
      BearsItsName(items[i]) && forall j | 0 <= j < i :: !(BearsItsName(items[j]) && Key(items[j].path) == Key(items[i].path))
    decreases |items|
  {
    hide IsNameVariant, Key;
    if items != [] {
      var init, last := items[..|items| - 1], items[|items| - 1];
      SettledKeys(init);
      assert forall i | 0 <= i < |init| :: init[i] == items[i];
      assert Settle(items).1[|items| - 1] <==> BearsItsName(last) && Key(last.path) !in Settle(init).0;
      assert forall i | 0 <= i < |init| :: Settle(items).1[i] == Settle(init).1[i];
      if BearsItsName(last) && Key(last.path) in Settle(init).0 {
        var j :| 0 <= j < |init| && BearsItsName(init[j]) && Key(init[j].path) == Key(last.path);
        assert BearsItsName(items[j]) && Key(items[j].path) == Key(last.path);
      }
    }
  }

  /** A file keeps its name if and only if it is its canonical name or a " (n)" variant
      of it and no earlier file bears its own name in the same directory spelled alike. */
  lemma KeepsNameIff(items: seq<Item>, i: nat)
    requires i < |items|
    ensures (forall r | r in Renames(items) :: r.index != i) <==>
      BearsItsName(items[i]) && forall j | 0 <= j < i :: !(BearsItsName(items[j]) && Key(items[j].path) == Key(items[i].path))
  {
    SettledKeys(items);
    RenamesAreUnsettled(items, |items|);
    RenamesExact(items, i);
  }

  /** The names handed out so far, kept or assigned, are reserved, and each is new. */
  lemma {:induction false} AssignInvariant(items: seq<Item>, k: nat)
    requires k <= |items|
    ensures
      var (taken, names) := Assign(items, k);
      && Settle(items).0 <= taken
      && (forall i | 0 <= i < k :: Key(Path(items[i].path.dir, names[i])) in taken && IsNameVariant(names[i], items[i].target))
      && (forall i | 0 <= i < k && Settle(items).1[i] :: names[i] == items[i].path.name)
      && (forall i | 0 <= i < k && !Settle(items).1[i] :: Key(Path(items[i].path.dir, names[i])) !in Settle(items).0)
      && (forall i, j | 0 <= i < j < k :: Key(Path(items[i].path.dir, names[i])) != Key(Path(items[j].path.dir, names[j])))
    decreases k
  {
    hide IsNameVariant, FreeVariant, Lower, Settle;
    SettledKeys(items);
    if k > 0 {
      AssignInvariant(items, k - 1);
      var item := items[k - 1];
      var (taken, names) := Assign(items, k - 1);
      if Settle(items).1[k - 1] {
        forall i | 0 <= i < k - 1 ensures Key(Path(items[i].path.dir, names[i])) != Key(item.path) {
          if Settle(items).1[i] {
            assert BearsItsName(items[i]);
          }
        }
      }
    }
  }

  /** For every plan, the final names of all matched files are pairwise distinct in their
      directories ignoring case, and each is its canonical name or a numbered variant. */
  lemma FinalNamesDistinct(items: seq<Item>)
    ensures forall i | 0 <= i < |items| :: IsNameVariant(Finals(items)[i], items[i].target)
    ensures forall i, j | 0 <= i < j < |items| ::
      Key(Path(items[i].path.dir, Finals(items)[i])) != Key(Path(items[j].path.dir, Finals(items)[j]))
  {
    AssignInvariant(items, |items|);
  }

  /** The second loop's test `name != current_name` never holds a rename back: a file the
      first loop did not settle is always given another name. */
  lemma UnsettledMeansRenamed(items: seq<Item>, i: nat)
    requires i < |items|
    ensures Settle(items).1[i] <==> Finals(items)[i] == items[i].path.name
  {
    AssignInvariant(items, |items|);
    SettledKeys(items);
    if !Settle(items).1[i] && BearsItsName(items[i]) {
      assert Key(items[i].path) in Settle(items).0;
    }
  }

  lemma {:induction false} RenamesAreUnsettled(items: seq<Item>, k: nat)
    requires k <= |items|
    ensures forall r | r in RenamesUpTo(items, Finals(items), k) ::
      r.index < k && !Settle(items).1[r.index] && r.name == Finals(items)[r.index] && r.name != items[r.index].path.name
    ensures forall i | 0 <= i < k && !Settle(items).1[i] :: Rename(i, Finals(items)[i]) in RenamesUpTo(items, Finals(items), k)
    decreases k
  {
    hide Settle, Finals;
    if k > 0 {
      RenamesAreUnsettled(items, k - 1);
      UnsettledMeansRenamed(items, k - 1);
    }
  }

  lemma RenamesExact(items: seq<Item>, i: nat)
    requires i < |items|
    ensures (forall r | r in Renames(items) :: r.index != i) <==> Settle(items).1[i]
    ensures Renames(items) == [] <==> forall k | 0 <= k < |items| :: Settle(items).1[k]
  {
    RenamesAreUnsettled(items, |items|);
    if exists k | 0 <= k < |items| :: !Settle(items).1[k] {
      var k :| 0 <= k < |items| && !Settle(items).1[k];
      assert Rename(k, Finals(items)[k]) in Renames(items);
    }
    if Renames(items) != [] {
      assert Renames(items)[0] in Renames(items);
    }
  }

  /** Nothing needs renaming exactly when every matched file bears its name or a variant
      of it and no two of them collide. In particular the order in which the files are
      listed has no say in it. */
  lemma PlanEmptyIff(items: seq<Item>)
    ensures Renames(items) == [] <==>
      && (forall i | 0 <= i < |items| :: BearsItsName(items[i]))
      && (forall i, j | 0 <= i < j < |items| :: Key(items[i].path) != Key(items[j].path))
  {
    SettledKeys(items);
    if items != [] { RenamesExact(items, 0); }
    if Renames(items) == [] {
      forall i, j | 0 <= i < j < |items| ensures Key(items[i].path) != Key(items[j].path) {
        assert Settle(items).1[j] && Settle(items).1[i];
      }
    }
  }

  // ------------------------------------------------------------ the plan for one anime

  datatype Plan = Plan(dirNeedsRename: bool, targetDirName: string, fileRenames: seq<Rename>, matchedTotal: nat)

  /** The positions of the matched ones among the first `k` files. */
  function MatchedUpTo(locals: seq<Local>, expected: seq<Expected>, k: nat): (indices: seq<nat>)
    requires k <= |locals|
    ensures forall p | 0 <= p < |indices| :: indices[p] < k && Match(expected, locals[indices[p]].number).Some?
    ensures forall p, q | 0 <= p < q < |indices| :: indices[p] < indices[q]
  {
    hide Match;
    if k == 0 then []
    else if Match(expected, locals[k - 1].number).Some? then MatchedUpTo(locals, expected, k - 1) + [k - 1]
    else MatchedUpTo(locals, expected, k - 1)
  }

  function Matched(locals: seq<Local>, expected: seq<Expected>): (indices: seq<nat>)
    ensures forall p | 0 <= p < |indices| :: indices[p] < |locals| && Match(expected, locals[indices[p]].number).Some?
    ensures forall p, q | 0 <= p < q < |indices| :: indices[p] < indices[q]
  {
    MatchedUpTo(locals, expected, |locals|)
  }

  /** The matched files as the planner's loops see them. */
  function Items(title: string, locals: seq<Local>, expected: seq<Expected>): (items: seq<Item>)
    ensures |items| == |Matched(locals, expected)|
    ensures forall p | 0 <= p < |items| :: items[p] == ItemFor(title, locals[Matched(locals, expected)[p]], expected)
  {
    var indices := Matched(locals, expected);
    seq(|indices|, p requires 0 <= p < |indices| => ItemFor(title, locals[indices[p]], expected))
  }

  /** Whether a file is matched depends on its number alone. */
  lemma {:induction false} MatchedByNumber(locals: seq<Local>, after: seq<Local>, expected: seq<Expected>, k: nat)
    requires |after| == |locals| && k <= |locals|
    requires forall i | 0 <= i < |locals| :: after[i].number == locals[i].number
    ensures MatchedUpTo(after, expected, k) == MatchedUpTo(locals, expected, k)
    decreases k
  {
    hide Match;
    if k > 0 { MatchedByNumber(locals, after, expected, k - 1); }
  }

  /** The canonical name keeps the extension the file has. */
  function ItemFor(title: string, local: Local, expected: seq<Expected>): Item
    requires Match(expected, local.number).Some?
  {
    var e := Match(expected, local.number).value;
    Item(local.path, EpisodeFilename(title, e.epNumber, e.title, Extension(local.path.name)))
  }

  function DirName(dir: Dir): string {
    if dir == [] then "" else dir[|dir| - 1]
  }

  function Reindexed(renames: seq<Rename>, indices: seq<nat>): seq<Rename>
    requires forall r | r in renames :: r.index < |indices|
  {
    seq(|renames|, k requires 0 <= k < |renames| => Rename(indices[renames[k].index], renames[k].name))
  }

  /** `_compute_rename_plan` */
  function PlanFor(dir: Dir, folderTitle: string, locals: seq<Local>, expected: seq<Expected>): Plan {
    var name := Sanitize(folderTitle);
    var items := Items(name, locals, expected);
    RenamesAreUnsettled(items, |items|);
    Plan(DirName(dir) != name, name, Reindexed(Renames(items), Matched(locals, expected)), |items|)
  }

  lemma AssignStep(items: seq<Item>, k: nat)
    requires k < |items|
    ensures Assign(items, k + 1).1[..k] == Assign(items, k).1
  {
    hide Settle, FreeVariant;
  }

  lemma {:induction false} AssignIsPrefix(items: seq<Item>, k: nat)
    requires k <= |items|
    ensures Assign(items, k).1 == Finals(items)[..k]
    decreases |items| - k
  {
    hide Assign;
    if k < |items| {
      AssignIsPrefix(items, k + 1);
      AssignStep(items, k);
      assert Finals(items)[..k + 1][..k] == Finals(items)[..k];
    }
  }

  lemma {:induction false} SettledChangeNothing(items: seq<Item>, a: nat, b: nat)
    requires a <= b <= |items|
    requires forall i | a <= i < b :: Settle(items).1[i]
    ensures Assign(items, b).0 == Assign(items, a).0
    ensures RenamesUpTo(items, Finals(items), b) == RenamesUpTo(items, Finals(items), a)
    decreases b
  {
    hide Settle, FreeVariant, Finals;
    if a < b {
      SettledChangeNothing(items, a, b - 1);
    }
  }

  /** The positions of the files that do not keep their names, in order. */
  predicate ArePutAside(items: seq<Item>, unsettled: seq<nat>) {
    && (forall p | 0 <= p < |items| :: Settle(items).1[p] <==> p !in unsettled)
    && (forall k | 0 <= k < |unsettled| :: unsettled[k] < |items|)
    && (forall j, k | 0 <= j < k < |unsettled| :: unsettled[j] < unsettled[k])
  }

  /** The first loop as it runs: it reserves the names of the files that bear theirs and
      puts the others aside. */
  method ReserveNames(items: seq<Item>) returns (taken: set<Path>, unsettled: seq<nat>)
    ensures taken == Settle(items).0
    ensures ArePutAside(items, unsettled)
  {
    hide IsNameVariant, Key;
    taken, unsettled := {}, [];
    for i := 0 to |items|
      invariant taken == Settle(items[..i]).0
      invariant forall p | 0 <= p < i :: Settle(items[..i]).1[p] <==> p !in unsettled
      invariant forall k | 0 <= k < |unsettled| :: unsettled[k] < i
      invariant forall j, k | 0 <= j < k < |unsettled| :: unsettled[j] < unsettled[k]
    {
      SettleStep(items, i);
      if IsNameVariant(items[i].path.name, items[i].target) && Key(items[i].path) !in taken {
        taken := taken + {Key(items[i].path)};
      } else {
        unsettled := unsettled + [i];
      }
    }
    assert items[..|items|] == items;
  }

  lemma SettleStep(items: seq<Item>, i: nat)
    requires i < |items|
    ensures
      var (taken, settled) := Settle(items[..i]);
      var keeps := IsNameVariant(items[i].path.name, items[i].target) && Key(items[i].path) !in taken;
      Settle(items[..i + 1]) == (if keeps then taken + {Key(items[i].path)} else taken, settled + [keeps])
  {
    hide IsNameVariant, Key;
    assert items[..i + 1][..i] == items[..i];
  }

  /** The second loop's turn at one file put aside. */
  lemma NameStep(items: seq<Item>, i: nat, taken: set<Path>)
    requires i < |items| && !Settle(items).1[i] && taken == Assign(items, i).0
    ensures
      var name := FreeVariant(items[i].path.dir, items[i].target, taken);
      && Assign(items, i + 1).0 == taken + {Key(Path(items[i].path.dir, name))}
      && RenamesUpTo(items, Finals(items), i + 1) ==
         RenamesUpTo(items, Finals(items), i) + if name != items[i].path.name then [Rename(i, name)] else []
  {
    hide Settle, FreeVariant, Finals, Key;
    AssignIsPrefix(items, i + 1);
    assert Assign(items, i + 1).1[i] == Finals(items)[i];
  }

  /** The second loop as it runs: it names the files put aside. */
  method NameTheRest(items: seq<Item>, reserved: set<Path>, unsettled: seq<nat>) returns (renames: seq<Rename>)
    requires reserved == Settle(items).0
    requires ArePutAside(items, unsettled)
    ensures renames == Renames(items) && |renames| <= |unsettled|
  {
    hide Settle, Finals, FreeVariant, Key;
    var taken := reserved;
    renames := [];
    ghost var done := 0;
    for j := 0 to |unsettled|
      invariant done == if j == 0 then 0 else unsettled[j - 1] + 1
      invariant done <= |items|
      invariant taken == Assign(items, done).0
      invariant renames == RenamesUpTo(items, Finals(items), done) && |renames| <= j
    {
      var i := unsettled[j];
      NotPutAside(items, unsettled, j, done);
      SettledChangeNothing(items, done, i);
      assert i in unsettled;
      NameStep(items, i, taken);
      var name := FreeNameVariant(items[i].path.dir, items[i].target, taken);
      taken := taken + {Key(Path(items[i].path.dir, name))};
      if name != items[i].path.name {
        renames := renames + [Rename(i, name)];
      }
      done := i + 1;
    }
    NotPutAside(items, unsettled, |unsettled|, done);
    SettledChangeNothing(items, done, |items|);
  }

  /** The planner as it runs. */
  method ComputeRenamePlan(dir: Dir, folderTitle: string, locals: seq<Local>, expected: seq<Expected>) returns (plan: Plan)
    ensures plan == PlanFor(dir, folderTitle, locals, expected)
  {
    hide IsNameVariant, ItemFor, Sanitize, Match, Settle, Renames, Matched;
    var targetDirName := Sanitize(folderTitle);
    var items := Items(targetDirName, locals, expected);
    var taken, unsettled := ReserveNames(items);
    var renames := NameTheRest(items, taken, unsettled);
    InnerIndices(items);
    plan := Plan(DirName(dir) != targetDirName, targetDirName, Reindexed(renames, Matched(locals, expected)), |items|);
  }

  lemma InnerIndices(items: seq<Item>)
    ensures forall r | r in Renames(items) :: r.index < |items|
  {
    RenamesAreUnsettled(items, |items|);
  }

  /** Between two neighbours in the list of those put aside, everything is settled. */
  lemma NotPutAside(items: seq<Item>, unsettled: seq<nat>, j: nat, done: nat)
    requires ArePutAside(items, unsettled)
    requires j <= |unsettled| && done == if j == 0 then 0 else unsettled[j - 1] + 1
    ensures var end := if j < |unsettled| then unsettled[j] else |items|; done <= end && forall i | done <= i < end :: Settle(items).1[i]
  {
    hide Settle;
    var end := if j < |unsettled| then unsettled[j] else |items|;
    forall i | done <= i < end ensures i !in unsettled {
      forall k | 0 <= k < |unsettled| ensures unsettled[k] != i {
        if k < j { assert k == j - 1 || unsettled[k] < unsettled[j - 1]; }
        if k > j { assert unsettled[j] < unsettled[k]; }
      }
    }
  }

  // ------------------------------------------------------------ carrying the plan out

  /** The name a file has once the renames are carried out. */
  function NameAfter(renames: seq<Rename>, index: nat, current: string): string {
    if renames == [] then current
    else if renames[0].index == index then renames[0].name
    else NameAfter(renames[1..], index, current)
  }

  /** Renaming a directory takes everything under it along. */
  function Rebase(from: Dir, to: Dir, dir: Dir): Dir
    requires from <= dir
  {
    to + dir[|from|..]
  }

  function RenamedDir(dir: Dir, plan: Plan): Dir
    requires dir != []
  {
    if plan.dirNeedsRename then dir[..|dir| - 1] + [plan.targetDirName] else dir
  }

  /** The files after the directory and all planned files have changed their names at once. */
  function Applied(dir: Dir, plan: Plan, locals: seq<Local>): (result: seq<Local>)
    requires dir != [] && forall l | l in locals :: dir <= l.path.dir
    ensures |result| == |locals|
  {
    seq(|locals|, i requires 0 <= i < |locals| =>
      Local(Path(Rebase(dir, RenamedDir(dir, plan), locals[i].path.dir), NameAfter(plan.fileRenames, i, locals[i].path.name)), locals[i].number))
  }

  lemma {:induction false} NameAfterNone(renames: seq<Rename>, index: nat, current: string)
    requires forall r | r in renames :: r.index != index
    ensures NameAfter(renames, index, current) == current
    decreases |renames|
  {
    if renames != [] { NameAfterNone(renames[1..], index, current); }
  }

  lemma {:induction false} NameAfterSome(renames: seq<Rename>, k: nat, current: string)
    requires k < |renames| && forall j | 0 <= j < |renames| && renames[j].index == renames[k].index :: renames[j].name == renames[k].name
    ensures NameAfter(renames, renames[k].index, current) == renames[k].name
    decreases |renames|
  {
    if renames[0].index != renames[k].index { NameAfterSome(renames[1..], k - 1, current); }
  }

  /** Looking a matched file up in the plan gives its final name. */
  lemma NameAfterIsFinal(dir: Dir, folderTitle: string, locals: seq<Local>, expected: seq<Expected>, p: nat)
    requires p < |Matched(locals, expected)|
    ensures
      var items := Items(Sanitize(folderTitle), locals, expected);
      NameAfter(PlanFor(dir, folderTitle, locals, expected).fileRenames, Matched(locals, expected)[p], items[p].path.name) == Finals(items)[p]
  {
    hide MatchedUpTo, Settle, Finals, RenamesUpTo, Sanitize, ItemFor, NameAfter;
    var indices := Matched(locals, expected);
    var items := Items(Sanitize(folderTitle), locals, expected);
    RenamesAreUnsettled(items, |items|);
    UnsettledMeansRenamed(items, p);
    var inner := Renames(items);
    var renames := Reindexed(inner, indices);
    forall k | 0 <= k < |renames| && renames[k].index == indices[p] ensures inner[k] == Rename(p, Finals(items)[p]) && !Settle(items).1[p] {
      assert inner[k] in inner;
      assert inner[k].index == p;
    }
    if Settle(items).1[p] {
      NameAfterNone(renames, indices[p], items[p].path.name);
    } else {
      assert Rename(p, Finals(items)[p]) in inner;
      var k :| 0 <= k < |inner| && inner[k] == Rename(p, Finals(items)[p]);
      assert renames[k] == Rename(indices[p], Finals(items)[p]);
      NameAfterSome(renames, k, items[p].path.name);
    }
  }

  /** A name variant has the extension its target was built with. */
  lemma VariantKeepsExtension(name: string, stem: string, ext: string)
    requires IsExtension(ext) && exists k | 0 <= k < |stem| :: stem[k] != '.'
    requires IsNameVariant(name, stem + ext)
    ensures Extension(name) == ext
  {
    SplitBuilt(stem, ext);
    if name != stem + ext {
      var middle := name[|stem + " ("|..|name| - |")" + ext|];
      var more := " (" + middle + ")";
      assert name == (stem + more) + ext by {
        assert name == name[..|stem + " ("|] + middle + name[|name| - |")" + ext|..];
        assert name[..|stem + " ("|] == stem + " (";
      }
      assert (stem + more)[|stem|] == ' ';
      SplitBuilt(stem + more, ext);
    }
  }

  /** Two directories under one root are told apart after the root was renamed, too. */
  lemma RebaseInjective(from: Dir, to: Dir, a: Dir, b: Dir)
    requires from <= a && from <= b && Rebase(from, to, a) == Rebase(from, to, b)
    ensures a == b
  {
    assert a == from + a[|from|..] && b == from + b[|from|..];
    assert Rebase(from, to, a)[|to|..] == a[|from|..] && Rebase(from, to, b)[|to|..] == b[|from|..];
  }

  /** The matched files of the renamed anime are the same ones, under their final names,
      each with the target it had. */
  lemma ItemAfter(dir: Dir, folderTitle: string, locals: seq<Local>, expected: seq<Expected>, p: nat)
    requires dir != [] && forall l | l in locals :: dir <= l.path.dir
    requires forall l | l in locals && Match(expected, l.number).Some? :: IsExtension(Extension(l.path.name))
    requires p < |Matched(locals, expected)|
    ensures
      var title := Sanitize(folderTitle);
      var plan := PlanFor(dir, folderTitle, locals, expected);
      var after := Applied(dir, plan, locals);
      var i := Matched(locals, expected)[p];
      var items := Items(title, locals, expected);
      && dir <= items[p].path.dir
      && ItemFor(title, after[i], expected)
         == Item(Path(Rebase(dir, RenamedDir(dir, plan), items[p].path.dir), Finals(items)[p]), items[p].target)
  {
    hide PlanFor, Finals, Sanitize, IsNameVariant, EpisodeStem, MatchedUpTo, Match;
    var title := Sanitize(folderTitle);
    var items := Items(title, locals, expected);
    var local := locals[Matched(locals, expected)[p]];
    assert local in locals;
    NameAfterIsFinal(dir, folderTitle, locals, expected, p);
    FinalNamesDistinct(items);
    var e := Match(expected, local.number).value;
    VariantKeepsExtension(Finals(items)[p], EpisodeStem(title, e.epNumber, e.title), Extension(local.path.name));
  }

  lemma ItemsAfter(dir: Dir, folderTitle: string, locals: seq<Local>, expected: seq<Expected>)
    requires dir != [] && forall l | l in locals :: dir <= l.path.dir
    requires forall l | l in locals && Match(expected, l.number).Some? :: IsExtension(Extension(l.path.name))
    ensures
      var title := Sanitize(folderTitle);
      var plan := PlanFor(dir, folderTitle, locals, expected);
      var items := Items(title, locals, expected);
      var after := Items(title, Applied(dir, plan, locals), expected);
      && |after| == |items|
      && forall p | 0 <= p < |items| :: dir <= items[p].path.dir &&
           after[p] == Item(Path(Rebase(dir, RenamedDir(dir, plan), items[p].path.dir), Finals(items)[p]), items[p].target)
  {
    hide Finals, Sanitize, Settle, ItemFor, Match, PlanFor, MatchedUpTo;
    var plan := PlanFor(dir, folderTitle, locals, expected);
    var after := Applied(dir, plan, locals);
    MatchedByNumber(locals, after, expected, |locals|);
    forall p | 0 <= p < |Matched(locals, expected)|
      ensures
        var items := Items(Sanitize(folderTitle), locals, expected);
        dir <= items[p].path.dir &&
        ItemFor(Sanitize(folderTitle), after[Matched(locals, expected)[p]], expected)
          == Item(Path(Rebase(dir, RenamedDir(dir, plan), items[p].path.dir), Finals(items)[p]), items[p].target)
    {
      ItemAfter(dir, folderTitle, locals, expected, p);
    }
  }

  /** Items with the final names, rebased, need no renaming. */
  lemma FinalItemsSettled(items: seq<Item>, after: seq<Item>, from: Dir, to: Dir)
    requires |after| == |items|
    requires forall p | 0 <= p < |items| :: from <= items[p].path.dir
    requires forall p | 0 <= p < |items| ::
      after[p] == Item(Path(Rebase(from, to, items[p].path.dir), Finals(items)[p]), items[p].target)
    ensures Renames(after) == []
  {
    hide Finals, IsNameVariant, Renames, Rebase;
    FinalNamesDistinct(items);
    forall p, q | 0 <= p < q < |after| ensures Key(after[p].path) != Key(after[q].path) {
      if Key(after[p].path) == Key(after[q].path) {
        RebaseInjective(from, to, items[p].path.dir, items[q].path.dir);
      }
    }
    PlanEmptyIff(after);
  }

  /** Once a plan has been carried out, there is nothing left to plan: the directory and
      every matched file are where the scheme wants them, however many copies an episode
      has and however deep the files lie. */
  lemma PlanIsSettled(dir: Dir, folderTitle: string, locals: seq<Local>, expected: seq<Expected>)
    requires dir != [] && forall l | l in locals :: dir <= l.path.dir
    requires forall l | l in locals && Match(expected, l.number).Some? :: IsExtension(Extension(l.path.name))
    ensures
      var plan := PlanFor(dir, folderTitle, locals, expected);
      var again := PlanFor(RenamedDir(dir, plan), folderTitle, Applied(dir, plan, locals), expected);
      !again.dirNeedsRename && again.fileRenames == [] && again.matchedTotal == plan.matchedTotal
  {
    hide Renames, Items, Matched, Sanitize, Match, Applied;
    var plan := PlanFor(dir, folderTitle, locals, expected);
    ItemsAfter(dir, folderTitle, locals, expected);
    FinalItemsSettled(Items(Sanitize(folderTitle), locals, expected),
                      Items(Sanitize(folderTitle), Applied(dir, plan, locals), expected), dir, RenamedDir(dir, plan));
  }

  /** Where a video's stem is nothing but dots, `splitext` and the scanner disagree: the
      file is an episode, yet its canonical name would lose the extension. This is why
      the extension is asked for above. */
  lemma DotStemHasNoExtension()
    ensures HasVideoExtension("..mkv") && Extension("..mkv") == ""
  {
    assert LastDot("..mkv") == 1 by { LastDotIs("..mkv", 1); }
    assert "..mkv"[1..] == ".mkv";
    assert Lower(".mkv") == ".mkv";
  }
}
