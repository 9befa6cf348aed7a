/** Comparing the provider's episode list with the files on disk, as the database queries
    do it, and what those counts have to do with the matching the sorter uses. */
module Completeness {
  import opened Text
  import opened Naming
  import opened Catalog

  /** A local file as the queries see it. */
  datatype LocalFile = LocalFile(number: Option<string>, manual: bool)

  predicate HasNumber(f: LocalFile) {
    f.number.Some? && IsNumeral(f.number.value)
  }

  function LocalNumbers(files: seq<LocalFile>): set<nat> {
    set f | f in files && HasNumber(f) :: Cast(f.number.value)
  }

  /** Those with a file, and those without. */
  function PresentNumbers(expected: seq<Expected>, files: seq<LocalFile>): set<nat> {
    set e | e in expected && IsNumeral(e.epNumber) && Cast(e.epNumber) in LocalNumbers(files) :: Cast(e.epNumber)
  }

  function MissingNumbers(expected: seq<Expected>, files: seq<LocalFile>): set<nat> {
    set e | e in expected && IsNumeral(e.epNumber) && Cast(e.epNumber) !in LocalNumbers(files) :: Cast(e.epNumber)
  }

  datatype Counts = Counts(expected: nat, present: nat, missing: int)

  /** `for_animes`, for one anime: two counts, and their difference. */
  function CountsOf(expected: seq<Expected>, files: seq<LocalFile>): Counts {
    Counts(|ExpectedNumbers(expected)|, |PresentNumbers(expected, files)|, |ExpectedNumbers(expected)| - |PresentNumbers(expected, files)|)
  }

  /** The difference of the two counts is the third query's count: the numbers without a file. */
  lemma MissingIsCounted(expected: seq<Expected>, files: seq<LocalFile>)
    ensures CountsOf(expected, files).missing == |MissingNumbers(expected, files)|
    ensures ExpectedNumbers(expected) == PresentNumbers(expected, files) + MissingNumbers(expected, files)
    ensures PresentNumbers(expected, files) !! MissingNumbers(expected, files)
  {
    hide Cast, DigitsOnly;
    assert ExpectedNumbers(expected) == PresentNumbers(expected, files) + MissingNumbers(expected, files);
    assert PresentNumbers(expected, files) !! MissingNumbers(expected, files);
  }

  // ------------------------------------------------------------ the single missing episodes

  predicate IsMissing(e: Expected, files: seq<LocalFile>) {
    IsNumeral(e.epNumber) && Cast(e.epNumber) !in LocalNumbers(files)
  }

  /** What the query returns: the missing rows by number, equal ones in any order. */
  predicate IsMissingQuery(rows: seq<Expected>, expected: seq<Expected>, files: seq<LocalFile>) {
    && (forall e | e in rows :: e in expected && IsMissing(e, files))
    && (forall e | e in expected && IsMissing(e, files) :: e in rows)
    && (forall i, j | 0 <= i < j < |rows| :: IsNumeral(rows[i].epNumber) && IsNumeral(rows[j].epNumber) && Cast(rows[i].epNumber) <= Cast(rows[j].epNumber))
  }

  /** The distinct numbers in full, as the program reads them. */
  function FullNumbers(es: seq<Expected>): set<nat> {
    set e | e in es && IsNumeral(e.epNumber) :: Value(e.epNumber)
  }

  function MissingFully(expected: seq<Expected>, files: seq<LocalFile>): set<nat> {
    set e | e in expected && IsMissing(e, files) :: Value(e.epNumber)
  }

  /** `missing_for_anime`: each missing number once, in the order of the database. The loop
      tells episodes apart by their full numbers. */
  method MissingForAnime(rows: seq<Expected>, expected: seq<Expected>, files: seq<LocalFile>) returns (missing: seq<Expected>)
    requires IsMissingQuery(rows, expected, files)
    ensures forall e | e in missing :: e in rows && IsNumeral(e.epNumber)
    ensures forall i, j | 0 <= i < j < |missing| ::
      Cast(missing[i].epNumber) <= Cast(missing[j].epNumber) && Value(missing[i].epNumber) != Value(missing[j].epNumber)
    ensures FullNumbers(missing) == MissingFully(expected, files)
    ensures |missing| == |MissingFully(expected, files)|
  {
    hide IsMissingQuery, FullNumbers, DigitsOnly, Cast, Value, MissingFully;
    QueryRows(rows, expected, files);
    var seen: set<nat> := {};
    missing := [];
    NoFullNumbers();
    for k := 0 to |rows|
      invariant forall e | e in missing :: e in rows && IsNumeral(e.epNumber)
      invariant forall i | 0 <= i < |missing| :: Value(missing[i].epNumber) in seen
      invariant forall i, j | 0 <= i < j < |missing| ::
        Cast(missing[i].epNumber) <= Cast(missing[j].epNumber) && Value(missing[i].epNumber) != Value(missing[j].epNumber)
      invariant k < |rows| ==> forall e | e in missing :: Cast(e.epNumber) <= Cast(rows[k].epNumber)
      invariant seen == FullNumbers(missing) == FullNumbers(rows[..k])
      invariant |seen| == |missing|
    {
      var key := Value(rows[k].epNumber);
      OneMoreNumber(rows[..k], rows[k]);
      assert k + 1 < |rows| ==> Cast(rows[k].epNumber) <= Cast(rows[k + 1].epNumber);
      assert rows[..k + 1] == rows[..k] + [rows[k]];
      if key !in seen {
        OneMoreNumber(missing, rows[k]);
        seen := seen + {key};
        missing := missing + [rows[k]];
      }
    }
    assert rows[..|rows|] == rows;
    QueryNumbers(rows, expected, files);
  }

  lemma QueryRows(rows: seq<Expected>, expected: seq<Expected>, files: seq<LocalFile>)
    requires IsMissingQuery(rows, expected, files)
    ensures forall i | 0 <= i < |rows| :: IsNumeral(rows[i].epNumber)
    ensures forall i, j | 0 <= i <= j < |rows| ::
      IsNumeral(rows[i].epNumber) && IsNumeral(rows[j].epNumber) && Cast(rows[i].epNumber) <= Cast(rows[j].epNumber)
  {
    hide DigitsOnly, Value, LocalNumbers;
    forall i | 0 <= i < |rows| ensures IsNumeral(rows[i].epNumber) {
      assert rows[i] in rows;
    }
  }

  lemma NoFullNumbers()
    ensures FullNumbers([]) == {}
  {
  }

  lemma OneMoreNumber(missing: seq<Expected>, e: Expected)
    requires IsNumeral(e.epNumber)
    ensures FullNumbers(missing + [e]) == FullNumbers(missing) + {Value(e.epNumber)}
  {
    hide DigitsOnly, Value;
    forall f | f in missing + [e] ensures f in missing || f == e {}
    assert e in missing + [e];
    assert forall f | f in missing :: f in missing + [e];
  }

  lemma QueryNumbers(rows: seq<Expected>, expected: seq<Expected>, files: seq<LocalFile>)
    requires IsMissingQuery(rows, expected, files)
    ensures FullNumbers(rows) == MissingFully(expected, files)
  {
    hide DigitsOnly, Cast, LocalNumbers, Value;
    forall n | n in MissingFully(expected, files) ensures n in FullNumbers(rows) {
      var e :| e in expected && IsMissing(e, files) && n == Value(e.epNumber);
      assert e in rows;
    }
    forall n | n in FullNumbers(rows) ensures n in MissingFully(expected, files) {
      var e :| e in rows && IsNumeral(e.epNumber) && n == Value(e.epNumber);
      assert IsMissing(e, files);
    }
  }

  // ------------------------------------------------------------ 64 bits

  function Clamp(n: nat): nat {
    if n > MaxInteger then MaxInteger else n
  }

  function Clamped(s: set<nat>): set<nat> {
    set n | n in s :: Clamp(n)
  }

  /** The numbers the database cannot tell apart. */
  function Huge(s: set<nat>): set<nat> {
    set n | n in s && n >= MaxInteger
  }

  function Small(s: set<nat>): set<nat> {
    set n | n in s && n < MaxInteger
  }

  /** Clamping makes one number of all the huge ones. */
  lemma ClampedHas(s: set<nat>, c: nat)
    ensures c in Clamped(s) <==> if c < MaxInteger then c in s else c == MaxInteger && Huge(s) != {}
  {
    if c < MaxInteger && c in s { assert Clamp(c) == c; }
    if c == MaxInteger && Huge(s) != {} {
      var n :| n in Huge(s);
      assert Clamp(n) == c;
    }
    if c in Clamped(s) {
      var n :| n in s && Clamp(n) == c;
      if n >= MaxInteger { assert n in Huge(s); }
    }
  }

  /** A set of numbers is its small ones and its huge ones; clamped, the huge ones count once. */
  lemma ClampedCount(s: set<nat>)
    ensures |s| == |Small(s)| + |Huge(s)|
    ensures |Clamped(s)| == |Small(s)| + if Huge(s) == {} then 0 else 1
  {
    hide Clamped;
    assert s == Small(s) + Huge(s) && Small(s) !! Huge(s);
    SmallAndLast(Clamped(s), Small(s), Huge(s) != {}) by {
      forall c ensures c in Clamped(s) <==> c in Small(s) || (c == MaxInteger && Huge(s) != {}) { ClampedHas(s, c); }
    }
  }

  lemma SmallAndLast(all: set<nat>, small: set<nat>, last: bool)
    requires forall c :: c in all <==> c in small || (c == MaxInteger && last)
    requires MaxInteger !in small
    ensures |all| == |small| + if last then 1 else 0
  {
    if last {
      assert all == small + {MaxInteger};
    } else {
      assert all == small;
    }
  }

  lemma ExpectedAreClamped(expected: seq<Expected>)
    ensures ExpectedNumbers(expected) == Clamped(FullNumbers(expected))
  {
    hide DigitsOnly, Value;
    forall n | n in Clamped(FullNumbers(expected)) ensures n in ExpectedNumbers(expected) {
      var m :| m in FullNumbers(expected) && n == Clamp(m);
      var e :| e in expected && IsNumeral(e.epNumber) && m == Value(e.epNumber);
      assert Cast(e.epNumber) == n;
    }
    forall n | n in ExpectedNumbers(expected) ensures n in Clamped(FullNumbers(expected)) {
      var e :| e in expected && IsNumeral(e.epNumber) && n == Cast(e.epNumber);
      assert Value(e.epNumber) in FullNumbers(expected) && n == Clamp(Value(e.epNumber));
    }
  }

  /** The numbers of the files, in full. */
  function FullLocals(files: seq<LocalFile>): set<nat> {
    set f | f in files && HasNumber(f) :: Value(f.number.value)
  }

  lemma LocalsAreClamped(files: seq<LocalFile>)
    ensures LocalNumbers(files) == Clamped(FullLocals(files))
  {
    hide DigitsOnly, Value;
    forall n | n in Clamped(FullLocals(files)) ensures n in LocalNumbers(files) {
      var m :| m in FullLocals(files) && n == Clamp(m);
      var f :| f in files && HasNumber(f) && m == Value(f.number.value);
      assert Cast(f.number.value) == n;
    }
    forall n | n in LocalNumbers(files) ensures n in Clamped(FullLocals(files)) {
      var f :| f in files && HasNumber(f) && n == Cast(f.number.value);
      assert Value(f.number.value) in FullLocals(files) && n == Clamp(Value(f.number.value));
    }
  }

  /** The list of missing episodes is as long as their count says exactly if at most one
      of them is beyond the database's integers. */
  lemma MissingListIsCounted(expected: seq<Expected>, files: seq<LocalFile>)
    ensures |MissingFully(expected, files)| == CountsOf(expected, files).missing <==> |Huge(MissingFully(expected, files))| <= 1
  {
    hide DigitsOnly, Value, LocalNumbers;
    var all := MissingFully(expected, files);
    MissingIsCounted(expected, files);
    forall n | n in Clamped(all) ensures n in MissingNumbers(expected, files) {
      var m :| m in all && n == Clamp(m);
      var e :| e in expected && IsMissing(e, files) && m == Value(e.epNumber);
      assert Cast(e.epNumber) == n;
    }
    forall n | n in MissingNumbers(expected, files) ensures n in Clamped(all) {
      var e :| e in expected && IsNumeral(e.epNumber) && Cast(e.epNumber) !in LocalNumbers(files) && n == Cast(e.epNumber);
      assert IsMissing(e, files) && Value(e.epNumber) in all && n == Clamp(Value(e.epNumber));
    }
    assert Clamped(all) == MissingNumbers(expected, files);
    ClampedCount(all);
  }

  // ------------------------------------------------------------ counting and matching agree

  /** The distinct episodes, by normalized number, that the matcher finds for some file. */
  function Hit(expected: seq<Expected>, files: seq<LocalFile>): set<string> {
    set f | f in files && Match(expected, f.number).Some? && Normalize(f.number).Some? :: Normalize(f.number).value
  }

  /** A file is matched exactly if its number is, in full, one of the expected ones. */
  lemma MatchIffNumbered(expected: seq<Expected>, f: LocalFile)
    ensures Match(expected, f.number).Some? <==> HasNumber(f) && Value(f.number.value) in FullNumbers(expected)
  {
    hide Value;
    if HasNumber(f) && Value(f.number.value) in FullNumbers(expected) {
      var e :| e in expected && IsNumeral(e.epNumber) && Value(e.epNumber) == Value(f.number.value);
      NormalizeComparesValues(Some(e.epNumber), f.number);
    }
    if Match(expected, f.number).Some? {
      var e := Match(expected, f.number).value;
      NormalizeComparesValues(Some(e.epNumber), f.number);
      assert Value(e.epNumber) in FullNumbers(expected);
    }
  }

  lemma {:induction false} DecimalImage(ns: set<nat>, ss: set<string>)
    requires forall s :: s in ss <==> exists n :: n in ns && s == Decimal(n)
    ensures |ss| == |ns|
    decreases |ns|
  {
    if ns == {} {
      assert ss == {};
    } else {
      var n :| n in ns;
      forall s ensures s in ss - {Decimal(n)} <==> exists m :: m in ns - {n} && s == Decimal(m) {
        if s in ss - {Decimal(n)} {
          var m :| m in ns && s == Decimal(m);
          assert m in ns - {n};
        }
        if m :| m in ns - {n} && s == Decimal(m) {
          if s == Decimal(n) { DecimalInjective(m, n); }
        }
      }
      assert Decimal(n) in ss;
      DecimalImage(ns - {n}, ss - {Decimal(n)});
    }
  }

  /** The matcher finds a file for the numbers that are, in full, both expected and there. */
  lemma HitsAreShared(expected: seq<Expected>, files: seq<LocalFile>)
    ensures |Hit(expected, files)| == |FullNumbers(expected) * FullLocals(files)|
  {
    hide Value, DigitsOnly, Match, Decimal, Normalize, FullNumbers, FullLocals;
    var shared := FullNumbers(expected) * FullLocals(files);
    forall s ensures s in Hit(expected, files) <==> exists n :: n in shared && s == Decimal(n) {
      if s in Hit(expected, files) {
        var f :| f in files && Match(expected, f.number).Some? && Normalize(f.number).Some? && s == Normalize(f.number).value;
        HitIsShared(expected, files, f);
        assert Value(f.number.value) in shared && s == Decimal(Value(f.number.value));
      }
      if n :| n in shared && s == Decimal(n) {
        SharedIsHit(expected, files, n);
      }
    }
    DecimalImage(shared, Hit(expected, files));
  }

  lemma HitIsShared(expected: seq<Expected>, files: seq<LocalFile>, f: LocalFile)
    requires f in files && Match(expected, f.number).Some?
    ensures HasNumber(f) && Value(f.number.value) in FullNumbers(expected) * FullLocals(files)
    ensures Normalize(f.number) == Some(Decimal(Value(f.number.value)))
  {
    hide Value, Match, Decimal, FullNumbers;
    MatchIffNumbered(expected, f);
  }

  lemma SharedIsHit(expected: seq<Expected>, files: seq<LocalFile>, n: nat)
    requires n in FullNumbers(expected) * FullLocals(files)
    ensures Decimal(n) in Hit(expected, files)
  {
    hide Value, Match, Decimal, FullNumbers;
    var f :| f in files && HasNumber(f) && Value(f.number.value) == n;
    MatchIffNumbered(expected, f);
    HitIsShared(expected, files, f);
  }

  /** What the database counts as present, and what the matcher counts. */
  lemma PresentAndShared(expected: seq<Expected>, files: seq<LocalFile>)
    ensures
      var e, l := FullNumbers(expected), FullLocals(files);
      && CountsOf(expected, files).present == |Small(e * l)| + (if Huge(e) == {} || Huge(l) == {} then 0 else 1)
      && |e * l| == |Small(e * l)| + |Huge(e) * Huge(l)|
  {
    hide Value, DigitsOnly, FullNumbers, FullLocals, Clamped, Small, Huge, ExpectedNumbers, LocalNumbers, PresentNumbers;
    PresentIsBoth(expected, files);
    ExpectedAreClamped(expected);
    LocalsAreClamped(files);
    ClampedMeet(FullNumbers(expected), FullLocals(files));
  }

  /** What two clamped sets have in common. */
  lemma ClampedMeet(e: set<nat>, l: set<nat>)
    ensures |Clamped(e) * Clamped(l)| == |Small(e * l)| + if Huge(e) == {} || Huge(l) == {} then 0 else 1
    ensures |e * l| == |Small(e * l)| + |Huge(e) * Huge(l)|
  {
    hide Clamped;
    ClampedCount(e * l);
    assert Huge(e * l) == Huge(e) * Huge(l);
    SmallAndLast(Clamped(e) * Clamped(l), Small(e * l), Huge(e) != {} && Huge(l) != {}) by {
      forall c ensures c in Clamped(e) * Clamped(l) <==> c in Small(e * l) || (c == MaxInteger && Huge(e) != {} && Huge(l) != {}) {
        ClampedHas(e, c);
        ClampedHas(l, c);
      }
    }
  }

  lemma PresentIsBoth(expected: seq<Expected>, files: seq<LocalFile>)
    ensures PresentNumbers(expected, files) == ExpectedNumbers(expected) * LocalNumbers(files)
  {
    hide Cast, DigitsOnly, LocalNumbers;
  }

  /** As many episodes are present, by the database's count, as the matcher finds files for,
      exactly if nothing beyond 64 bits is expected, or nothing beyond 64 bits is there, or
      one such number alone is both. */
  lemma PresentIsMatched(expected: seq<Expected>, files: seq<LocalFile>)
    ensures
      var e, l := Huge(FullNumbers(expected)), Huge(FullLocals(files));
      CountsOf(expected, files).present == |Hit(expected, files)| <==> e == {} || l == {} || |e * l| == 1
  {
    hide Hit, FullNumbers, FullLocals, Huge, Small, CountsOf;
    HitsAreShared(expected, files);
    PresentAndShared(expected, files);
    NothingShared(Huge(FullNumbers(expected)), Huge(FullLocals(files)));
  }

  lemma NothingShared(a: set<nat>, b: set<nat>)
    ensures a == {} || b == {} ==> |a * b| == 0
  {
    if a == {} || b == {} { assert a * b == {}; }
  }

  // ------------------------------------------------------------ unassigned files

  /** The condition of the unassigned query, for a file of an identified anime. */
  predicate IsUnassigned(expected: seq<Expected>, f: LocalFile) {
    && ExpectedNumbers(expected) != {}
    && !(HasNumber(f) && Cast(f.number.value) in ExpectedNumbers(expected))
    && !f.manual
  }

  /** The matcher has no episode for the file, nobody has numbered it by hand, and there is
      a numbered episode to match at all. */
  predicate IsUnmatched(expected: seq<Expected>, f: LocalFile) {
    && FullNumbers(expected) != {}
    && Match(expected, f.number).None?
    && !f.manual
  }

  /** The file's number is none of the expected ones, but the database takes it for one. */
  predicate IsMistaken(expected: seq<Expected>, f: LocalFile) {
    && HasNumber(f) && !f.manual
    && Value(f.number.value) >= MaxInteger && Value(f.number.value) !in FullNumbers(expected)
    && Huge(FullNumbers(expected)) != {}
  }

  /** The unassigned files are the matcher's unmatched ones, but for those whose number is
      beyond 64 bits in an anime that expects another such number. */
  lemma UnassignedIffUnmatched(expected: seq<Expected>, f: LocalFile)
    ensures (IsUnassigned(expected, f) <==> IsUnmatched(expected, f)) <==> !IsMistaken(expected, f)
  {
    hide Value, Match, DigitsOnly, FullNumbers, ExpectedNumbers, Huge;
    MatchIffNumbered(expected, f);
    NobodyExpected(expected);
    if HasNumber(f) { CastIsExpected(expected, f.number.value); }
  }

  lemma NobodyExpected(expected: seq<Expected>)
    ensures ExpectedNumbers(expected) == {} <==> FullNumbers(expected) == {}
    ensures Huge(FullNumbers(expected)) != {} ==> FullNumbers(expected) != {}
  {
    hide DigitsOnly, FullNumbers, ExpectedNumbers;
    ExpectedAreClamped(expected);
    if n :| n in FullNumbers(expected) { assert Clamp(n) in Clamped(FullNumbers(expected)); }
  }

  lemma CastIsExpected(expected: seq<Expected>, s: string)
    requires IsNumeral(s)
    ensures Cast(s) in ExpectedNumbers(expected) <==>
      if Value(s) < MaxInteger then Value(s) in FullNumbers(expected) else Huge(FullNumbers(expected)) != {}
    ensures Value(s) >= MaxInteger && Value(s) in FullNumbers(expected) ==> Huge(FullNumbers(expected)) != {}
  {
    hide Value, DigitsOnly, FullNumbers, ExpectedNumbers, Clamped;
    ExpectedAreClamped(expected);
    ClampedHas(FullNumbers(expected), Cast(s));
    if Value(s) >= MaxInteger && Value(s) in FullNumbers(expected) { assert Value(s) in Huge(FullNumbers(expected)); }
  }

  /** Beyond 64 bits the two part company: two different episodes are one to the database,
      so one is present that the matcher has no file for. */
  lemma HugeNumbersDiffer(a: nat, b: nat)
    requires MaxInteger <= a < b
    ensures
      var expected, files := [Expected(Decimal(a), None)], [LocalFile(Some(Decimal(b)), false)];
      && CountsOf(expected, files) == Counts(1, 1, 0)
      && Hit(expected, files) == {} && Match(expected, files[0].number).None?
  {
    hide Decimal, Value;
    var expected, files := [Expected(Decimal(a), None)], [LocalFile(Some(Decimal(b)), false)];
    ValueOfDecimal(a);
    ValueOfDecimal(b);
    NormalizeComparesValues(Some(Decimal(a)), Some(Decimal(b)));
    assert files[0] in files && expected[0] in expected;
    assert Cast(Decimal(a)) == Cast(Decimal(b)) == MaxInteger;
    assert LocalNumbers(files) == {MaxInteger};
    assert ExpectedNumbers(expected) == {MaxInteger};
    assert PresentNumbers(expected, files) == {MaxInteger};
    assert Match(expected[..0], Some(Decimal(b))).None?;
    assert Match(expected, Some(Decimal(b))).None?;
  }

  /** Once a lone file has been given its number, its anime is complete by the database's
      count. The matcher agrees exactly if that number, which has at most 64 bits, is the
      expected one. */
  lemma LoneFileCompletes(expected: seq<Expected>)
    requires |ExpectedNumbers(expected)| == 1
    ensures
      var n := TheElement(ExpectedNumbers(expected));
      && CountsOf(expected, [LocalFile(Some(Decimal(n)), false)]) == Counts(1, 1, 0)
      && (Match(expected, Some(Decimal(n))).Some? <==> n < MaxInteger || MaxInteger in FullNumbers(expected))
  {
    hide Decimal, Value, FullNumbers, DigitsOnly, Match;
    var n := TheElement(ExpectedNumbers(expected));
    var files := [LocalFile(Some(Decimal(n)), false)];
    ValueOfDecimal(n);
    LoneNumbers(expected, n);
    PresentIsBoth(expected, files);
    assert files[0] in files;
    assert n <= MaxInteger && Cast(Decimal(n)) == n;
    assert LocalNumbers(files) == {n};
    MatchIffNumbered(expected, files[0]);
    ExpectedAreClamped(expected);
    ClampedHas(FullNumbers(expected), n);
    ClampedHas(FullNumbers(expected), MaxInteger);
    assert n in Clamped(FullNumbers(expected));
  }

  lemma LoneNumbers(expected: seq<Expected>, n: nat)
    requires ExpectedNumbers(expected) == {n}
    ensures n <= MaxInteger
  {
    hide Value, DigitsOnly;
    assert n in ExpectedNumbers(expected);
  }
}
