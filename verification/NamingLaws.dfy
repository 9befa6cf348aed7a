/** The names files and directories are given, character by character. */
module NamingLaws {
  import opened Text
  import opened Episodes
  import opened Naming
  import opened ReleaseName

  /** "Title - S01E05 - Name.mkv", with the provider's name of the episode. */
  lemma BuiltName(title: string, number: string, name: string, suffix: string)
    requires IsCleanName(title) && IsCleanName(name) && IsNumeral(number)
    ensures
      var digits := if Value(number) < 10 then "0" + Decimal(Value(number)) else Decimal(Value(number));
      BuildEpisodeFilename(title, number, Some(name), suffix) == title + " - S01E" + digits + " - " + name + suffix
  {
    hide Sanitize, Decimal, Value;
    SanitizeKeepsClean(title);
    SanitizeKeepsClean(name);
    assert name != "";
    var digits := Padded(Value(number));
    assert title + (" - S01E" + digits + " - " + name) + suffix == title + " - S01E" + digits + " - " + name + suffix;
  }

  /** Where the provider has none it is called by its number. */
  lemma BuiltWithoutName(title: string, number: string, name: Option<string>, suffix: string)
    requires IsCleanName(title) && IsNumeral(number) && (name == None || name == Some(""))
    ensures
      var n := Value(number);
      var digits := if n < 10 then "0" + Decimal(n) else Decimal(n);
      BuildEpisodeFilename(title, number, name, suffix) == title + " - S01E" + digits + " - Episode " + Decimal(n) + suffix
  {
    hide Sanitize, Decimal, Value, IsCleanName, Padded;
    var n := Value(number);
    SanitizeKeepsClean(title);
    EpisodeNumberIsClean(n);
    SanitizeKeepsClean("Episode " + Decimal(n));
    PaddedIs(n);
    PutTogether(title, Padded(n), Decimal(n), suffix);
  }

  lemma PaddedIs(n: nat)
    ensures Padded(n) == if n < 10 then "0" + Decimal(n) else Decimal(n)
  {
    hide Decimal;
  }

  lemma PutTogether(title: string, digits: string, d: string, suffix: string)
    ensures title + (" - S01E" + digits + " - " + ("Episode " + d)) + suffix == title + " - S01E" + digits + " - Episode " + d + suffix
  {
    assert " - " + ("Episode " + d) == " - Episode " + d;
    assert " - S01E" + digits + " - " + ("Episode " + d) == " - S01E" + digits + " - Episode " + d;
    assert title + (" - S01E" + digits + " - Episode " + d) == title + " - S01E" + digits + " - Episode " + d;
  }

  lemma EpisodeNumberIsClean(n: nat)
    ensures IsCleanName("Episode " + Decimal(n))
  {
    var d := Decimal(n);
    var s := "Episode " + d;
    forall c | c in s ensures c !in InvalidChars {
      if c in d { assert IsDigit(c); }
    }
    assert IsDigit(d[|d| - 1]) && s[|s| - 1] == d[|d| - 1];
    assert s[0] == 'E';
  }

  /** A title that has to be cleaned is cleaned first. */
  lemma BuiltFromClean(title: string, number: string, name: Option<string>, suffix: string)
    requires IsNumeral(number)
    ensures BuildEpisodeFilename(title, number, name, suffix) == BuildEpisodeFilename(Sanitize(title), number, name, suffix)
    ensures name.Some? && name.value != "" ==> BuildEpisodeFilename(title, number, name, suffix) == BuildEpisodeFilename(title, number, Some(Sanitize(name.value)), suffix)
  {
    hide Sanitize, Value, MarkerPart, IsCleanName;
    CleanedIsClean(title);
    if name.Some? { CleanedIsClean(name.value); }
  }

  lemma CleanedIsClean(name: string)
    ensures Sanitize(Sanitize(name)) == Sanitize(name) && Sanitize(name) != ""
  {
    hide Sanitize;
    SanitizeKeepsClean(Sanitize(name));
  }

  // ------------------------------------------------------------ cleaning

  lemma {:induction false} WithoutConcat(a: string, b: string, chars: string)
    ensures Without(a + b, chars) == Without(a, chars) + Without(b, chars)
    decreases |a|
  {
    if a == "" {
      assert a + b == b;
    } else {
      assert (a + b)[1..] == a[1..] + b;
      WithoutConcat(a[1..], b, chars);
    }
  }

  /** Characters file systems refuse are left out, wherever they stand. */
  lemma SanitizeDrops(a: string, c: char, b: string)
    requires c in "\\/:*?\"<>|"
    ensures Sanitize(a + [c] + b) == Sanitize(a + b)
  {
    hide StripLeft, StripRight;
    WithoutConcat(a + [c], b, InvalidChars);
    WithoutConcat(a, [c], InvalidChars);
    WithoutConcat(a, b, InvalidChars);
    assert Without([c], InvalidChars) == "";
    assert Without(a, InvalidChars) + "" == Without(a, InvalidChars);
  }

  /** So are blanks and dots at either end. */
  lemma SanitizeTrims(s: string, c: char)
    requires c in " ."
    ensures Sanitize([c] + s) == Sanitize(s) && Sanitize(s + [c]) == Sanitize(s)
  {
    hide StripLeft, StripRight, Without;
    KeepsEnd(c);
    WithoutConcat([c], s, InvalidChars);
    WithoutConcat(s, [c], InvalidChars);
    var t := Without(s, InvalidChars);
    StripFront(c, t, " .");
    StripBack(t, c, " .");
  }

  lemma KeepsEnd(c: char)
    requires c in " ."
    ensures Without([c], InvalidChars) == [c]
  {
    assert [c][1..] == "";
  }

  lemma StripBack(t: string, c: char, chars: string)
    requires c in chars
    ensures StripRight(t + [c], chars) == StripRight(t, chars)
  {
    assert (t + [c])[..|t|] == t;
  }

  lemma {:induction false} StripFront(c: char, t: string, chars: string)
    requires c in chars
    ensures StripLeft(StripRight([c] + t, chars), chars) == StripLeft(StripRight(t, chars), chars)
    decreases |t|
  {
    if t == "" {
      assert [c] + t == [c] && [c][..0] == "";
      assert StripRight([c], chars) == "";
    } else if t[|t| - 1] in chars {
      assert ([c] + t)[..|t|] == [c] + t[..|t| - 1];
      StripFront(c, t[..|t| - 1], chars);
    } else {
      assert ([c] + t)[1..] == t;
    }
  }

  /** Of nothing at all a name is made nevertheless. */
  lemma SanitizeNothing()
    ensures Sanitize("") == "Unknown"
  {
  }

  // ------------------------------------------------------------ numbers

  /** Of several expected episodes whose numbers are of the same value, the last listed is the
      one a file of that number is taken for. */
  lemma {:induction false} LastMatches(expected: seq<Expected>, number: string, k: nat)
    requires k < |expected| && IsNumeral(number) && IsNumeral(expected[k].epNumber) && Value(expected[k].epNumber) == Value(number)
    requires forall i | k < i < |expected| :: !(IsNumeral(expected[i].epNumber) && Value(expected[i].epNumber) == Value(number))
    ensures Match(expected, Some(number)) == Some(expected[k])
    decreases |expected|
  {
    hide Normalize, IsNumeral, Value;
    NormalizeComparesValues(Some(number), Some(expected[|expected| - 1].epNumber));
    if k < |expected| - 1 { LastMatches(expected[..|expected| - 1], number, k); }
  }

  // ------------------------------------------------------------ kinds of files

  /** What counts as an episode, in whatever case. */
  lemma VideosAre(stem: string, ext: string)
    requires stem != "" && IsExtension(ext)
    ensures HasVideoExtension(stem + ext) <==> Lower(ext) in [".mkv", ".mp4", ".avi", ".ts", ".m2ts", ".webm", ".wmv", ".flv", ".mov"]
  {
    hide Stem, Suffix, Lower;
    SplitBuilt(stem, ext);
  }
}
