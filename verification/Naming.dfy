/** How episodes are matched by number and what their files are called. */
module Naming {
  import opened Text
  import opened Numbering
  import opened ReleaseName
  import opened Rollback

  const InvalidChars: string := "\\/:*?\"<>|"

  function Without(s: string, chars: string): (r: string)
    ensures forall c | c in r :: c in s && c !in chars
  {
    if s == "" then ""
    else if s[0] in chars then Without(s[1..], chars)
    else [s[0]] + Without(s[1..], chars)
  }

  function StripLeft(s: string, chars: string): (r: string)
    ensures r == "" || r[0] !in chars
    ensures forall c | c in r :: c in s
    ensures s != "" && s[|s| - 1] !in chars ==> r != "" && r[|r| - 1] == s[|s| - 1]
  {
    if s == "" || s[0] !in chars then s else StripLeft(s[1..], chars)
  }

  function StripRight(s: string, chars: string): (r: string)
    ensures r == "" || r[|r| - 1] !in chars
    ensures forall c | c in r :: c in s
  {
    if s == "" || s[|s| - 1] !in chars then s else StripRight(s[..|s| - 1], chars)
  }

  /** A name the usual file systems accept as it is. */
  predicate IsCleanName(s: string) {
    && s != ""
    && (forall c | c in s :: c !in InvalidChars)
    && s[0] !in " ." && s[|s| - 1] !in " ."
  }

  /** `sanitize_filename_component` */
  function Sanitize(name: string): (r: string)
    ensures IsCleanName(r)
  {
    var cleaned := StripLeft(StripRight(Without(name, InvalidChars), " ."), " .");
    if cleaned == "" then "Unknown" else cleaned
  }

  /** A clean name is left as it is, so naming something twice changes nothing. */
  lemma SanitizeKeepsClean(name: string)
    requires IsCleanName(name)
    ensures Sanitize(name) == name
  {
    NothingToRemove(name, InvalidChars);
  }

  lemma NothingToRemove(s: string, chars: string)
    requires forall c | c in s :: c !in chars
    ensures Without(s, chars) == s
  {
    if s != "" { NothingToRemove(s[1..], chars); }
  }

  // ------------------------------------------------------------ matching

  datatype Expected = Expected(epNumber: string, title: Option<string>)

  /** `_normalize_ep_number` */
  function Normalize(value: Option<string>): (r: Option<string>)
    ensures r.Some? ==> value.Some? && IsNumeral(value.value) && r.value == Decimal(Value(value.value))
  {
    if value.None? || !IsNumeral(value.value) then None else Some(Decimal(Value(value.value)))
  }

  /** Two numbers are the same episode exactly when they are numerals of the same value. */
  lemma NormalizeComparesValues(a: Option<string>, b: Option<string>)
    ensures Normalize(a).Some? && Normalize(a) == Normalize(b) <==>
      a.Some? && b.Some? && IsNumeral(a.value) && IsNumeral(b.value) && Value(a.value) == Value(b.value)
  {
    if Normalize(a).Some? && Normalize(a) == Normalize(b) {
      DecimalInjective(Value(a.value), Value(b.value));
    }
  }

  lemma NormalizeOfDecimal(n: nat)
    ensures Normalize(Some(Decimal(n))) == Some(Decimal(n))
  {
    ValueOfDecimal(n);
  }

  /** The expected episode of that number; the last one, should the list repeat it. */
  function Match(expected: seq<Expected>, number: Option<string>): (r: Option<Expected>)
    ensures r.Some? ==> r.value in expected && Normalize(number).Some? && Normalize(Some(r.value.epNumber)) == Normalize(number)
    ensures r.None? ==> Normalize(number).None? || forall e | e in expected :: Normalize(Some(e.epNumber)) != Normalize(number)
  {
    if expected == [] then None
    else
      var last := expected[|expected| - 1];
      if Normalize(number).Some? && Normalize(Some(last.epNumber)) == Normalize(number) then Some(last)
      else Match(expected[..|expected| - 1], number)
  }

  function Lookup<K, V>(index: map<K, V>, key: K): Option<V> {
    if key in index then Some(index[key]) else None
  }

  /** `match_local_episodes`: an index by normalized number is built once, then every
      local number is looked up in it. */
  method MatchLocalEpisodes(locals: seq<Option<string>>, expected: seq<Expected>) returns (matches: seq<Option<Expected>>)
    ensures |matches| == |locals|
    ensures forall i | 0 <= i < |locals| :: matches[i] == Match(expected, locals[i])
  {
    var byNumber: map<string, Expected> := map[];
    for i := 0 to |expected|
      invariant forall s | Normalize(s).Some? :: Match(expected[..i], s) == Lookup(byNumber, Normalize(s).value)
    {
      assert expected[..i + 1][..i] == expected[..i];
      var norm := Normalize(Some(expected[i].epNumber));
      if norm.Some? {
        byNumber := byNumber[norm.value := expected[i]];
      }
    }
    assert expected[..|expected|] == expected;
    matches := [];
    for i := 0 to |locals|
      invariant |matches| == i
      invariant forall k | 0 <= k < i :: matches[k] == Match(expected, locals[k])
    {
      var norm := Normalize(locals[i]);
      if norm.None? { NoNumberNoMatch(expected, locals[i]); }
      matches := matches + [if norm.Some? then Lookup(byNumber, norm.value) else None];
    }
  }

  lemma NoNumberNoMatch(expected: seq<Expected>, number: Option<string>)
    requires Normalize(number).None?
    ensures Match(expected, number).None?
  {
  }

  // ------------------------------------------------------------ building

  /** The name segment of an episode: the provider's, or "Episode n". */
  function EpisodeTitle(n: nat, title: Option<string>): string {
    Sanitize(if title.None? || title.value == "" then "Episode " + Decimal(n) else title.value)
  }

  /** "{Title} - S01E{episode} - {Episode name}", without the suffix. */
  function EpisodeStem(title: string, number: string, epTitle: Option<string>): (stem: string)
    requires IsNumeral(number)
    ensures stem != ""
    ensures exists k | 0 <= k < |stem| :: stem[k] != '.'
  {
    var n := Value(number);
    var stem := title + MarkerPart(n, EpisodeTitle(n, epTitle));
    assert stem[|title|] == ' ';
    stem
  }

  /** `_episode_filename`, for a title that is sanitized already */
  function EpisodeFilename(title: string, number: string, epTitle: Option<string>, suffix: string): string
    requires IsNumeral(number)
  {
    EpisodeStem(title, number, epTitle) + suffix
  }

  /** `build_episode_filename` */
  function BuildEpisodeFilename(animeTitle: string, number: string, epTitle: Option<string>, suffix: string): string
    requires IsNumeral(number)
  {
    EpisodeFilename(Sanitize(animeTitle), number, epTitle, suffix)
  }

  /** Two different numerals, each followed by a blank, differ before either ends. */
  lemma {:induction false} NumeralsDiffer(p: string, q: string) returns (k: nat)
    requires DigitsOnly(p) && DigitsOnly(q) && p != q
    ensures k < |p + " "| && k < |q + " "| && (p + " ")[k] != (q + " ")[k]
    decreases |p|
  {
    if p == "" || q == "" || p[0] != q[0] {
      k := 0;
    } else {
      assert p == [p[0]] + p[1..] && q == [q[0]] + q[1..];
      var rest := NumeralsDiffer(p[1..], q[1..]);
      k := rest + 1;
    }
  }

  lemma NotAPrefix(a: string, b: string, i: nat)
    requires i < |a| && i < |b| && a[i] != b[i]
    ensures !(a <= b)
  {
  }

  /** Names built for two different episodes of one anime never start alike, whatever is
      put behind them and whatever the case. */
  lemma BuiltStemsUnrelated(title: string, a: string, b: string, aTitle: Option<string>, bTitle: Option<string>, p: string, q: string)
    requires IsNumeral(a) && IsNumeral(b) && Value(a) != Value(b)
    ensures Unrelated(EpisodeStem(title, a, aTitle) + p, EpisodeStem(title, b, bTitle) + q)
  {
    hide Lower, Padded, EpisodeTitle, Value, MarkerPart;
    var n, m := Value(a), Value(b);
    ValueOfPadded(n);
    ValueOfPadded(m);
    var k := NumeralsDiffer(Padded(n), Padded(m));
    CopyIsTail(title, n, EpisodeTitle(n, aTitle), p);
    CopyIsTail(title, m, EpisodeTitle(m, bTitle), q);
    var s, t := EpisodeStem(title, a, aTitle) + p, EpisodeStem(title, b, bTitle) + q;
    StemAt(title, n, EpisodeTitle(n, aTitle) + p, k);
    StemAt(title, m, EpisodeTitle(m, bTitle) + q, k);
    var i := |title| + |" - S01E"| + k;
    NotAPrefix(Lower(s), Lower(t), i);
    NotAPrefix(Lower(t), Lower(s), i);
  }

  /** Where the number stands in a built stem, folded. */
  lemma StemAt(title: string, n: nat, tail: string, k: nat)
    requires k < |Padded(n) + " "|
    ensures
      var stem := title + MarkerPart(n, tail);
      var i := |title| + |" - S01E"| + k;
      i < |stem| && Lower(stem)[i] == (Padded(n) + " ")[k]
  {
    var stem := title + MarkerPart(n, tail);
    var i := |title| + |" - S01E"| + k;
    assert stem == (title + " - S01E") + (Padded(n) + " ") + ("- " + tail);
    assert stem[i] == (Padded(n) + " ")[k];
    assert IsDigit(stem[i]) || stem[i] == ' ';
  }

  // ------------------------------------------------------------ names read back

  /** No bracket opened in the title is closed behind the episode's marker. */
  predicate MarkerStands(title: string, n: nat, epTitle: Option<string>) {
    !LeftOpen(title) || ']' !in EpisodeTitle(n, epTitle)
  }

  /** The episode numbers read off names built for the title: those of at most four digits,
      or, if the title has a marker of its own, the one that says. */
  predicate ReadsAs(title: string, n: nat) {
    match TitleMarker(title)
    case Some(digits) => Value(digits) == n
    case None => n <= 9999
  }

  /** A stem, something that closes no bracket, such as " (2)", and an extension. */
  ghost predicate BuiltOn(name: string, stem: string, ext: string) {
    exists more: string :: ']' !in more && name == stem + more + ext
  }

  lemma PlainIsBuilt(stem: string, ext: string)
    ensures BuiltOn(stem + ext, stem, ext)
  {
    assert stem + ext == stem + "" + ext;
  }

  /** A number more or less makes no difference. */
  lemma NumberedIsBuilt(inner: string, n: nat, stem: string, ext: string)
    requires BuiltOn(inner + ext, stem, ext)
    ensures BuiltOn(Numbered(inner, n, ext), stem, ext)
  {
    var more: string :| ']' !in more && inner + ext == stem + more + ext;
    assert inner == (inner + ext)[..|inner|] == stem + more;
    var longer := more + (" (" + Decimal(n) + ")");
    assert Numbered(inner, n, ext) == stem + longer + ext;
  }

  /** The scanner reads a file named by the scheme, whatever numbers had to be added to
      tell it from other copies, as the episode it was named for if and only if the title
      and the number allow it. */
  lemma NameReadsBack(name: string, title: string, number: string, epTitle: Option<string>, ext: string)
    requires IsNumeral(number) && IsExtension(ext) && MarkerStands(title, Value(number), epTitle)
    requires BuiltOn(name, EpisodeStem(title, number, epTitle), ext)
    ensures Guess(name) == Normalize(Some(number)) <==> ReadsAs(title, Value(number))
  {
    hide Guess, MarkerPart, LeftOpen, TitleMarker, EpisodeTitle, Decimal, Value;
    var n := Value(number);
    var tail := EpisodeTitle(n, epTitle);
    var more: string :| ']' !in more && name == EpisodeStem(title, number, epTitle) + more + ext;
    GuessOfBuilt(title, n, tail + more, ext);
    CopyIsTail(title, n, tail, more);
  }

  lemma CopyIsTail(title: string, n: nat, tail: string, more: string)
    ensures title + MarkerPart(n, tail + more) == title + MarkerPart(n, tail) + more
  {
  }
}
