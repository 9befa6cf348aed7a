/** Reading an episode number off a release's file name, over ASCII. */
module ReleaseName {
  import opened Text

  // ------------------------------------------------------------ scrubbing

  /** Index of the first `c`, or the length. */
  function Find(s: string, c: char): (i: nat)
    ensures i <= |s|
    ensures i < |s| ==> s[i] == c
    ensures forall k | 0 <= k < i :: s[k] != c
  {
    if s == "" || s[0] == c then 0 else 1 + Find(s[1..], c)
  }

  /** `re.sub(r"\[[^\]]*\]", " ", s)` */
  function DropGroups(s: string): string
    decreases |s|
  {
    if s == "" then ""
    else
      var close := Find(s, ']');
      if s[0] == '[' && close < |s| then " " + DropGroups(s[close + 1..])
      else [s[0]] + DropGroups(s[1..])
  }

  /** A bracket is opened and not closed again. */
  predicate LeftOpen(s: string)
    decreases |s|
  {
    s != "" &&
    var close := Find(s, ']');
    if s[0] == '[' then close == |s| || LeftOpen(s[close + 1..])
    else LeftOpen(s[1..])
  }

  /** `re.sub(r"[()\[\]{}]", " ", s)` */
  function BlankStray(s: string): (r: string)
    ensures |r| == |s|
    ensures forall i | 0 <= i < |s| :: r[i] == if s[i] in "()[]{}" then ' ' else s[i]
  {
    seq(|s|, i requires 0 <= i < |s| => if s[i] in "()[]{}" then ' ' else s[i])
  }

  function Scrub(s: string): string {
    BlankStray(DropGroups(s))
  }

  // ------------------------------------------------------------ SxxEyy

  /** As many leading digits as there are, at most `max`. */
  function LeadingDigits(s: string, max: nat): (d: string)
    ensures DigitsOnly(d) && |d| <= max && d <= s
    ensures max > 0 && s != "" && IsDigit(s[0]) ==> d != ""
  {
    if max == 0 || s == "" || !IsDigit(s[0]) then "" else [s[0]] + LeadingDigits(s[1..], max - 1)
  }

  /** `[Ss]\d{1,2}[Ee](\d{1,4})` right at the start. */
  function MarkerHere(s: string): (d: Option<string>)
    ensures d.Some? ==> IsNumeral(d.value)
  {
    if |s| >= 4 && s[0] in "Ss" && IsDigit(s[1]) && s[2] in "Ee" && IsDigit(s[3]) then Some(LeadingDigits(s[3..], 4))
    else if |s| >= 5 && s[0] in "Ss" && IsDigit(s[1]) && IsDigit(s[2]) && s[3] in "Ee" && IsDigit(s[4]) then Some(LeadingDigits(s[4..], 4))
    else None
  }

  /** The digits of the first marker in the text. */
  function Marker(s: string): (d: Option<string>)
    ensures d.Some? ==> IsNumeral(d.value)
  {
    if s == "" then None
    else if MarkerHere(s).Some? then MarkerHere(s)
    else Marker(s[1..])
  }

  // ------------------------------------------------------------ loose numbers

  predicate IsSpace(c: char) {
    c == ' ' || '\t' <= c <= '\r'
  }

  function ReplaceAny(s: string, from: string, to: char): (r: string)
    ensures |r| == |s|
  {
    seq(|s|, i requires 0 <= i < |s| => if s[i] in from then to else s[i])
  }

  function Count(s: string, c: char): nat {
    if s == "" then 0 else (if s[0] == c then 1 else 0) + Count(s[1..], c)
  }

  /** `s.split()`, after the word read so far */
  function Words(s: string, word: string := ""): seq<string> {
    if s == "" then if word == "" then [] else [word]
    else if IsSpace(s[0]) then (if word == "" then [] else [word]) + Words(s[1..])
    else Words(s[1..], word + [s[0]])
  }

  /** `" " in s.strip()`: a space with something on both sides of it. */
  predicate HasInnerSpace(s: string) {
    exists i, j, k | 0 <= i < j < k < |s| :: !IsSpace(s[i]) && s[j] == ' ' && !IsSpace(s[k])
  }

  predicate IsLetter(c: char) {
    'a' <= c <= 'z' || 'A' <= c <= 'Z'
  }

  /** "01v3" counts as "01". */
  function DropVersion(token: string): string {
    var n := |token|;
    if 3 <= n <= 6 && DigitsOnly(token[..n - 2]) && token[n - 2] in "vV" && IsDigit(token[n - 1])
    then token[..n - 2] else token
  }

  /** `^\w+\.[A-Za-z]{2,4}$` */
  predicate IsSiteTag(token: string) {
    var dot := Find(token, '.');
    && 0 < dot && 2 <= |token| - dot - 1 <= 4
    && (forall k | 0 <= k < dot :: IsLetter(token[k]) || IsDigit(token[k]) || token[k] == '_')
    && (forall k | dot < k < |token| :: IsLetter(token[k]))
  }

  function TrailingDigits(s: string): (k: nat)
    ensures k <= |s| && DigitsOnly(s[|s| - k..])
  {
    if s == "" || !IsDigit(s[|s| - 1]) then 0 else 1 + TrailingDigits(s[..|s| - 1])
  }

  const EpisodeWords: seq<string> := ["e", "ep", "episode", "vol", "folge", "part", "#"]

  /** "E05", "Ep.05", "#04": an episode word, maybe a dot, and up to four digits. */
  function MarkedNumber(token: string): (d: Option<string>)
    ensures d.Some? ==> IsNumeral(d.value)
  {
    var k := TrailingDigits(token);
    var word := Lower(token[..|token| - k]);
    if 1 <= k <= 4 && exists w | w in EpisodeWords :: word == w || word == w + "." then Some(token[|token| - k..]) else None
  }

  function FirstMarked(tokens: seq<string>): (d: Option<string>)
    ensures d.Some? ==> IsNumeral(d.value)
  {
    if tokens == [] then None
    else if MarkedNumber(tokens[0]).Some? then MarkedNumber(tokens[0])
    else FirstMarked(tokens[1..])
  }

  /** `^(?:19|20)\d{2}$` */
  predicate IsYear(token: string) {
    |token| == 4 && DigitsOnly(token) && (token[..2] == "19" || token[..2] == "20")
  }

  predicate IsCandidate(token: string) {
    IsNumeral(token) && !IsYear(token)
  }

  /** The positions, from `from` on, of bare numbers that are no years. */
  function Candidates(tokens: seq<string>, from: nat := 0): (c: seq<nat>)
    ensures forall k | 0 <= k < |c| :: from <= c[k] < |tokens| && IsCandidate(tokens[c[k]])
    ensures forall i | from <= i < |tokens| && IsCandidate(tokens[i]) :: i in c
    ensures forall j, k | 0 <= j < k < |c| :: c[j] < c[k]
    decreases |tokens| - from
  {
    if from >= |tokens| then []
    else if IsCandidate(tokens[from]) then [from] + Candidates(tokens, from + 1)
    else Candidates(tokens, from + 1)
  }

  /** `_episode_token_index`: the first candidate, but not a leading one if another follows. */
  function EpisodeTokenIndex(tokens: seq<string>): (i: Option<nat>)
    ensures i.Some? ==> i.value < |tokens| && IsCandidate(tokens[i.value])
  {
    var c := Candidates(tokens);
    if |c| > 1 && c[0] == 0 then Some(c[1])
    else if c != [] then Some(c[0])
    else None
  }

  /** `\[(\d{1,3})(?:v\d)?\]` right at the start. */
  function BracketedHere(s: string): (d: Option<string>)
    ensures d.Some? ==> IsNumeral(d.value)
  {
    if s == "" || s[0] != '[' then None
    else
      var d := LeadingDigits(s[1..], 3);
      var rest := s[1 + |d|..];
      if d != "" && ("]" <= rest || (|rest| >= 3 && rest[0] == 'v' && IsDigit(rest[1]) && rest[2] == ']')) then Some(d) else None
  }

  function Bracketed(s: string): (d: Option<string>)
    ensures d.Some? ==> IsNumeral(d.value)
  {
    if s == "" then None
    else if BracketedHere(s).Some? then BracketedHere(s)
    else Bracketed(s[1..])
  }

  /** The words a name without an SxxEyy marker is read by. */
  function Tokens(scrubbed: string): seq<string> {
    var text := if !HasInnerSpace(scrubbed) && Count(scrubbed, '.') >= 2 then ReplaceAny(scrubbed, ".", ' ') else scrubbed;
    var words := Words(ReplaceAny(text, "_-", ' '));
    var tokens := seq(|words|, i requires 0 <= i < |words| => DropVersion(words[i]));
    if tokens != [] && IsSiteTag(tokens[0]) then tokens[1..] else tokens
  }

  function LooseNumber(stem: string): (d: Option<string>)
    ensures d.Some? ==> IsNumeral(d.value)
  {
    var tokens := Tokens(Scrub(stem));
    if FirstMarked(tokens).Some? then FirstMarked(tokens)
    else
      match EpisodeTokenIndex(tokens)
      case Some(i) => Some(tokens[i])
      case None => Bracketed(stem)
  }

  /** `guess_episode_number`. The answer is never padded and never carries a letter, so
      it can only ever match a normal episode. */
  function Guess(filename: string): (number: Option<string>)
    ensures number.Some? ==> exists n: nat :: number.value == Decimal(n)
  {
    var stem := Stem(filename);
    var digits := if Marker(Scrub(stem)).Some? then Marker(Scrub(stem)) else LooseNumber(stem);
    if digits.Some? then Some(Decimal(Value(digits.value))) else None
  }

  // ------------------------------------------------------------ reading what was built

  lemma {:induction false} DropGroupsConcat(a: string, b: string)
    requires !LeftOpen(a) || ']' !in b
    ensures DropGroups(a + b) == DropGroups(a) + DropGroups(b)
    decreases |a|
  {
    hide DropGroups, LeftOpen, Find;
    if a == "" {
      assert a + b == b;
      GroupsOfNothing();
    } else {
      var close := Find(a, ']');
      FindConcat(a, b, ']');
      GroupsUnfolded(a);
      GroupsUnfolded(a + b);
      if a[0] == '[' && close < |a| {
        DropInFirst(a, b, close + 1);
        DropGroupsConcat(a[close + 1..], b);
        Associate(" ", DropGroups(a[close + 1..]), DropGroups(b));
      } else {
        DropInFirst(a, b, 1);
        FindMisses(b, ']');
        DropGroupsConcat(a[1..], b);
        Associate([a[0]], DropGroups(a[1..]), DropGroups(b));
      }
    }
  }

  lemma Associate(a: string, b: string, c: string)
    ensures a + (b + c) == (a + b) + c
  {
  }

  lemma GroupsOfNothing()
    ensures DropGroups("") == ""
  {
  }

  lemma GroupsUnfolded(s: string)
    requires s != ""
    ensures Find(s, ']') <= |s|
    ensures DropGroups(s) ==
      if s[0] == '[' && Find(s, ']') < |s| then " " + DropGroups(s[Find(s, ']') + 1..]) else [s[0]] + DropGroups(s[1..])
    ensures LeftOpen(s) <==>
      if s[0] == '[' then Find(s, ']') == |s| || LeftOpen(s[Find(s, ']') + 1..]) else LeftOpen(s[1..])
  {
  }

  lemma FindMisses(s: string, c: char)
    ensures Find(s, c) <= |s|
    ensures Find(s, c) == |s| <==> c !in s
  {
    if Find(s, c) < |s| { assert s[Find(s, c)] == c; }
  }

  lemma FindConcat(a: string, b: string, c: char)
    ensures Find(a + b, c) == if Find(a, c) < |a| then Find(a, c) else |a| + Find(b, c)
  {
    if a == "" {
      assert a + b == b;
    } else {
      assert (a + b)[1..] == a[1..] + b;
    }
  }

  lemma BlankStrayConcat(a: string, b: string)
    ensures BlankStray(a + b) == BlankStray(a) + BlankStray(b)
  {
  }

  lemma {:induction false} LeadingDigitsConcat(d: string, rest: string, max: nat)
    requires DigitsOnly(d) && (rest == "" || !IsDigit(rest[0]))
    ensures LeadingDigits(d + rest, max) == d[..if |d| <= max then |d| else max]
    decreases |d|
  {
    if d == "" {
      assert d + rest == rest;
    } else if max > 0 {
      assert (d + rest)[1..] == d[1..] + rest;
      LeadingDigitsConcat(d[1..], rest, max - 1);
    }
  }

  /** A marker does not reach across a blank. */
  lemma MarkerHereConcat(a: string, b: string)
    requires a != "" && b != "" && b[0] == ' '
    ensures MarkerHere(a + b) == MarkerHere(a)
  {
    var s := a + b;
    assert s[|a|] == ' ';
    if MarkerHere(s).Some? {
      var k := if s[2] in "Ee" then 3 else 4;
      assert |a| > k;
      assert s[k..] == a[k..] + b;
      RunStopsAtBlank(a[k..], b, 4);
    }
  }

  lemma {:induction false} RunStopsAtBlank(a: string, b: string, max: nat)
    requires b != "" && b[0] == ' '
    ensures LeadingDigits(a + b, max) == LeadingDigits(a, max)
    decreases |a|
  {
    if a == "" {
      assert a + b == b;
    } else if max > 0 {
      assert (a + b)[1..] == a[1..] + b;
      RunStopsAtBlank(a[1..], b, max - 1);
    }
  }

  lemma {:induction false} MarkerConcat(a: string, b: string)
    requires b != "" && b[0] == ' '
    ensures Marker(a + b) == if Marker(a).Some? then Marker(a) else Marker(b)
    decreases |a|
  {
    if a == "" {
      assert a + b == b;
    } else {
      MarkerHereConcat(a, b);
      assert (a + b)[1..] == a[1..] + b;
      MarkerConcat(a[1..], b);
    }
  }

  /** "05", "12", "123": at least two digits. */
  function Padded(n: nat): (s: string)
    ensures IsNumeral(s)
  {
    if n < 10 then "0" + Decimal(n) else Decimal(n)
  }

  lemma ValueOfPadded(n: nat)
    ensures Value(Padded(n)) == n
  {
    ValueOfDecimal(n);
    if n < 10 {
      assert Padded(n)[..1] == "0" && "0"[..0] == "";
    }
  }

  lemma PaddedLength(n: nat)
    ensures |Padded(n)| <= 4 <==> n <= 9999
  {
    if n <= 9999 {
      assert Power10(4) == 10000 by { assert Power10(1) == 10; assert Power10(2) == 100; assert Power10(3) == 1000; }
      DecimalLength(n, 4);
    } else {
      ValueOfPadded(n);
      ValueBound(Padded(n));
      if |Padded(n)| <= 4 {
        assert Power10(4) == 10000 by { assert Power10(1) == 10; assert Power10(2) == 100; assert Power10(3) == 1000; }
        PowerMonotone(|Padded(n)|, 4);
      }
    }
  }

  lemma PowerMonotone(a: nat, b: nat)
    requires a <= b
    ensures Power10(a) <= Power10(b)
  {
  }

  /** The part of a built name from the marker on. */
  function MarkerPart(n: nat, tail: string): string {
    " - S01E" + Padded(n) + " - " + tail
  }

  /** The digits read off the marker the application writes itself: all of them, but
      never more than four. */
  lemma MarkerOfPart(n: nat, tail: string)
    ensures Marker(MarkerPart(n, tail)) == Some(Padded(n)[..if |Padded(n)| <= 4 then |Padded(n)| else 4])
  {
    hide Marker, MarkerHere, LeadingDigits, Padded;
    var rest := " - " + tail;
    var run := Padded(n) + rest;
    MarkerSkips(' ', "- S01E" + run);
    MarkerSkips('-', " S01E" + run);
    MarkerSkips(' ', "S01E" + run);
    LeadingDigitsConcat(Padded(n), rest, 4);
    OwnMarker(run);
    assert "- S01E" + run == ['-'] + (" S01E" + run);
    assert " S01E" + run == [' '] + ("S01E" + run);
    assert MarkerPart(n, tail) == [' '] + ("- S01E" + run);
  }

  lemma MarkerSkips(c: char, s: string)
    requires c !in "Ss"
    ensures Marker([c] + s) == Marker(s)
  {
    assert ([c] + s)[1..] == s;
  }

  lemma OwnMarker(run: string)
    requires run != "" && IsDigit(run[0])
    ensures Marker("S01E" + run) == Some(LeadingDigits(run, 4))
  {
    var t := "S01E" + run;
    assert t[4..] == run && IsDigit(t[4]) && t[2] == '1';
    assert MarkerHere(t) == Some(LeadingDigits(t[4..], 4));
  }

  /** Whether a marker already sits in the title, as the parser sees it. */
  function TitleMarker(title: string): Option<string> {
    Marker(Scrub(title))
  }

  lemma ScrubBuilt(title: string, n: nat, tail: string)
    requires !LeftOpen(title) || ']' !in tail
    ensures Scrub(title + MarkerPart(n, tail)) == Scrub(title) + MarkerPart(n, Scrub(tail))
  {
    var head := " - S01E" + Padded(n) + " - ";
    assert ']' !in head && '[' !in head by { PlainHead(n); }
    if ']' !in tail { assert ']' !in MarkerPart(n, tail); }
    DropGroupsConcat(title, MarkerPart(n, tail));
    NoGroups(head);
    assert MarkerPart(n, tail) == head + tail;
    DropGroupsConcat(head, tail);
    BlankStrayConcat(DropGroups(title), head + DropGroups(tail));
    BlankStrayConcat(head, DropGroups(tail));
    assert BlankStray(head) == head by { PlainHead(n); }
    assert Scrub(title) + (head + Scrub(tail)) == Scrub(title) + MarkerPart(n, Scrub(tail));
  }

  lemma PlainHead(n: nat)
    ensures forall c | c in " - S01E" + Padded(n) + " - " :: c !in "()[]{}"
  {
  }

  lemma {:induction false} NoGroups(s: string)
    requires '[' !in s
    ensures DropGroups(s) == s && !LeftOpen(s)
    decreases |s|
  {
    if s != "" { NoGroups(s[1..]); }
  }

  /** What the parser reads back from any name built by the scheme "title - S01Enn - ..."
      -- with whatever episode title, " (2)" suffix or further text, `tail`, after it --
      is the episode's own number exactly when the title carries no marker of its own (or
      one that happens to say the same) and the number has at most four digits. The one
      thing asked of the title is that no bracket opened in it swallows the marker. */
  lemma GuessOfBuilt(title: string, n: nat, tail: string, ext: string)
    requires !LeftOpen(title) || ']' !in tail
    requires IsExtension(ext)
    ensures
      Guess(title + MarkerPart(n, tail) + ext) == Some(Decimal(n)) <==>
        match TitleMarker(title)
        case Some(digits) => Value(digits) == n
        case None => n <= 9999
  {
    var stem := title + MarkerPart(n, tail);
    SplitBuilt(stem, ext);
    ScrubBuilt(title, n, tail);
    MarkerConcat(Scrub(title), MarkerPart(n, Scrub(tail)));
    MarkerOfPart(n, Scrub(tail));
    PaddedLength(n);
    ValueOfPadded(n);
    var read := if TitleMarker(title).Some? then TitleMarker(title).value else Marker(MarkerPart(n, Scrub(tail))).value;
    assert Guess(stem + ext) == Some(Decimal(Value(read)));
    if Value(read) != n && Decimal(Value(read)) == Decimal(n) { DecimalInjective(Value(read), n); }
    if TitleMarker(title).None? && n > 9999 {
      ValueBound(read);
      assert Power10(4) == 10000 by { assert Power10(1) == 10; assert Power10(2) == 100; assert Power10(3) == 1000; }
    }
    if TitleMarker(title).None? && n <= 9999 {
      assert Padded(n)[..|Padded(n)|] == Padded(n);
    }
  }

  // ------------------------------------------------------------ the remaining titles

  /** The text before an opened bracket that is not closed, with a blank for it. */
  function BeforeOpen(a: string): string
    decreases |a|
  {
    if a == "" then ""
    else
      var close := Find(a, ']');
      if a[0] != '[' then [a[0]] + BeforeOpen(a[1..])
      else if close < |a| then " " + BeforeOpen(a[close + 1..])
      else " "
  }

  lemma {:induction false} OpenSwallows(a: string, b: string)
    requires LeftOpen(a) && ']' in b
    ensures Find(b, ']') < |b|
    ensures DropGroups(a + b) == BeforeOpen(a) + DropGroups(b[Find(b, ']') + 1..])
    decreases |a|
  {
    hide DropGroups, LeftOpen, Find, BeforeOpen;
    var close := Find(a, ']');
    FindConcat(a, b, ']');
    FindMisses(b, ']');
    NothingIsOpen();
    GroupsUnfolded(a);
    GroupsUnfolded(a + b);
    BeforeOpenUnfolded(a);
    if a[0] == '[' && close < |a| {
      DropInFirst(a, b, close + 1);
      OpenSwallows(a[close + 1..], b);
      Associate(" ", BeforeOpen(a[close + 1..]), DropGroups(b[Find(b, ']') + 1..]));
    } else if a[0] == '[' {
      DropInSecond(a, b, Find(b, ']') + 1);
    } else {
      DropInFirst(a, b, 1);
      OpenSwallows(a[1..], b);
      Associate([a[0]], BeforeOpen(a[1..]), DropGroups(b[Find(b, ']') + 1..]));
    }
  }

  lemma NothingIsOpen()
    ensures !LeftOpen("")
  {
  }

  lemma BeforeOpenUnfolded(a: string)
    requires a != ""
    ensures Find(a, ']') <= |a|
    ensures BeforeOpen(a) ==
      if a[0] != '[' then [a[0]] + BeforeOpen(a[1..])
      else if Find(a, ']') < |a| then " " + BeforeOpen(a[Find(a, ']') + 1..])
      else " "
  {
  }

  lemma BracketedHereConcat(a: string, b: string)
    requires a != "" && b != "" && b[0] == ' '
    ensures BracketedHere(a + b) == BracketedHere(a)
  {
    if a[0] == '[' {
      assert (a + b)[1..] == a[1..] + b;
      RunStopsAtBlank(a[1..], b, 3);
      var d := LeadingDigits(a[1..], 3);
      assert (a + b)[1 + |d|..] == a[1 + |d|..] + b;
    }
  }

  lemma {:induction false} BracketedConcat(a: string, b: string)
    requires b != "" && b[0] == ' '
    ensures Bracketed(a + b) == if Bracketed(a).Some? then Bracketed(a) else Bracketed(b)
    decreases |a|
  {
    if a == "" {
      assert a + b == b;
    } else {
      BracketedHereConcat(a, b);
      assert (a + b)[1..] == a[1..] + b;
      BracketedConcat(a[1..], b);
    }
  }

  lemma {:induction false} BracketedAfterPlain(a: string, b: string)
    requires '[' !in a
    ensures Bracketed(a + b) == Bracketed(b)
    decreases |a|
  {
    if a == "" {
      assert a + b == b;
    } else {
      assert (a + b)[1..] == a[1..] + b;
      BracketedAfterPlain(a[1..], b);
    }
  }

  /** For the titles left over -- a bracket stays open in them and is closed by the text
      after the marker -- the marker is lost: whatever is read off the name, it is the
      same for every episode. */
  lemma BracketSwallowsMarker(title: string, n: nat, m: nat, tail: string, ext: string)
    requires LeftOpen(title) && ']' in tail
    requires IsExtension(ext)
    ensures Guess(title + MarkerPart(n, tail) + ext) == Guess(title + MarkerPart(m, tail) + ext)
  {
    hide Scrub, DropGroups, LeftOpen, BlankStray, BeforeOpen, Bracketed, Tokens, FirstMarked, EpisodeTokenIndex, Marker, Stem, Find, MarkerPart;
    SwallowedStem(title, n, tail, ext);
    SwallowedStem(title, m, tail, ext);
  }

  lemma SwallowedStem(title: string, n: nat, tail: string, ext: string)
    requires LeftOpen(title) && ']' in tail
    requires IsExtension(ext)
    ensures
      var stem := Stem(title + MarkerPart(n, tail) + ext);
      && Find(tail, ']') < |tail|
      && Scrub(stem) == BlankStray(BeforeOpen(title) + DropGroups(tail[Find(tail, ']') + 1..]))
      && Bracketed(stem) == if Bracketed(title).Some? then Bracketed(title) else Bracketed(tail)
  {
    hide DropGroups, LeftOpen, Find, BeforeOpen, Bracketed, Stem, Suffix, BlankStray, Padded;
    SplitBuilt(title + MarkerPart(n, tail), ext);
    SwallowedText(title, n, tail);
    SwallowedBrackets(title, n, tail);
  }

  lemma SwallowedText(title: string, n: nat, tail: string)
    requires LeftOpen(title) && ']' in tail
    ensures Find(tail, ']') < |tail|
    ensures DropGroups(title + MarkerPart(n, tail)) == BeforeOpen(title) + DropGroups(tail[Find(tail, ']') + 1..])
  {
    hide DropGroups, LeftOpen, Find, BeforeOpen, Padded;
    var head := " - S01E" + Padded(n) + " - ";
    PlainHead(n);
    assert MarkerPart(n, tail) == head + tail;
    OpenSwallows(title, head + tail);
    FindConcat(head, tail, ']');
    FindMisses(head, ']');
    FindMisses(tail, ']');
    DropInSecond(head, tail, Find(tail, ']') + 1);
  }

  lemma SwallowedBrackets(title: string, n: nat, tail: string)
    ensures Bracketed(title + MarkerPart(n, tail)) == if Bracketed(title).Some? then Bracketed(title) else Bracketed(tail)
  {
    hide Bracketed, Padded;
    var head := " - S01E" + Padded(n) + " - ";
    PlainHead(n);
    assert MarkerPart(n, tail) == head + tail;
    BracketedConcat(title, head + tail);
    BracketedAfterPlain(head, tail);
  }
}
