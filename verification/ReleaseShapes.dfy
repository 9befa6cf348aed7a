/** What is read off the names of releases: laws about the file names themselves, as words
    with separators and bracketed groups between them. */
module ReleaseShapes {
  import opened Text
  import opened ReleaseName

  // ------------------------------------------------------------ words and gaps

  /** What separates words: blanks, "_", "-" and round, curly or stray brackets. */
  predicate IsSeparator(c: char) {
    IsSpace(c) || c in "_-(){}]"
  }

  /** Separators and closed groups in square brackets, in any order and number. */
  predicate IsGap(s: string)
    decreases |s|
  {
    s == "" || (IsSeparator(s[0]) && IsGap(s[1..])) || (s[0] == '[' && Find(s, ']') < |s| && IsGap(s[Find(s, ']') + 1..]))
  }

  predicate IsWord(w: string) {
    w != "" && forall i | 0 <= i < |w| :: !IsSeparator(w[i]) && w[i] != '['
  }

  /** A word and the gap behind it. */
  datatype Piece = Piece(word: string, gap: string)

  /** A name without its extension: words with gaps around and between them. */
  datatype Layout = Layout(lead: string, pieces: seq<Piece>) {

    predicate Valid() {
      && IsGap(lead)
      && (forall i | 0 <= i < |pieces| :: IsWord(pieces[i].word) && IsGap(pieces[i].gap))
      && (forall i | 0 <= i < |pieces| - 1 :: pieces[i].gap != "")
    }

    function Text(): string {
      lead + Spell(pieces)
    }
  }

  function Spell(pieces: seq<Piece>): string {
    if pieces == [] then "" else pieces[0].word + pieces[0].gap + Spell(pieces[1..])
  }

  function WordsOf(pieces: seq<Piece>): (words: seq<string>)
    ensures |words| == |pieces|
  {
    seq(|pieces|, i requires 0 <= i < |pieces| => pieces[i].word)
  }

  /** Every name in which no square bracket is left open is made like that. */
  lemma {:induction false} EveryNameHasLayout(s: string) returns (layout: Layout)
    requires !LeftOpen(s)
    ensures layout.Valid() && layout.Text() == s
    decreases |s|
  {
    hide LeftOpen, Find, IsGap, IsWord, Layout.Valid, Layout.Text;
    if s == "" {
      layout := Layout("", []);
      NoPieces();
    } else {
      GroupsUnfolded(s);
      var k := if s[0] == '[' then Find(s, ']') + 1 else 1;
      var rest := EveryNameHasLayout(s[k..]);
      assert s == s[..k] + s[k..];
      LeadIsGap(rest);
      if s[0] == '[' {
        layout := GapFirst(s[..k], rest);
        GroupGap(s, rest.lead);
        GapFirstIs(s[..k], rest);
      } else if IsSeparator(s[0]) {
        layout := GapFirst(s[..k], rest);
        assert s[..k] == [s[0]];
        SeparatorGap(s[0], rest.lead);
        GapFirstIs(s[..k], rest);
      } else {
        assert s[..k] == [s[0]];
        layout := LetterFirst(s[0], rest);
        LetterFirstIs(s[0], rest);
      }
    }
  }

  lemma LeadIsGap(layout: Layout)
    requires layout.Valid()
    ensures IsGap(layout.lead)
  {
    hide IsGap, IsWord;
  }

  function GapFirst(g: string, rest: Layout): Layout {
    Layout(g + rest.lead, rest.pieces)
  }

  lemma GapFirstIs(g: string, rest: Layout)
    requires rest.Valid() && IsGap(g + rest.lead)
    ensures GapFirst(g, rest).Valid() && GapFirst(g, rest).Text() == g + rest.Text()
  {
    hide IsGap, IsWord;
  }

  function LetterFirst(c: char, rest: Layout): Layout {
    if rest.lead == "" && rest.pieces != []
    then Layout("", [Piece([c] + rest.pieces[0].word, rest.pieces[0].gap)] + rest.pieces[1..])
    else Layout("", [Piece([c], rest.lead)] + rest.pieces)
  }

  lemma LetterFirstIs(c: char, rest: Layout)
    requires rest.Valid() && !IsSeparator(c) && c != '['
    ensures LetterFirst(c, rest).Valid() && LetterFirst(c, rest).Text() == [c] + rest.Text()
  {
    hide IsGap, IsWord;
    EmptyGap();
    var layout := LetterFirst(c, rest);
    if rest.lead == "" && rest.pieces != [] {
      LongerWord(c, rest.pieces[0].word);
      assert layout.pieces[1..] == rest.pieces[1..];
      assert forall i | 0 < i < |layout.pieces| :: layout.pieces[i] == rest.pieces[i];
    } else {
      ShortWord(c);
      assert layout.pieces[1..] == rest.pieces;
      assert forall i | 0 < i < |layout.pieces| :: layout.pieces[i] == rest.pieces[i - 1];
    }
  }

  lemma NoPieces()
    ensures Layout("", []).Valid() && Layout("", []).Text() == ""
  {
  }

  lemma EmptyGap()
    ensures IsGap("")
  {
  }

  lemma ShortWord(c: char)
    requires !IsSeparator(c) && c != '['
    ensures IsWord([c])
  {
  }

  lemma LongerWord(c: char, w: string)
    requires !IsSeparator(c) && c != '[' && IsWord(w)
    ensures IsWord([c] + w)
  {
  }

  lemma SeparatorGap(c: char, g: string)
    requires IsSeparator(c) && IsGap(g)
    ensures IsGap([c] + g)
  {
    assert ([c] + g)[1..] == g;
  }

  lemma GroupGap(s: string, g: string)
    requires s != "" && s[0] == '[' && Find(s, ']') < |s| && IsGap(g)
    ensures IsGap(s[..Find(s, ']') + 1] + g)
  {
    var k := Find(s, ']') + 1;
    var t := s[..k] + g;
    FindIs(t, ']', k - 1);
    assert t[k..] == g;
  }

  lemma {:induction false} FindIs(s: string, c: char, k: nat)
    requires k < |s| && s[k] == c && forall i | 0 <= i < k :: s[i] != c
    ensures Find(s, c) == k
    decreases k
  {
    if k > 0 { FindIs(s[1..], c, k - 1); }
  }

  // ------------------------------------------------------------ what is left of a gap

  /** Only characters that separate words are left of a gap. */
  predicate IsBlank(s: string) {
    forall i | 0 <= i < |s| :: IsSpace(s[i]) || s[i] in "_-"
  }

  lemma {:induction false} GapScrubbed(g: string)
    requires IsGap(g)
    ensures !LeftOpen(g) && IsBlank(Scrub(g)) && (g != "" ==> Scrub(g) != "")
    decreases |g|
  {
    hide DropGroups, LeftOpen, Find;
    if g == "" {
      NothingIsOpen();
      GroupsOfNothing();
    } else {
      GroupsUnfolded(g);
      var k := if IsSeparator(g[0]) then 1 else Find(g, ']') + 1;
      GapScrubbed(g[k..]);
      BlankStrayConcat(if IsSeparator(g[0]) then [g[0]] else " ", DropGroups(g[k..]));
    }
  }

  lemma WordScrubbed(w: string)
    requires IsWord(w)
    ensures !LeftOpen(w) && Scrub(w) == w
  {
    NoGroups(w);
  }

  lemma ScrubConcat(a: string, b: string)
    requires !LeftOpen(a)
    ensures Scrub(a + b) == Scrub(a) + Scrub(b)
  {
    DropGroupsConcat(a, b);
    BlankStrayConcat(DropGroups(a), DropGroups(b));
  }

  /** The same name with its gaps scrubbed. */
  function Scrubbed(pieces: seq<Piece>): (r: seq<Piece>)
    ensures |r| == |pieces|
  {
    seq(|pieces|, i requires 0 <= i < |pieces| => Piece(pieces[i].word, Scrub(pieces[i].gap)))
  }

  predicate Clean(pieces: seq<Piece>) {
    && (forall i | 0 <= i < |pieces| :: IsWord(pieces[i].word) && IsBlank(pieces[i].gap))
    && (forall i | 0 <= i < |pieces| - 1 :: pieces[i].gap != "")
  }

  predicate ValidPieces(pieces: seq<Piece>) {
    && (forall i | 0 <= i < |pieces| :: IsWord(pieces[i].word) && IsGap(pieces[i].gap))
    && (forall i | 0 <= i < |pieces| - 1 :: pieces[i].gap != "")
  }

  lemma {:induction false} SpellScrubbed(pieces: seq<Piece>)
    requires ValidPieces(pieces)
    ensures Scrub(Spell(pieces)) == Spell(Scrubbed(pieces))
    ensures Clean(Scrubbed(pieces))
    decreases |pieces|
  {
    hide Scrub, LeftOpen, IsGap, IsWord, IsBlank;
    forall i | 0 <= i < |pieces| ensures IsBlank(Scrub(pieces[i].gap)) && (pieces[i].gap != "" ==> Scrub(pieces[i].gap) != "") {
      GapScrubbed(pieces[i].gap);
    }
    if pieces == [] {
      ScrubNothing();
    } else {
      var p, rest := pieces[0], pieces[1..];
      SpellScrubbed(rest);
      WordScrubbed(p.word);
      GapScrubbed(p.gap);
      assert p.word + p.gap + Spell(rest) == p.word + (p.gap + Spell(rest));
      ScrubConcat(p.word, p.gap + Spell(rest));
      ScrubConcat(p.gap, Spell(rest));
      assert Scrubbed(pieces)[1..] == Scrubbed(rest);
      assert p.word + (Scrub(p.gap) + Scrub(Spell(rest))) == p.word + Scrub(p.gap) + Scrub(Spell(rest));
    }
  }

  lemma ScrubNothing()
    ensures Scrub("") == ""
  {
  }

  lemma LayoutScrubbed(layout: Layout)
    requires layout.Valid()
    ensures Scrub(layout.Text()) == Scrub(layout.lead) + Spell(Scrubbed(layout.pieces))
    ensures IsBlank(Scrub(layout.lead)) && Clean(Scrubbed(layout.pieces))
  {
    hide Scrub, LeftOpen, IsGap, IsWord, IsBlank, Clean;
    GapScrubbed(layout.lead);
    ScrubConcat(layout.lead, Spell(layout.pieces));
    SpellScrubbed(layout.pieces);
  }

  // ------------------------------------------------------------ splitting into words

  lemma {:induction false} WordIsRead(w: string, rest: string, read: string)
    requires forall i | 0 <= i < |w| :: !IsSpace(w[i])
    ensures Words(w + rest, read) == Words(rest, read + w)
    decreases |w|
  {
    if w == "" {
      assert w + rest == rest && read + w == read;
    } else {
      assert (w + rest)[1..] == w[1..] + rest;
      WordIsRead(w[1..], rest, read + [w[0]]);
      assert read + [w[0]] + w[1..] == read + w;
    }
  }

  lemma {:induction false} BlankIsRead(g: string, rest: string, read: string)
    requires g != "" && forall i | 0 <= i < |g| :: IsSpace(g[i])
    ensures Words(g + rest, read) == (if read == "" then [] else [read]) + Words(rest)
    decreases |g|
  {
    assert (g + rest)[1..] == g[1..] + rest;
    if |g| > 1 {
      BlankIsRead(g[1..], rest, "");
      assert [] + Words(rest) == Words(rest);
    } else {
      assert g[1..] + rest == rest;
    }
  }

  lemma ReplaceConcat(a: string, b: string, from: string, to: char)
    ensures ReplaceAny(a + b, from, to) == ReplaceAny(a, from, to) + ReplaceAny(b, from, to)
  {
  }

  lemma BlankReplaced(g: string)
    requires IsBlank(g)
    ensures forall i | 0 <= i < |g| :: IsSpace(ReplaceAny(g, "_-", ' ')[i])
  {
  }

  lemma WordReplaced(w: string)
    requires IsWord(w)
    ensures ReplaceAny(w, "_-", ' ') == w && forall i | 0 <= i < |w| :: !IsSpace(w[i])
  {
  }

  lemma {:induction false} SpellIsSplit(pieces: seq<Piece>)
    requires Clean(pieces)
    ensures Words(ReplaceAny(Spell(pieces), "_-", ' ')) == WordsOf(pieces)
    decreases |pieces|
  {
    hide IsWord, IsBlank, Words, ReplaceAny;
    if pieces == [] {
      NothingSplit();
    } else {
      var p, rest := pieces[0], pieces[1..];
      SpellIsSplit(rest);
      var tail := ReplaceAny(Spell(rest), "_-", ' ');
      var gap := ReplaceAny(p.gap, "_-", ' ');
      ReplaceConcat(p.word + p.gap, Spell(rest), "_-", ' ');
      ReplaceConcat(p.word, p.gap, "_-", ' ');
      WordReplaced(p.word);
      BlankReplaced(p.gap);
      assert p.word + gap + tail == p.word + (gap + tail);
      WordIsRead(p.word, gap + tail, "");
      assert "" + p.word == p.word;
      OneMoreWord(p.word);
      if p.gap != "" {
        BlankIsRead(gap, tail, p.word);
      } else {
        assert rest == [];
        NothingSplit();
        assert gap + tail == "";
        LastSplit(p.word);
      }
      assert WordsOf(pieces) == [p.word] + WordsOf(rest);
    }
  }

  lemma OneMoreWord(w: string)
    requires IsWord(w)
    ensures w != ""
  {
  }

  lemma NothingSplit()
    ensures ReplaceAny("", "_-", ' ') == "" && Words("") == [] && Spell([]) == ""
  {
  }

  lemma LastSplit(w: string)
    requires w != ""
    ensures Words("", w) == [w]
  {
  }

  // ------------------------------------------------------------ what a word can say

  /** "S01E05" begins here. */
  predicate SeasonEpisodeAt(w: string, i: nat) {
    && i + 4 <= |w| && w[i] in "Ss" && IsDigit(w[i + 1])
    && ((w[i + 2] in "Ee" && IsDigit(w[i + 3])) || (i + 5 <= |w| && IsDigit(w[i + 2]) && w[i + 3] in "Ee" && IsDigit(w[i + 4])))
  }

  predicate HasSeasonEpisode(w: string) {
    exists i | 0 <= i < |w| :: SeasonEpisodeAt(w, i)
  }

  /** Up to four digits, as many as there are, follow the "E". */
  predicate SaysEpisode(w: string, i: nat, digits: string) {
    && SeasonEpisodeAt(w, i) && DigitsOnly(digits) && 1 <= |digits| <= 4
    && var from := if w[i + 2] in "Ee" then i + 3 else i + 4;
       && from + |digits| <= |w| && w[from..from + |digits|] == digits
       && (|digits| == 4 || from + |digits| == |w| || !IsDigit(w[from + |digits|]))
  }

  /** A year from 1900 to 2099. */
  predicate LooksLikeYear(digits: string) {
    |digits| == 4 && (digits[..2] == "19" || digits[..2] == "20")
  }

  /** The number itself, or up to four digits with a version: "01v3". */
  predicate SpellsNumber(w: string, digits: string) {
    && IsNumeral(digits)
    && (w == digits || (|digits| <= 4 && |w| == |digits| + 2 && w[..|digits|] == digits && w[|digits|] in "vV" && IsDigit(w[|digits| + 1])))
  }

  /** A number that is no year. */
  predicate IsBare(w: string, digits: string) {
    SpellsNumber(w, digits) && !LooksLikeYear(digits)
  }

  /** "E05", "Ep.05", "#04" and the like: an episode word, maybe a dot, up to four digits. */
  predicate IsMarked(w: string, digits: string) {
    && IsNumeral(digits) && |digits| <= 4 && |digits| < |w| && w[|w| - |digits|..] == digits
    && IsMark(Lower(w[..|w| - |digits|]))
  }

  predicate IsMark(mark: string) {
    IsDotless(mark) || (mark != "" && mark[|mark| - 1] == '.' && IsDotless(mark[..|mark| - 1]))
  }

  predicate IsDotless(mark: string) {
    mark in ["e", "ep", "episode", "vol", "folge", "part", "#"]
  }

  /** "site.com": letters and digits, a dot, and two to four letters. */
  predicate IsSite(w: string) {
    exists i | 0 < i < |w| :: SiteDot(w, i)
  }

  predicate SiteDot(w: string, i: nat)
    requires i < |w|
  {
    && w[i] == '.' && 2 <= |w| - i - 1 <= 4
    && (forall k | 0 <= k < i :: IsLetter(w[k]) || IsDigit(w[k]) || w[k] == '_')
    && (forall k | i < k < |w| :: IsLetter(w[k]))
  }

  /** Digits alone in square brackets, maybe with a version: "[05]", "[05v2]". */
  predicate NumberInBrackets(s: string, i: nat, digits: string) {
    && i < |s| && s[i] == '[' && DigitsOnly(digits) && 1 <= |digits| <= 3
    && var to := i + 1 + |digits|;
       && to < |s| && s[i + 1..to] == digits
       && (s[to] == ']' || (to + 2 < |s| && s[to] == 'v' && IsDigit(s[to + 1]) && s[to + 2] == ']'))
  }

  // ------------------------------------------------------------ the same, as the parser sees it

  lemma {:induction false} DigitsRun(s: string, digits: string, max: nat)
    requires DigitsOnly(digits) && |digits| <= max && digits <= s && (|digits| == max || |digits| == |s| || !IsDigit(s[|digits|]))
    ensures LeadingDigits(s, max) == digits
    decreases |digits|
  {
    if digits != "" {
      assert digits[0] == s[0] && digits == [s[0]] + digits[1..];
      DigitsRun(s[1..], digits[1..], max - 1);
    }
  }

  lemma MarkerHereIff(s: string)
    ensures MarkerHere(s).Some? <==> SeasonEpisodeAt(s, 0)
  {
  }

  lemma ShiftedAt(s: string, i: nat)
    requires s != ""
    ensures SeasonEpisodeAt(s[1..], i) <==> SeasonEpisodeAt(s, i + 1)
  {
  }

  lemma {:induction false} MarkerIff(s: string)
    ensures Marker(s).Some? <==> HasSeasonEpisode(s)
    decreases |s|
  {
    hide MarkerHere, SeasonEpisodeAt;
    if s != "" {
      MarkerHereIff(s);
      MarkerIff(s[1..]);
      forall i: nat ensures SeasonEpisodeAt(s[1..], i) <==> SeasonEpisodeAt(s, i + 1) { ShiftedAt(s, i); }
      if HasSeasonEpisode(s) && !SeasonEpisodeAt(s, 0) {
        var i :| 0 <= i < |s| && SeasonEpisodeAt(s, i);
        assert SeasonEpisodeAt(s[1..], i - 1);
      }
      if HasSeasonEpisode(s[1..]) {
        var i :| 0 <= i < |s[1..]| && SeasonEpisodeAt(s[1..], i);
        assert SeasonEpisodeAt(s, i + 1);
      }
    }
  }

  lemma SaysHere(s: string, digits: string)
    requires SaysEpisode(s, 0, digits)
    ensures MarkerHere(s) == Some(digits)
  {
    var from := if s[2] in "Ee" then 3 else 4;
    assert digits == s[from..][..|digits|];
    DigitsRun(s[from..], digits, 4);
  }

  lemma {:induction false} MarkerSays(s: string, i: nat, digits: string)
    requires i < |s| && SaysEpisode(s, i, digits) && forall j | 0 <= j < i :: !SeasonEpisodeAt(s, j)
    ensures Marker(s) == Some(digits)
    decreases i
  {
    hide MarkerHere, SeasonEpisodeAt;
    if i == 0 {
      SaysHere(s, digits);
    } else {
      MarkerHereIff(s);
      forall j: nat ensures SeasonEpisodeAt(s[1..], j) <==> SeasonEpisodeAt(s, j + 1) { ShiftedAt(s, j); }
      SaysShifted(s, i, digits);
      MarkerSays(s[1..], i - 1, digits);
    }
  }

  lemma SaysShifted(s: string, i: nat, digits: string)
    requires 0 < i < |s| && SaysEpisode(s, i, digits)
    ensures SaysEpisode(s[1..], i - 1, digits)
  {
    ShiftedAt(s, i - 1);
    var from := if s[i + 2] in "Ee" then i + 3 else i + 4;
    assert s[1..][from - 1..from - 1 + |digits|] == s[from..from + |digits|];
  }

  /** No marker reaches from one word into the next. */
  lemma MarkerHereStops(a: string, b: string)
    requires a != "" && b != "" && (IsSpace(b[0]) || b[0] in "_-")
    ensures MarkerHere(a + b) == MarkerHere(a)
  {
    var s := a + b;
    assert s[|a|] == b[0] && !IsDigit(b[0]) && b[0] !in "SsEe";
    if MarkerHere(s).Some? {
      var k := if s[2] in "Ee" then 3 else 4;
      assert |a| > k;
      assert s[k..] == a[k..] + b;
      RunStops(a[k..], b, 4);
    }
  }

  lemma {:induction false} RunStops(a: string, b: string, max: nat)
    requires b != "" && !IsDigit(b[0])
    ensures LeadingDigits(a + b, max) == LeadingDigits(a, max)
    decreases |a|
  {
    if a == "" {
      assert a + b == b;
    } else if max > 0 {
      assert (a + b)[1..] == a[1..] + b;
      RunStops(a[1..], b, max - 1);
    }
  }

  lemma {:induction false} MarkerStops(a: string, b: string)
    requires b != "" && (IsSpace(b[0]) || b[0] in "_-")
    ensures Marker(a + b) == if Marker(a).Some? then Marker(a) else Marker(b)
    decreases |a|
  {
    hide MarkerHere;
    if a == "" {
      assert a + b == b;
    } else {
      MarkerHereStops(a, b);
      assert (a + b)[1..] == a[1..] + b;
      MarkerStops(a[1..], b);
    }
  }

  lemma {:induction false} BlankHasNone(g: string, rest: string)
    requires IsBlank(g)
    ensures Marker(g + rest) == Marker(rest)
    decreases |g|
  {
    if g == "" {
      assert g + rest == rest;
    } else {
      assert g + rest == [g[0]] + (g[1..] + rest);
      MarkerSkips(g[0], g[1..] + rest);
      BlankHasNone(g[1..], rest);
    }
  }

  /** The first marker in a list of words. */
  function FirstMarker(words: seq<string>): Option<string> {
    if words == [] then None else if Marker(words[0]).Some? then Marker(words[0]) else FirstMarker(words[1..])
  }

  lemma {:induction false} MarkerOfWords(pieces: seq<Piece>)
    requires Clean(pieces)
    ensures Marker(Spell(pieces)) == FirstMarker(WordsOf(pieces))
    decreases |pieces|
  {
    hide Marker, IsWord, IsBlank;
    if pieces == [] {
      NoMarkerInNothing();
    } else {
      var p, rest := pieces[0], pieces[1..];
      MarkerOfWords(rest);
      assert WordsOf(pieces)[1..] == WordsOf(rest);
      if p.gap == "" {
        assert rest == [] && Spell(pieces) == p.word;
        NoMarkerInNothing();
      } else {
        assert Spell(pieces) == p.word + (p.gap + Spell(rest));
        BlankStarts(p.gap);
        MarkerStops(p.word, p.gap + Spell(rest));
        BlankHasNone(p.gap, Spell(rest));
      }
    }
  }

  lemma BlankStarts(g: string)
    requires IsBlank(g) && g != ""
    ensures IsSpace(g[0]) || g[0] in "_-"
  {
  }

  lemma NoMarkerInNothing()
    ensures Marker("").None?
  {
  }

  lemma {:induction false} FirstMarkerIs(words: seq<string>, k: nat, i: nat, digits: string)
    requires k < |words| && i < |words[k]| && SaysEpisode(words[k], i, digits)
    requires (forall j | 0 <= j < i :: !SeasonEpisodeAt(words[k], j)) && forall j | 0 <= j < k :: !HasSeasonEpisode(words[j])
    ensures FirstMarker(words) == Some(digits)
    decreases k
  {
    hide SaysEpisode, SeasonEpisodeAt, HasSeasonEpisode, Marker;
    if k == 0 {
      MarkerSays(words[0], i, digits);
    } else {
      MarkerIff(words[0]);
      FirstMarkerIs(words[1..], k - 1, i, digits);
    }
  }

  lemma {:induction false} NoFirstMarker(words: seq<string>)
    requires forall j | 0 <= j < |words| :: !HasSeasonEpisode(words[j])
    ensures FirstMarker(words).None?
    decreases |words|
  {
    hide HasSeasonEpisode, Marker;
    if words != [] {
      MarkerIff(words[0]);
      NoFirstMarker(words[1..]);
    }
  }

  /** A name that says season and episode is read by the first place that does, whatever
      numbers and markers stand before or behind it. */
  lemma ReadsSeasonEpisode(layout: Layout, ext: string, k: nat, i: nat, digits: string)
    requires layout.Valid() && IsExtension(ext)
    requires k < |layout.pieces| && i < |layout.pieces[k].word| && SaysEpisode(layout.pieces[k].word, i, digits)
    requires forall j | 0 <= j < i :: !SeasonEpisodeAt(layout.pieces[k].word, j)
    requires forall j | 0 <= j < k :: !HasSeasonEpisode(layout.pieces[j].word)
    ensures Guess(layout.Text() + ext) == Some(Decimal(Value(digits)))
  {
    hide Layout.Valid, Scrub, Marker, HasSeasonEpisode, SaysEpisode, SeasonEpisodeAt, Stem, Clean, IsBlank, LooseNumber;
    NameIsStem(layout, ext, k);
    LayoutScrubbed(layout);
    BlankHasNone(Scrub(layout.lead), Spell(Scrubbed(layout.pieces)));
    MarkerOfWords(Scrubbed(layout.pieces));
    assert WordsOf(Scrubbed(layout.pieces)) == WordsOf(layout.pieces);
    FirstMarkerIs(WordsOf(layout.pieces), k, i, digits);
    assert IsNumeral(digits) by { SaysNumeral(layout.pieces[k].word, i, digits); }
  }

  lemma SaysNumeral(w: string, i: nat, digits: string)
    requires SaysEpisode(w, i, digits)
    ensures IsNumeral(digits)
  {
  }

  lemma {:induction false} SpellHas(pieces: seq<Piece>, k: nat)
    requires k < |pieces| && pieces[k].word != ""
    ensures Spell(pieces) != ""
    decreases k
  {
    if k > 0 { SpellHas(pieces[1..], k - 1); }
  }

  lemma NameIsStem(layout: Layout, ext: string, k: nat)
    requires layout.Valid() && IsExtension(ext) && k < |layout.pieces|
    ensures Stem(layout.Text() + ext) == layout.Text()
  {
    hide IsGap, Stem, Suffix;
    SpellHas(layout.pieces, k);
    SplitBuilt(layout.Text(), ext);
  }
}
