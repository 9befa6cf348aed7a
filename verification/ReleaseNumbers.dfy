/** Names of releases that say no season: which of their numbers is the episode's. */
module ReleaseNumbers {
  import opened Text
  import opened ReleaseName
  import opened ReleaseShapes

  // ------------------------------------------------------------ the words that count

  predicate HasBlankIn(g: string) {
    exists i | 0 <= i < |g| :: g[i] in " ()[]{}"
  }

  /** Words are set apart by more than dots, "_" and "-", or there are no dots in them. */
  predicate Airy(layout: Layout) {
    || (forall i | 0 <= i < |layout.pieces| :: '.' !in layout.pieces[i].word)
    || (exists i | 0 <= i < |layout.pieces| - 1 :: HasBlankIn(layout.pieces[i].gap))
  }

  /** Nothing in it says season and episode. */
  predicate Loose(layout: Layout) {
    layout.Valid() && Airy(layout) && forall i | 0 <= i < |layout.pieces| :: !HasSeasonEpisode(layout.pieces[i].word)
  }

  /** A site's name in front does not count. */
  function Counted(words: seq<string>): seq<string> {
    if words != [] && IsSite(words[0]) then words[1..] else words
  }

  function CountedOf(layout: Layout): seq<string> {
    Counted(WordsOf(layout.pieces))
  }

  ghost predicate NoBare(w: string) {
    forall d :: !IsBare(w, d)
  }

  ghost predicate NoMarked(w: string) {
    forall d :: !IsMarked(w, d)
  }

  // ------------------------------------------------------------ one word

  lemma BareIs(w: string, d: string)
    requires IsBare(w, d)
    ensures DropVersion(w) == d && IsCandidate(d)
  {
    if w == d {
      if |w| >= 3 { assert w[|w| - 2] !in "vV"; }
    } else {
      assert w[..|w| - 2] == d;
    }
  }

  lemma CandidateIsBare(w: string)
    requires IsCandidate(DropVersion(w))
    ensures IsBare(w, DropVersion(w))
  {
    var d := DropVersion(w);
    if w != d { assert w[|d|] == w[|w| - 2]; }
  }

  lemma NoBareIff(w: string)
    ensures NoBare(w) <==> !IsCandidate(DropVersion(w))
  {
    if IsCandidate(DropVersion(w)) { CandidateIsBare(w); }
    if !NoBare(w) {
      var d :| IsBare(w, d);
      BareIs(w, d);
    }
  }

  lemma {:induction false} TrailingIs(s: string, k: nat)
    requires k <= |s| && DigitsOnly(s[|s| - k..]) && (k == |s| || !IsDigit(s[|s| - k - 1]))
    ensures TrailingDigits(s) == k
    decreases k
  {
    if k > 0 {
      assert s[|s| - k..][k - 1] == s[|s| - 1];
      var t := s[..|s| - 1];
      var from := |s| - k;
      assert |t| - (k - 1) == from;
      assert t[from..] == s[from..|s| - 1];
      assert s[from..][..k - 1] == s[from..|s| - 1];
      TrailingIs(t, k - 1);
    }
  }

  lemma MarksAre(mark: string)
    ensures IsMark(mark) <==> exists w | w in EpisodeWords :: mark == w || mark == w + "."
    ensures IsMark(mark) ==> mark != "" && !IsDigit(mark[|mark| - 1]) && !IsDigit(mark[0])
  {
    if mark in EpisodeWords {
      DotlessMark(mark);
    } else if mark != "" && mark[|mark| - 1] == '.' {
      var w := mark[..|mark| - 1];
      assert mark == w + ".";
      DotlessMark(w);
      DotlessMark(mark);
    } else {
      DotlessMark(mark);
      forall w | w in EpisodeWords ensures mark != w + "." {}
    }
  }

  lemma DotlessMark(w: string)
    ensures IsDotless(w) <==> w in EpisodeWords
    ensures IsDotless(w) ==> w != "" && !IsDigit(w[0]) && !IsDigit(w[|w| - 1])
  {
  }

  lemma MarkedIs(w: string, d: string)
    requires IsMarked(w, d)
    ensures DropVersion(w) == w && MarkedNumber(w) == Some(d)
  {
    hide Lower;
    var pre := w[..|w| - |d|];
    MarksAre(Lower(pre));
    LowerKeepsNonDigit(pre);
    assert w[|w| - |d| - 1] == pre[|pre| - 1] && w[0] == pre[0];
    TrailingIs(w, |d|);
    if 3 <= |w| <= 6 { assert w[..|w| - 2][0] == w[0]; }
  }

  lemma LowerKeepsNonDigit(s: string)
    ensures forall i | 0 <= i < |s| :: IsDigit(Lower(s)[i]) == IsDigit(s[i])
  {
  }

  lemma NoMarkedIff(w: string)
    ensures NoMarked(w) <==> MarkedNumber(DropVersion(w)).None?
  {
    hide MarkedNumber, IsMarked, DropVersion;
    if !NoMarked(w) {
      var d :| IsMarked(w, d);
      MarkedIs(w, d);
    }
    if MarkedNumber(DropVersion(w)).Some? {
      MarkedNumberIs(DropVersion(w));
      MarkedWhole(w);
    }
  }

  lemma MarkedNumberIs(t: string)
    requires MarkedNumber(t).Some?
    ensures IsMarked(t, MarkedNumber(t).value)
  {
    hide Lower, IsMark;
    MarksAre(Lower(t[..|t| - TrailingDigits(t)]));
  }

  /** What bears a mark has no version. */
  lemma MarkedWhole(w: string)
    requires exists d :: IsMarked(DropVersion(w), d)
    ensures DropVersion(w) == w
  {
    hide Lower, IsMark;
    var t := DropVersion(w);
    var d :| IsMarked(t, d);
    var pre := t[..|t| - |d|];
    MarksAre(Lower(pre));
    LowerKeepsNonDigit(pre);
    assert t[0] == pre[0];
  }

  lemma SiteIs(w: string)
    ensures IsSite(w) <==> IsSiteTag(DropVersion(w))
  {
    hide DropVersion;
    if IsSite(w) {
      var i :| 0 < i < |w| && SiteDot(w, i);
      FindIs(w, '.', i);
      EndsInNoDigit(w);
    }
    if IsSiteTag(DropVersion(w)) {
      HasItsDot(w);
      assert SiteDot(w, Find(w, '.'));
    }
  }

  lemma EndsInNoDigit(w: string)
    requires w != "" && !IsDigit(w[|w| - 1])
    ensures DropVersion(w) == w
  {
  }

  lemma HasItsDot(w: string)
    requires IsSiteTag(DropVersion(w))
    ensures DropVersion(w) == w
  {
    var t := DropVersion(w);
    assert t[Find(t, '.')] == '.';
  }

  // ------------------------------------------------------------ the tokens

  function Unversioned(words: seq<string>): (r: seq<string>)
    ensures |r| == |words|
  {
    seq(|words|, i requires 0 <= i < |words| => DropVersion(words[i]))
  }

  lemma {:induction false} NoDots(s: string)
    requires '.' !in s
    ensures Count(s, '.') == 0
    decreases |s|
  {
    if s != "" { NoDots(s[1..]); }
  }

  lemma {:induction false} SpellHasNoDots(pieces: seq<Piece>)
    requires Clean(pieces) && forall i | 0 <= i < |pieces| :: '.' !in pieces[i].word
    ensures '.' !in Spell(pieces)
    decreases |pieces|
  {
    if pieces != [] {
      SpellHasNoDots(pieces[1..]);
      assert '.' !in pieces[0].word && '.' !in pieces[0].gap;
    }
  }

  lemma InnerSpaceInside(a: string, s: string, b: string)
    requires HasInnerSpace(s)
    ensures HasInnerSpace(a + s + b)
  {
    var i, j, k :| 0 <= i < j < k < |s| && !IsSpace(s[i]) && s[j] == ' ' && !IsSpace(s[k]);
    var t := a + s + b;
    assert t[|a| + i] == s[i] && t[|a| + j] == s[j] && t[|a| + k] == s[k];
  }

  lemma InnerSpaceBetween(w: string, g: string, v: string)
    requires IsWord(w) && IsWord(v) && ' ' in g
    ensures HasInnerSpace(w + g + v)
  {
    var j :| 0 <= j < |g| && g[j] == ' ';
    var s := w + g + v;
    assert !IsSpace(s[0]) && s[|w| + j] == ' ' && s[|w| + |g|] == v[0] && !IsSpace(v[0]);
  }

  lemma {:induction false} BlankInGap(g: string)
    requires IsGap(g) && HasBlankIn(g)
    ensures ' ' in Scrub(g)
    decreases |g|
  {
    hide DropGroups, Find, LeftOpen;
    GroupsUnfolded(g);
    var i :| 0 <= i < |g| && g[i] in " ()[]{}";
    if g[0] == '[' {
      BlankStrayConcat(" ", DropGroups(g[Find(g, ']') + 1..]));
      assert BlankStray(" ") == " ";
    } else {
      BlankStrayConcat([g[0]], DropGroups(g[1..]));
      if g[0] in " ()[]{}" {
        assert BlankStray([g[0]]) == " ";
      } else {
        assert g[1..][i - 1] == g[i];
        BlankInGap(g[1..]);
      }
    }
  }

  lemma {:induction false} SpellHasSpace(pieces: seq<Piece>, i: nat)
    requires Clean(pieces) && i < |pieces| - 1 && ' ' in pieces[i].gap
    ensures HasInnerSpace(Spell(pieces))
    decreases i
  {
    hide IsBlank, HasInnerSpace, IsWord;
    var p, rest := pieces[0], pieces[1..];
    assert Spell(pieces) == p.word + p.gap + Spell(rest);
    if i == 0 {
      InnerSpaceBetween(p.word, p.gap, rest[0].word);
      InnerSpaceInside("", p.word + p.gap + rest[0].word, rest[0].gap + Spell(rest[1..]));
      assert Spell(pieces) == "" + (p.word + p.gap + rest[0].word) + (rest[0].gap + Spell(rest[1..]));
    } else {
      SpellHasSpace(rest, i - 1);
      InnerSpaceInside(p.word + p.gap, Spell(rest), "");
      assert Spell(pieces) == p.word + p.gap + Spell(rest) + "";
    }
  }

  /** The parser does not take the dots for blanks. */
  lemma AiryKeepsDots(layout: Layout)
    requires layout.Valid() && Airy(layout)
    ensures HasInnerSpace(Scrub(layout.Text())) || Count(Scrub(layout.Text()), '.') < 2
  {
    hide Scrub, IsGap, HasInnerSpace, IsWord, IsBlank;
    LayoutScrubbed(layout);
    var lead, pieces := Scrub(layout.lead), Scrubbed(layout.pieces);
    if forall i | 0 <= i < |layout.pieces| :: '.' !in layout.pieces[i].word {
      SpellHasNoDots(pieces);
      assert '.' !in lead by { BlankHasNoDot(lead); }
      NoDots(lead + Spell(pieces));
    } else {
      var i :| 0 <= i < |layout.pieces| - 1 && HasBlankIn(layout.pieces[i].gap);
      BlankInGap(layout.pieces[i].gap);
      SpellHasSpace(pieces, i);
      InnerSpaceInside(lead, Spell(pieces), "");
      assert lead + Spell(pieces) + "" == lead + Spell(pieces);
    }
  }

  lemma BlankHasNoDot(g: string)
    requires IsBlank(g)
    ensures '.' !in g
  {
  }

  lemma TokensAre(layout: Layout)
    requires layout.Valid() && Airy(layout)
    ensures Tokens(Scrub(layout.Text())) == Unversioned(CountedOf(layout))
  {
    hide Scrub, IsGap, HasInnerSpace, IsWord, IsBlank, Words, IsSite, IsSiteTag, DropVersion;
    AiryKeepsDots(layout);
    LayoutScrubbed(layout);
    var lead, pieces := Scrub(layout.lead), Scrubbed(layout.pieces);
    var words := WordsOf(layout.pieces);
    ReplaceConcat(lead, Spell(pieces), "_-", ' ');
    SpellIsSplit(pieces);
    assert WordsOf(pieces) == words;
    var front := ReplaceAny(lead, "_-", ' ');
    BlankReplaced(lead);
    if front != "" {
      BlankIsRead(front, ReplaceAny(Spell(pieces), "_-", ' '), "");
    } else {
      assert front + ReplaceAny(Spell(pieces), "_-", ' ') == ReplaceAny(Spell(pieces), "_-", ' ');
    }
    assert [] + words == words;
    if words != [] { SiteIs(words[0]); }
    assert words != [] ==> Unversioned(words)[1..] == Unversioned(words[1..]);
  }

  lemma NoMarkerThere(layout: Layout)
    requires Loose(layout)
    ensures Marker(Scrub(layout.Text())).None?
  {
    hide Scrub, Marker, HasSeasonEpisode, Clean, IsBlank, Layout.Valid, Airy;
    LayoutScrubbed(layout);
    BlankHasNone(Scrub(layout.lead), Spell(Scrubbed(layout.pieces)));
    MarkerOfWords(Scrubbed(layout.pieces));
    assert WordsOf(Scrubbed(layout.pieces)) == WordsOf(layout.pieces);
    NoFirstMarker(WordsOf(layout.pieces));
  }

  /** What the parser goes by. */
  lemma LooseIs(layout: Layout, ext: string)
    requires Loose(layout) && IsExtension(ext) && layout.Text() != ""
    ensures
      var tokens := Unversioned(CountedOf(layout));
      var digits :=
        if FirstMarked(tokens).Some? then FirstMarked(tokens)
        else if EpisodeTokenIndex(tokens).Some? then Some(tokens[EpisodeTokenIndex(tokens).value])
        else Bracketed(layout.Text());
      && (digits.Some? ==> IsNumeral(digits.value))
      && Guess(layout.Text() + ext) == if digits.Some? then Some(Decimal(Value(digits.value))) else None
  {
    hide Scrub, Marker, Layout.Valid, Airy, Stem, Suffix, Tokens, Bracketed, FirstMarked, EpisodeTokenIndex, HasSeasonEpisode, CountedOf, Layout.Text;
    SplitBuilt(layout.Text(), ext);
    NoMarkerThere(layout);
    TokensAre(layout);
  }

  // ------------------------------------------------------------ which of them is taken

  lemma {:induction false} FirstMarkedIs(words: seq<string>, k: nat, digits: string)
    requires k < |words| && IsMarked(words[k], digits) && forall j | 0 <= j < k :: NoMarked(words[j])
    ensures FirstMarked(Unversioned(words)) == Some(digits)
    decreases k
  {
    hide IsMarked, NoMarked, DropVersion, MarkedNumber;
    assert Unversioned(words)[1..] == Unversioned(words[1..]);
    if k == 0 {
      MarkedIs(words[0], digits);
    } else {
      NoMarkedIff(words[0]);
      FirstMarkedIs(words[1..], k - 1, digits);
    }
  }

  lemma {:induction false} NoneIsMarked(words: seq<string>)
    requires forall j | 0 <= j < |words| :: NoMarked(words[j])
    ensures FirstMarked(Unversioned(words)).None?
    decreases |words|
  {
    hide NoMarked, DropVersion, MarkedNumber;
    if words != [] {
      assert Unversioned(words)[1..] == Unversioned(words[1..]);
      NoMarkedIff(words[0]);
      NoneIsMarked(words[1..]);
    }
  }

  /** The first number that is no year; unless it opens the name and another follows. */
  lemma TakenIs(words: seq<string>, k: nat, digits: string)
    requires k < |words| && IsBare(words[k], digits)
    requires (forall j | 0 < j < k :: NoBare(words[j]))
    requires if k == 0 then forall j | 0 < j < |words| :: NoBare(words[j]) else true
    ensures EpisodeTokenIndex(Unversioned(words)) == Some(k) && Unversioned(words)[k] == digits
  {
    hide IsBare, NoBare, DropVersion, IsCandidate;
    var tokens := Unversioned(words);
    var c := Candidates(tokens);
    BareIs(words[k], digits);
    assert k in c;
    forall j | 0 <= j < |words| ensures NoBare(words[j]) <==> !IsCandidate(tokens[j]) { NoBareIff(words[j]); }
    var x :| 0 <= x < |c| && c[x] == k;
    FirstCandidates(tokens, c, k, x);
  }

  lemma FirstCandidates(tokens: seq<string>, c: seq<nat>, k: nat, x: nat)
    requires c == Candidates(tokens) && x < |c| && c[x] == k
    requires forall j | 0 < j < k :: j < |tokens| && !IsCandidate(tokens[j])
    requires if k == 0 then forall j | 0 < j < |tokens| :: !IsCandidate(tokens[j]) else true
    ensures EpisodeTokenIndex(tokens) == Some(k)
  {
    hide IsCandidate, Candidates;
    assert x <= 1;
    if x == 1 { assert c[0] == 0; }
  }

  lemma NoneIsTaken(words: seq<string>)
    requires forall j | 0 <= j < |words| :: NoBare(words[j])
    ensures EpisodeTokenIndex(Unversioned(words)).None?
  {
    hide NoBare, DropVersion, IsCandidate;
    forall j | 0 <= j < |words| ensures !IsCandidate(Unversioned(words)[j]) { NoBareIff(words[j]); }
  }

  lemma BracketsHere(s: string, digits: string)
    requires NumberInBrackets(s, 0, digits)
    ensures BracketedHere(s) == Some(digits)
  {
    var t := s[1..];
    assert t[..|digits|] == s[1..1 + |digits|];
    DigitsRun(t, digits, 3);
  }

  lemma HereBrackets(s: string)
    requires BracketedHere(s).Some?
    ensures NumberInBrackets(s, 0, BracketedHere(s).value)
  {
    var d := BracketedHere(s).value;
    assert s[1..1 + |d|] == s[1..][..|d|];
  }

  ghost predicate NoBrackets(s: string, i: nat) {
    forall d :: !NumberInBrackets(s, i, d)
  }

  lemma BracketsShift(s: string, i: nat, d: string)
    requires s != ""
    ensures NumberInBrackets(s[1..], i, d) <==> NumberInBrackets(s, i + 1, d)
  {
    if i + 2 + |d| <= |s| { assert s[1..][i + 1..i + 1 + |d|] == s[i + 2..i + 2 + |d|]; }
  }

  lemma NoBracketsShift(s: string, i: nat)
    requires s != ""
    ensures NoBrackets(s[1..], i) <==> NoBrackets(s, i + 1)
  {
    hide NumberInBrackets;
    if !NoBrackets(s[1..], i) {
      var d :| NumberInBrackets(s[1..], i, d);
      BracketsShift(s, i, d);
    }
    if !NoBrackets(s, i + 1) {
      var d :| NumberInBrackets(s, i + 1, d);
      BracketsShift(s, i, d);
    }
  }

  lemma {:induction false} BracketedIs(s: string, i: nat, digits: string)
    requires i < |s| && NumberInBrackets(s, i, digits) && forall j | 0 <= j < i :: NoBrackets(s, j)
    ensures Bracketed(s) == Some(digits)
    decreases i
  {
    hide NumberInBrackets, BracketedHere, NoBrackets;
    if i == 0 {
      BracketsHere(s, digits);
    } else {
      assert BracketedHere(s).None? by {
        if BracketedHere(s).Some? { HereBrackets(s); NotNone(s, 0, BracketedHere(s).value); }
      }
      BracketsShift(s, i - 1, digits);
      forall j | 0 <= j < i - 1 ensures NoBrackets(s[1..], j) { NoBracketsShift(s, j); }
      BracketedIs(s[1..], i - 1, digits);
    }
  }

  lemma NotNone(s: string, i: nat, d: string)
    requires NumberInBrackets(s, i, d)
    ensures !NoBrackets(s, i)
  {
    hide NumberInBrackets;
  }

  lemma {:induction false} NothingBracketed(s: string)
    requires forall j | 0 <= j < |s| :: NoBrackets(s, j)
    ensures Bracketed(s).None?
    decreases |s|
  {
    hide NumberInBrackets, BracketedHere, NoBrackets;
    if s != "" {
      if BracketedHere(s).Some? { HereBrackets(s); NotNone(s, 0, BracketedHere(s).value); }
      forall j | 0 <= j < |s| - 1 ensures NoBrackets(s[1..], j) { NoBracketsShift(s, j); }
      NothingBracketed(s[1..]);
    }
  }

  // ------------------------------------------------------------ the laws

  lemma SomethingThere(layout: Layout)
    requires layout.Valid() && CountedOf(layout) != []
    ensures layout.Text() != ""
  {
    hide IsGap, IsSite;
    SpellHas(layout.pieces, 0);
  }

  /** A number with an episode word before it wins, wherever it stands and whatever other
      numbers there are. */
  lemma ReadsMarked(layout: Layout, ext: string, k: nat, digits: string)
    requires Loose(layout) && IsExtension(ext)
    requires k < |CountedOf(layout)| && IsMarked(CountedOf(layout)[k], digits) && forall j | 0 <= j < k :: NoMarked(CountedOf(layout)[j])
    ensures Guess(layout.Text() + ext) == Some(Decimal(Value(digits)))
  {
    hide Loose, IsMarked, NoMarked, CountedOf, FirstMarked, EpisodeTokenIndex, Bracketed, Guess, Layout.Text;
    LooseIsValid(layout);
    SomethingThere(layout);
    LooseIs(layout, ext);
    FirstMarkedIs(CountedOf(layout), k, digits);
  }

  lemma LooseIsValid(layout: Layout)
    requires Loose(layout)
    ensures layout.Valid()
  {
    hide Layout.Valid, Airy, HasSeasonEpisode;
  }

  /** Otherwise it is the first number that is no year; but not one that opens the name if
      another follows. */
  lemma ReadsBare(layout: Layout, ext: string, k: nat, digits: string)
    requires Loose(layout) && IsExtension(ext) && forall j | 0 <= j < |CountedOf(layout)| :: NoMarked(CountedOf(layout)[j])
    requires k < |CountedOf(layout)| && IsBare(CountedOf(layout)[k], digits) && forall j | 0 < j < k :: NoBare(CountedOf(layout)[j])
    requires k == 0 ==> forall j | 0 < j < |CountedOf(layout)| :: NoBare(CountedOf(layout)[j])
    ensures Guess(layout.Text() + ext) == Some(Decimal(Value(digits)))
  {
    hide Loose, IsBare, NoBare, NoMarked, CountedOf, FirstMarked, EpisodeTokenIndex, Bracketed, Guess, Layout.Text;
    LooseIsValid(layout);
    SomethingThere(layout);
    LooseIs(layout, ext);
    NoneIsMarked(CountedOf(layout));
    TakenIs(CountedOf(layout), k, digits);
  }

  /** A number in square brackets is read only where nothing else is, and the first one. */
  lemma ReadsBracketed(layout: Layout, ext: string, i: nat, digits: string)
    requires Loose(layout) && IsExtension(ext)
    requires forall j | 0 <= j < |CountedOf(layout)| :: NoMarked(CountedOf(layout)[j]) && NoBare(CountedOf(layout)[j])
    requires NumberInBrackets(layout.Text(), i, digits) && forall j | 0 <= j < i :: NoBrackets(layout.Text(), j)
    ensures Guess(layout.Text() + ext) == Some(Decimal(Value(digits)))
  {
    hide Loose, NoBare, NoMarked, CountedOf, FirstMarked, EpisodeTokenIndex, Bracketed, Guess, Layout.Text;
    LooseIs(layout, ext);
    NoneIsMarked(CountedOf(layout));
    NoneIsTaken(CountedOf(layout));
    BracketedIs(layout.Text(), i, digits);
  }

  /** With none of these there is no number; a year alone is none. */
  lemma ReadsNothing(layout: Layout, ext: string)
    requires Loose(layout) && IsExtension(ext) && layout.Text() != ""
    requires forall j | 0 <= j < |CountedOf(layout)| :: NoMarked(CountedOf(layout)[j]) && NoBare(CountedOf(layout)[j])
    requires forall j | 0 <= j < |layout.Text()| :: NoBrackets(layout.Text(), j)
    ensures Guess(layout.Text() + ext) == None
  {
    hide Loose, NoBare, NoMarked, CountedOf, FirstMarked, EpisodeTokenIndex, Bracketed, Guess, Layout.Text;
    LooseIs(layout, ext);
    NoneIsMarked(CountedOf(layout));
    NoneIsTaken(CountedOf(layout));
    NothingBracketed(layout.Text());
  }

  // ------------------------------------------------------------ dots for blanks

  function Blanked(s: string): (r: string)
    ensures |r| == |s| && forall i | 0 <= i < |s| :: r[i] == if s[i] == '.' then ' ' else s[i]
  {
    seq(|s|, i requires 0 <= i < |s| => if s[i] == '.' then ' ' else s[i])
  }

  lemma {:induction false} TwoDots(s: string, i: nat, j: nat)
    requires i < j < |s| && s[i] == '.' && s[j] == '.'
    ensures Count(s, '.') >= 2
    decreases i
  {
    if i == 0 { OneDot(s[1..], j - 1); } else { TwoDots(s[1..], i - 1, j - 1); }
  }

  lemma {:induction false} OneDot(s: string, i: nat)
    requires i < |s| && s[i] == '.'
    ensures Count(s, '.') >= 1
    decreases i
  {
    if i > 0 { OneDot(s[1..], i - 1); }
  }

  lemma {:induction false} SameRun(s: string, max: nat)
    ensures LeadingDigits(Blanked(s), max) == LeadingDigits(s, max)
    decreases |s|
  {
    if s != "" && max > 0 {
      assert Blanked(s)[1..] == Blanked(s[1..]);
      SameRun(s[1..], max - 1);
    }
  }

  lemma {:induction false} SameMarker(s: string)
    ensures Marker(Blanked(s)) == Marker(s)
    decreases |s|
  {
    if s != "" {
      assert Blanked(s)[1..] == Blanked(s[1..]);
      SameMarker(s[1..]);
      if |s| >= 4 { assert Blanked(s)[3..] == Blanked(s[3..]); SameRun(s[3..], 4); }
      if |s| >= 5 { assert Blanked(s)[4..] == Blanked(s[4..]); SameRun(s[4..], 4); }
    }
  }

  lemma {:induction false} NoBracketNoNumber(s: string)
    requires '[' !in s
    ensures Bracketed(s).None?
    decreases |s|
  {
    if s != "" { NoBracketNoNumber(s[1..]); }
  }

  lemma PlainScrub(s: string)
    requires forall i | 0 <= i < |s| :: s[i] !in "()[]{}"
    ensures Scrub(s) == s && Bracketed(s).None?
  {
    assert '[' !in s;
    NoGroups(s);
    NoBracketNoNumber(s);
  }

  /** "Show.Name.02": where there are no blanks or brackets, two dots or more are read as
      blanks. */
  lemma DotsAreBlanks(stem: string, ext: string, i: nat, j: nat)
    requires IsExtension(ext) && (forall k | 0 <= k < |stem| :: stem[k] !in " ()[]{}")
    requires i < j < |stem| && stem[i] == '.' && stem[j] == '.'
    ensures Guess(stem + ext) == Guess(Blanked(stem) + ext)
  {
    hide Marker, Scrub, Stem, Suffix, Tokens, FirstMarked, EpisodeTokenIndex, Bracketed, IsExtension;
    var blanked := Blanked(stem);
    SplitBuilt(stem, ext);
    SplitBuilt(blanked, ext);
    PlainScrub(stem);
    PlainScrub(blanked);
    SameMarker(stem);
    SameTokens(stem, i, j);
  }

  lemma SameTokens(stem: string, i: nat, j: nat)
    requires forall k | 0 <= k < |stem| :: stem[k] !in " ()[]{}"
    requires i < j < |stem| && stem[i] == '.' && stem[j] == '.'
    ensures Tokens(stem) == Tokens(Blanked(stem))
  {
    hide Words, DropVersion, IsSiteTag;
    TwoDots(stem, i, j);
    NoDots(Blanked(stem));
    assert ReplaceAny(stem, ".", ' ') == Blanked(stem);
    assert !HasInnerSpace(stem);
  }

  // ------------------------------------------------------------ the common shape

  /** "Title of the Show - 05 [1080p][ABCD].mkv": words, a dash, a number, groups. */
  lemma TitleDashNumber(title: seq<Piece>, digits: string, tail: string, ext: string)
    requires title != [] && (forall i | 0 <= i < |title| :: IsWord(title[i].word)) && (forall i | 0 <= i < |title| - 1 :: title[i].gap == " ")
    requires title[|title| - 1].gap == " - " && IsGap(tail) && IsExtension(ext)
    requires forall i | 0 <= i < |title| :: !HasSeasonEpisode(title[i].word) && NoMarked(title[i].word) && NoBare(title[i].word) && !IsSite(title[i].word)
    requires IsNumeral(digits) && !LooksLikeYear(digits)
    ensures Guess(Spell(title) + digits + tail + ext) == Some(Decimal(Value(digits)))
  {
    hide NoMarked, NoBare, IsSite, HasSeasonEpisode, Guess, IsGap, IsWord;
    var layout := Layout("", title + [Piece(digits, tail)]);
    TitleLayout(title, digits, tail);
    SpellAppend(title, Piece(digits, tail));
    assert layout.Text() == Spell(title) + digits + tail;
    assert WordsOf(layout.pieces) == WordsOf(title) + [digits];
    assert CountedOf(layout) == WordsOf(layout.pieces);
    assert IsBare(digits, digits);
    NumberIsUnmarked(digits);
    ReadsBare(layout, ext, |title|, digits);
  }

  lemma NumberIsUnmarked(digits: string)
    requires IsNumeral(digits)
    ensures NoMarked(digits) && !HasSeasonEpisode(digits) && IsWord(digits) && '.' !in digits
  {
    hide Lower;
    forall d ensures !IsMarked(digits, d) {
      if IsMarked(digits, d) {
        MarksAre(Lower(digits[..|digits| - |d|]));
        LowerKeepsNonDigit(digits[..|digits| - |d|]);
      }
    }
  }

  lemma TitleLayout(title: seq<Piece>, digits: string, tail: string)
    requires title != [] && (forall i | 0 <= i < |title| :: IsWord(title[i].word)) && (forall i | 0 <= i < |title| - 1 :: title[i].gap == " ")
    requires title[|title| - 1].gap == " - " && IsGap(tail) && IsNumeral(digits)
    requires forall i | 0 <= i < |title| :: !HasSeasonEpisode(title[i].word)
    ensures Loose(Layout("", title + [Piece(digits, tail)]))
  {
    hide IsWord, HasSeasonEpisode, IsGap;
    var layout := Layout("", title + [Piece(digits, tail)]);
    GapsAre();
    NumberIsUnmarked(digits);
    assert layout.pieces[|title| - 1].gap[0] in " ()[]{}";
    assert HasBlankIn(layout.pieces[|title| - 1].gap);
  }

  lemma GapsAre()
    ensures IsGap("") && IsGap(" ") && IsGap(" - ")
  {
    EmptyGap();
    SeparatorGap(' ', "");
    SeparatorGap('-', " ");
    assert ['-'] + " " == "- ";
    SeparatorGap(' ', "- ");
    assert [' '] + "- " == " - ";
  }

  lemma {:induction false} SpellAppend(pieces: seq<Piece>, p: Piece)
    ensures Spell(pieces + [p]) == Spell(pieces) + p.word + p.gap
    decreases |pieces|
  {
    if pieces == [] {
      assert [p][1..] == [] && pieces + [p] == [p];
      assert Spell([p]) == p.word + p.gap + "";
    } else {
      assert (pieces + [p])[1..] == pieces[1..] + [p];
      SpellAppend(pieces[1..], p);
    }
  }
}
