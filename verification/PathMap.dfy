/** Rewriting paths when a library moves to a machine that sees its folders elsewhere. */
module PathMap {
  import opened Text
  import opened Naming

  datatype Mapping = Mapping(source: string, target: string)

  const Separators := "/\\"

  /** `rstrip("/\\")` */
  function Trim(s: string): string {
    StripRight(s, Separators)
  }

  predicate IsWindowsStyle(path: string) {
    (|path| >= 2 && path[1] == ':') || "\\\\" <= path
  }

  /** The path is the source, or continues it after a separator. */
  predicate IsUnder(source: string, path: string) {
    path == source || source + "/" <= path || source + "\\" <= path
  }

  predicate Applies(m: Mapping, path: string) {
    Trim(m.source) != "" && IsUnder(Trim(m.source), path)
  }

  function Replace(s: string, from: char, to: char): (r: string)
    ensures |r| == |s|
    ensures forall i | 0 <= i < |s| :: r[i] == if s[i] == from then to else s[i]
  {
    seq(|s|, i requires 0 <= i < |s| => if s[i] == from then to else s[i])
  }

  // ------------------------------------------------------------ path normalisation

  function LastIndex(s: string, c: char): (i: int)
    ensures -1 <= i < |s|
    ensures 0 <= i ==> s[i] == c
    ensures forall k | i < k < |s| :: s[k] != c
  {
    if s == "" then -1 else if s[|s| - 1] == c then |s| - 1 else LastIndex(s[..|s| - 1], c)
  }

  function FirstIndex(s: string, c: char, k: nat): (i: int)
    requires k <= |s|
    ensures i == -1 || (k <= i < |s| && s[i] == c)
    ensures forall j | k <= j < (if i == -1 then |s| else i) :: s[j] != c
    decreases |s| - k
  {
    if k == |s| then -1 else if s[k] == c then k else FirstIndex(s, c, k + 1)
  }

  function Kept(part: string): seq<string> {
    if part == "" || part == "." then [] else [part]
  }

  /** `[x for x in s.split(sep) if x and x != "."]` */
  function Components(s: string, sep: char): seq<string>
    decreases |s|
  {
    var i := LastIndex(s, sep);
    if i == -1 then Kept(s) else Components(s[..i], sep) + Kept(s[i + 1..])
  }

  /** The root of a POSIX path: two leading slashes are kept, more are one. */
  function PosixRoot(s: string): (root: string)
    ensures root <= s
  {
    if !("/" <= s) then "" else if "//" <= s && !("///" <= s) then "//" else "/"
  }

  /** `str(PurePosixPath(s))` */
  function PosixNormal(s: string): string {
    var root := PosixRoot(s);
    var parts := Components(s[|root|..], '/');
    if root == "" && parts == [] then "." else root + Join(parts, '/')
  }

  /** Where the share of a UNC path ends, or -1 if it has none. */
  function ShareEnd(s: string): (i: int)
    requires "\\\\" <= s
    ensures i == -1 || 2 <= i <= |s|
  {
    var start := if |s| >= 8 && Lower(s[..8]) == "\\\\?\\unc\\" then 8 else 2;
    var server := FirstIndex(s, '\\', start);
    if server == -1 then -1
    else
      var share := FirstIndex(s, '\\', server + 1);
      if share == -1 then |s| else share
  }

  /** Drive and root of a Windows path with separators unified, and what follows them. */
  function WindowsAnchor(s: string): (r: (string, string))
  {
    if "\\\\" <= s then
      var i := ShareEnd(s);
      if i == -1 then (s, "")
      else if i < |s| then (s[..i] + "\\", s[i + 1..])
      else if ServerNamesARoot(s) then (s + "\\", "")
      else (s, "")
    else if "\\" <= s then ("\\", s[1..])
    else if |s| >= 2 && s[1] == ':' then (if |s| >= 3 && s[2] == '\\' then (s[..3], s[3..]) else (s[..2], s[2..]))
    else ("", s)
  }

  /** A share without a trailing separator still gets its root, unless it is a device path. */
  predicate ServerNamesARoot(s: string)
    requires "\\\\" <= s
  {
    var end := FirstIndex(s, '\\', 2);
    && s[|s| - 1] != '\\'
    && ((|s| >= 8 && Lower(s[..8]) == "\\\\?\\unc\\") || (end != -1 && s[2..end] !in ["", "?", ".", "?."]))
  }

  /** `str(PureWindowsPath(s))` */
  function WindowsNormal(s: string): string {
    var (anchor, rest) := WindowsAnchor(Replace(s, '/', '\\'));
    var parts := Components(rest, '\\');
    if anchor == "" && parts == [] then "." else anchor + Join(parts, '\\')
  }

  // ------------------------------------------------------------ choosing a mapping

  /** What one mapping makes of a path it applies to. */
  function Rewrite(m: Mapping, path: string): string
    requires Applies(m, path)
  {
    var rest := path[|Trim(m.source)|..];
    var target := Trim(m.target);
    if IsWindowsStyle(target) then WindowsNormal(target + Replace(rest, '/', '\\'))
    else PosixNormal(target + Replace(rest, '\\', '/'))
  }

  /** The order `sorted(..., key=len(source), reverse=True)` puts them in: longer sources
      first, and those of equal length as listed. */
  predicate Before(ms: seq<Mapping>, i: nat, j: nat)
    requires i < |ms| && j < |ms|
  {
    |ms[i].source| > |ms[j].source| || (|ms[i].source| == |ms[j].source| && i < j)
  }

  /** The mapping that is used: of those that apply, the first in that order. */
  predicate IsChosen(ms: seq<Mapping>, path: string, k: nat) {
    && k < |ms| && Applies(ms[k], path)
    && forall j | 0 <= j < |ms| && j != k && Applies(ms[j], path) :: Before(ms, k, j)
  }

  /** `map_path` */
  function MapPath(path: string, ms: seq<Mapping>): (r: Option<string>)
    ensures r.None? <==> forall k | 0 <= k < |ms| :: !Applies(ms[k], path)
    ensures r.Some? ==> exists k: nat :: IsChosen(ms, path, k) && r == Some(Rewrite(ms[k], path))
  {
    var k := Choice(path, ms);
    if k == |ms| then None else Some(Rewrite(ms[k], path))
  }

  /** The best of the first `n` mappings, or `n` if none applies. */
  function Best(path: string, ms: seq<Mapping>, n: nat): (k: nat)
    requires n <= |ms|
    ensures k <= n
    ensures k == n <==> forall j | 0 <= j < n :: !Applies(ms[j], path)
    ensures k < n ==> Applies(ms[k], path) && forall j | 0 <= j < n && j != k && Applies(ms[j], path) :: Before(ms, k, j)
  {
    if n == 0 then 0
    else
      var k := Best(path, ms, n - 1);
      if !Applies(ms[n - 1], path) then (if k == n - 1 then n else k)
      else if k == n - 1 || |ms[n - 1].source| > |ms[k].source| then n - 1
      else k
  }

  function Choice(path: string, ms: seq<Mapping>): (k: nat)
    ensures k <= |ms|
    ensures k == |ms| <==> forall j | 0 <= j < |ms| :: !Applies(ms[j], path)
    ensures k < |ms| ==> IsChosen(ms, path, k)
  {
    Best(path, ms, |ms|)
  }

  lemma ChosenIsUnique(ms: seq<Mapping>, path: string, k: nat, l: nat)
    requires IsChosen(ms, path, k) && IsChosen(ms, path, l)
    ensures k == l
  {
  }

  /** The mappings' positions in sorted order. */
  function SortedOrder(ms: seq<Mapping>): (order: seq<nat>)
    ensures forall i :: i in order <==> 0 <= i < |ms|
    ensures forall a, b | 0 <= a < b < |order| :: order[a] < |ms| && order[b] < |ms| && Before(ms, order[a], order[b])
  {
    if ms == [] then []
    else
      var n := |ms| - 1;
      var rest := SortedOrder(ms[..n]);
      assert forall a, b | 0 <= a < b < |rest| :: Before(ms[..n], rest[a], rest[b]);
      assert forall k | 0 <= k < |rest| :: rest[k] in rest;
      Inserted(ms, rest, n)
  }

  /** The last mapping goes behind all whose source is at least as long. */
  function Inserted(ms: seq<Mapping>, order: seq<nat>, n: nat): (r: seq<nat>)
    requires n < |ms| && forall k | 0 <= k < |order| :: order[k] < n
    requires forall a, b | 0 <= a < b < |order| :: Before(ms, order[a], order[b])
    ensures forall i :: i in r <==> i in order || i == n
    ensures forall a | 0 <= a < |r| :: r[a] <= n
    ensures forall a, b | 0 <= a < b < |r| :: Before(ms, r[a], r[b])
  {
    if order == [] then [n]
    else
      var init, last := order[..|order| - 1], order[|order| - 1];
      assert order == init + [last];
      if |ms[n].source| > |ms[last].source| then
        var r := Inserted(ms, init, n);
        assert forall a | 0 <= a < |r| :: r[a] in r;
        assert forall i | i in init :: Before(ms, i, last);
        r + [last]
      else
        assert forall a | 0 <= a < |order| - 1 :: Before(ms, order[a], order[|order| - 1]);
        order + [n]
  }

  /** The loop over the sorted mappings. */
  method FindMapping(path: string, ms: seq<Mapping>) returns (r: Option<string>)
    ensures r == MapPath(path, ms)
  {
    hide Rewrite, Trim, IsUnder;
    var order := SortedOrder(ms);
    for k := 0 to |order|
      invariant forall a | 0 <= a < k :: !Applies(ms[order[a]], path)
    {
      assert order[k] in order;
      var m := ms[order[k]];
      if Applies(m, path) {
        forall j | 0 <= j < |ms| && j != order[k] && Applies(ms[j], path) ensures Before(ms, order[k], j) {
          assert j in order;
          var b :| 0 <= b < |order| && order[b] == j;
          assert b > k;
        }
        assert IsChosen(ms, path, order[k]);
        ChosenIsUnique(ms, path, order[k], Choice(path, ms));
        return Some(Rewrite(m, path));
      }
    }
    forall j | 0 <= j < |ms| ensures !Applies(ms[j], path) {
      assert j in order;
    }
    return None;
  }

  // ------------------------------------------------------------ the longest prefix wins, when?

  /** The mapping used is one with the longest prefix of those that apply. */
  ghost predicate LongestWins(ms: seq<Mapping>, path: string) {
    forall k: nat, j: nat | IsChosen(ms, path, k) && j < |ms| && Applies(ms[j], path) :: |Trim(ms[j].source)| <= |Trim(ms[k].source)|
  }

  predicate Inside(ms: seq<Mapping>, i: nat, j: nat) {
    && i < |ms| && j < |ms| && Trim(ms[i].source) != "" && Trim(ms[j].source) != Trim(ms[i].source)
    && IsUnder(Trim(ms[i].source), Trim(ms[j].source))
  }

  /** A mapping for the prefix `j` has is tried before `i`. */
  predicate TriedFirst(ms: seq<Mapping>, i: nat, j: nat, k: nat) {
    i < |ms| && j < |ms| && k < |ms| && Trim(ms[k].source) == Trim(ms[j].source) && Before(ms, k, i)
  }

  /** Wherever one prefix lies inside another, a mapping for the inner one is tried first. */
  ghost predicate InnerFirst(ms: seq<Mapping>) {
    forall i: nat, j: nat | Inside(ms, i, j) :: exists k: nat :: TriedFirst(ms, i, j, k)
  }

  lemma UnderTwo(a: string, b: string, path: string)
    requires IsUnder(a, path) && IsUnder(b, path) && |a| < |b|
    requires b[|b| - 1] != '/' && b[|b| - 1] != '\\'
    ensures IsUnder(a, b)
  {
    assert b <= path && a <= path;
    assert path[|a|] == '/' || path[|a|] == '\\';
    assert b[|a|] == path[|a|];
    assert a + [b[|a|]] == b[..|a| + 1];
  }

  lemma TrimmedEnds(s: string)
    ensures Trim(s) == "" || (Trim(s)[|Trim(s)| - 1] != '/' && Trim(s)[|Trim(s)| - 1] != '\\')
  {
  }

  lemma UnderSameLength(a: string, b: string)
    requires IsUnder(a, b) && |a| >= |b|
    ensures a == b
  {
  }

  /** The longest matching prefix wins on every path exactly if, wherever one prefix lies
      inside another, the inner one's mapping is tried first. */
  lemma LongestWinsIff(ms: seq<Mapping>)
    ensures (forall path :: LongestWins(ms, path)) <==> InnerFirst(ms)
  {
    hide Trim, Inside, TriedFirst, Applies;
    if InnerFirst(ms) {
      forall path ensures LongestWins(ms, path) {
        forall k: nat, j: nat | IsChosen(ms, path, k) && j < |ms| && Applies(ms[j], path)
          ensures k < |ms| && |Trim(ms[j].source)| <= |Trim(ms[k].source)|
        {
          InnerFirstWins(ms, path, k, j);
        }
      }
    }
    if forall path :: LongestWins(ms, path) {
      forall i: nat, j: nat | Inside(ms, i, j) ensures exists k: nat :: TriedFirst(ms, i, j, k) {
        WinnerIsInner(ms, i, j);
      }
    }
  }

  lemma InnerFirstWins(ms: seq<Mapping>, path: string, k: nat, j: nat)
    requires InnerFirst(ms) && IsChosen(ms, path, k) && j < |ms| && Applies(ms[j], path)
    ensures |Trim(ms[j].source)| <= |Trim(ms[k].source)|
  {
    hide Trim, IsUnder, InnerFirst;
    if |Trim(ms[j].source)| > |Trim(ms[k].source)| {
      TrimmedEnds(ms[j].source);
      UnderTwo(Trim(ms[k].source), Trim(ms[j].source), path);
      var l := InnerFirstAt(ms, k, j);
      SamePrefix(ms[l], ms[j], path);
    }
  }

  lemma SamePrefix(m: Mapping, n: Mapping, path: string)
    requires Trim(m.source) == Trim(n.source)
    ensures Applies(m, path) == Applies(n, path)
  {
  }

  lemma InnerFirstAt(ms: seq<Mapping>, i: nat, j: nat) returns (k: nat)
    requires InnerFirst(ms) && Inside(ms, i, j)
    ensures TriedFirst(ms, i, j, k)
  {
    hide Inside, TriedFirst;
    k :| TriedFirst(ms, i, j, k);
  }

  lemma WinnerIsInner(ms: seq<Mapping>, i: nat, j: nat)
    requires Inside(ms, i, j) && LongestWins(ms, Trim(ms[j].source))
    ensures exists k: nat :: TriedFirst(ms, i, j, k)
  {
    hide Trim;
    var path := Trim(ms[j].source);
    assert Applies(ms[i], path) && Applies(ms[j], path);
    var k := Choice(path, ms);
    assert IsChosen(ms, path, k);
    UnderSameLength(Trim(ms[k].source), path);
    assert TriedFirst(ms, i, j, k);
  }

  /** In particular where no source ends in more than one separator. */
  lemma OneSeparatorSuffices(ms: seq<Mapping>, path: string)
    requires forall m | m in ms :: |m.source| <= |Trim(m.source)| + 1
    ensures LongestWins(ms, path)
  {
    hide Trim, LongestWins;
    forall i: nat, j: nat | Inside(ms, i, j) ensures TriedFirst(ms, i, j, j) {
      assert ms[i] in ms && ms[j] in ms;
      TrimmedEnds(ms[j].source);
      TrimShortens(ms[j].source);
    }
    LongestWinsIff(ms);
  }

  lemma {:induction false} TrimShortens(s: string)
    ensures |Trim(s)| <= |s|
    decreases |s|
  {
    if s != "" && s[|s| - 1] in Separators {
      TrimShortens(s[..|s| - 1]);
    }
  }

  /** With two trailing separators the outer mapping can win, since the untrimmed length
      is what is sorted by. */
  lemma TwoSeparatorsMislead()
    ensures
      var ms := [Mapping("/a//", "/x"), Mapping("/a/b", "/y")];
      !LongestWins(ms, "/a/b/c") && IsChosen(ms, "/a/b/c", 0)
  {
    var ms := [Mapping("/a//", "/x"), Mapping("/a/b", "/y")];
    assert "/a//"[..3] == "/a/" && "/a/"[..2] == "/a";
    assert Trim("/a//") == Trim("/a/") == Trim("/a") == "/a";
    assert Trim("/a/b") == "/a/b";
    assert "/a" + "/" <= "/a/b/c" && "/a/b" + "/" <= "/a/b/c";
    assert Applies(ms[0], "/a/b/c") && Applies(ms[1], "/a/b/c");
    assert IsChosen(ms, "/a/b/c", 0);
  }
}
