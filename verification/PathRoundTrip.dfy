/** Moving a library there and back: what rewriting a path computes across the two styles,
    and that the inverse mapping undoes it. */
module PathRoundTrip {
  import opened Text
  import opened PathMap

  datatype Style = Posix | Windows

  function Sep(style: Style): char {
    if style.Posix? then '/' else '\\'
  }

  /** A directory or file name: not empty, not ".", and without separators of either style. */
  predicate IsName(n: string) {
    n != "" && n != "." && '/' !in n && '\\' !in n
  }

  predicate AreNames(names: seq<string>) {
    forall n | n in names :: IsName(n)
  }

  /** A place in one style: a root and the names below it. */
  datatype Place = Place(style: Style, root: string, names: seq<string>) {

    predicate Valid() {
      && AreNames(names)
      && match style
         case Posix => root in ["", "/", "//"] && (names == [] ==> root == "/") && !IsWindowsStyle(Base())
         case Windows => IsDrive(root) || IsShare(root)
    }

    /** Without a trailing separator, as a mapping's ends are used. */
    function Base(): string {
      if names == [] then (if style.Posix? then "" else root)
      else root + (if style.Posix? then "" else "\\") + Join(names, Sep(style))
    }

    /** A drive, a share or the POSIX root by itself. */
    predicate IsBare() {
      names == []
    }

    /** The POSIX root, of which nothing is left without its separator. */
    predicate IsEverything() {
      style.Posix? && IsBare()
    }

    /** As a path is stored: what is bare has its root spelled out. */
    function Text(): string {
      if IsBare() then Base() + [Sep(style)] else Base()
    }

    function Below(more: seq<string>): Place {
      this.(names := names + more)
    }
  }

  /** "Z:" */
  predicate IsDrive(s: string) {
    |s| == 2 && s[1] == ':' && s[0] != '\\' && s[0] != '/'
  }

  /** What stands for a server in the names of devices. */
  const DeviceNames: seq<string> := ["?", "?."]

  /** "\\server\share" */
  predicate IsShare(s: string) {
    exists i | 2 < i < |s| - 1 ::
      "\\\\" <= s && s[i] == '\\' && IsName(s[2..i]) && s[2..i] !in DeviceNames && IsName(s[i + 1..])
  }

  // ------------------------------------------------------------ components of a joined path

  lemma {:induction false} JoinFront(first: string, rest: seq<string>, sep: char)
    requires rest != []
    ensures Join([first] + rest, sep) == first + [sep] + Join(rest, sep)
    decreases |rest|
  {
    var all := [first] + rest;
    assert all[..|all| - 1] == [first] + rest[..|rest| - 1];
    if |rest| > 1 {
      JoinFront(first, rest[..|rest| - 1], sep);
    }
  }

  lemma {:induction false} JoinAppend(a: seq<string>, b: seq<string>, sep: char)
    requires a != [] && b != []
    ensures Join(a + b, sep) == Join(a, sep) + [sep] + Join(b, sep)
    decreases |a|
  {
    if |a| == 1 {
      JoinFront(a[0], b, sep);
      assert a == [a[0]];
    } else {
      assert a + b == [a[0]] + (a[1..] + b) && a == [a[0]] + a[1..];
      JoinAppend(a[1..], b, sep);
      JoinFront(a[0], a[1..] + b, sep);
      JoinFront(a[0], a[1..], sep);
    }
  }

  lemma LastIndexIs(s: string, c: char, i: nat)
    requires i < |s| && s[i] == c && forall k | i < k < |s| :: s[k] != c
    ensures LastIndex(s, c) == i
  {
  }

  lemma NoSeparator(n: string, style: Style)
    requires IsName(n)
    ensures forall k | 0 <= k < |n| :: n[k] != Sep(style)
  {
  }

  lemma ComponentsMore(head: string, last: string, sep: char)
    requires sep !in last
    ensures Components(head + [sep] + last, sep) == Components(head, sep) + Kept(last)
  {
    var s := head + [sep] + last;
    LastIndexIs(s, sep, |head|);
    assert s[..|head|] == head && s[|head| + 1..] == last;
  }

  lemma ComponentsOfName(n: string, style: Style)
    requires IsName(n)
    ensures Components(n, Sep(style)) == [n]
  {
    NoSeparator(n, style);
    assert LastIndex(n, Sep(style)) == -1;
  }

  /** Splitting undoes joining. */
  lemma {:induction false} ComponentsOfJoin(names: seq<string>, style: Style)
    requires AreNames(names) && names != []
    ensures Components(Join(names, Sep(style)), Sep(style)) == names
    decreases |names|
  {
    hide Components, LastIndex;
    var init, last := names[..|names| - 1], names[|names| - 1];
    assert IsName(last);
    assert names == init + [last];
    if init == [] {
      ComponentsOfName(last, style);
    } else {
      ComponentsOfJoin(init, style);
      ComponentsMore(Join(init, Sep(style)), last, Sep(style));
    }
  }

  lemma {:induction false} JoinStart(names: seq<string>, sep: char)
    requires AreNames(names) && names != []
    ensures Join(names, sep) != "" && Join(names, sep)[0] != '/' && Join(names, sep)[0] != '\\'
    decreases |names|
  {
    assert IsName(names[0]);
    if |names| > 1 { JoinStart(names[..|names| - 1], sep); }
  }

  /** Changing the separators of a joined path joins the same names differently. */
  lemma {:induction false} ReplaceInJoin(names: seq<string>, from: Style, to: Style)
    requires AreNames(names)
    ensures Replace(Join(names, Sep(from)), Sep(if to.Posix? then Windows else Posix), Sep(to)) == Join(names, Sep(to))
    decreases |names|
  {
    var other := Sep(if to.Posix? then Windows else Posix);
    if names != [] {
      var init, last := names[..|names| - 1], names[|names| - 1];
      assert IsName(last);
      assert Replace(last, other, Sep(to)) == last;
      if init != [] {
        ReplaceInJoin(init, from, to);
        ReplaceConcat(Join(init, Sep(from)) + [Sep(from)], last, other, Sep(to));
        ReplaceConcat(Join(init, Sep(from)), [Sep(from)], other, Sep(to));
      }
    }
  }

  lemma ReplaceConcat(a: string, b: string, from: char, to: char)
    ensures Replace(a + b, from, to) == Replace(a, from, to) + Replace(b, from, to)
  {
  }

  // ------------------------------------------------------------ normal places

  lemma RootOf(root: string, rest: string)
    requires root in ["", "/", "//"] && rest != "" && rest[0] != '/'
    ensures PosixRoot(root + rest) == root
  {
    var s := root + rest;
    assert s[|root|] == rest[0];
    assert s[..|root|] == root;
    if root == "//" { assert s[..2] == "//"; }
  }

  lemma JoinedIsNormal(root: string, names: seq<string>)
    requires root in ["", "/", "//"] && AreNames(names) && names != []
    ensures PosixNormal(root + Join(names, '/')) == root + Join(names, '/')
  {
    hide Join, Components;
    JoinStart(names, '/');
    var j := Join(names, '/');
    RootOf(root, j);
    assert (root + j)[|root|..] == j;
    ComponentsOfJoin(names, Posix);
  }

  lemma WindowsPlaceIsNormal(p: Place)
    requires p.Valid() && p.style.Windows? && p.names != []
    ensures WindowsNormal(p.Base()) == p.Base()
  {
    hide Join, Components, ShareEnd;
    var s := p.Base();
    var j := Join(p.names, '\\');
    JoinStart(p.names, '\\');
    ComponentsOfJoin(p.names, Windows);
    NoForwardSlash(p);
    if IsDrive(p.root) {
      assert s[..3] == p.root + "\\" && s[3..] == j;
      assert s[0] == p.root[0] && s[1] == ':';
    } else {
      ShareAnchor(p.root, "\\" + j);
      assert s == p.root + ("\\" + j);
      assert s[..|p.root|] == p.root && s[|p.root| + 1..] == j;
    }
  }

  lemma FirstIndexIs(s: string, c: char, k: nat, i: nat)
    requires k <= i < |s| && s[i] == c && forall j | k <= j < i :: s[j] != c
    ensures FirstIndex(s, c, k) == i
  {
  }

  /** The share ends where it should, whatever follows. */
  lemma ShareAnchor(share: string, tail: string)
    requires IsShare(share) && "\\" <= tail
    ensures "\\\\" <= share + tail && ShareEnd(share + tail) == |share|
  {
    var s := share + tail;
    var i :| 2 < i < |share| - 1 && "\\\\" <= share && share[i] == '\\' && IsName(share[2..i]) && share[2..i] !in DeviceNames && IsName(share[i + 1..]);
    forall j | 2 <= j < i ensures s[j] != '\\' { assert s[j] == share[2..i][j - 2]; }
    forall j | i + 1 <= j < |share| ensures s[j] != '\\' { assert s[j] == share[i + 1..][j - (i + 1)]; }
    assert s[2] == share[2..i][0];
    assert i == 3 ==> share[2..i] == [share[2]];
    assert |s| >= 8 ==> (s[3] == Lower(s[..8])[3] || Lower(s[..8])[3] != '\\');
    assert |s| >= 8 ==> (s[2] == Lower(s[..8])[2] || Lower(s[..8])[2] != '?');
    FirstIndexIs(s, '\\', 2, i);
    FirstIndexIs(s, '\\', i + 1, |share|);
  }

  lemma NoForwardSlash(p: Place)
    requires p.Valid() && p.style.Windows?
    ensures Replace(p.Base(), '/', '\\') == p.Base()
  {
    hide IsWindowsStyle;
    assert '/' !in p.root by {
      if IsShare(p.root) { ShareHasNoSlash(p.root); }
    }
    ReplaceInJoin(p.names, Windows, Windows);
    if p.names != [] {
      ReplaceConcat(p.root + "\\", Join(p.names, '\\'), '/', '\\');
      assert Replace(p.root + "\\", '/', '\\') == p.root + "\\";
    }
  }

  lemma ShareHasNoSlash(share: string)
    requires IsShare(share)
    ensures '/' !in share
  {
    var i :| 2 < i < |share| - 1 && "\\\\" <= share && share[i] == '\\' && IsName(share[2..i]) && share[2..i] !in DeviceNames && IsName(share[i + 1..]);
    assert share == "\\\\" + share[2..i] + "\\" + share[i + 1..];
  }

  // ------------------------------------------------------------ rewriting

  /** A place spelled out, followed by names below it. */
  lemma BaseBelow(p: Place, more: seq<string>)
    requires p.Valid() && AreNames(more) && more != []
    ensures p.Below(more).Base() == p.Base() + [Sep(p.style)] + Join(more, Sep(p.style))
  {
    hide IsName, IsWindowsStyle, IsDrive, IsShare, Join;
    if p.names != [] {
      JoinAppend(p.names, more, Sep(p.style));
    } else {
      assert p.names + more == more;
    }
  }

  lemma StyleOfBase(p: Place)
    requires p.Valid()
    ensures IsWindowsStyle(p.Base()) <==> p.style.Windows?
  {
    hide Join;
    if IsShare(p.root) && p.style.Windows? { assert "\\\\" <= p.root; assert p.Base()[..2] == p.root[..2]; }
  }

  /** What a path below `source` becomes below `target`: the same names there. Only where
      nothing is left but a drive or the POSIX root does it lose its root, unless the path had
      one to give; what is left of the POSIX root then is ".". */
  function Image(source: Place, target: Place, names: seq<string>): string {
    if !LosesRoot(source, target, names) then target.Below(names).Text()
    else if target.IsEverything() then "."
    else target.root
  }

  predicate LosesRoot(source: Place, target: Place, names: seq<string>) {
    target.Below(names).IsBare() && (target.style.Posix? || IsDrive(target.root)) && !source.Below(names).IsBare()
  }

  /** Of a mapping from the POSIX root nothing is left but the empty string, and it is
      passed over. */
  lemma NothingFromEverything(path: string, m: Mapping)
    ensures Trim(m.source) == "" ==> MapPath(path, [m]) == None
  {
    hide Trim, Rewrite;
  }

  /** What a mapping makes of any path below its source, in the target's style. */
  lemma RewriteMovesNames(m: Mapping, source: Place, target: Place, names: seq<string>)
    requires source.Valid() && target.Valid() && AreNames(names)
    requires Trim(m.source) == source.Base() && Trim(m.target) == target.Base()
    ensures MapPath(source.Below(names).Text(), [m]) == if source.IsEverything() then None else Some(Image(source, target, names))
  {
    hide Join, PosixNormal, WindowsNormal, IsWindowsStyle, Trim, Place.Base, Place.Valid, IsShare;
    BaseIsEmptyIff(source);
    if source.IsEverything() {
      NothingFromEverything(source.Below(names).Text(), m);
    } else {
      var path := source.Below(names).Text();
      var rest := PathTail(source, names);
      StyleOfBase(target);
      assert path[|source.Base()|..] == rest;
      if names == [] {
        assert target.names + names == target.names && source.names + names == source.names;
        EndIsNormal(target, rest);
      } else {
        BelowIsNormal(target, names);
        TailInOtherStyle(source.style, target, names);
      }
      assert Applies(m, path);
      assert Choice(path, [m]) == 0;
    }
  }

  lemma BelowIsNormal(p: Place, more: seq<string>)
    requires p.Valid() && AreNames(more) && more != []
    ensures
      var s := p.Below(more).Text();
      if p.style.Posix? then PosixNormal(s) == s else WindowsNormal(s) == s
  {
    hide Join, PosixNormal, WindowsNormal, IsWindowsStyle, IsShare;
    assert forall n | n in p.names + more :: n in p.names || n in more;
    assert p.names + more != [] && p.root + "" == p.root;
    if p.style.Posix? { JoinedIsNormal(p.root, p.names + more); } else { WindowsPlaceIsNormal(p.Below(more)); }
  }

  /** The target itself, with or without a separator behind it. */
  lemma EndIsNormal(p: Place, rest: string)
    requires p.Valid() && rest in ["", "\\"]
    ensures p.style.Posix? ==>
      PosixNormal(p.Base() + Replace(rest, '\\', '/')) == if p.IsBare() && rest == "" then "." else p.Text()
    ensures p.style.Windows? ==>
      WindowsNormal(p.Base() + Replace(rest, '/', '\\')) == if p.IsBare() && IsDrive(p.root) && rest == "" then p.root else p.Text()
  {
    hide Join, PosixNormal, WindowsNormal, IsWindowsStyle, Place.Base, Place.Valid, IsShare;
    assert Replace("\\", '\\', '/') == "/" && Replace("\\", '/', '\\') == "\\";
    assert Replace("", '\\', '/') == "" && Replace("", '/', '\\') == "";
    assert p.Base() + "" == p.Base();
    if p.IsEverything() {
      EverythingIsNormal(p);
    } else if p.style.Posix? {
      PosixPlaceIsNormal(p);
      TrailingSlashGoes(p);
    } else if !p.IsBare() {
      WindowsPlaceIsNormal(p);
      TrailingBackslashGoes(p);
    } else {
      BareIs(p);
      if IsDrive(p.root) { DriveIsNormal(p.root); } else { ShareIsNormal(p.root); }
    }
  }

  lemma EverythingIsNormal(p: Place)
    requires p.IsEverything()
    ensures p.Base() == "" && p.Text() == "/" && PosixNormal("") == "." && PosixNormal("/") == "/"
  {
    assert Components("", '/') == [];
    assert "/" + Join([], '/') == "/";
  }

  lemma PosixPlaceIsNormal(p: Place)
    requires p.Valid() && p.style.Posix? && !p.IsBare()
    ensures PosixNormal(p.Base()) == p.Base() && p.Text() == p.Base()
  {
    hide PosixNormal, Join, IsWindowsStyle;
    JoinedIsNormal(p.root, p.names);
    assert p.root + "" == p.root;
  }

  lemma BareIs(p: Place)
    requires p.Valid() && p.style.Windows? && p.IsBare()
    ensures p.Base() == p.root && p.Text() == p.root + "\\" && (IsDrive(p.root) || IsShare(p.root))
  {
  }

  lemma TrailingBackslashGoes(p: Place)
    requires p.Valid() && p.style.Windows? && p.names != []
    ensures WindowsNormal(p.Base() + "\\") == p.Base()
  {
    hide Join, Components, ShareEnd;
    var s := p.Base() + "\\";
    var j := Join(p.names, '\\');
    JoinStart(p.names, '\\');
    ComponentsOfJoin(p.names, Windows);
    ComponentsMore(j, "", '\\');
    assert j + ['\\'] + "" == j + "\\";
    assert p.names + [] == p.names;
    NoForwardSlash(p);
    ReplaceConcat(p.Base(), "\\", '/', '\\');
    assert Replace("\\", '/', '\\') == "\\";
    if IsDrive(p.root) {
      assert s[..3] == p.root + "\\" && s[3..] == j + "\\";
      assert s[0] == p.root[0] && s[1] == ':';
    } else {
      ShareAnchor(p.root, "\\" + j + "\\");
      assert s == p.root + ("\\" + j + "\\");
      assert s[..|p.root|] == p.root && s[|p.root| + 1..] == j + "\\";
    }
  }

  /** A share by itself is normal with its root. */
  lemma ShareIsNormal(share: string)
    requires IsShare(share)
    ensures WindowsNormal(share) == WindowsNormal(share + "\\") == share + "\\"
  {
    hide Components, ShareEnd, IsShare;
    ShareAnchor(share, "\\");
    ShareHasNoSlash(share);
    assert Replace(share, '/', '\\') == share;
    assert Replace(share + "\\", '/', '\\') == share + "\\";
    var s := share + "\\";
    assert s[..|share|] == share && s[|share| + 1..] == "";
    ShareNamesItsRoot(share);
    NoComponents();
    assert share + "\\" + "" == share + "\\";
  }

  lemma NoComponents()
    ensures Components("", '\\') == [] && Join([], '\\') == ""
  {
  }

  lemma ShareNamesItsRoot(share: string)
    requires IsShare(share)
    ensures "\\\\" <= share && ShareEnd(share) == |share| && ServerNamesARoot(share)
  {
    var i :| 2 < i < |share| - 1 && "\\\\" <= share && share[i] == '\\' && IsName(share[2..i]) && share[2..i] !in DeviceNames && IsName(share[i + 1..]);
    forall j | 2 <= j < i ensures share[j] != '\\' { assert share[j] == share[2..i][j - 2]; }
    forall j | i + 1 <= j < |share| ensures share[j] != '\\' { assert share[j] == share[i + 1..][j - (i + 1)]; }
    assert share[2] == share[2..i][0];
    assert i == 3 ==> share[2..i] == [share[2]];
    assert "?" in DeviceNames && "?." in DeviceNames by { assert DeviceNames[0] == "?" && DeviceNames[1] == "?."; }
    assert |share| >= 8 ==> (share[3] == Lower(share[..8])[3] || Lower(share[..8])[3] != '\\');
    assert |share| >= 8 ==> (share[2] == Lower(share[..8])[2] || Lower(share[..8])[2] != '?');
    FirstIndexIs(share, '\\', 2, i);
    assert FirstIndex(share, '\\', i + 1) == -1;
    assert share[|share| - 1] == share[i + 1..][|share| - i - 2];
  }

  lemma BaseIsEmptyIff(p: Place)
    requires p.Valid()
    ensures p.Base() == "" <==> p.IsEverything()
  {
    if p.style.Posix? && !p.IsBare() { JoinStart(p.names, '/'); }
  }

  /** What follows the source in a path below it. */
  lemma PathTail(source: Place, names: seq<string>) returns (rest: string)
    requires source.Valid() && AreNames(names)
    ensures names != [] ==> rest == [Sep(source.style)] + Join(names, Sep(source.style))
    ensures names == [] ==> rest == if source.IsBare() then [Sep(source.style)] else ""
    ensures source.Below(names).Text() == source.Base() + rest
    ensures IsUnder(source.Base(), source.Below(names).Text())
  {
    hide Join, IsUnder, Place.Base, Place.Valid, AreNames;
    if names == [] {
      rest := if source.IsBare() then [Sep(source.style)] else "";
      assert source.names + names == source.names && source.Base() + "" == source.Base();
    } else {
      var tail := Join(names, Sep(source.style));
      rest := [Sep(source.style)] + tail;
      BaseBelow(source, names);
      assert source.Base() + rest == source.Base() + [Sep(source.style)] + tail;
      assert source.names + names != [];
    }
    Continues(source.Base(), rest, source.style);
  }

  lemma Continues(base: string, rest: string, style: Style)
    requires rest == "" || rest[0] == Sep(style)
    ensures IsUnder(base, base + rest)
  {
    if rest == "" {
      assert base + rest == base;
    } else {
      assert (base + rest)[..|base| + 1] == base + [Sep(style)];
      assert "/" == ['/'] && "\\" == ['\\'];
    }
  }

  lemma TailInOtherStyle(from: Style, target: Place, names: seq<string>)
    requires target.Valid() && AreNames(names) && names != []
    ensures
      var rest := [Sep(from)] + Join(names, Sep(from));
      var other := Sep(if target.style.Posix? then Windows else Posix);
      target.Base() + Replace(rest, other, Sep(target.style)) == target.Below(names).Text()
  {
    hide Join, Place.Base, Place.Valid, AreNames, Replace;
    var other := Sep(if target.style.Posix? then Windows else Posix);
    ReplaceInJoin(names, from, target.style);
    ReplaceConcat([Sep(from)], Join(names, Sep(from)), other, Sep(target.style));
    BaseBelow(target, names);
    ReplaceSep(from, target.style);
    var tail := Join(names, Sep(target.style));
    assert target.Base() + ([Sep(target.style)] + tail) == target.Base() + [Sep(target.style)] + tail;
    assert target.names + names != [];
  }

  lemma ReplaceSep(from: Style, to: Style)
    ensures Replace([Sep(from)], Sep(if to.Posix? then Windows else Posix), Sep(to)) == [Sep(to)]
  {
  }

  /** Rewriting with a mapping and then with its inverse, across Windows and POSIX styles.
      A mapping from the POSIX root is passed over, so there is a way there only if the source
      is more than that, and a way back only if the target is. Where there are both, they
      give the path back, for every path but one: the root of a drive comes back without its
      root, unless it had been sent to the root of a drive or a share. */
  lemma RoundTrip(m: Mapping, source: Place, target: Place, names: seq<string>)
    requires source.Valid() && target.Valid() && AreNames(names)
    requires Trim(m.source) == source.Base() && Trim(m.target) == target.Base()
    ensures
      var path := source.Below(names).Text();
      var there := MapPath(path, [m]);
      && (there.Some? <==> Trim(m.source) != "")
      && (there.Some? ==>
            var back := MapPath(there.value, [Mapping(m.target, m.source)]);
            && (back.Some? <==> Trim(m.target) != "")
            && (back == Some(path) <==> Trim(m.target) != "" && !LosesRoot(target, source, names))
            && (Trim(m.target) != "" && LosesRoot(target, source, names) ==> back == Some(source.root)))
  {
    hide Place.Valid, Join, MapPath, Trim, Rewrite, IsShare;
    RewriteMovesNames(m, source, target, names);
    BaseIsEmptyIff(source);
    BaseIsEmptyIff(target);
    if !source.IsEverything() {
      var there := Image(source, target, names);
      if target.IsEverything() {
        NothingFromEverything(there, Mapping(m.target, m.source));
      } else if LosesRoot(source, target, names) {
        DriveComesBack(Mapping(m.target, m.source), target, source);
        assert source.names + names == source.names;
      } else {
        RewriteMovesNames(Mapping(m.target, m.source), target, source, names);
        if LosesRoot(target, source, names) { LostIsLess(source, target, names); }
      }
    }
  }

  lemma LostIsLess(source: Place, target: Place, names: seq<string>)
    requires source.Valid() && target.Valid() && !source.IsEverything() && LosesRoot(target, source, names)
    ensures Image(target, source, names) == source.root && source.Below(names).Text() == source.root + "\\"
  {
    assert source.names + names == [];
  }

  /** A drive without its root is still the place the way back starts from. */
  lemma DriveComesBack(m: Mapping, drive: Place, to: Place)
    requires drive.Valid() && drive.style.Windows? && drive.IsBare() && to.Valid() && !to.IsBare()
    requires Trim(m.source) == drive.Base() && Trim(m.target) == to.Base()
    ensures MapPath(drive.root, [m]) == Some(to.Text())
  {
    hide Join, PosixNormal, WindowsNormal, IsWindowsStyle, Trim, IsDrive, IsShare, Place.Valid;
    var path := drive.root;
    BaseIsEmptyIff(drive);
    StyleOfBase(to);
    EndIsNormal(to, "");
    assert path[|drive.Base()|..] == "";
    assert Applies(m, path);
    assert Choice(path, [m]) == 0;
  }

  /** A drive mapped to a POSIX directory is where the round trip ends; mapped to the POSIX
      root it has no way back. */
  lemma BareDriveIsLost(drive: string, target: Place)
    requires IsDrive(drive) && target.Valid() && target.style.Posix?
    ensures
      var m := Mapping(drive + "\\", target.Text());
      && MapPath(drive + "\\", [m]) == Some(target.Text())
      && MapPath(target.Text(), [Mapping(m.target, m.source)]) == if target.IsEverything() then None else Some(drive)
  {
    hide Join, MapPath, Place.Base, Trim, Rewrite, IsShare;
    TrimmedDrive(drive);
    TrimmedPlace(target);
    var source := Place(Windows, drive, []);
    BareIs(source);
    BaseIsEmptyIff(target);
    assert target.names + [] == target.names && source.names + [] == [];
    RoundTrip(Mapping(drive + "\\", target.Text()), source, target, []);
    RewriteMovesNames(Mapping(drive + "\\", target.Text()), source, target, []);
  }

  /** A library below the POSIX root cannot be brought back: the mapping works one way only,
      and of the folder itself nothing but "." is left. */
  lemma EverythingIsOneWay()
    ensures MapPath("/a/x", [Mapping("/a", "/")]) == Some("/x")
    ensures MapPath("/x", [Mapping("/", "/a")]) == None
    ensures MapPath("/a", [Mapping("/a", "/")]) == Some(".")
    ensures MapPath("D:\\x", [Mapping("D:\\", "/")]) == Some("/x")
  {
    hide MapPath, Trim, Rewrite, Place.Base, Place.Valid, IsShare;
    var a, root, drive := Place(Posix, "/", ["a"]), Place(Posix, "/", []), Place(Windows, "D:", []);
    SpelledOut();
    TrimmedDrive("D:");
    assert "D:" + "\\" == "D:\\";
    TrimmedPlace(a);
    TrimmedPlace(root);
    BareIs(drive);
    RewriteMovesNames(Mapping("/a", "/"), a, root, ["x"]);
    RewriteMovesNames(Mapping("/a", "/"), a, root, []);
    RewriteMovesNames(Mapping("D:\\", "/"), drive, root, ["x"]);
    NothingFromEverything("/x", Mapping("/", "/a"));
  }

  lemma SpelledOut()
    ensures
      var a, root, drive := Place(Posix, "/", ["a"]), Place(Posix, "/", []), Place(Windows, "D:", []);
      && a.Valid() && root.Valid() && drive.Valid()
      && a.Text() == "/a" && root.Text() == "/" && root.Base() == ""
      && a.Below(["x"]).Text() == "/a/x" && root.Below(["x"]).Text() == "/x" && drive.Below(["x"]).Text() == "D:\\x"
      && a.Below([]) == a && root.Below([]) == root
  {
    hide Join, IsWindowsStyle;
    JoinOne("a", '/');
    JoinOne("x", '/');
    JoinOne("x", '\\');
    JoinTwo("a", "x", '/');
    NotWindows();
    assert ["a"] + ["x"] == ["a", "x"] && [] + ["x"] == ["x"] && ["a"] + [] == ["a"];
    assert "/" + "" + "a" == "/a" && "/" + "" + "a/x" == "/a/x" && "/" + "" + "x" == "/x" && "D:" + "\\" + "x" == "D:\\x";
  }

  lemma JoinOne(n: string, sep: char)
    ensures Join([n], sep) == n
  {
  }

  lemma JoinTwo(n: string, m: string, sep: char)
    ensures Join([n, m], sep) == n + [sep] + m
  {
    assert [n, m][..1] == [n];
  }

  lemma NotWindows()
    ensures !IsWindowsStyle("/a") && !IsWindowsStyle("")
  {
    assert "/a"[0] != '\\' && "/a"[1] != ':';
  }

  lemma DriveIsNormal(drive: string)
    requires IsDrive(drive)
    ensures WindowsNormal(drive) == drive && WindowsNormal(drive + "\\") == drive + "\\"
  {
    var s := drive + "\\";
    assert Replace(s, '/', '\\') == s && s[..3] == s && s[3..] == "" && s[0] == drive[0] && s[1] == ':';
    assert s + "" == s;
    assert Replace(drive, '/', '\\') == drive && drive[2..] == "" && drive[..2] == drive;
    assert !("\\" <= drive);
    assert Components("", '\\') == [];
    assert drive + "" == drive;
  }

  lemma TrimmedDrive(drive: string)
    requires IsDrive(drive)
    ensures Trim(drive + "\\") == drive && Trim(drive) == drive
  {
    var s := drive + "\\";
    assert s[..|s| - 1] == drive && s[|s| - 1] == '\\';
    assert '\\' == Separators[1] && '\\' in Separators;
    assert Trim(drive) == drive;
  }

  lemma {:induction false} JoinEnd(names: seq<string>, sep: char)
    requires AreNames(names) && names != []
    ensures var j := Join(names, sep); j != "" && j[|j| - 1] !in Separators
  {
    assert IsName(names[|names| - 1]);
  }

  lemma TrimmedPlace(p: Place)
    requires p.Valid() && p.style.Posix?
    ensures Trim(p.Text()) == p.Base()
  {
    hide Join;
    if p.IsBare() {
      assert '/' == Separators[0] && '/' in Separators;
      assert "/"[..0] == "" && Trim("") == "";
    } else {
      JoinEnd(p.names, '/');
      var j := Join(p.names, '/');
      assert p.Base()[|p.Base()| - 1] == j[|j| - 1];
    }
  }

  lemma TrailingSlashGoes(p: Place)
    requires p.Valid() && p.style.Posix? && !p.IsBare()
    ensures PosixNormal(p.Base() + "/") == p.Base()
  {
    hide Join, Components, PosixRoot;
    JoinStart(p.names, '/');
    var j := Join(p.names, '/');
    RootOf(p.root, j + "/");
    assert p.Base() + "/" == p.root + (j + "/");
    assert (p.Base() + "/")[|p.root|..] == j + "/";
    ComponentsMore(j, "", '/');
    assert j + ['/'] + "" == j + "/";
    ComponentsOfJoin(p.names, Posix);
    assert p.names + [] == p.names;
  }
}
