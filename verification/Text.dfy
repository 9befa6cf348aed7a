/** The string operations the application leans on, over ASCII: case folding,
    decimal numbers, and how a file name splits into stem and suffix. */
module Text {

  datatype Option<+T> = None | Some(value: T)

  predicate IsDigit(c: char) {
    '0' <= c <= '9'
  }

  predicate DigitsOnly(s: string) {
    forall i | 0 <= i < |s| :: IsDigit(s[i])
  }

  /** Python's `str.isdigit` on ASCII text. */
  predicate IsNumeral(s: string) {
    s != "" && DigitsOnly(s)
  }

  function LowerChar(c: char): char {
    if 'A' <= c <= 'Z' then (c as int + 32) as char else c
  }

  function Lower(s: string): (r: string)
    ensures |r| == |s|
    ensures forall i | 0 <= i < |s| :: r[i] == LowerChar(s[i])
  {
    seq(|s|, i requires 0 <= i < |s| => LowerChar(s[i]))
  }

  lemma LowerConcat(a: string, b: string)
    ensures Lower(a + b) == Lower(a) + Lower(b)
  {
  }

  lemma LowerIdempotent(s: string)
    ensures Lower(Lower(s)) == Lower(s)
  {
  }

  // ---------------------------------------------------------------- numbers

  function DigitChar(d: nat): (c: char)
    requires d < 10
    ensures IsDigit(c)
  {
    ('0' as int + d) as char
  }

  function DigitValue(c: char): (d: nat)
    requires IsDigit(c)
    ensures d < 10
  {
    c as int - '0' as int
  }

  /** `str(n)` */
  function Decimal(n: nat): (s: string)
    ensures IsNumeral(s)
  {
    if n < 10 then [DigitChar(n)] else Decimal(n / 10) + [DigitChar(n % 10)]
  }

  /** `int(s)` for a string of digits */
  function Value(s: string): nat
    requires DigitsOnly(s)
  {
    if s == "" then 0 else 10 * Value(s[..|s| - 1]) + DigitValue(s[|s| - 1])
  }

  lemma {:induction false} ValueOfDecimal(n: nat)
    ensures Value(Decimal(n)) == n
  {
    if n >= 10 {
      ValueOfDecimal(n / 10);
      assert Decimal(n)[..|Decimal(n)| - 1] == Decimal(n / 10);
    } else {
      assert Decimal(n)[..0] == "";
    }
  }

  lemma DecimalInjective(a: nat, b: nat)
    requires Decimal(a) == Decimal(b)
    ensures a == b
  {
    ValueOfDecimal(a);
    ValueOfDecimal(b);
  }

  lemma {:induction false} LowerOfDigits(s: string)
    requires DigitsOnly(s)
    ensures Lower(s) == s
  {
  }

  lemma {:induction false} DecimalLength(n: nat, k: nat)
    requires 1 <= k
    requires n < Power10(k)
    ensures |Decimal(n)| <= k
  {
    if n >= 10 && k > 1 {
      DecimalLength(n / 10, k - 1);
    }
  }

  function Power10(k: nat): (p: nat)
    ensures p >= 1
  {
    if k == 0 then 1 else 10 * Power10(k - 1)
  }

  lemma {:induction false} ValueBound(s: string)
    requires DigitsOnly(s)
    ensures Value(s) < Power10(|s|)
  {
    if s != "" {
      ValueBound(s[..|s| - 1]);
    }
  }

  // ---------------------------------------------------------------- names

  /** Index of the last '.', or -1. */
  function LastDot(s: string): (i: int)
    ensures -1 <= i < |s|
    ensures 0 <= i ==> s[i] == '.'
    ensures forall k | i < k < |s| :: s[k] != '.'
  {
    if s == "" then -1
    else if s[|s| - 1] == '.' then |s| - 1
    else LastDot(s[..|s| - 1])
  }

  lemma LastDotIs(s: string, i: nat)
    requires i < |s| && s[i] == '.' && forall k | i < k < |s| :: s[k] != '.'
    ensures LastDot(s) == i
  {
  }

  /** `PurePath.suffix` (Python 3.12): a leading or a trailing dot starts no suffix. */
  function Suffix(name: string): string {
    var i := LastDot(name);
    if 0 < i < |name| - 1 then name[i..] else ""
  }

  /** `PurePath.stem` */
  function Stem(name: string): string {
    var i := LastDot(name);
    if 0 < i < |name| - 1 then name[..i] else name
  }

  /** `os.path.splitext(name)[1]`: leading dots belong to the stem. */
  function Extension(name: string): string {
    var i := LastDot(name);
    if 0 <= i && exists k | 0 <= k < i :: name[k] != '.' then name[i..] else ""
  }

  /** `os.path.splitext(name)[0]` */
  function Root(name: string): string {
    name[..|name| - |Extension(name)|]
  }

  /** ".mkv": one dot, in front, and something after it. */
  predicate IsExtension(e: string) {
    |e| >= 2 && e[0] == '.' && forall k | 1 <= k < |e| :: e[k] != '.'
  }

  lemma StemAndSuffix(name: string)
    ensures name == Stem(name) + Suffix(name)
    ensures name != "" ==> Stem(name) != ""
    ensures Suffix(name) == "" || IsExtension(Suffix(name))
  {
  }

  /** A name put together from a non-empty stem and an extension comes apart again. */
  lemma SplitBuilt(stem: string, ext: string)
    requires stem != "" && IsExtension(ext)
    ensures Stem(stem + ext) == stem && Suffix(stem + ext) == ext
    ensures (exists k | 0 <= k < |stem| :: stem[k] != '.') ==> Extension(stem + ext) == ext && Root(stem + ext) == stem
  {
    var name := stem + ext;
    var i := LastDot(name);
    LastDotIs(name, |stem|);
    assert name[i..] == ext && name[..i] == stem;
    if exists k | 0 <= k < |stem| :: stem[k] != '.' {
      var k :| 0 <= k < |stem| && stem[k] != '.';
      assert name[k] != '.';
    }
  }

  lemma LastDotOfLower(s: string)
    ensures LastDot(Lower(s)) == LastDot(s)
  {
    if 0 <= LastDot(s) {
      LastDotIs(Lower(s), LastDot(s));
    }
  }

  /** The suffix does not depend on whether the name is folded before or after. */
  lemma SuffixOfLower(name: string)
    ensures Suffix(Lower(name)) == Lower(Suffix(name))
    ensures Stem(Lower(name)) == Lower(Stem(name))
  {
    LastDotOfLower(name);
    var i := LastDot(name);
    if 0 < i < |name| - 1 {
      assert Lower(name)[i..] == Lower(name[i..]) && Lower(name)[..i] == Lower(name[..i]);
    }
  }

  /** Where the tail after a non-empty stem starts with a dot, the stem has no say in the suffix. */
  lemma SuffixIgnoresStem(a: string, b: string, tail: string)
    requires a != "" && b != "" && tail != "" && tail[0] == '.'
    ensures Suffix(a + tail) == Suffix(b + tail)
  {
    var k := LastDot(tail);
    LastDotIs(a + tail, |a| + k);
    LastDotIs(b + tail, |b| + k);
    assert (a + tail)[|a| + k..] == tail[k..] == (b + tail)[|b| + k..];
  }

  // ---------------------------------------------------------------- joining and slicing

  function Join(parts: seq<string>, sep: char): string {
    if parts == [] then ""
    else if |parts| == 1 then parts[0]
    else Join(parts[..|parts| - 1], sep) + [sep] + parts[|parts| - 1]
  }

  lemma DropInFirst<T>(a: seq<T>, b: seq<T>, k: nat)
    requires k <= |a|
    ensures (a + b)[k..] == a[k..] + b
  {
  }

  lemma DropInSecond<T>(a: seq<T>, b: seq<T>, k: nat)
    requires k <= |b|
    ensures (a + b)[|a| + k..] == b[k..]
  {
  }

  /** Two prefixes of the same string are prefixes of one another. */
  lemma PrefixesCompare<T>(a: seq<T>, b: seq<T>, s: seq<T>)
    requires a <= s && b <= s
    ensures a <= b || b <= a
  {
    if |a| <= |b| {
      assert a == s[..|a|] == b[..|a|];
    } else {
      assert b == s[..|b|] == a[..|b|];
    }
  }
}
