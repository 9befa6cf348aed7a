/** The " (2)", " (3)", ... spellings both the mover and the rename planner fall back
    to when a name is taken, and the search for the first free one. */
module Numbering {
  import opened Text

  /** How a directory compares names: folded, or letter for letter. */
  function Spell(fold: bool, name: string): string {
    if fold then Lower(name) else name
  }

  /** "stem (n)suffix" */
  function Numbered(stem: string, n: nat, suffix: string): string {
    stem + " (" + Decimal(n) + ")" + suffix
  }

  lemma SpellConcat(fold: bool, a: string, b: string)
    ensures Spell(fold, a + b) == Spell(fold, a) + Spell(fold, b)
  {
    LowerConcat(a, b);
  }

  /** Different counters never spell the same name, not even ignoring case. */
  lemma NumberedInjective(fold: bool, stem: string, a: nat, b: nat, suffix: string)
    requires Spell(fold, Numbered(stem, a, suffix)) == Spell(fold, Numbered(stem, b, suffix))
    ensures a == b
  {
    SpellNumbered(fold, stem, a, suffix);
    SpellNumbered(fold, stem, b, suffix);
    var p, s := Spell(fold, stem + " ("), Spell(fold, ")" + suffix);
    assert (p + Decimal(a) + s)[|p|..|p| + |Decimal(a)|] == Decimal(a);
    assert |Decimal(a)| == |Decimal(b)|;
    assert (p + Decimal(b) + s)[|p|..|p| + |Decimal(b)|] == Decimal(b);
    DecimalInjective(a, b);
  }

  lemma SpellNumbered(fold: bool, stem: string, n: nat, suffix: string)
    ensures Spell(fold, Numbered(stem, n, suffix)) == Spell(fold, stem + " (") + Decimal(n) + Spell(fold, ")" + suffix)
  {
    LowerOfDigits(Decimal(n));
    assert Numbered(stem, n, suffix) == (stem + " (") + Decimal(n) + (")" + suffix);
    SpellConcat(fold, stem + " (" + Decimal(n), ")" + suffix);
    SpellConcat(fold, stem + " (", Decimal(n));
  }

  /** The lowest counter from `n` on whose name is not taken. Each taken name can turn
      away at most one counter, so the search ends within |taken| steps. */
  function LowestFree(taken: set<string>, fold: bool, stem: string, suffix: string, n: nat): (r: nat)
    ensures r >= n
    ensures Spell(fold, Numbered(stem, r, suffix)) !in taken
    ensures forall k | n <= k < r :: Spell(fold, Numbered(stem, k, suffix)) in taken
    ensures r <= n + |taken|
    decreases |taken|
  {
    var name := Spell(fold, Numbered(stem, n, suffix));
    if name !in taken then n
    else
      var r := LowestFree(taken - {name}, fold, stem, suffix, n + 1);
      assert Spell(fold, Numbered(stem, r, suffix)) != name by {
        if Spell(fold, Numbered(stem, r, suffix)) == name { NumberedInjective(fold, stem, r, n, suffix); }
      }
      r
  }

  /** There is only one lowest free counter. */
  lemma LowestFreeUnique(taken: set<string>, fold: bool, stem: string, suffix: string, n: nat, r: nat)
    requires r >= n
    requires Spell(fold, Numbered(stem, r, suffix)) !in taken
    requires forall k | n <= k < r :: Spell(fold, Numbered(stem, k, suffix)) in taken
    ensures r == LowestFree(taken, fold, stem, suffix, n)
  {
    var q := LowestFree(taken, fold, stem, suffix, n);
    assert q >= r && r >= q;
  }

  /** The counting loop itself: it starts at 2, and terminates because the names it has
      met so far are distinct members of a finite set. */
  method CountUp(taken: set<string>, fold: bool, stem: string, suffix: string) returns (counter: nat)
    ensures counter >= 2
    ensures Spell(fold, Numbered(stem, counter, suffix)) !in taken
    ensures forall k | 2 <= k < counter :: Spell(fold, Numbered(stem, k, suffix)) in taken
    ensures counter == LowestFree(taken, fold, stem, suffix, 2)
  {
    counter := 2;
    ghost var left := taken;
    while Spell(fold, Numbered(stem, counter, suffix)) in taken
      invariant counter >= 2
      invariant forall k | 2 <= k < counter :: Spell(fold, Numbered(stem, k, suffix)) in taken
      invariant left <= taken
      invariant forall k | k >= counter :: Spell(fold, Numbered(stem, k, suffix)) in taken ==> Spell(fold, Numbered(stem, k, suffix)) in left
      decreases left
    {
      ghost var name := Spell(fold, Numbered(stem, counter, suffix));
      forall k | k > counter ensures Spell(fold, Numbered(stem, k, suffix)) != name {
        if Spell(fold, Numbered(stem, k, suffix)) == name {
          NumberedInjective(fold, stem, k, counter, suffix);
        }
      }
      left := left - {name};
      counter := counter + 1;
    }
    LowestFreeUnique(taken, fold, stem, suffix, 2, counter);
  }
}
