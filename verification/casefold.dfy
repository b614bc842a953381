/** ASCII letter case: the `Character.isUpperCase` test and lower-casing of the
    capitalisation rule, and `String.compareToIgnoreCase`, which orders the
    misspelling list. */
module CaseFold {

  predicate IsUpper(c: char) { 'A' <= c <= 'Z' }

  predicate IsLower(c: char) { 'a' <= c <= 'z' }

  /** The lower-case form of an ASCII letter; every other character is kept. */
  function ToLower(c: char): (r: char)
    ensures !IsUpper(r)
    ensures IsUpper(c) ==> IsLower(r) && r as int == c as int + 32
    ensures !IsUpper(c) ==> r == c
  {
    if IsUpper(c) then (c as int + 32) as char else c
  }

  /** Both characters fold to the same lower-case character. */
  predicate SameIgnoringCase(a: char, b: char) { ToLower(a) == ToLower(b) }

  /** `a.compareToIgnoreCase(b)`: the difference of the first pair of
      characters that differ after folding, else the difference of lengths. */
  function CompareIgnoreCase(a: string, b: string): int
    decreases |a|
  {
    if a == [] || b == [] then |a| - |b|
    else if ToLower(a[0]) != ToLower(b[0]) then ToLower(a[0]) as int - ToLower(b[0]) as int
    else CompareIgnoreCase(a[1..], b[1..])
  }

  /** `a` sorts no later than `b`, case ignored. */
  predicate AtMost(a: string, b: string) { CompareIgnoreCase(a, b) <= 0 }

  /** Swapping the operands negates the comparison. */
  lemma {:induction false} CompareAntisymmetric(a: string, b: string)
    ensures CompareIgnoreCase(a, b) == -CompareIgnoreCase(b, a)
    decreases |a|
  {
    if a != [] && b != [] && ToLower(a[0]) == ToLower(b[0]) {
      CompareAntisymmetric(a[1..], b[1..]);
    }
  }

  /** Every word compares equal to itself. */
  lemma {:induction false} CompareReflexive(a: string)
    ensures CompareIgnoreCase(a, a) == 0
    decreases |a|
  {
    if a != [] {
      CompareReflexive(a[1..]);
    }
  }

  /** Any two words are ordered one way or the other. */
  lemma CompareTotal(a: string, b: string)
    ensures AtMost(a, b) || AtMost(b, a)
  {
    CompareAntisymmetric(a, b);
  }

  /** "No later than" is transitive. */
  lemma {:induction false} CompareTransitive(a: string, b: string, c: string)
    requires AtMost(a, b) && AtMost(b, c)
    ensures AtMost(a, c)
    decreases |a|
  {
    if a != [] && b != [] && c != [] {
      if ToLower(a[0]) == ToLower(b[0]) && ToLower(b[0]) == ToLower(c[0]) {
        CompareTransitive(a[1..], b[1..], c[1..]);
      }
    }
  }

  /** The comparison ignores case: equal up to folding compares as zero,
      so `cat` and `Cat` are tied. */
  lemma {:induction false} FoldedEqualCompareZero(a: string, b: string)
    requires |a| == |b|
    requires forall i :: 0 <= i < |a| ==> SameIgnoringCase(a[i], b[i])
    ensures CompareIgnoreCase(a, b) == 0
    decreases |a|
  {
    if a != [] {
      FoldedEqualCompareZero(a[1..], b[1..]);
    }
  }
}
