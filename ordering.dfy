/**
 * The Java library orderings the core relies on: `Double.compare` on non-NaN
 * values and `String.compareToIgnoreCase` / `equalsIgnoreCase`, with case
 * folding restricted to the ASCII letters.
 */
module Ordering {

  function Sign(x: int): int
  {
    if x < 0 then -1 else if x > 0 then 1 else 0
  }

  /** `Double.compare(a, b)`: negative, zero or positive as `a` is below, equal to or above `b`. */
  function DoubleCompare(a: real, b: real): (r: int)
    ensures r < 0 <==> a < b
    ensures r == 0 <==> a == b
    ensures r > 0 <==> a > b
  {
    if a < b then -1 else if a > b then 1 else 0
  }

  /** `Character.toLowerCase(Character.toUpperCase(c))` for the ASCII letters; other characters are kept. */
  function FoldCase(c: char): (r: char)
    ensures !('A' <= r <= 'Z')
    ensures 'A' <= c <= 'Z' ==> 'a' <= r <= 'z' && r as int - 'a' as int == c as int - 'A' as int
    ensures !('A' <= c <= 'Z') ==> r == c
  {
    if 'A' <= c <= 'Z' then (c as int + 32) as char else c
  }

  /** `s` with every character case-folded. */
  function Folded(s: string): (r: seq<char>)
    ensures |r| == |s| && forall i :: 0 <= i < |s| ==> r[i] == FoldCase(s[i])
  {
    seq(|s|, i requires 0 <= i < |s| => FoldCase(s[i]))
  }

  lemma FoldedCons(s: string)
    requires s != []
    ensures Folded(s) == [FoldCase(s[0])] + Folded(s[1..])
  {
  }

  lemma FoldedEqual(a: string, b: string)
    ensures Folded(a) == Folded(b) <==> |a| == |b| && forall i :: 0 <= i < |a| ==> FoldCase(a[i]) == FoldCase(b[i])
  {
    if |a| == |b| && forall i :: 0 <= i < |a| ==> FoldCase(a[i]) == FoldCase(b[i]) {
      assert forall i :: 0 <= i < |a| ==> Folded(a)[i] == Folded(b)[i];
    }
  }

  /** `a.equalsIgnoreCase(b)`: same length, and the characters agree after case folding. */
  function EqualsIgnoreCase(a: string, b: string): (eq: bool)
    ensures eq <==> Folded(a) == Folded(b)
    ensures a == b ==> eq
  {
    FoldedEqual(a, b);
    |a| == |b| && forall i :: 0 <= i < |a| ==> FoldCase(a[i]) == FoldCase(b[i])
  }

  /**
   * `a.compareToIgnoreCase(b)`: at the first position where the folded
   * characters differ, their difference; if one string is a prefix of the
   * other (after folding), the difference of the lengths.
   */
  function CompareIgnoreCase(a: string, b: string): (r: int)
    ensures Folded(a) == Folded(b) ==> r == 0
    ensures r == 0 ==> |a| == |b|
  {
    if a == [] || b == [] then |a| - |b|
    else if FoldCase(a[0]) != FoldCase(b[0]) then FoldCase(a[0]) as int - FoldCase(b[0]) as int
    else
      FoldedCons(a);
      FoldedCons(b);
      CompareIgnoreCase(a[1..], b[1..])
  }

  lemma {:induction false} CompareIgnoreCaseAntisymmetric(a: string, b: string)
    ensures CompareIgnoreCase(a, b) == -CompareIgnoreCase(b, a)
  {
    if a != [] && b != [] && FoldCase(a[0]) == FoldCase(b[0]) {
      CompareIgnoreCaseAntisymmetric(a[1..], b[1..]);
    }
  }

  lemma {:induction false} CompareIgnoreCaseTransitive(a: string, b: string, c: string)
    requires CompareIgnoreCase(a, b) <= 0 && CompareIgnoreCase(b, c) <= 0
    ensures CompareIgnoreCase(a, c) <= 0
  {
    if a != [] && b != [] && c != [] {
      if FoldCase(a[0]) == FoldCase(b[0]) == FoldCase(c[0]) {
        CompareIgnoreCaseTransitive(a[1..], b[1..], c[1..]);
      }
    }
  }

  /** The comparison is zero exactly when `equalsIgnoreCase` holds. */
  lemma {:induction false} CompareIgnoreCaseZeroIff(a: string, b: string)
    ensures CompareIgnoreCase(a, b) == 0 <==> EqualsIgnoreCase(a, b)
  {
    if a != [] && b != [] && FoldCase(a[0]) == FoldCase(b[0]) {
      CompareIgnoreCaseZeroIff(a[1..], b[1..]);
      assert EqualsIgnoreCase(a, b) <==> EqualsIgnoreCase(a[1..], b[1..]) by {
        if EqualsIgnoreCase(a[1..], b[1..]) {
          forall i | 0 <= i < |a| ensures FoldCase(a[i]) == FoldCase(b[i]) {
            if i > 0 { assert a[i] == a[1..][i - 1] && b[i] == b[1..][i - 1]; }
          }
        }
        if EqualsIgnoreCase(a, b) {
          forall i | 0 <= i < |a| - 1 ensures FoldCase(a[1..][i]) == FoldCase(b[1..][i]) {
            assert a[1..][i] == a[i + 1];
          }
        }
      }
    } else if a != [] && b != [] {
      assert !EqualsIgnoreCase(a, b) by { assert FoldCase(a[0]) != FoldCase(b[0]); }
    }
  }

  /**
   * The order is ascending (A to Z) on the folded strings: if the folded
   * strings agree before position `k` and `a`'s folded character at `k` is
   * smaller, or `a` ends at `k` while `b` goes on, `a` comes first.
   */
  lemma {:induction false} CompareIgnoreCaseAscending(a: string, b: string, k: nat)
    requires k <= |a| && k < |b|
    requires forall i :: 0 <= i < k ==> FoldCase(a[i]) == FoldCase(b[i])
    requires k == |a| || FoldCase(a[k]) < FoldCase(b[k])
    ensures CompareIgnoreCase(a, b) < 0
  {
    if k > 0 {
      assert FoldCase(a[0]) == FoldCase(b[0]);
      forall i | 0 <= i < k - 1 ensures FoldCase(a[1..][i]) == FoldCase(b[1..][i]) {
        assert a[1..][i] == a[i + 1] && b[1..][i] == b[i + 1];
      }
      CompareIgnoreCaseAscending(a[1..], b[1..], k - 1);
    }
  }
}
