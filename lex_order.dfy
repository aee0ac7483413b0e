/**
 * Python's `<` on `str`: lexicographic order by code point, in which a proper
 * prefix comes before every longer string that extends it. (Dafny's own `<` on
 * sequences means "proper prefix", so the order is written out here.)
 */
module LexOrder {

  /** `a < b` on Python strings. */
  predicate LexLess(a: string, b: string)
    decreases |a|
  {
    if |a| == 0 then |b| > 0
    else if |b| == 0 then false
    else if a[0] != b[0] then a[0] < b[0]
    else LexLess(a[1..], b[1..])
  }

  /**
   * Reference definition of the same order: `k` is the first position at which
   * `a` and `b` differ, it is a position of `b`, and there `a` has either ended
   * or holds the smaller character.
   */
  ghost predicate FirstDifferenceAt(a: string, b: string, k: nat) {
    k <= |a| && k < |b| && a[..k] == b[..k] && (k == |a| || a[k] < b[k])
  }

  /** The recursive comparison agrees with the first-difference definition. */
  lemma {:induction false} LexLessIffFirstDifference(a: string, b: string)
    ensures LexLess(a, b) <==> exists k: nat :: FirstDifferenceAt(a, b, k)
    decreases |a|
  {
    if |a| == 0 {
      if |b| > 0 {
        assert FirstDifferenceAt(a, b, 0);
      }
    } else if |b| == 0 {
    } else if a[0] != b[0] {
      if a[0] < b[0] {
        assert FirstDifferenceAt(a, b, 0);
      } else {
        forall k | 0 < k <= |a| && k < |b|
          ensures a[..k] != b[..k]
        {
          assert a[..k][0] != b[..k][0];
        }
      }
    } else {
      LexLessIffFirstDifference(a[1..], b[1..]);
      if LexLess(a, b) {
        var k': nat :| FirstDifferenceAt(a[1..], b[1..], k');
        assert a[..k' + 1] == [a[0]] + a[1..][..k'];
        assert b[..k' + 1] == [b[0]] + b[1..][..k'];
        assert FirstDifferenceAt(a, b, k' + 1);
      }
      if k: nat :| FirstDifferenceAt(a, b, k) {
        assert k > 0;
        assert a[1..][..k - 1] == a[..k][1..];
        assert b[1..][..k - 1] == b[..k][1..];
        assert FirstDifferenceAt(a[1..], b[1..], k - 1);
      }
    }
  }

  lemma {:induction false} LexLessIrreflexive(a: string)
    ensures !LexLess(a, a)
    decreases |a|
  {
    if |a| > 0 {
      LexLessIrreflexive(a[1..]);
    }
  }

  lemma {:induction false} LexLessAsymmetric(a: string, b: string)
    ensures LexLess(a, b) ==> !LexLess(b, a)
    decreases |a|
  {
    if |a| > 0 && |b| > 0 && a[0] == b[0] {
      LexLessAsymmetric(a[1..], b[1..]);
    }
  }

  lemma {:induction false} LexLessTransitive(a: string, b: string, c: string)
    requires LexLess(a, b) && LexLess(b, c)
    ensures LexLess(a, c)
    decreases |a|
  {
    if |a| > 0 && a[0] == b[0] && b[0] == c[0] {
      LexLessTransitive(a[1..], b[1..], c[1..]);
    }
  }

  /** Any two different strings are comparable. */
  lemma {:induction false} LexLessTotal(a: string, b: string)
    ensures a == b || LexLess(a, b) || LexLess(b, a)
    decreases |a|
  {
    if |a| > 0 && |b| > 0 && a[0] == b[0] {
      LexLessTotal(a[1..], b[1..]);
      if a[1..] == b[1..] {
        assert a == [a[0]] + a[1..] && b == [b[0]] + b[1..];
      }
    }
  }
}
