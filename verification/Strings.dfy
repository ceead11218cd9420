/** Byte order on strings, as Go's `<` compares them. */
module Strings {

  predicate Before(a: string, b: string) {
    b != [] && (a == [] || a[0] < b[0] || (a[0] == b[0] && Before(a[1..], b[1..])))
  }

  lemma {:induction false} BeforeIsTotal(a: string, b: string)
    ensures !(Before(a, b) && Before(b, a))
    ensures a != b <==> Before(a, b) || Before(b, a)
  {
    if a != [] && b != [] {
      BeforeIsTotal(a[1..], b[1..]);
      assert a == [a[0]] + a[1..] && b == [b[0]] + b[1..];
    }
  }

  lemma {:induction false} BeforeIsTransitive(a: string, b: string, c: string)
    requires Before(a, b) && Before(b, c)
    ensures Before(a, c)
  {
    if a != [] && a[0] == b[0] && b[0] == c[0] {
      BeforeIsTransitive(a[1..], b[1..], c[1..]);
    }
  }

  /** The strings agree up to `i`, where the first one ends or is lower. */
  predicate LowerAt(a: string, b: string, i: nat) {
    i <= |a| && i < |b| && a[..i] == b[..i] && (i == |a| || a[i] < b[i])
  }

  /** `Before` is the lexicographic order: the first difference decides. */
  lemma {:induction false} BeforeIff(a: string, b: string)
    ensures Before(a, b) <==> exists i: nat :: LowerAt(a, b, i)
  {
    if a == [] || b == [] || a[0] != b[0] {
      assert Before(a, b) ==> LowerAt(a, b, 0);
    } else {
      BeforeIff(a[1..], b[1..]);
      forall i: nat
        ensures LowerAt(a, b, i + 1) <==> LowerAt(a[1..], b[1..], i)
      {
        if i < |a| && i + 1 < |b| {
          assert a[..i + 1] == [a[0]] + a[1..][..i] && b[..i + 1] == [b[0]] + b[1..][..i];
        }
      }
      forall i: nat | LowerAt(a, b, i)
        ensures exists j: nat :: LowerAt(a[1..], b[1..], j)
      {
        var j: nat := i - 1;
        assert LowerAt(a, b, j + 1);
        assert LowerAt(a[1..], b[1..], j);
      }
      forall i: nat | LowerAt(a[1..], b[1..], i)
        ensures exists j: nat :: LowerAt(a, b, j)
      {
        assert LowerAt(a, b, i + 1);
      }
    }
  }
}
