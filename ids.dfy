/**
 * Identifier order. The database lists device rows by ascending `id`, its
 * primary key; ids are compared character by character on code points.
 */
module Ids {

  /** `a` sorts strictly before `b`. */
  predicate Below(a: string, b: string)
  {
    if a == [] then b != []
    else b != [] && (a[0] < b[0] || (a[0] == b[0] && Below(a[1..], b[1..])))
  }

  lemma {:induction false} BelowIrreflexive(a: string)
    ensures !Below(a, a)
  {
    if a != [] {
      BelowIrreflexive(a[1..]);
    }
  }

  lemma {:induction false} BelowAsymmetric(a: string, b: string)
    requires Below(a, b)
    ensures !Below(b, a)
  {
    if a != [] && b != [] && a[0] == b[0] {
      BelowAsymmetric(a[1..], b[1..]);
    }
  }

  lemma {:induction false} BelowTransitive(a: string, b: string, c: string)
    requires Below(a, b) && Below(b, c)
    ensures Below(a, c)
  {
    if a != [] && a[0] == b[0] && b[0] == c[0] {
      BelowTransitive(a[1..], b[1..], c[1..]);
    }
  }

  lemma {:induction false} BelowTotal(a: string, b: string)
    requires a != b
    ensures Below(a, b) || Below(b, a)
  {
    if a != [] && b != [] && a[0] == b[0] {
      assert a == [a[0]] + a[1..] && b == [b[0]] + b[1..];
      BelowTotal(a[1..], b[1..]);
    }
  }

  /** Strictly ascending ids: a table keyed by id, listed in key order. */
  predicate Ascending(ids: seq<string>)
  {
    forall i, j :: 0 <= i < j < |ids| ==> Below(ids[i], ids[j])
  }

  /** `ys` with every occurrence of `x` removed. */
  function Without(ys: seq<string>, x: string): (r: seq<string>)
    ensures |r| <= |ys| && (x in ys ==> |r| < |ys|)
    ensures forall y :: y in r <==> y in ys && y != x
  {
    if ys == [] then [] else (if ys[0] == x then [] else [ys[0]]) + Without(ys[1..], x)
  }

  /** Pairwise different ids that all occur in `ys` are no more than `ys` has entries. */
  lemma {:induction false} DistinctWithin(xs: seq<string>, ys: seq<string>)
    requires forall i, j :: 0 <= i < j < |xs| ==> xs[i] != xs[j]
    requires forall x :: x in xs ==> x in ys
    ensures |xs| <= |ys|
  {
    if xs != [] {
      var x := xs[|xs| - 1];
      var front := xs[..|xs| - 1];
      forall y | y in front
        ensures y in Without(ys, x)
      {
        var k :| 0 <= k < |front| && front[k] == y;
        assert xs[k] == y;
      }
      DistinctWithin(front, Without(ys, x));
    }
  }
}
