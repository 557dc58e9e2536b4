/** Facts about finite sets and sequences that the models share: sizes of subsets, and sequences without
    duplicates. */
module Collections {

  function Upto(n: nat): (s: set<nat>)
    ensures |s| == n && forall t :: t in s <==> 0 <= t < n
  {
    if n == 0 then {} else Upto(n - 1) + {n - 1}
  }

  lemma {:induction false} SubsetSize<T>(a: set<T>, b: set<T>)
    requires a <= b
    ensures |a| <= |b|
  {
    if x :| x in a {
      SubsetSize(a - {x}, b - {x});
    }
  }

  predicate Distinct<T(==)>(s: seq<T>) {
    forall i, j :: 0 <= i < j < |s| ==> s[i] != s[j]
  }

  function Elements<T>(s: seq<T>): set<T> {
    set i | 0 <= i < |s| :: s[i]
  }

  lemma {:induction false} DistinctSize<T>(s: seq<T>)
    requires Distinct(s)
    ensures |Elements(s)| == |s|
  {
    if s == [] {
      assert Elements(s) == {};
    } else {
      var rest := s[1..];
      DistinctSize(rest);
      assert forall i :: 1 <= i < |s| ==> s[i] == rest[i - 1];
      assert Elements(s) == Elements(rest) + {s[0]};
      assert s[0] !in Elements(rest);
    }
  }

  /** Distinct numbers below `n` are at most `n` many, and fewer if one is missing. */
  lemma DistinctBound(s: seq<nat>, n: nat)
    requires Distinct(s) && forall i :: 0 <= i < |s| ==> s[i] < n
    ensures |s| <= n
    ensures forall v :: 0 <= v < n && v !in s ==> |s| < n
  {
    DistinctSize(s);
    SubsetSize(Elements(s), Upto(n));
    forall v: nat | v < n && v !in s ensures |s| < n {
      assert Elements(s) <= Upto(n) - {v};
      SubsetSize(Elements(s), Upto(n) - {v});
    }
  }
}
