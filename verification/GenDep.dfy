/** The generator of dependency graphs, with its random draws as parameters: a permutation, its inverse, edges
    and sorted lists. */
module GenDep {

  // A shuffled permutation, its inverse, a strictly upper triangular matrix of edges over positions, and sorted
  // dependency lists.

  import opened Collections
  import opened Rebuild

  // ----- bubble sort of a prefix

  predicate SortedPrefix(s: seq<nat>, k: nat) {
    k <= |s| && forall i, j :: 0 <= i < j < k ==> s[i] <= s[j]
  }

  /** Exchanging two neighbours permutes. */
  lemma SwapPermutes(s: seq<nat>, i: nat)
    requires i + 1 < |s|
    ensures multiset(s[i := s[i + 1]][i + 1 := s[i]]) == multiset(s)
  {
  }

  method SwapNeighbours(a: array<nat>, i: nat, n: nat)
    requires i + 1 < n <= a.Length
    modifies a
    ensures multiset(a[..n]) == multiset(old(a[..n])) && a[n..] == old(a[n..])
    ensures a[i] == old(a[i + 1]) && a[i + 1] == old(a[i])
    ensures forall j :: 0 <= j < a.Length && j != i && j != i + 1 ==> a[j] == old(a[j])
  {
    ghost var was := a[..n];
    a[i], a[i + 1] := a[i + 1], a[i];
    assert a[..n] == was[i := was[i + 1]][i + 1 := was[i]];
    SwapPermutes(was, i);
  }

  /** One pass: the largest of the first `last + 1` elements ends up at `last`. */
  method BubblePass(a: array<nat>, last: nat)
    requires last < a.Length
    modifies a
    ensures multiset(a[..last + 1]) == multiset(old(a[..last + 1]))
    ensures a[last + 1..] == old(a[last + 1..])
    ensures forall i :: 0 <= i <= last ==> a[i] <= a[last]
  {
    for i := 0 to last
      invariant multiset(a[..last + 1]) == multiset(old(a[..last + 1]))
      invariant a[last + 1..] == old(a[last + 1..])
      invariant forall j :: 0 <= j <= i ==> a[j] <= a[i]
    {
      if a[i] > a[i + 1] {
        SwapNeighbours(a, i, last + 1);
      }
    }
  }

  /** The first `n` elements are rearranged and the others stay. */
  predicate Reordered(was: seq<nat>, now: seq<nat>, n: nat) {
    n <= |was| == |now| && multiset(now[..n]) == multiset(was[..n]) && now[n..] == was[n..]
  }

  /** Beyond `top`, the first `n` elements are in their places. */
  predicate InPlaceBeyond(s: seq<nat>, n: nat, top: nat) {
    n <= |s| && forall i, j :: 0 <= i < j < n && top < j ==> s[i] <= s[j]
  }

  /** Sorts the first `n` elements in place. */
  method BubbleSort(a: array<nat>, n: nat)
    requires n <= a.Length
    modifies a
    ensures SortedPrefix(a[..], n) && Reordered(old(a[..]), a[..], n)
  {
    hide Reordered, InPlaceBeyond;
    NothingYet(a[..], n);
    if n <= 1 { return; }
    var top: nat := n - 1;
    while top > 0
      invariant top < n
      invariant Reordered(old(a[..]), a[..], n)
      invariant InPlaceBeyond(a[..], n, top)
    {
      ghost var was := a[..];
      OnePass(a, top, n);
      Onwards(old(a[..]), was, a[..], n);
      top := top - 1;
    }
    AllInPlace(a[..], n);
  }

  /** One round of the sort. */
  method OnePass(a: array<nat>, top: nat, n: nat)
    requires 0 < top < n <= a.Length && InPlaceBeyond(a[..], n, top)
    modifies a
    ensures Reordered(old(a[..]), a[..], n) && InPlaceBeyond(a[..], n, top - 1)
  {
    hide InPlaceBeyond;
    ghost var was := a[..];
    BubblePass(a, top);
    assert was[..top + 1] == old(a[..top + 1]) && was[top + 1..] == old(a[top + 1..]);
    PassKeeps(was, a[..], top, n);
  }

  lemma NothingYet(s: seq<nat>, n: nat)
    requires n <= |s|
    ensures Reordered(s, s, n) && (n > 0 ==> InPlaceBeyond(s, n, n - 1)) && (n <= 1 ==> SortedPrefix(s, n))
  {
  }

  lemma AllInPlace(s: seq<nat>, n: nat)
    requires InPlaceBeyond(s, n, 0)
    ensures SortedPrefix(s, n)
  {
  }

  lemma Onwards(s: seq<nat>, t: seq<nat>, u: seq<nat>, n: nat)
    requires Reordered(s, t, n) && Reordered(t, u, n)
    ensures Reordered(s, u, n)
  {
  }

  /** A pass over the first `top + 1` elements permutes those, and what bounds them above still does. */
  lemma PassKeeps(was: seq<nat>, now: seq<nat>, top: nat, n: nat)
    requires 0 < top < n <= |was| && Reordered(was, now, top + 1) && InPlaceBeyond(was, n, top)
    requires forall i :: 0 <= i <= top ==> now[i] <= now[top]
    ensures Reordered(was, now, n) && InPlaceBeyond(now, n, top - 1)
  {
    assert now[..n] == now[..top + 1] + now[top + 1..][..n - top - 1];
    assert was[..n] == was[..top + 1] + was[top + 1..][..n - top - 1];
    assert now[n..] == now[top + 1..][n - top - 1..] && was[n..] == was[top + 1..][n - top - 1..];
    forall j | top < j < n ensures now[j] == was[j] {
      assert now[j] == now[top + 1..][j - top - 1];
    }
    forall i, j | 0 <= i < j < n && top - 1 < j ensures now[i] <= now[j] {
      if i <= top < j {
        assert now[..top + 1][i] in multiset(was[..top + 1]);
        var k :| 0 <= k < |was[..top + 1]| && was[..top + 1][k] == now[i];
        assert was[k] <= was[j];
      }
    }
  }

  // ----- the permutation and its inverse

  /** `p` lists the numbers 1 to |p|, each once. */
  predicate IsPermutation(p: seq<nat>) {
    Distinct(p) && forall i :: 0 <= i < |p| ==> 1 <= p[i] <= |p|
  }

  lemma PermutationHasAll(p: seq<nat>, u: nat)
    requires IsPermutation(p) && 1 <= u <= |p|
    ensures u in p
  {
    var shifted: seq<nat> := seq(|p|, i requires 0 <= i < |p| => p[i] - 1);
    DistinctBound(shifted, |p|);
    assert u - 1 in shifted;
    var i :| 0 <= i < |shifted| && shifted[i] == u - 1;
    assert p[i] == u;
  }

  /** The list after exchanges at positions `i` down to 1. */
  function Shuffled(p: seq<nat>, draw: nat -> nat, i: int): (q: seq<nat>)
    requires i < |p| || i <= 0
    ensures |q| == |p| && (IsPermutation(p) ==> IsPermutation(q))
    decreases i
  {
    if i <= 0 then p
    else
      var j := draw(i) % (i + 1);
      Shuffled(p[i := p[j]][j := p[i]], draw, i - 1)
  }

  function Exchanged(p: seq<nat>, i: nat, j: nat): seq<nat>
    requires i < |p| && j < |p|
  {
    p[i := p[j]][j := p[i]]
  }

  lemma {:induction false} ShuffledSame(p: seq<nat>, draw: nat -> nat, draw': nat -> nat, i: int)
    requires (i < |p| || i <= 0) && forall x :: 1 <= x <= i ==> draw(x) == draw'(x)
    ensures Shuffled(p, draw, i) == Shuffled(p, draw', i)
    decreases i
  {
    hide IsPermutation;
    if i > 0 {
      var j := draw(i) % (i + 1);
      ShuffledSame(p[i := p[j]][j := p[i]], draw, draw', i - 1);
    }
  }

  lemma ExchangeKeeps(p: seq<nat>, i: nat, j: nat)
    requires i < |p| && j < |p| && IsPermutation(p)
    ensures IsPermutation(Exchanged(p, i, j))
  {
  }

  /** The shuffle first exchanges the last place with the one drawn for it. */
  lemma FirstExchange(p: seq<nat>, draw: nat -> nat, i: nat)
    requires 0 < i < |p|
    ensures Shuffled(p, draw, i) == Shuffled(Exchanged(p, i, draw(i) % (i + 1)), draw, i - 1)
  {
    hide IsPermutation;
  }

  /** A draw for place `i`, put before the draws for the places below. */
  lemma DrawBefore(p: seq<nat>, q: seq<nat>, i: nat, j: nat, rest: nat -> nat)
    requires 0 < i < |p| && j <= i && Shuffled(Exchanged(p, i, j), rest, i - 1) == q
    ensures exists draw: nat -> nat :: Shuffled(p, draw, i) == q
  {
    hide IsPermutation, Exchanged;
    var draw: nat -> nat := x => if x == i then j else rest(x);
    Remainder(j, i + 1);
    FirstExchange(p, draw, i);
    hide Shuffled;
    ShuffledSame(Exchanged(p, i, j), draw, rest, i - 1);
    assert Shuffled(p, draw, i) == q;
  }

  lemma Remainder(x: nat, n: nat)
    requires x < n
    ensures x % n == x
  {
  }

  lemma SameAgain(p: seq<nat>, q: seq<nat>, i: nat) returns (j: nat)
    requires IsPermutation(p) && IsPermutation(q) && i < |p| == |q|
    requires forall x :: i < x < |p| ==> p[x] == q[x]
    ensures j <= i && p[j] == q[i]
  {
    PermutationHasAll(p, q[i]);
    j :| 0 <= j < |p| && p[j] == q[i];
  }

  /** With the right draws, the exchanges lead from any permutation to any other that agrees with it beyond `i`. */
  lemma {:induction false} EveryOrder(p: seq<nat>, q: seq<nat>, i: int)
    requires IsPermutation(p) && IsPermutation(q) && |p| == |q| && -1 <= i < |p|
    requires forall x :: i < x < |p| ==> p[x] == q[x]
    ensures exists draw: nat -> nat :: Shuffled(p, draw, i) == q
    decreases i
  {
    if i <= 0 {
      if i == 0 { var j := SameAgain(p, q, 0); }
      assert p == q;
      assert Shuffled(p, x => 0, i) == q;
    } else {
      var j := SameAgain(p, q, i);
      ExchangeKeeps(p, i, j);
      hide IsPermutation, Shuffled;
      EveryOrder(Exchanged(p, i, j), q, i - 1);
      var rest: nat -> nat :| Shuffled(Exchanged(p, i, j), rest, i - 1) == q;
      DrawBefore(p, q, i, j, rest);
    }
  }

  /** Shuffles in place, from the back; `draw(i)` stands for the random number drawn at `i`. */
  method Shuffle(p: array<nat>, draw: nat -> nat)
    modifies p
    ensures p[..] == Shuffled(old(p[..]), draw, p.Length - 1)
  {
    hide IsPermutation;
    var i := p.Length - 1;
    while i > 0
      invariant i < p.Length
      invariant Shuffled(p[..], draw, i) == Shuffled(old(p[..]), draw, p.Length - 1)
      decreases i
    {
      var j := draw(i) % (i + 1);
      ghost var was := p[..];
      p[i], p[j] := p[j], p[i];
      assert p[..] == was[i := was[j]][j := was[i]];
      i := i - 1;
    }
  }

  method Invert(p: array<nat>, r: array<nat>)
    requires IsPermutation(p[..]) && r.Length == p.Length + 1 && p != r
    modifies r
    ensures forall i :: 0 <= i < p.Length ==> r[p[i]] == i
  {
    for i := 0 to p.Length
      invariant p[..] == old(p[..])
      invariant forall j :: 0 <= j < i ==> r[p[j]] == j
    {
      r[p[i]] := i;
    }
  }

  // ----- the dependency lists

  /** The modules at the marked positions among the first `j`, in order of position. */
  function Picked(p: seq<nat>, marks: seq<bool>, j: nat): seq<nat>
    requires j <= |p| == |marks|
  {
    if j == 0 then [] else Picked(p, marks, j - 1) + if marks[j - 1] then [p[j - 1]] else []
  }

  lemma {:induction false} PickedHas(p: seq<nat>, marks: seq<bool>, j: nat)
    requires j <= |p| == |marks| && Distinct(p)
    ensures |Picked(p, marks, j)| <= j
    ensures forall v :: v in Picked(p, marks, j) <==> exists i :: 0 <= i < j && marks[i] && p[i] == v
    ensures Distinct(Picked(p, marks, j))
  {
    if j > 0 {
      PickedHas(p, marks, j - 1);
      var before := Picked(p, marks, j - 1);
      assert p[j - 1] !in before;
      assert forall i :: 0 <= i < |before| ==> before[i] in before;
    }
  }

  method Collect(p: array<nat>, marks: seq<bool>, b: array<nat>) returns (k: nat)
    requires p.Length == b.Length == |marks| && p != b && Distinct(p[..])
    modifies b
    ensures k <= b.Length && b[..k] == Picked(p[..], marks, |marks|)
  {
    k := 0;
    for j := 0 to p.Length
      invariant p[..] == old(p[..]) && k <= j && b[..k] == Picked(p[..], marks, j)
    {
      PickedHas(p[..], marks, j);
      if marks[j] {
        b[k] := p[j];
        k := k + 1;
      }
    }
  }

  /** A strictly increasing list. */
  predicate Increasing(s: seq<nat>) {
    forall i, j :: 0 <= i < j < |s| ==> s[i] < s[j]
  }

  lemma SortedDistinctIncreasing(s: seq<nat>, t: seq<nat>)
    requires multiset(s) == multiset(t) && Distinct(t) && SortedPrefix(s, |s|)
    ensures Increasing(s) && forall v :: v in s <==> v in t
  {
    forall v ensures v in s <==> v in t {
      assert v in multiset(s) <==> v in multiset(t);
    }
    forall i, j | 0 <= i < j < |s| ensures s[i] < s[j] {
      if s[i] == s[j] {
        DistinctOnce(t, s[i]);
        TwiceCounts(s, i, j);
      }
    }
  }

  lemma {:induction false} DistinctOnce(t: seq<nat>, v: nat)
    requires Distinct(t)
    ensures multiset(t)[v] <= 1
  {
    if t != [] {
      DistinctOnce(t[1..], v);
      assert t == [t[0]] + t[1..];
      assert forall i :: 0 <= i < |t[1..]| ==> t[1..][i] == t[i + 1];
      assert t[0] !in t[1..] && t[0] !in multiset(t[1..]);
    }
  }

  lemma TwiceCounts(s: seq<nat>, i: nat, j: nat)
    requires i < j < |s| && s[i] == s[j]
    ensures multiset(s)[s[i]] >= 2
  {
    assert s == s[..j] + s[j..];
    assert s[..j][i] == s[i] && s[j..][0] == s[j];
    assert s[i] in multiset(s[..j]) && s[i] in multiset(s[j..]);
  }

  /** Position `i` leads to position `j`. */
  predicate Leads(edge: (nat, nat) -> bool, i: nat, j: nat) { i < j && edge(i, j) }

  method DependenciesOf(p: array<nat>, r: array<nat>, b: array<nat>, a: array2<int>, ghost edge: (nat, nat) -> bool, u: nat)
    returns (list: seq<nat>)
    requires IsPermutation(p[..]) && p.Length == b.Length == a.Length0 == a.Length1 && p != b && r != b
    requires r.Length == p.Length + 1 && 1 <= u <= p.Length
    requires forall i :: 0 <= i < p.Length ==> r[p[i]] == i
    requires forall i, j :: 0 <= i < p.Length && 0 <= j < p.Length ==> (a[i, j] == 1 <==> Leads(edge, i, j))
    modifies b
    ensures Increasing(list) && r[u] < p.Length
    ensures forall v :: v in list ==> 1 <= v <= p.Length
    ensures forall v :: 1 <= v <= p.Length ==> (v in list <==> r[u] < r[v] && edge(r[u], r[v]))
  {
    PermutationHasAll(p[..], u);
    var t := r[u];
    var marks := seq(p.Length, j requires 0 <= j < p.Length && t < a.Length0 && p.Length == a.Length1 reads a => a[t, j] == 1);
    var k := Collect(p, marks, b);
    ghost var picked := b[..k];
    PickedHas(p[..], marks, p.Length);
    BubbleSort(b, k);
    list := b[..k];
    SortedDistinctIncreasing(list, picked);
    forall v | 1 <= v <= p.Length ensures v in list <==> Leads(edge, r[u], r[v]) {
      PermutationHasAll(p[..], v);
      assert p[r[v]] == v;
    }
  }

  /** The modules in the order of the shuffle. */
  function Positions(n: nat, draw: nat -> nat): (p: seq<nat>)
    ensures |p| == n && IsPermutation(p)
  {
    Shuffled(seq(n, i => i + 1), draw, n - 1)
  }

  /** Every order of the modules comes up for some draws. */
  lemma EveryPositions(n: nat, q: seq<nat>)
    requires |q| == n && IsPermutation(q)
    ensures exists draw: nat -> nat :: Positions(n, draw) == q
  {
    hide IsPermutation, Shuffled;
    var p: seq<nat> := seq(n, i => i + 1);
    InOrder(n);
    EveryOrder(p, q, n - 1);
    var draw: nat -> nat :| Shuffled(p, draw, n - 1) == q;
    assert Positions(n, draw) == q;
  }

  lemma InOrder(n: nat)
    ensures IsPermutation(seq(n, i => i + 1))
  {
  }

  method DrawPositions(n: nat, draw: nat -> nat) returns (p: array<nat>)
    ensures fresh(p) && p[..] == Positions(n, draw)
  {
    p := new nat[n](i => i + 1);
    assert p[..] == seq(n, i => i + 1);
    Shuffle(p, draw);
  }

  /** A dependency graph over `n` modules: acyclic, each list increasing and holding exactly the modules at
      the positions the module's own position leads to. */
  method Generate(n: nat, draw: nat -> nat, edge: (nat, nat) -> bool) returns (g: Graph)
    ensures g.n == n && g.Ok()
    ensures forall u :: 1 <= u <= n ==> Increasing(g.deps[u])
    ensures forall i :: 0 <= i < n ==> 1 <= Positions(n, draw)[i] <= n && g.rank[Positions(n, draw)[i]] == i
    ensures forall u, v :: 1 <= u <= n && 1 <= v <= n ==>
      (v in g.deps[u] <==> g.rank[u] < g.rank[v] && edge(g.rank[u], g.rank[v]))
  {
    hide Positions, Distinct, Increasing;
    var p := DrawPositions(n, draw);
    var r := new nat[n + 1](_ => 0);
    Invert(p, r);
    var a := new int[n, n]((i, j) => if 0 <= i < j && edge(i, j) then 1 else 0);
    var b := new nat[n](_ => 0);
    var deps: seq<seq<nat>> := [[]];
    for i := 1 to n + 1
      invariant |deps| == i && p[..] == Positions(n, draw)
      invariant forall j :: 0 <= j < n ==> r[p[j]] == j
      invariant forall x, y :: 0 <= x < n && 0 <= y < n ==> (a[x, y] == 1 <==> Leads(edge, x, y))
      invariant forall u :: 1 <= u < i ==> ListOk(r[..], edge, n, u, deps[u])
    {
      var list := DependenciesOf(p, r, b, a, edge, i);
      assert ListOk(r[..], edge, n, i, list);
      deps := deps + [list];
    }
    g := Graph(n, deps, r[..]);
    ListsMakeGraph(g, edge);
  }

  lemma ListsMakeGraph(g: Graph, edge: (nat, nat) -> bool)
    requires |g.rank| == |g.deps| == g.n + 1
    requires forall u :: 1 <= u < g.n + 1 ==> ListOk(g.rank, edge, g.n, u, g.deps[u])
    ensures g.Ok()
    ensures forall u :: 1 <= u <= g.n ==> Increasing(g.deps[u])
    ensures forall u, v :: 1 <= u <= g.n && 1 <= v <= g.n ==> (v in g.deps[u] <==> Leads(edge, g.rank[u], g.rank[v]))
  {
    forall u | 1 <= u <= g.n ensures g.rank[u] < g.n { assert ListOk(g.rank, edge, g.n, u, g.deps[u]); }
    forall u, i | 1 <= u <= g.n && 0 <= i < |g.deps[u]|
      ensures g.HasNode(g.deps[u][i]) && g.rank[u] < g.rank[g.deps[u][i]]
    {
      assert ListOk(g.rank, edge, g.n, u, g.deps[u]) && g.deps[u][i] in g.deps[u];
    }
    forall u, v | 1 <= u <= g.n && 1 <= v <= g.n
      ensures Increasing(g.deps[u]) && (v in g.deps[u] <==> Leads(edge, g.rank[u], g.rank[v]))
    {
      assert ListOk(g.rank, edge, g.n, u, g.deps[u]);
    }
    forall u | 1 <= u <= g.n ensures Increasing(g.deps[u]) { assert ListOk(g.rank, edge, g.n, u, g.deps[u]); }
  }

  predicate ListOk(rank: seq<nat>, edge: (nat, nat) -> bool, n: nat, u: nat, list: seq<nat>)
    requires |rank| == n + 1 && u <= n
  {
    && Increasing(list) && rank[u] < n
    && (forall v :: v in list ==> 1 <= v <= n)
    && (forall v :: 1 <= v <= n ==> (v in list <==> Leads(edge, rank[u], rank[v])))
  }
}
