/** Recursive rebuilding of modules over a shared record of what is done. */
module Rebuild {

  // A process for module `u` goes through the dependencies of `u`, starts a process for each one its copy of the
  // record shows as not done, waits for it and reads the record again; then it prints `u` with its dependencies
  // and marks it done. The dependencies form a graph in which every edge leads to a higher rank, as the
  // generator's graphs do.

  import opened Collections

  /** `deps[u]` lists the dependencies of module `u`, for `u` from 1 to `n`; `rank` witnesses that there is no cycle. */
  datatype Graph = Graph(n: nat, deps: seq<seq<nat>>, rank: seq<nat>) {
    predicate HasNode(u: nat) { 1 <= u <= n }

    predicate Ok() {
      && |deps| == |rank| == n + 1
      && (forall u :: 1 <= u <= n ==> rank[u] < n)
      && (forall u, i :: 1 <= u <= n && 0 <= i < |deps[u]| ==> HasNode(deps[u][i]) && rank[u] < rank[deps[u][i]])
    }
  }

  type Acyclic = g: Graph | g.Ok() witness Graph(0, [[]], [0])

  // ----- reachability

  /** The modules reachable from `u`, itself included. */
  ghost function Reach(g: Acyclic, u: nat): set<nat>
    requires g.HasNode(u)
    decreases g.n - g.rank[u], |g.deps[u]| + 1
  {
    {u} + ReachAny(g, u, |g.deps[u]|)
  }

  /** The modules reachable from the first `k` dependencies of `u`. */
  ghost function ReachAny(g: Acyclic, u: nat, k: nat): set<nat>
    requires g.HasNode(u) && k <= |g.deps[u]|
    decreases g.n - g.rank[u], k
  {
    if k == 0 then {} else ReachAny(g, u, k - 1) + Reach(g, g.deps[u][k - 1])
  }

  ghost predicate IsPath(g: Acyclic, p: seq<nat>) {
    && |p| > 0
    && (forall i :: 0 <= i < |p| ==> g.HasNode(p[i]))
    && (forall i :: 0 <= i < |p| - 1 ==> p[i + 1] in g.deps[p[i]])
  }

  ghost predicate HasPath(g: Acyclic, u: nat, v: nat) {
    exists p :: IsPath(g, p) && p[0] == u && p[|p| - 1] == v
  }

  lemma {:induction false} ReachAnyHas(g: Acyclic, u: nat, k: nat, i: nat)
    requires g.HasNode(u) && i < k <= |g.deps[u]|
    ensures Reach(g, g.deps[u][i]) <= ReachAny(g, u, k)
  {
    if i < k - 1 { ReachAnyHas(g, u, k - 1, i); }
  }

  lemma {:induction false} ReachAnyFrom(g: Acyclic, u: nat, k: nat, v: nat)
    requires g.HasNode(u) && k <= |g.deps[u]| && v in ReachAny(g, u, k)
    ensures exists i :: 0 <= i < k && v in Reach(g, g.deps[u][i])
  {
    if v !in Reach(g, g.deps[u][k - 1]) { ReachAnyFrom(g, u, k - 1, v); }
  }

  lemma {:induction false} PathReaches(g: Acyclic, p: seq<nat>)
    requires IsPath(g, p)
    ensures p[|p| - 1] in Reach(g, p[0])
    decreases |p|
  {
    if |p| > 1 {
      PathReaches(g, p[1..]);
      var i :| 0 <= i < |g.deps[p[0]]| && g.deps[p[0]][i] == p[1];
      ReachAnyHas(g, p[0], |g.deps[p[0]]|, i);
    }
  }

  lemma {:induction false} ReachHasPath(g: Acyclic, u: nat, v: nat)
    requires g.HasNode(u) && v in Reach(g, u)
    ensures HasPath(g, u, v)
    decreases g.n - g.rank[u]
  {
    if u == v {
      assert IsPath(g, [u]);
    } else {
      ReachAnyFrom(g, u, |g.deps[u]|, v);
      var i :| 0 <= i < |g.deps[u]| && v in Reach(g, g.deps[u][i]);
      ReachHasPath(g, g.deps[u][i], v);
      var p :| IsPath(g, p) && p[0] == g.deps[u][i] && p[|p| - 1] == v;
      assert IsPath(g, [u] + p) && ([u] + p)[|p|] == v;
    }
  }

  /** Reachability is the existence of a path of dependencies. */
  lemma ReachIffPath(g: Acyclic, u: nat, v: nat)
    requires g.HasNode(u)
    ensures v in Reach(g, u) <==> HasPath(g, u, v)
  {
    if v in Reach(g, u) { ReachHasPath(g, u, v); }
    if HasPath(g, u, v) {
      var p :| IsPath(g, p) && p[0] == u && p[|p| - 1] == v;
      PathReaches(g, p);
    }
  }

  lemma {:induction false} ReachRank(g: Acyclic, u: nat, v: nat)
    requires g.HasNode(u) && v in Reach(g, u)
    ensures g.HasNode(v) && g.rank[u] <= g.rank[v]
    decreases g.n - g.rank[u]
  {
    if u != v {
      ReachAnyFrom(g, u, |g.deps[u]|, v);
      var i :| 0 <= i < |g.deps[u]| && v in Reach(g, g.deps[u][i]);
      ReachRank(g, g.deps[u][i], v);
    }
  }

  // ----- what is done, and what has been printed

  ghost predicate Closed(g: Acyclic, done: set<nat>) {
    forall u, i :: u in done && g.HasNode(u) && 0 <= i < |g.deps[u]| ==> g.deps[u][i] in done
  }

  lemma {:induction false} ClosedHoldsReach(g: Acyclic, done: set<nat>, u: nat)
    requires Closed(g, done) && u in done && g.HasNode(u)
    ensures Reach(g, u) <= done
    decreases g.n - g.rank[u]
  {
    forall v | v in Reach(g, u) ensures v in done {
      if v != u {
        ReachAnyFrom(g, u, |g.deps[u]|, v);
        var i :| 0 <= i < |g.deps[u]| && v in Reach(g, g.deps[u][i]);
        ClosedHoldsReach(g, done, g.deps[u][i]);
      }
    }
  }

  /** A line of output: a module and what it was rebuilt from. */
  datatype Line = Line(u: nat, from: seq<nat>)

  /** The lines name exactly the modules done, each once, with all its dependencies, and after them. */
  ghost predicate LogOk(g: Acyclic, log: seq<Line>, done: set<nat>) {
    && (forall i :: 0 <= i < |log| ==> g.HasNode(log[i].u) && log[i].from == g.deps[log[i].u])
    && (forall i, j :: 0 <= i < j < |log| ==> log[i].u != log[j].u)
    && (forall u :: u in done <==> exists i :: 0 <= i < |log| && log[i].u == u)
    && (forall i, k :: 0 <= i < |log| && 0 <= k < |log[i].from| ==> Printed(log, i, log[i].from[k]))
  }

  /** Module `d` is among the first `i` lines. */
  ghost predicate Printed(log: seq<Line>, i: nat, d: nat)
    requires i <= |log|
  {
    exists j :: 0 <= j < i && log[j].u == d
  }

  lemma LogExtend(g: Acyclic, log: seq<Line>, done: set<nat>, u: nat)
    requires LogOk(g, log, done) && Closed(g, done) && g.HasNode(u) && u !in done
    requires forall i :: 0 <= i < |g.deps[u]| ==> g.deps[u][i] in done
    ensures LogOk(g, log + [Line(u, g.deps[u])], done + {u}) && Closed(g, done + {u})
  {
    var longer := log + [Line(u, g.deps[u])];
    forall i, k | 0 <= i < |longer| && 0 <= k < |longer[i].from| ensures Printed(longer, i, longer[i].from[k]) {
      if i < |log| {
        assert Printed(log, i, log[i].from[k]);
        var j :| 0 <= j < i && log[j].u == log[i].from[k];
        assert longer[j].u == log[i].from[k];
      } else {
        var d := g.deps[u][k];
        var j :| 0 <= j < |log| && log[j].u == d;
        assert longer[j].u == d;
      }
    }
    forall v ensures v in done + {u} <==> exists i :: 0 <= i < |longer| && longer[i].u == v {
      if v in done {
        var i :| 0 <= i < |log| && log[i].u == v;
        assert longer[i].u == v;
      } else if v == u {
        assert longer[|log|].u == v;
      }
    }
  }

  // ----- the order of the output

  /** What the process for `u` prints when `done` is done before: for each dependency in turn what the process for
      it prints, and then `u`. */
  ghost function Visit(g: Acyclic, done: set<nat>, u: nat): seq<nat>
    requires g.HasNode(u)
    decreases g.n - g.rank[u], |g.deps[u]| + 1
  {
    if u in done then [] else VisitAny(g, done, u, |g.deps[u]|) + [u]
  }

  ghost function VisitAny(g: Acyclic, done: set<nat>, u: nat, k: nat): seq<nat>
    requires g.HasNode(u) && k <= |g.deps[u]|
    decreases g.n - g.rank[u], k
  {
    if k == 0 then []
    else
      var first := VisitAny(g, done, u, k - 1);
      first + Visit(g, done + Elements(first), g.deps[u][k - 1])
  }

  lemma ElementsPlus(a: seq<nat>, b: seq<nat>)
    ensures Elements(a + b) == Elements(a) + Elements(b)
  {
    forall x ensures x in Elements(a + b) <==> x in Elements(a) + Elements(b) {
      if x in Elements(a) {
        var i :| 0 <= i < |a| && a[i] == x;
        assert (a + b)[i] == x;
      } else if x in Elements(b) {
        var i :| 0 <= i < |b| && b[i] == x;
        assert (a + b)[|a| + i] == x;
      }
    }
  }

  lemma DistinctPlus(a: seq<nat>, b: seq<nat>)
    requires Distinct(a) && Distinct(b) && Elements(a) !! Elements(b)
    ensures Distinct(a + b)
  {
    forall i, j | 0 <= i < j < |a + b| ensures (a + b)[i] != (a + b)[j] {
      if i < |a| <= j { assert a[i] in Elements(a) && b[j - |a|] in Elements(b); }
    }
  }

  /** The process prints exactly what can be reached and was not done, each module once. */
  lemma {:induction false} VisitReaches(g: Acyclic, done: set<nat>, u: nat)
    requires Closed(g, done) && g.HasNode(u)
    ensures Elements(Visit(g, done, u)) == Reach(g, u) - done && Distinct(Visit(g, done, u))
    ensures Closed(g, done + Reach(g, u))
    decreases g.n - g.rank[u], |g.deps[u]| + 1
  {
    hide Elements, Distinct;
    if u in done {
      ClosedHoldsReach(g, done, u);
      assert done + Reach(g, u) == done;
      NoElements();
    } else {
      var first := VisitAny(g, done, u, |g.deps[u]|);
      VisitAnyReaches(g, done, u, |g.deps[u]|);
      NotBelowItself(g, u);
      OneElement(u);
      ElementsPlus(first, [u]);
      DistinctPlus(first, [u]);
      ClosedAbove(g, done, u);
    }
  }

  lemma {:induction false} VisitAnyReaches(g: Acyclic, done: set<nat>, u: nat, k: nat)
    requires Closed(g, done) && g.HasNode(u) && k <= |g.deps[u]|
    ensures Elements(VisitAny(g, done, u, k)) == ReachAny(g, u, k) - done && Distinct(VisitAny(g, done, u, k))
    ensures Closed(g, done + ReachAny(g, u, k))
    decreases g.n - g.rank[u], k
  {
    hide Elements, Distinct, Closed;
    if k == 0 {
      NoElements();
      assert done + ReachAny(g, u, 0) == done;
    } else {
      VisitAnyReaches(g, done, u, k - 1);
      var first, d := VisitAny(g, done, u, k - 1), g.deps[u][k - 1];
      var next := done + Elements(first);
      assert next == done + ReachAny(g, u, k - 1);
      VisitReaches(g, next, d);
      ElementsPlus(first, Visit(g, next, d));
      DistinctPlus(first, Visit(g, next, d));
      assert next + Reach(g, d) == done + ReachAny(g, u, k);
    }
  }

  lemma NoElements()
    ensures Elements<nat>([]) == {} && Distinct<nat>([])
  {
  }

  lemma OneElement(u: nat)
    ensures Elements([u]) == {u} && Distinct([u])
  {
    assert [u][0] in Elements([u]);
  }

  lemma NotBelowItself(g: Acyclic, u: nat)
    requires g.HasNode(u)
    ensures u !in ReachAny(g, u, |g.deps[u]|)
  {
    if u in ReachAny(g, u, |g.deps[u]|) {
      ReachAnyFrom(g, u, |g.deps[u]|, u);
      var i :| 0 <= i < |g.deps[u]| && u in Reach(g, g.deps[u][i]);
      ReachRank(g, g.deps[u][i], u);
    }
  }

  lemma ClosedAbove(g: Acyclic, done: set<nat>, u: nat)
    requires g.HasNode(u) && Closed(g, done + ReachAny(g, u, |g.deps[u]|))
    ensures Closed(g, done + Reach(g, u))
  {
    var all := ReachAny(g, u, |g.deps[u]|);
    assert Reach(g, u) == {u} + all;
    hide Reach, ReachAny;
    forall i | 0 <= i < |g.deps[u]| ensures g.deps[u][i] in all { DependencyReached(g, u, i); }
    forall v, i | v in done + Reach(g, u) && g.HasNode(v) && 0 <= i < |g.deps[v]| ensures g.deps[v][i] in done + Reach(g, u) {
      assert v != u ==> v in done + all;
    }
  }

  lemma DependencyReached(g: Acyclic, u: nat, i: nat)
    requires g.HasNode(u) && i < |g.deps[u]|
    ensures g.deps[u][i] in ReachAny(g, u, |g.deps[u]|)
  {
    ReachAnyHas(g, u, |g.deps[u]|, i);
    assert g.deps[u][i] in Reach(g, g.deps[u][i]);
  }

  lemma {:induction false} VisitAnyPrefix(g: Acyclic, done: set<nat>, u: nat, k: nat, l: nat)
    requires g.HasNode(u) && k <= l <= |g.deps[u]|
    ensures VisitAny(g, done, u, k) <= VisitAny(g, done, u, l)
    decreases l
  {
    if k < l { VisitAnyPrefix(g, done, u, k, l - 1); }
  }

  /** Dependencies are handled from first to last: whatever can be reached from the first `k` of them is printed
      before everything else that is printed, and `u` itself last. */
  lemma VisitInTurn(g: Acyclic, done: set<nat>, u: nat)
    requires Closed(g, done) && g.HasNode(u)
    ensures var s := Visit(g, done, u);
      && (forall k, i, j ::
            (0 <= k <= |g.deps[u]| && 0 <= i < |s| && 0 <= j < |s| && s[i] in ReachAny(g, u, k) && s[j] !in ReachAny(g, u, k))
            ==> i < j)
      && (u !in done ==> s != [] && s[|s| - 1] == u)
  {
    var s := Visit(g, done, u);
    forall k, i, j | 0 <= k <= |g.deps[u]| && 0 <= i < |s| && 0 <= j < |s|
      && s[i] in ReachAny(g, u, k) && s[j] !in ReachAny(g, u, k)
      ensures i < j
    {
      PhaseBefore(g, done, u, k, i, j);
    }
  }

  lemma PhaseBefore(g: Acyclic, done: set<nat>, u: nat, k: nat, i: nat, j: nat)
    requires Closed(g, done) && g.HasNode(u) && k <= |g.deps[u]|
    requires i < |Visit(g, done, u)| && j < |Visit(g, done, u)|
    requires Visit(g, done, u)[i] in ReachAny(g, u, k) && Visit(g, done, u)[j] !in ReachAny(g, u, k)
    ensures i < j
  {
    hide Closed, ReachAny;
    var s, first := Visit(g, done, u), VisitAny(g, done, u, k);
    VisitAnyPrefix(g, done, u, k, |g.deps[u]|);
    VisitAnyReaches(g, done, u, k);
    VisitReaches(g, done, u);
    assert s[i] in Elements(s);
    assert s[i] in Elements(first);
    var l :| 0 <= l < |first| && first[l] == s[i];
    assert s[l] == s[i] && l == i;
    assert forall x :: 0 <= x < |first| ==> s[x] == first[x] && s[x] in Elements(first);
  }

  /** The modules named by the lines of output. */
  function Names(log: seq<Line>): (names: seq<nat>)
    ensures |names| == |log|
  {
    seq(|log|, i requires 0 <= i < |log| => log[i].u)
  }

  lemma NothingNew(g: Acyclic, done: set<nat>, u: nat)
    requires Closed(g, done) && g.HasNode(u) && u in done
    ensures VisitAny(g, done, u, |g.deps[u]|) == []
  {
    hide Closed, Elements;
    var s := VisitAny(g, done, u, |g.deps[u]|);
    VisitAnyReaches(g, done, u, |g.deps[u]|);
    ClosedHoldsReach(g, done, u);
    assert Reach(g, u) == {u} + ReachAny(g, u, |g.deps[u]|);
    OnlyEmpty(s);
  }

  lemma OnlyEmpty(s: seq<nat>)
    requires Elements(s) == {}
    ensures s == []
  {
    if s != [] { FirstElement(s); }
  }

  lemma FirstElement(s: seq<nat>)
    requires s != []
    ensures s[0] in Elements(s)
  {
  }

  /** The output of a module's process within that of another: some of the lines before are what was done by then. */
  ghost predicate IsInside(g: Acyclic, done: set<nat>, u: nat, v: nat, before: seq<nat>, after: seq<nat>)
    requires g.HasNode(u) && g.HasNode(v)
  {
    && Closed(g, done + Elements(before)) && v !in done + Elements(before)
    && Visit(g, done, u) == before + Visit(g, done + Elements(before), v) + after
  }

  ghost predicate SomewhereInside(g: Acyclic, done: set<nat>, u: nat, v: nat)
    requires g.HasNode(u) && g.HasNode(v)
  {
    exists before, after :: IsInside(g, done, u, v, before, after)
  }

  /** Every module printed is printed by its own process, in one piece with what that process prints; so all that
      holds of the order for `u` holds for the modules below it. */
  lemma {:induction false} VisitInside(g: Acyclic, done: set<nat>, u: nat, v: nat)
    requires Closed(g, done) && g.HasNode(u) && v in Visit(g, done, u)
    ensures g.HasNode(v) && SomewhereInside(g, done, u, v)
    decreases g.n - g.rank[u], |g.deps[u]| + 1
  {
    hide Closed, Elements;
    NoElements();
    assert done + {} == done;
    if v == u {
      assert IsInside(g, done, u, u, [], []);
    } else {
      var before, after := VisitAnyInside(g, done, u, |g.deps[u]|, v);
      assert IsInside(g, done, u, v, before, after + [u]);
    }
  }

  lemma {:induction false} VisitAnyInside(g: Acyclic, done: set<nat>, u: nat, k: nat, v: nat)
    returns (before: seq<nat>, after: seq<nat>)
    requires Closed(g, done) && g.HasNode(u) && k <= |g.deps[u]| && v in VisitAny(g, done, u, k)
    ensures g.HasNode(v) && Closed(g, done + Elements(before)) && v !in done + Elements(before)
    ensures VisitAny(g, done, u, k) == before + Visit(g, done + Elements(before), v) + after
    decreases g.n - g.rank[u], k
  {
    hide Closed, Elements;
    var first, d := VisitAny(g, done, u, k - 1), g.deps[u][k - 1];
    if v in first {
      before, after := VisitAnyInside(g, done, u, k - 1, v);
      after := after + Visit(g, done + Elements(first), d);
    } else {
      VisitAnyReaches(g, done, u, k - 1);
      var next := done + Elements(first);
      assert next == done + ReachAny(g, u, k - 1);
      VisitInside(g, next, d, v);
      var l, r :| IsInside(g, next, d, v, l, r);
      before, after := first + l, r;
      ElementsPlus(first, l);
      assert next + Elements(l) == done + Elements(before);
    }
  }

  lemma VisitAnyNext(g: Acyclic, done: set<nat>, u: nat, first: seq<nat>, k: nat)
    requires g.HasNode(u) && k < |g.deps[u]| && VisitAny(g, done, u, k) == first
    ensures VisitAny(g, done, u, k + 1) == first + Visit(g, done + Elements(first), g.deps[u][k])
  {
  }

  const EXAMPLE: Acyclic := Graph(4, [[], [2, 3, 4], [4], [], []], [0, 0, 1, 2, 3])

  lemma ExampleLeaf(done: set<nat>, u: nat)
    requires u == 3 || u == 4
    ensures Visit(EXAMPLE, done, u) == if u in done then [] else [u]
  {
  }

  lemma ExampleTwoBelow()
    ensures VisitAny(EXAMPLE, {}, 2, 1) == [4]
  {
    ExampleLeaf({}, 4);
    ExampleParts();
    hide Visit, VisitAny, Elements;
    NoElements();
    assert {} + Elements<nat>([]) == {};
    VisitAnyNext(EXAMPLE, {}, 2, [], 0);
  }

  lemma ExampleTwo()
    ensures Visit(EXAMPLE, {}, 2) == [4, 2]
  {
    hide VisitAny;
    ExampleTwoBelow();
  }

  lemma ExampleBelow()
    ensures VisitAny(EXAMPLE, {}, 1, 3) == [4, 2, 3]
  {
    ExampleTwo();
    ExampleParts();
    hide Visit, VisitAny, Elements;
    NoElements();
    assert {} + Elements<nat>([]) == {};
    VisitAnyNext(EXAMPLE, {}, 1, [], 0);
    assert VisitAny(EXAMPLE, {}, 1, 1) == [4, 2];
    VisitAnyNext(EXAMPLE, {}, 1, [4, 2], 1);
    assert VisitAny(EXAMPLE, {}, 1, 2) == [4, 2, 3];
    VisitAnyNext(EXAMPLE, {}, 1, [4, 2, 3], 2);
  }

  /** Module 1 depends on 2, 3 and 4, and module 2 on 4: module 4 is printed before 3, through module 2. */
  lemma OrderExample()
    ensures EXAMPLE.deps[1] == [2, 3, 4] && EXAMPLE.deps[2] == [4] && EXAMPLE.deps[3] == []
    ensures Visit(EXAMPLE, {}, 1) == [4, 2, 3, 1]
  {
    hide VisitAny;
    ExampleBelow();
  }

  lemma ExampleParts()
    ensures VisitAny(EXAMPLE, {}, 1, 0) == [] && VisitAny(EXAMPLE, {}, 2, 0) == []
    ensures Visit(EXAMPLE, {} + Elements([4, 2]), 3) == [3] && Visit(EXAMPLE, {} + Elements([4, 2, 3]), 4) == []
  {
    ExampleLeaf({} + Elements([4, 2]), 3);
    ExampleLeaf({} + Elements([4, 2, 3]), 4);
    assert [4, 2, 3][0] in Elements([4, 2, 3]);
  }

  lemma LinesInTurn(g: Acyclic, was: seq<Line>, log: seq<Line>, done: set<nat>, u: nat)
    requires Closed(g, done) && g.HasNode(u) && |was| <= |log| && Names(log) == Names(was) + Visit(g, done, u)
    ensures forall k, i, j ::
      (0 <= k <= |g.deps[u]| && |was| <= i < |log| && |was| <= j < |log|
        && log[i].u in ReachAny(g, u, k) && log[j].u !in ReachAny(g, u, k))
      ==> i < j
    ensures u !in done ==> log != [] && log[|log| - 1].u == u
  {
    var s := Visit(g, done, u);
    VisitInTurn(g, done, u);
    hide Visit, ReachAny, Closed;
    assert forall i :: |was| <= i < |log| ==> log[i].u == Names(log)[i] == s[i - |was|];
  }

  class Session {
    const g: Acyclic
    /** The record of what is done: one number for each module, module 1 first. */
    const done: array<int>
    var log: seq<Line>

    ghost predicate Valid()
      reads this, done
    {
      && done.Length == g.n
      && LogOk(g, log, Done()) && Closed(g, Done())
    }

    ghost function Done(): set<nat>
      requires done.Length == g.n
      reads this, done
    {
      set u: nat | 1 <= u <= g.n && IsDone(u)
    }

    ghost predicate IsDone(u: nat)
      requires 1 <= u <= done.Length
      reads done
    {
      done[u - 1] != 0
    }

    constructor (g: Acyclic)
      ensures this.g == g && done.Length == g.n && fresh(done) && log == []
    {
      this.g := g;
      done := new int[g.n];
      log := [];
    }

    method InitializeDone()
      requires done.Length == g.n && log == []
      modifies done
      ensures Valid() && Done() == {}
    {
      for i := 0 to g.n
        invariant forall j :: 0 <= j < i ==> done[j] == 0
      {
        done[i] := 0;
      }
    }

    method UpdateDone(u: nat)
      requires done.Length == g.n && g.HasNode(u)
      modifies done
      ensures Done() == old(Done()) + {u}
    {
      done[u - 1] := 1;
      assert forall v: nat :: 1 <= v <= g.n && v != u ==> IsDone(v) == old(IsDone(v));
    }

    /** The process for module `u`: afterwards exactly what was done before and what `u` depends on, directly
        or not, is done, and the log has grown accordingly.  The lines it adds name each new module once; what can be
        reached from the first dependencies of `u` comes before the rest, and `u` last. */
    method Process(u: nat)
      requires Valid() && g.HasNode(u)
      modifies done, this`log
      ensures Valid()
      ensures Done() == old(Done()) + Reach(g, u)
      ensures old(log) <= log && Names(log) == Names(old(log)) + Visit(g, old(Done()), u)
      ensures forall k, i, j ::
        (0 <= k <= |g.deps[u]| && |old(log)| <= i < |log| && |old(log)| <= j < |log|
          && log[i].u in ReachAny(g, u, k) && log[j].u !in ReachAny(g, u, k))
        ==> i < j
      ensures u !in old(Done()) ==> log != [] && log[|log| - 1].u == u
      decreases g.n - g.rank[u], 1
    {
      hide LogOk, Closed, ReachAny, VisitAny, Names;
      ghost var before := Done();
      var local := done[..];
      var from: seq<nat> := [];
      NothingReachedYet(before, u);
      for k := 0 to |g.deps[u]|
        invariant Valid() && local == done[..] && from == g.deps[u][..k]
        invariant Done() == before + ReachAny(g, u, k)
        invariant old(log) <= log && Names(log) == Names(old(log)) + VisitAny(g, before, u, k)
      {
        ReachAnyNext(u, k);
        VisitNext(before, u, k);
        local := RebuildDependency(u, g.deps[u][k], local);
        from := from + [g.deps[u][k]];
      }
      NotBelowItself(g, u);
      if u in before { NothingNew(g, before, u); }
      FinishModule(u, local, from);
      assert Names(log) == Names(old(log)) + Visit(g, before, u);
      LinesInTurn(g, old(log), log, before, u);
    }

    /** A child process for `d`, if the caller's copy of the record says it is not done; then the record is read again. */
    method RebuildDependency(ghost u: nat, d: nat, local: seq<int>) returns (copy: seq<int>)
      requires Valid() && g.HasNode(u) && g.HasNode(d) && g.rank[u] < g.rank[d] && local == done[..]
      modifies done, this`log
      ensures Valid() && copy == done[..]
      ensures Done() == old(Done()) + Reach(g, d)
      ensures old(log) <= log && Names(log) == Names(old(log)) + Visit(g, old(Done()), d)
      decreases g.n - g.rank[u], 0
    {
      hide Names, VisitAny, LogOk, Closed;
      copy := local;
      if local[d - 1] == 0 {
        Process(d);
        copy := done[..];
      } else {
        assert IsDone(d);
        ClosedHoldsReach(g, Done(), d);
      }
    }

    /** Prints `u` and marks it done, unless it already was. */
    method FinishModule(u: nat, local: seq<int>, from: seq<nat>)
      requires Valid() && g.HasNode(u) && local == done[..] && from == g.deps[u]
      requires ReachAny(g, u, |g.deps[u]|) <= Done()
      modifies done, this`log
      ensures Valid() && old(log) <= log
      ensures Done() == old(Done()) + {u}
      ensures Names(log) == Names(old(log)) + if u in old(Done()) then [] else [u]
    {
      hide Reach, ReachAny;
      assert IsDone(u) == (local[u - 1] != 0);
      if local[u - 1] == 0 {
        DependenciesDone(u);
        LogExtend(g, log, Done(), u);
        log := log + [Line(u, from)];
        UpdateDone(u);
      }
    }

    lemma NothingReachedYet(before: set<nat>, u: nat)
      requires g.HasNode(u)
      ensures ReachAny(g, u, 0) == {} && VisitAny(g, before, u, 0) == []
    {
    }

    lemma ReachAnyNext(u: nat, k: nat)
      requires g.HasNode(u) && k < |g.deps[u]|
      ensures ReachAny(g, u, k + 1) == ReachAny(g, u, k) + Reach(g, g.deps[u][k])
    {
    }

    lemma VisitNext(before: set<nat>, u: nat, k: nat)
      requires g.HasNode(u) && k < |g.deps[u]| && Closed(g, before)
      ensures VisitAny(g, before, u, k + 1)
        == VisitAny(g, before, u, k) + Visit(g, before + ReachAny(g, u, k), g.deps[u][k])
    {
      VisitAnyReaches(g, before, u, k);
      assert before + Elements(VisitAny(g, before, u, k)) == before + ReachAny(g, u, k);
    }

    lemma DependenciesDone(u: nat)
      requires Valid() && g.HasNode(u) && ReachAny(g, u, |g.deps[u]|) <= Done()
      ensures forall i :: 0 <= i < |g.deps[u]| ==> g.deps[u][i] in Done()
    {
      forall i | 0 <= i < |g.deps[u]| ensures g.deps[u][i] in Done() { DependencyReached(g, u, i); }
    }

    /** The root process: prints each module `u` depends on exactly once, dependencies first, from first to last, and
        nothing else. */
    method RebuildRoot(u: nat)
      requires done.Length == g.n && log == [] && g.HasNode(u)
      modifies done, this`log
      ensures Valid() && Names(log) == Visit(g, {}, u)
      ensures forall v :: v in Done() <==> HasPath(g, u, v)
      ensures forall k, i, j ::
        (0 <= k <= |g.deps[u]| && 0 <= i < |log| && 0 <= j < |log|
          && log[i].u in ReachAny(g, u, k) && log[j].u !in ReachAny(g, u, k))
        ==> i < j
      ensures log != [] && log[|log| - 1].u == u
    {
      InitializeDone();
      Process(u);
      forall v ensures v in Done() <==> HasPath(g, u, v) { ReachIffPath(g, u, v); }
    }
  }
}
