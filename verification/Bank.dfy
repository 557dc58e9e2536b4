/** The state the banker manages and what it means for it to be safe. */
module Bank {

  // A state is safe when the threads can be put in an order in which each one's remaining need is covered by what
  // is available plus what the threads before it hold. The main results are that safety is the absence of a stuck
  // set of threads, and that giving resources back, in whatever way, never loses it.

  import opened Collections

  // ----- vectors over the resource types

  function Plus(a: seq<int>, b: seq<int>): (c: seq<int>)
    requires |a| == |b|
    ensures |c| == |a| && forall j :: 0 <= j < |a| ==> c[j] == a[j] + b[j]
  {
    seq(|a|, j requires 0 <= j < |a| => a[j] + b[j])
  }

  function Minus(a: seq<int>, b: seq<int>): (c: seq<int>)
    requires |a| == |b|
    ensures |c| == |a| && forall j :: 0 <= j < |a| ==> c[j] == a[j] - b[j]
  {
    seq(|a|, j requires 0 <= j < |a| => a[j] - b[j])
  }

  predicate AtMost(a: seq<int>, b: seq<int>)
    requires |a| == |b|
  {
    forall j :: 0 <= j < |a| ==> a[j] <= b[j]
  }

  predicate NonNegative(a: seq<int>) {
    forall j :: 0 <= j < |a| ==> 0 <= a[j]
  }

  // ----- the state

  /** `alloc` and `need` have one row per thread, `avail` one entry per resource type. */
  datatype Bank = Bank(avail: seq<int>, alloc: seq<seq<int>>, need: seq<seq<int>>) {
    function Types(): nat { |avail| }

    function Threads(): nat { |alloc| }

    predicate Shape() {
      && |need| == |alloc|
      && (forall t :: 0 <= t < |alloc| ==> |alloc[t]| == |avail|)
      && (forall t :: 0 <= t < |need| ==> |need[t]| == |avail|)
    }

    predicate HoldsNonNegative() {
      forall t :: 0 <= t < |alloc| ==> NonNegative(alloc[t])
    }
  }

  type WellShaped = b: Bank | b.Shape() witness Bank([], [], [])

  /** What the first `k` threads hold of resource `j`, counting only those in `done`. */
  function Held(b: WellShaped, done: set<nat>, j: nat, k: nat): int
    requires j < b.Types() && k <= b.Threads()
  {
    if k == 0 then 0
    else Held(b, done, j, k - 1) + if k - 1 in done then b.alloc[k - 1][j] else 0
  }

  /** What is available of resource `j` once the threads in `done` have given back all they hold. */
  function Work(b: WellShaped, done: set<nat>, j: nat): int
    requires j < b.Types()
  {
    b.avail[j] + Held(b, done, j, b.Threads())
  }

  predicate CanFinish(b: WellShaped, t: nat, done: set<nat>)
    requires t < b.Threads()
  {
    forall j :: 0 <= j < b.Types() ==> b.need[t][j] <= Work(b, done, j)
  }

  // ----- safety

  /** The threads named in the first `p` places of `order`. */
  function Before(order: seq<nat>, p: nat): set<nat>
    requires p <= |order|
  {
    if p == 0 then {} else Before(order, p - 1) + {order[p - 1]}
  }

  lemma {:induction false} BeforeHas(order: seq<nat>, p: nat, t: nat)
    requires p <= |order|
    ensures t in Before(order, p) <==> exists i :: 0 <= i < p && order[i] == t
  {
    if p > 0 { BeforeHas(order, p - 1, t); }
  }

  ghost predicate IsOrder(order: seq<nat>, n: nat) {
    && |order| <= n
    && (forall p :: 0 <= p < |order| ==> order[p] < n)
    && (forall p, q :: 0 <= p < q < |order| ==> order[p] != order[q])
  }

  /** Every thread named by `order` can finish after those named before it. */
  ghost predicate Completes(b: WellShaped, order: seq<nat>) {
    && IsOrder(order, b.Threads())
    && (forall p :: 0 <= p < |order| ==> CanFinish(b, order[p], Before(order, p)))
  }

  ghost predicate Safe(b: WellShaped) {
    exists order :: Completes(b, order) && |order| == b.Threads()
  }

  /** No thread outside `done` can finish once those in `done` have. */
  ghost predicate Stuck(b: WellShaped, done: set<nat>) {
    && (exists t :: 0 <= t < b.Threads() && t !in done)
    && (forall t :: 0 <= t < b.Threads() && t !in done ==> !CanFinish(b, t, done))
  }

  // ----- how Held depends on its arguments

  lemma {:induction false} HeldMonotone(b: WellShaped, d: set<nat>, e: set<nat>, j: nat, k: nat)
    requires j < b.Types() && k <= b.Threads() && b.HoldsNonNegative() && d <= e
    ensures Held(b, d, j, k) <= Held(b, e, j, k)
  {
    if k > 0 {
      HeldMonotone(b, d, e, j, k - 1);
    }
  }

  lemma {:induction false} HeldAdd(b: WellShaped, d: set<nat>, t: nat, j: nat, k: nat)
    requires j < b.Types() && k <= b.Threads() && t < b.Threads() && t !in d
    ensures Held(b, d + {t}, j, k) == Held(b, d, j, k) + if t < k then b.alloc[t][j] else 0
  {
    if k > 0 {
      HeldAdd(b, d, t, j, k - 1);
    }
  }

  lemma {:induction false} HeldEmpty(b: WellShaped, d: set<nat>, j: nat, k: nat)
    requires j < b.Types() && k <= b.Threads()
    requires forall t :: 0 <= t < b.Threads() && t in d ==> b.alloc[t][j] == 0
    ensures Held(b, d, j, k) == 0
  {
    if k > 0 {
      HeldEmpty(b, d, j, k - 1);
    }
  }

  lemma WorkGrows(b: WellShaped, t: nat, d: set<nat>, e: set<nat>)
    requires t < b.Threads() && b.HoldsNonNegative() && d <= e && CanFinish(b, t, d)
    ensures CanFinish(b, t, e)
  {
    forall j | 0 <= j < b.Types() ensures b.need[t][j] <= Work(b, e, j) {
      HeldMonotone(b, d, e, j, b.Threads());
    }
  }

  // ----- safety is the absence of a stuck set

  /** The exchange argument: the first thread of a completing order that lies outside `done`
      only relies on threads inside it. */
  lemma SafeNotStuck(b: WellShaped, done: set<nat>)
    requires b.HoldsNonNegative() && Safe(b)
    ensures !Stuck(b, done)
  {
    var order :| Completes(b, order) && |order| == b.Threads();
    if t: nat :| t < b.Threads() && t !in done {
      FullOrderNames(order, b.Threads(), t);
      var p := FirstOutside(order, done, t);
      WorkGrows(b, order[p], Before(order, p), done);
    }
  }

  lemma FirstOutside(order: seq<nat>, done: set<nat>, t: nat) returns (p: nat)
    requires t in Before(order, |order|) && t !in done
    ensures p < |order| && order[p] !in done && Before(order, p) <= done
  {
    p := 0;
    while p < |order| && order[p] in done
      invariant p <= |order| && Before(order, p) <= done
    {
      p := p + 1;
    }
  }

  lemma {:induction false} BeforeSize(order: seq<nat>, n: nat, p: nat)
    requires IsOrder(order, n) && p <= |order|
    ensures |Before(order, p)| == p && Before(order, p) <= Upto(n)
  {
    if p > 0 {
      BeforeSize(order, n, p - 1);
      BeforeHas(order, p - 1, order[p - 1]);
    }
  }

  /** A full order names every thread. */
  lemma FullOrderNames(order: seq<nat>, n: nat, t: nat)
    requires IsOrder(order, n) && |order| == n && t < n
    ensures t in Before(order, |order|)
  {
    var named := Before(order, |order|);
    BeforeSize(order, n, |order|);
    if t !in named {
      SubsetSize(named, Upto(n) - {t});
    }
  }

  lemma {:induction false} BeforeAppend(order: seq<nat>, t: nat, p: nat)
    requires p <= |order|
    ensures Before(order + [t], p) == Before(order, p)
  {
    if p > 0 { BeforeAppend(order, t, p - 1); }
  }

  lemma RoomLeft(order: seq<nat>, n: nat, t: nat)
    requires IsOrder(order, n) && t < n && t !in Before(order, |order|)
    ensures |order| < n && IsOrder(order + [t], n)
  {
    BeforeSize(order, n, |order|);
    SubsetSize(Before(order, |order|), Upto(n) - {t});
    forall p | 0 <= p < |order| ensures order[p] != t { BeforeHas(order, |order|, order[p]); }
  }

  lemma CompletesExtend(b: WellShaped, order: seq<nat>, t: nat)
    requires Completes(b, order) && t < b.Threads() && t !in Before(order, |order|)
    requires CanFinish(b, t, Before(order, |order|))
    ensures Completes(b, order + [t]) && |order| < b.Threads()
    ensures Before(order + [t], |order| + 1) == Before(order, |order|) + {t}
  {
    var longer := order + [t];
    RoomLeft(order, b.Threads(), t);
    forall p | 0 <= p <= |order|
      ensures CanFinish(b, longer[p], Before(longer, p))
    {
      BeforeAppend(order, t, p);
      assert longer[p] == if p < |order| then order[p] else t;
      assert CanFinish(b, longer[p], Before(order, p));
    }
    assert Before(longer, |order|) == Before(order, |order|) by { BeforeAppend(order, t, |order|); }
  }

  /** With no stuck set, any partial order extends to a full one. */
  lemma {:induction false} NeverStuckSafe(b: WellShaped, order: seq<nat>)
    requires Completes(b, order)
    requires forall done :: !Stuck(b, done)
    ensures Safe(b)
    decreases b.Threads() - |order|
  {
    if |order| < b.Threads() {
      var done := Before(order, |order|);
      BeforeSize(order, b.Threads(), |order|);
      if forall t :: 0 <= t < b.Threads() ==> t in done {
        SubsetSize(Upto(b.Threads()), done);
      }
      assert !Stuck(b, done);
      var t: nat :| t < b.Threads() && t !in done && CanFinish(b, t, done);
      CompletesExtend(b, order, t);
      NeverStuckSafe(b, order + [t]);
    }
  }

  /** Safety is exactly the absence of a stuck set: the order in which a greedy check picks threads
      cannot matter. */
  lemma SafeIffNeverStuck(b: WellShaped)
    requires b.HoldsNonNegative()
    ensures Safe(b) <==> forall done :: !Stuck(b, done)
  {
    if Safe(b) {
      forall done ensures !Stuck(b, done) { SafeNotStuck(b, done); }
    }
    if forall done :: !Stuck(b, done) {
      NeverStuckSafe(b, []);
    }
  }

  // ----- moving resources between the pool and a thread

  /** Thread `t` receives `r` from the pool (negative entries flow back); its need is not touched. */
  function Move(b: WellShaped, t: nat, r: seq<int>): (c: WellShaped)
    requires t < b.Threads() && |r| == b.Types()
  {
    Bank(Minus(b.avail, r), b.alloc[t := Plus(b.alloc[t], r)], b.need)
  }

  /** As Move, and the need of `t` shrinks by what it received. */
  function Grant(b: WellShaped, t: nat, r: seq<int>): (c: WellShaped)
    requires t < b.Threads() && |r| == b.Types()
  {
    Bank(Minus(b.avail, r), b.alloc[t := Plus(b.alloc[t], r)], b.need[t := Minus(b.need[t], r)])
  }

  lemma {:induction false} HeldMove(b: WellShaped, c: WellShaped, t: nat, r: seq<int>, d: set<nat>, j: nat, k: nat)
    requires t < b.Threads() && |r| == b.Types() && j < b.Types() && k <= b.Threads()
    requires c.Types() == b.Types() && c.alloc == b.alloc[t := Plus(b.alloc[t], r)]
    ensures Held(c, d, j, k) == Held(b, d, j, k) + if t in d && t < k then r[j] else 0
  {
    if k > 0 {
      HeldMove(b, c, t, r, d, j, k - 1);
    }
  }

  /** After a transfer to `t`, the work available behind `done` is short of `r` exactly while `t` is unfinished. */
  lemma WorkMove(b: WellShaped, c: WellShaped, t: nat, r: seq<int>, d: set<nat>, j: nat)
    requires t < b.Threads() && |r| == b.Types() && j < b.Types()
    requires c == Move(b, t, r) || c == Grant(b, t, r)
    ensures Work(c, d, j) == Work(b, d, j) - if t in d then 0 else r[j]
  {
    HeldMove(b, c, t, r, d, j, b.Threads());
  }

  /** If whatever can finish in `b` can also finish in `c`, then `c` is safe when `b` is. */
  lemma SafeTransfer(b: WellShaped, c: WellShaped)
    requires b.Threads() == c.Threads()
    requires forall t, d :: 0 <= t < b.Threads() && t !in d && CanFinish(b, t, d) ==> CanFinish(c, t, d)
    requires Safe(b)
    ensures Safe(c)
  {
    var order :| Completes(b, order) && |order| == b.Threads();
    forall p | 0 <= p < |order|
      ensures CanFinish(c, order[p], Before(order, p))
    {
      BeforeHas(order, p, order[p]);
    }
    assert Completes(c, order);
  }

  /** Handing resources back, with the need left as it is, keeps the state safe. */
  lemma ReleaseKeepsSafe(b: WellShaped, t: nat, r: seq<int>)
    requires t < b.Threads() && |r| == b.Types() && (forall j :: 0 <= j < |r| ==> r[j] <= 0)
    requires Safe(b)
    ensures Safe(Move(b, t, r))
  {
    var c := Move(b, t, r);
    forall u, d | 0 <= u < b.Threads() && u !in d && CanFinish(b, u, d)
      ensures CanFinish(c, u, d)
    {
      forall j | 0 <= j < b.Types() ensures c.need[u][j] <= Work(c, d, j) { WorkMove(b, c, t, r, d, j); }
    }
    SafeTransfer(b, c);
  }

  /** Undoing a non-negative grant keeps the state safe. */
  lemma UndoGrantKeepsSafe(b: WellShaped, t: nat, r: seq<int>)
    requires t < b.Threads() && |r| == b.Types() && NonNegative(r)
    requires Safe(Grant(b, t, r))
    ensures Safe(b)
  {
    var c := Grant(b, t, r);
    forall u, d | 0 <= u < b.Threads() && u !in d && CanFinish(c, u, d)
      ensures CanFinish(b, u, d)
    {
      forall j | 0 <= j < b.Types() ensures b.need[u][j] <= Work(b, d, j) {
        WorkMove(b, c, t, r, d, j);
        assert c.need[u][j] <= Work(c, d, j);
      }
    }
    SafeTransfer(c, b);
  }

  /** A thread that could finish on what is available now can be given any amount without losing safety:
      it finishes first.  Threads that hold nothing but still show a need may then have to come after it. */
  lemma GrantWithinNeedSafe(b: WellShaped, t: nat, r: seq<int>)
    requires t < b.Threads() && |r| == b.Types() && NonNegative(r) && b.HoldsNonNegative()
    requires Safe(b) && CanFinish(b, t, {})
    ensures Safe(Grant(b, t, r))
  {
    var c := Grant(b, t, r);
    forall d ensures !Stuck(c, d) {
      SafeNotStuck(b, d);
      if u :| 0 <= u < c.Threads() && u !in d {
        if t in d {
          var v :| 0 <= v < b.Threads() && v !in d && CanFinish(b, v, d);
          forall j | 0 <= j < b.Types() ensures c.need[v][j] <= Work(c, d, j) { WorkMove(b, c, t, r, d, j); }
          assert CanFinish(c, v, d);
        } else {
          WorkGrows(b, t, {}, d);
          forall j | 0 <= j < b.Types() ensures c.need[t][j] <= Work(c, d, j) { WorkMove(b, c, t, r, d, j); }
          assert CanFinish(c, t, d);
        }
      }
    }
    assert c.HoldsNonNegative();
    SafeIffNeverStuck(c);
  }

  /** When everybody's need fits what is available, any order completes. */
  lemma AllFitSafe(b: WellShaped)
    requires b.HoldsNonNegative()
    requires forall t :: 0 <= t < b.Threads() ==> AtMost(b.need[t], b.avail)
    ensures Safe(b)
  {
    forall d ensures !Stuck(b, d) {
      if t :| 0 <= t < b.Threads() && t !in d {
        forall j | 0 <= j < b.Types() ensures b.need[t][j] <= Work(b, {}, j) { HeldEmpty(b, {}, j, b.Threads()); }
        WorkGrows(b, t, {}, d);
      }
    }
    SafeIffNeverStuck(b);
  }

  // ----- safety as a schedule

  /** Thread `t` is granted all it still needs, and then gives back everything it holds. */
  function Finish(b: WellShaped, t: nat): (c: WellShaped)
    requires t < b.Threads()
    ensures c.Threads() == b.Threads() && c.Types() == b.Types()
  {
    var g := Grant(b, t, b.need[t]);
    Move(g, t, seq(b.Types(), j requires 0 <= j < b.Types() => -g.alloc[t][j]))
  }

  /** The state once the first `p` threads of `order` have finished, one after another. */
  function Played(b: WellShaped, order: seq<nat>, p: nat): (c: WellShaped)
    requires p <= |order| && forall i :: 0 <= i < |order| ==> order[i] < b.Threads()
    ensures c.Threads() == b.Threads() && c.Types() == b.Types()
  {
    if p == 0 then b else Finish(Played(b, order, p - 1), order[p - 1])
  }

  /** Each thread of `order` finds all it needs in the pool when its turn comes. */
  predicate Plays(b: WellShaped, order: seq<nat>)
    requires forall i :: 0 <= i < |order| ==> order[i] < b.Threads()
  {
    forall p :: 0 <= p < |order| ==> AtMost(Played(b, order, p).need[order[p]], Played(b, order, p).avail)
  }

  lemma {:induction false} PlayedState(b: WellShaped, order: seq<nat>, p: nat)
    requires IsOrder(order, b.Threads()) && p <= |order|
    ensures forall j :: 0 <= j < b.Types() ==> Played(b, order, p).avail[j] == Work(b, Before(order, p), j)
    ensures forall t :: 0 <= t < b.Threads() && t !in Before(order, p) ==>
      Played(b, order, p).alloc[t] == b.alloc[t] && Played(b, order, p).need[t] == b.need[t]
  {
    if p == 0 {
      forall j | 0 <= j < b.Types() ensures b.avail[j] == Work(b, {}, j) { HeldEmpty(b, {}, j, b.Threads()); }
    } else {
      PlayedState(b, order, p - 1);
      var t, c := order[p - 1], Played(b, order, p - 1);
      BeforeHas(order, p - 1, t);
      forall j | 0 <= j < b.Types() ensures Finish(c, t).avail[j] == Work(b, Before(order, p), j) {
        HeldAdd(b, Before(order, p - 1), t, j, b.Threads());
      }
    }
  }

  lemma CompletesIffPlays(b: WellShaped, order: seq<nat>)
    requires IsOrder(order, b.Threads())
    ensures Completes(b, order) <==> Plays(b, order)
  {
    forall p | 0 <= p < |order|
      ensures CanFinish(b, order[p], Before(order, p))
        <==> AtMost(Played(b, order, p).need[order[p]], Played(b, order, p).avail)
    {
      PlayedState(b, order, p);
      BeforeHas(order, p, order[p]);
      hide Played, Work;
    }
  }

  /** A state is safe exactly when there is an order in which the threads can be granted all they still need and quit,
      one after another. */
  lemma SafeIffPlays(b: WellShaped)
    ensures Safe(b) <==> exists order :: IsOrder(order, b.Threads()) && |order| == b.Threads() && Plays(b, order)
  {
    hide Completes, Plays;
    forall order | IsOrder(order, b.Threads()) ensures Completes(b, order) <==> Plays(b, order) {
      CompletesIffPlays(b, order);
    }
    CompletesIsOrder(b);
  }

  lemma CompletesIsOrder(b: WellShaped)
    ensures forall order :: Completes(b, order) ==> IsOrder(order, b.Threads())
  {
  }
}
