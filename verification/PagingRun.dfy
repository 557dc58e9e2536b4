/** One turn of the paging loop, and whole runs. */
module PagingRun {

  // A process that finishes its last search inside the swap-in branch is not counted and hands its place to
  // nobody. The results say exactly when that leaves the loop spinning with processes swapped out, and that every
  // other run ends with all processes completed.

  import opened Collections
  import opened FrameTable
  import opened BinarySearch
  import opened Paging

  /** The state after a turn, how many completions the turn counted, and how many it missed. */
  datatype Turn = Turn(k: Kernel, counted: nat, missed: nat)

  /** The body of the loop for a ready queue that is not empty.  A dequeued process is always alive, so
      the program's check for that is not repeated here. */
  ghost function TakeTurn(k: Kernel): (t: Turn)
    requires Shape(k) && Inv(k, {}) && k.ready != []
    ensures Shape(t.k) && |t.k.procs| == |k.procs|
  {
    var pid := k.ready[0];
    FrontIsAlive(k);
    var k1 := k.(ready := k.ready[1..]);
    SearchInv(k1, pid);
    var k2 := Search(k1, pid);
    if k2.procs[pid].completed then
      if k2.swapped != [] && |k2.free| >= ESSENTIAL then SwapIn(k2) else Turn(k2, 1, 0)
    else if !k2.procs[pid].swappedOut then Turn(k2.(ready := k2.ready + [pid]), 0, 0)
    else Turn(k2, 0, 0)
  }

  ghost function SwapIn(k: Kernel): (t: Turn)
    requires Shape(k) && Inv(k, {}) && k.swapped != [] && |k.free| >= ESSENTIAL
    ensures Shape(t.k) && |t.k.procs| == |k.procs|
  {
    ReviveInv(k);
    var q := k.swapped[0];
    var k1 := Revive(k);
    SearchInv(k1, q);
    var k2 := Search(k1, q);
    if Alive(k2.procs[q]) then Turn(k2.(ready := k2.ready + [q]), 1, 0)
    else Turn(k2, 1, if k2.procs[q].completed then 1 else 0)
  }

  // ----- moving a process between the queues and the processor

  lemma FrontIsAlive(k: Kernel)
    requires Shape(k) && Inv(k, {}) && k.ready != []
    ensures k.ready[0] < |k.procs| && Alive(k.procs[k.ready[0]])
    ensures Inv(k.(ready := k.ready[1..]), {k.ready[0]})
  {
    var pid, rest, k1 := k.ready[0], k.ready[1..], k.(ready := k.ready[1..]);
    assert pid in k.ready;
    SameFrames(k, k1);
    assert k.ready == [pid] + rest && pid !in rest;
    forall p | 0 <= p < |k.procs| ensures p in rest <==> Alive(k.procs[p]) && p != pid {
      assert p in k.ready <==> p == pid || p in rest;
    }
  }

  lemma BackOfReady(k: Kernel, pid: nat)
    requires Shape(k) && pid < |k.procs| && Inv(k, {pid})
    ensures Inv(k.(ready := k.ready + [pid]), {})
    ensures |k.ready| < |k.procs|
  {
    SameFrames(k, k.(ready := k.ready + [pid]));
    assert pid !in k.ready;
    DistinctBound(k.ready, |k.procs|);
  }

  // ----- what a turn does

  function Remaining(procs: seq<Proc>, m: nat, i: nat): nat
    requires i <= |procs| && forall p :: 0 <= p < |procs| ==> procs[p].current <= m
  {
    if i == 0 then 0 else Remaining(procs, m, i - 1) + (m - procs[i - 1].current)
  }

  lemma {:induction false} RemainingUpdate(ps: seq<Proc>, qs: seq<Proc>, m: nat, pid: nat, i: nat)
    requires pid < |ps| == |qs| && i <= |ps| && forall p :: 0 <= p < |ps| ==> ps[p].current <= m && qs[p].current <= m
    requires forall p :: 0 <= p < |ps| && p != pid ==> ps[p] == qs[p]
    ensures Remaining(qs, m, i) == Remaining(ps, m, i) + if pid < i then ps[pid].current - qs[pid].current else 0
  {
    if i > 0 { RemainingUpdate(ps, qs, m, pid, i - 1); }
  }

  ghost function Left(k: Kernel): nat
    requires Shape(k) && exists run :: Inv(k, run)
  {
    CurrentBound(k);
    Remaining(k.procs, k.searches, |k.procs|)
  }

  lemma CurrentBound(k: Kernel)
    requires Shape(k) && exists run :: Inv(k, run)
    ensures forall p :: 0 <= p < |k.procs| ==> k.procs[p].current <= k.searches
  {
    var run :| Inv(k, run);
    forall p | 0 <= p < |k.procs| ensures k.procs[p].current <= k.searches {
      assert ProcOk(k, k.procs[p]);
    }
  }

  lemma SearchLeft(k: Kernel, k': Kernel, pid: nat, run: set<nat>)
    requires Shape(k) && Shape(k') && pid < |k.procs| == |k'.procs|
    requires Inv(k, {pid}) && Inv(k', run) && SearchOutcome(k, k', pid)
    ensures Left(k') == if k'.procs[pid].swappedOut then Left(k) else Left(k) - 1
  {
    hide Inv;
    CurrentBound(k);
    CurrentBound(k');
    RemainingUpdate(k.procs, k'.procs, k.searches, pid, |k.procs|);
  }

  lemma SameLeft(k: Kernel, k': Kernel, run: set<nat>, run': set<nat>)
    requires Shape(k) && Shape(k') && Inv(k, run) && Inv(k', run') && k'.searches == k.searches
    requires |k'.procs| == |k.procs| && forall p :: 0 <= p < |k.procs| ==> k'.procs[p].current == k.procs[p].current
    ensures Left(k') == Left(k)
  {
    hide Inv;
    CurrentBound(k);
    CurrentBound(k');
    SameRemaining(k.procs, k'.procs, k.searches, |k.procs|);
  }

  lemma {:induction false} SameRemaining(ps: seq<Proc>, qs: seq<Proc>, m: nat, i: nat)
    requires |ps| == |qs| && i <= |ps| && forall p :: 0 <= p < |ps| ==> ps[p].current <= m && qs[p].current == ps[p].current
    ensures Remaining(ps, m, i) == Remaining(qs, m, i)
  {
    if i > 0 { SameRemaining(ps, qs, m, i - 1); }
  }

  function Completed(k: Kernel): set<nat> {
    set p | 0 <= p < |k.procs| && k.procs[p].completed
  }

  lemma CompletedBy(k: Kernel, k': Kernel, pid: nat)
    requires pid < |k.procs| == |k'.procs| && !k.procs[pid].completed
    requires forall p :: 0 <= p < |k.procs| && p != pid ==> k'.procs[p].completed == k.procs[p].completed
    ensures |Completed(k')| == |Completed(k)| + if k'.procs[pid].completed then 1 else 0
  {
    assert Completed(k') == Completed(k) + if k'.procs[pid].completed then {pid} else {};
  }

  predicate LastSearch(k: Kernel, pid: nat)
    requires pid < |k.procs|
  {
    k.procs[pid].current + 1 == k.searches
  }

  /** What holds of a turn: everything stays in order, work shrinks or the queue does, every completion is
      either counted or missed, and who is left in which queue. */
  ghost predicate TurnOk(k: Kernel, t: Turn)
    requires Shape(k) && Inv(k, {}) && Shape(t.k) && |t.k.procs| == |k.procs|
  {
    && Inv(t.k, {})
    && t.k.searches == k.searches
    && |Completed(t.k)| == |Completed(k)| + t.counted + t.missed
    && (Left(t.k) < Left(k) || (Left(t.k) == Left(k) && |t.k.ready| < |k.ready|))
  }

  /** How the swap-in branch leaves the queues. */
  ghost predicate SwapInQueues(k: Kernel, t: Turn)
    requires k.swapped != [] && k.swapped[0] < |k.procs|
  {
    var q := k.swapped[0];
    var again := |t.k.swapped| == |k.swapped|;
    && t.counted == 1 && |t.k.procs| == |k.procs| && t.k.searches == k.searches
    && (again ==> |k.ready| >= 6 && t.k.ready == k.ready && t.missed == 0)
    && (again ==> t.k.swapped == k.swapped[1..] + [q] && t.k.swaps == k.swaps + 1 && t.k.procs[q].current == k.procs[q].current)
    && (!again ==> t.k.swapped == k.swapped[1..] && t.k.swaps == k.swaps)
    && (forall p :: 0 <= p < |k.procs| && p != q ==> t.k.procs[p] == k.procs[p])
    && (!again && LastSearch(k, k.swapped[0]) ==> t.missed == 1 && t.k.ready == k.ready)
    && (!again && !LastSearch(k, k.swapped[0]) ==> t.missed == 0 && t.k.ready == k.ready + [k.swapped[0]])
  }

  lemma SwapInQueuesOk(k: Kernel)
    requires Shape(k) && Inv(k, {}) && k.swapped != [] && |k.free| >= ESSENTIAL
    ensures k.swapped[0] < |k.procs| && SwapInQueues(k, SwapIn(k))
  {
    hide Inv, ProcOk, Revive, Search, SwapInQueues;
    ReviveInv(k);
    var q, k1 := k.swapped[0], Revive(k);
    FrontIsOut(k);
    SearchInv(k1, q);
    QueuesAfterRevival(k, k1, Search(k1, q), SwapIn(k));
  }

  lemma FrontIsOut(k: Kernel)
    requires Shape(k) && Inv(k, {}) && k.swapped != []
    ensures k.swapped[0] < |k.procs| && !k.procs[k.swapped[0]].completed
  {
    assert k.swapped[0] in k.swapped && ProcOk(k, k.procs[k.swapped[0]]);
  }

  lemma QueuesAfterRevival(k: Kernel, k1: Kernel, k2: Kernel, t: Turn)
    requires k.swapped != [] && k.swapped[0] < |k.procs| == |k1.procs| == |k2.procs|
    requires k1.ready == k.ready && k1.swapped == k.swapped[1..] && k1.searches == k.searches && k1.swaps == k.swaps
    requires k1.procs[k.swapped[0]].current == k.procs[k.swapped[0]].current
    requires forall p :: 0 <= p < |k.procs| && p != k.swapped[0] ==> k1.procs[p] == k.procs[p]
    requires SearchOutcome(k1, k2, k.swapped[0])
    requires var p := k2.procs[k.swapped[0]];
      t == if Alive(p) then Turn(k2.(ready := k2.ready + [k.swapped[0]]), 1, 0) else Turn(k2, 1, if p.completed then 1 else 0)
    ensures SwapInQueues(k, t)
  {
  }

  lemma SwapInOk(k: Kernel)
    requires Shape(k) && Inv(k, {}) && k.swapped != [] && |k.free| >= ESSENTIAL
    ensures var t := SwapIn(k);
      && Inv(t.k, {}) && t.k.searches == k.searches
      && |Completed(t.k)| == |Completed(k)| + t.missed
      && Left(t.k) <= Left(k)
  {
    ReviveInv(k);
    var q := k.swapped[0];
    assert q in k.swapped && ProcOk(k, k.procs[q]);
    var k1 := Revive(k);
    assert !k1.procs[q].completed;
    hide Inv, ProcOk, Search, Revive;
    SearchInv(k1, q);
    var k2 := Search(k1, q);
    AfterSearch(k, k1, k2, q);
  }

  /** The second half of a swap-in: the revived process `q` has searched. */
  lemma AfterSearch(k: Kernel, k1: Kernel, k2: Kernel, q: nat)
    requires Shape(k) && Shape(k1) && Shape(k2) && q < |k.procs| == |k1.procs| == |k2.procs|
    requires Inv(k, {}) && Inv(k1, {q}) && Inv(k2, if Alive(k2.procs[q]) then {q} else {})
    requires SearchOutcome(k1, k2, q) && k1.searches == k.searches
    requires k1.procs[q].current == k.procs[q].current && !k.procs[q].completed && !k1.procs[q].completed
    requires forall p :: 0 <= p < |k.procs| && p != q ==> k1.procs[p] == k.procs[p]
    ensures Left(k2) <= Left(k)
    ensures |Completed(k2)| == |Completed(k)| + if k2.procs[q].completed then 1 else 0
    ensures Alive(k2.procs[q]) ==>
      var k3 := k2.(ready := k2.ready + [q]);
      Inv(k3, {}) && Left(k3) <= Left(k) && |Completed(k3)| == |Completed(k)|
  {
    SearchLeft(k1, k2, q, if Alive(k2.procs[q]) then {q} else {});
    SameLeft(k, k1, {}, {q});
    hide Inv, Left;
    CompletedBy(k, k2, q);
    if Alive(k2.procs[q]) {
      BackOfReady(k2, q);
      var k3 := k2.(ready := k2.ready + [q]);
      SameLeft(k2, k3, {q}, {});
      assert Completed(k3) == Completed(k2);
    }
  }

  /** The first half of a turn: the process at the front of the ready queue has searched. */
  lemma AfterFirstSearch(k: Kernel, k1: Kernel, k2: Kernel, pid: nat)
    requires Shape(k) && Shape(k2) && pid < |k.procs| == |k2.procs| && k1 == k.(ready := k1.ready)
    requires Inv(k, {}) && Inv(k1, {pid}) && Inv(k2, if Alive(k2.procs[pid]) then {pid} else {})
    requires SearchOutcome(k1, k2, pid) && Alive(k.procs[pid])
    ensures k2.searches == k.searches
    ensures Left(k2) == if k2.procs[pid].swappedOut then Left(k) else Left(k) - 1
    ensures |Completed(k2)| == |Completed(k)| + if k2.procs[pid].completed then 1 else 0
    ensures Alive(k2.procs[pid]) ==>
      var k3 := k2.(ready := k2.ready + [pid]);
      Inv(k3, {}) && Left(k3) == Left(k) - 1 && |Completed(k3)| == |Completed(k)|
  {
    SearchLeft(k1, k2, pid, if Alive(k2.procs[pid]) then {pid} else {});
    SameLeft(k, k1, {}, {pid});
    hide Inv, Left;
    CompletedBy(k, k2, pid);
    if Alive(k2.procs[pid]) {
      BackOfReady(k2, pid);
      var k3 := k2.(ready := k2.ready + [pid]);
      SameLeft(k2, k3, {pid}, {});
      assert Completed(k3) == Completed(k2);
    }
  }

  /** Every turn keeps the kernel in order and makes progress. */
  lemma TurnIsOk(k: Kernel)
    requires Shape(k) && Inv(k, {}) && k.ready != []
    ensures TurnOk(k, TakeTurn(k))
  {
    hide Inv, Search, SwapIn, Left, Completed;
    FrontIsAlive(k);
    var pid := k.ready[0];
    var k1 := k.(ready := k.ready[1..]);
    SearchInv(k1, pid);
    var k2 := Search(k1, pid);
    AfterFirstSearch(k, k1, k2, pid);
    if k2.procs[pid].completed && k2.swapped != [] && |k2.free| >= ESSENTIAL {
      SwapInOk(k2);
      SwapInQueuesOk(k2);
    }
  }

  /** No process is ready although some are swapped out: from here the loop spins for ever. */
  predicate Spinning(k: Kernel) {
    k.ready == [] && k.swapped != []
  }

  /** One turn before spinning: the only ready process and the process it would let
      back in are both about to do their last search, and somebody else is swapped out as well. */
  predicate AboutToSpin(k: Kernel)
    requires forall i :: 0 <= i < |k.ready| ==> k.ready[i] < |k.procs|
    requires forall i :: 0 <= i < |k.swapped| ==> k.swapped[i] < |k.procs|
  {
    && |k.ready| == 1 && LastSearch(k, k.ready[0])
    && |k.swapped| >= 2 && LastSearch(k, k.swapped[0])
  }

  /** Where a turn leaves the queues, and what it counts. */
  ghost predicate QueuesAfter(k: Kernel, t: Turn)
    requires k.ready != [] && k.ready[0] < |k.procs|
  {
    && (Spinning(t.k) <==>
          && |k.ready| == 1 && LastSearch(k, k.ready[0])
          && |k.swapped| >= 2 && k.swapped[0] < |k.procs| && LastSearch(k, k.swapped[0]))
    && (Spinning(t.k) ==> t.missed == 1)
    && (t.missed > 0 ==> LastSearch(k, k.ready[0]) && k.swapped != [])
  }

  lemma TurnQueues(k: Kernel)
    requires Shape(k) && Inv(k, {}) && k.ready != []
    ensures k.ready[0] < |k.procs| && QueuesAfter(k, TakeTurn(k))
  {
    FrontIsAlive(k);
    hide Inv, Search, SwapIn, QueuesAfter;
    var pid := k.ready[0];
    var k1 := k.(ready := k.ready[1..]);
    SearchInv(k1, pid);
    var k2 := Search(k1, pid);
    if k2.procs[pid].completed && k2.swapped != [] && |k2.free| >= ESSENTIAL {
      SwapInQueuesOk(k2);
      SwappedIsOther(k, pid);
      QueuesAfterSwapIn(k, k1, k2, SwapIn(k2));
    } else {
      QueuesAfterSearch(k, k1, k2, TakeTurn(k));
    }
  }

  lemma QueuesAfterSwapIn(k: Kernel, k1: Kernel, k2: Kernel, t: Turn)
    requires k.ready != [] && k.ready[0] < |k.procs| == |k2.procs| && k1 == k.(ready := k.ready[1..])
    requires SearchOutcome(k1, k2, k.ready[0]) && k2.procs[k.ready[0]].completed
    requires k2.swapped != [] && k2.swapped[0] < |k.procs| && SwapInQueues(k2, t)
    requires k.swapped != [] ==> k.swapped[0] != k.ready[0]
    ensures QueuesAfter(k, t)
  {
  }

  lemma QueuesAfterSearch(k: Kernel, k1: Kernel, k2: Kernel, t: Turn)
    requires k.ready != [] && k.ready[0] < |k.procs| == |k2.procs| && k1 == k.(ready := k.ready[1..])
    requires SearchOutcome(k1, k2, k.ready[0]) && t.missed == 0
    requires if Alive(k2.procs[k.ready[0]]) then t.k == k2.(ready := k2.ready + [k.ready[0]]) else t.k == k2
    requires k2.procs[k.ready[0]].completed ==> k2.swapped == []
    ensures QueuesAfter(k, t)
  {
  }

  lemma SwappedIsOther(k: Kernel, pid: nat)
    requires Shape(k) && Inv(k, {}) && pid in k.ready && k.swapped != []
    ensures k.swapped[0] != pid
  {
    assert k.swapped[0] in k.swapped;
  }

  /** What a turn does to the processes that are swapped out, and to the balance of the queues. */
  ghost predicate Effect(k: Kernel, t: Turn)
    requires k.ready != [] && k.ready[0] < |k.procs|
  {
    && |t.k.procs| == |k.procs|
    && (t.k.swaps == k.swaps || (t.k.swaps == k.swaps + 1 && t.missed == 0 && |t.k.ready| >= 6 && t.k.swapped != []))
    && (t.missed > 0 ==>
          && t.missed == 1 && t.k.swaps == k.swaps && LastSearch(k, k.ready[0])
          && k.swapped != [] && k.swapped[0] < |k.procs| && LastSearch(k, k.swapped[0]))
    && (forall q :: q in k.swapped && q < |k.procs| && LastSearch(k, q) ==>
          (q == k.swapped[0] && t.missed > 0) || (q in t.k.swapped && LastSearch(t.k, q)))
    && (t.k.swaps == k.swaps ==> t.k.swapped == [] || |t.k.swapped| - |t.k.ready| <= |k.swapped| - |k.ready|)
  }

  lemma TurnEffect(k: Kernel)
    requires Shape(k) && Inv(k, {}) && k.ready != []
    ensures k.ready[0] < |k.procs| && Effect(k, TakeTurn(k))
  {
    FrontIsAlive(k);
    hide Inv, Search, SwapIn, Effect;
    var pid := k.ready[0];
    var k1 := k.(ready := k.ready[1..]);
    SearchInv(k1, pid);
    var k2 := Search(k1, pid);
    SwappedAreOthers(k, pid);
    if k2.procs[pid].completed && k2.swapped != [] && |k2.free| >= ESSENTIAL {
      SwapInQueuesOk(k2);
      EffectOfSwapIn(k, k1, k2, SwapIn(k2));
    } else {
      EffectOfSearch(k, k1, k2, TakeTurn(k));
    }
  }

  lemma SwappedAreOthers(k: Kernel, pid: nat)
    requires Shape(k) && Inv(k, {}) && pid in k.ready
    ensures pid !in k.swapped && Distinct(k.swapped)
  {
  }

  lemma EffectOfSwapIn(k: Kernel, k1: Kernel, k2: Kernel, t: Turn)
    requires k.ready != [] && k.ready[0] < |k.procs| == |k2.procs| && k1 == k.(ready := k.ready[1..])
    requires SearchOutcome(k1, k2, k.ready[0]) && k2.procs[k.ready[0]].completed
    requires k2.swapped != [] && k2.swapped[0] < |k.procs| && SwapInQueues(k2, t)
    requires k.ready[0] !in k.swapped && Distinct(k.swapped)
    ensures Effect(k, t)
  {
    var q, rest := k.swapped[0], k.swapped[1..];
    assert k.swapped == [q] + rest && k2.swapped == k.swapped;
    forall x | x in k.swapped && x < |k.procs| && LastSearch(k, x)
      ensures (x == q && t.missed > 0) || (x in t.k.swapped && LastSearch(t.k, x))
    {
      assert x == q || x in rest;
      assert k2.procs[x] == k.procs[x];
      if |t.k.swapped| == |k2.swapped| {
        assert t.k.swapped[|rest|] == q;
      }
    }
  }

  lemma EffectOfSearch(k: Kernel, k1: Kernel, k2: Kernel, t: Turn)
    requires k.ready != [] && k.ready[0] < |k.procs| == |k2.procs| && k1 == k.(ready := k.ready[1..])
    requires SearchOutcome(k1, k2, k.ready[0]) && t.missed == 0
    requires if Alive(k2.procs[k.ready[0]]) then t.k == k2.(ready := k2.ready + [k.ready[0]]) else t.k == k2
    requires k2.procs[k.ready[0]].completed ==> k2.swapped == []
    requires k.ready[0] !in k.swapped
    ensures Effect(k, t)
  {
    forall x | x in k.swapped && x < |k.procs| && LastSearch(k, x) ensures x in t.k.swapped && LastSearch(t.k, x) {
      assert t.k.procs[x] == k.procs[x];
    }
  }

  /** A turn ends with the loop spinning exactly when it began about to. */
  lemma SpinsExactlyWhen(k: Kernel)
    requires Shape(k) && Inv(k, {}) && k.ready != []
    ensures Spinning(TakeTurn(k).k) <==> AboutToSpin(k)
  {
    TurnQueues(k);
  }

  // ----- whole runs

  /** How the loop ends: the completions it counted and missed, and whether it spins. */
  datatype Ended = Ended(k: Kernel, counted: nat, missed: nat, spinning: bool)

  ghost function Run(k: Kernel, counted: nat, missed: nat): Ended
    requires Shape(k) && Inv(k, {})
    decreases Left(k), |k.ready|
  {
    if counted >= |k.procs| then Ended(k, counted, missed, false)
    else if k.ready == [] then Ended(k, counted, missed, k.swapped != [])
    else
      TurnIsOk(k);
      var t := TakeTurn(k);
      Run(t.k, counted + t.counted, missed + t.missed)
  }

  /** What a run of `n` processes comes to, when it began with `missed` completions already missed: the
      kernel is in order, each completion was counted or missed, the loop spins only after a completion was
      missed, and otherwise all processes are completed. */
  ghost predicate EndOk(n: nat, missed: nat, e: Ended) {
    && Shape(e.k) && Inv(e.k, {}) && |e.k.procs| == n
    && e.counted + e.missed == |Completed(e.k)| && missed <= e.missed
    && (e.spinning ==> e.missed > 0 && Spinning(e.k))
    && (!e.spinning ==> forall p :: 0 <= p < n ==> e.k.procs[p].completed)
    && (!e.spinning ==> (e.counted == n <==> e.missed == 0))
  }

  lemma RunUnfolds(k: Kernel, counted: nat, missed: nat)
    requires Shape(k) && Inv(k, {}) && counted < |k.procs| && k.ready != []
    ensures TurnOk(k, TakeTurn(k))
    ensures Run(k, counted, missed)
         == Run(TakeTurn(k).k, counted + TakeTurn(k).counted, missed + TakeTurn(k).missed)
  {
    hide Inv, TakeTurn, Left;
    TurnIsOk(k);
  }

  lemma {:induction false} RunResult(k: Kernel, counted: nat, missed: nat)
    requires Shape(k) && Inv(k, {}) && (Spinning(k) ==> missed > 0)
    requires counted + missed == |Completed(k)|
    ensures EndOk(|k.procs|, missed, Run(k, counted, missed))
    decreases Left(k), |k.ready|
  {
    hide Inv, TakeTurn, Left, Completed, EndOk, Run;
    if counted >= |k.procs| || k.ready == [] {
      RunStops(k, counted, missed);
    } else {
      RunUnfolds(k, counted, missed);
      var t := TakeTurn(k);
      MissedBeforeSpinning(k);
      RunResult(t.k, counted + t.counted, missed + t.missed);
      MissedGrows(|k.procs|, missed, t.missed, Run(t.k, counted + t.counted, missed + t.missed));
    }
  }

  lemma MissedBeforeSpinning(k: Kernel)
    requires Shape(k) && Inv(k, {}) && k.ready != []
    ensures Spinning(TakeTurn(k).k) ==> TakeTurn(k).missed > 0
  {
    TurnQueues(k);
  }

  lemma MissedGrows(n: nat, missed: nat, more: nat, e: Ended)
    requires EndOk(n, missed + more, e)
    ensures EndOk(n, missed, e)
  {
  }

  lemma RunStops(k: Kernel, counted: nat, missed: nat)
    requires Shape(k) && Inv(k, {}) && (Spinning(k) ==> missed > 0)
    requires counted + missed == |Completed(k)|
    requires counted >= |k.procs| || k.ready == []
    ensures EndOk(|k.procs|, missed, Run(k, counted, missed))
  {
    CompletedBound(k);
    if counted < |k.procs| && k.swapped == [] { NobodyLeft(k); }
    hide Inv, Completed;
  }

  lemma CompletedBound(k: Kernel)
    ensures |Completed(k)| <= |k.procs|
    ensures |Completed(k)| == |k.procs| <==> forall p :: 0 <= p < |k.procs| ==> k.procs[p].completed
  {
    SubsetSize(Completed(k), Upto(|k.procs|));
    if p: nat :| p < |k.procs| && !k.procs[p].completed {
      SubsetSize(Completed(k), Upto(|k.procs|) - {p});
    } else {
      assert Completed(k) == Upto(|k.procs|);
    }
  }

  lemma NobodyLeft(k: Kernel)
    requires Shape(k) && Inv(k, {}) && k.ready == [] && k.swapped == []
    ensures forall p :: 0 <= p < |k.procs| ==> k.procs[p].completed
  {
    forall p | 0 <= p < |k.procs| ensures k.procs[p].completed {
      assert p !in k.swapped && p !in k.ready;
    }
  }

  /** Some state the run passes through is about to spin. */
  ghost predicate MeetsTrouble(k: Kernel, counted: nat)
    requires Shape(k) && Inv(k, {})
    decreases Left(k), |k.ready|
  {
    counted < |k.procs| && k.ready != [] &&
    (AboutToSpin(k) || (TurnIsOk(k); MeetsTrouble(TakeTurn(k).k, counted + TakeTurn(k).counted)))
  }

  lemma SwappedAreLeft(k: Kernel)
    requires Shape(k) && Inv(k, {}) && k.swapped != []
    ensures |Completed(k)| < |k.procs|
  {
    assert k.swapped[0] in k.swapped;
    CompletedBound(k);
  }

  /** A run ends up spinning exactly when it passes through a state that is about to. */
  lemma {:induction false} SpinsIffTrouble(k: Kernel, counted: nat, missed: nat)
    requires Shape(k) && Inv(k, {}) && counted <= |Completed(k)| && !Spinning(k)
    ensures Run(k, counted, missed).spinning <==> MeetsTrouble(k, counted)
    decreases Left(k), |k.ready|
  {
    hide Inv, TakeTurn, Left, Completed;
    if counted < |k.procs| && k.ready != [] {
      RunUnfolds(k, counted, missed);
      SpinsExactlyWhen(k);
      var t := TakeTurn(k);
      if Spinning(t.k) {
        SwappedAreLeft(t.k);
      } else {
        SpinsIffTrouble(t.k, counted + t.counted, missed + t.missed);
      }
    }
  }
}
