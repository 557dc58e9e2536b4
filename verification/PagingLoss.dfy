/** Completions that go uncounted: who they are and how many. */
module PagingLoss {

  // A process that is swapped out during its last search is lost: it can only complete while being swapped in.
  // So a run counts every completion exactly when that never happens, and a run that spins leaves at most twelve
  // fewer processes behind than there are.

  import opened Collections
  import opened FrameTable
  import opened Paging
  import opened PagingRun

  /** Somebody is swapped out with only its last search to do. */
  predicate Doomed(k: Kernel) {
    exists q :: q in k.swapped && q < |k.procs| && LastSearch(k, q)
  }

  /** A doomed kernel misses a completion in the next turn or stays doomed. */
  lemma DoomStays(k: Kernel)
    requires Shape(k) && Inv(k, {}) && k.ready != [] && Doomed(k)
    ensures TakeTurn(k).missed > 0 || Doomed(TakeTurn(k).k)
  {
    hide Inv, TakeTurn;
    TurnEffect(k);
    var q :| q in k.swapped && q < |k.procs| && LastSearch(k, q);
  }

  /** Only a doomed kernel misses a completion. */
  lemma MissedWasDoomed(k: Kernel)
    requires Shape(k) && Inv(k, {}) && k.ready != []
    ensures TakeTurn(k).missed > 0 ==> Doomed(k)
  {
    hide Inv, TakeTurn;
    TurnEffect(k);
    assert TakeTurn(k).missed > 0 ==> k.swapped[0] in k.swapped;
  }

  lemma MissedAdds(k: Kernel, counted: nat, missed: nat)
    requires Shape(k) && Inv(k, {}) && counted + missed == |Completed(k)| && (Spinning(k) ==> missed > 0)
    ensures Run(k, counted, missed).missed >= missed
  {
    RunResult(k, counted, missed);
  }

  /** From a doomed kernel every run misses a completion. */
  lemma {:induction false} DoomedIsMissed(k: Kernel, counted: nat)
    requires Shape(k) && Inv(k, {}) && counted == |Completed(k)| && !Spinning(k) && Doomed(k)
    ensures Run(k, counted, 0).missed > 0
    decreases Left(k), |k.ready|
  {
    hide Inv, TakeTurn, Left, Completed, Run, Doomed;
    SomebodyOut(k);
    SwappedAreLeft(k);
    RunUnfolds(k, counted, 0);
    var t := TakeTurn(k);
    DoomStays(k);
    MissedBeforeSpinning(k);
    if t.missed > 0 {
      MissedAdds(t.k, counted + t.counted, t.missed);
    } else {
      DoomedIsMissed(t.k, counted + t.counted);
    }
  }

  lemma SomebodyOut(k: Kernel)
    requires Doomed(k)
    ensures k.swapped != []
  {
  }

  /** The run passes through a doomed state before it stops. */
  ghost predicate MeetsDoom(k: Kernel, counted: nat)
    requires Shape(k) && Inv(k, {})
    decreases Left(k), |k.ready|
  {
    Doomed(k) || (counted < |k.procs| && k.ready != []
      && (TurnIsOk(k); MeetsDoom(TakeTurn(k).k, counted + TakeTurn(k).counted)))
  }

  /** A run misses a completion exactly when somebody is swapped out during its last search. */
  lemma {:induction false} MissesIffDoomed(k: Kernel, counted: nat)
    requires Shape(k) && Inv(k, {}) && counted == |Completed(k)| && !Spinning(k)
    ensures Run(k, counted, 0).missed > 0 <==> MeetsDoom(k, counted)
    decreases Left(k), |k.ready|
  {
    hide Inv, TakeTurn, Left, Completed, Doomed;
    if Doomed(k) {
      DoomedIsMissed(k, counted);
    } else if counted < |k.procs| && k.ready != [] {
      RunUnfolds(k, counted, 0);
      MissedWasDoomed(k);
      MissedBeforeSpinning(k);
      var t := TakeTurn(k);
      MissesIffDoomed(t.k, counted + t.counted);
    }
  }

  // ----- swaps

  lemma {:induction false} SwapsGrow(k: Kernel, counted: nat, missed: nat)
    requires Shape(k) && Inv(k, {})
    ensures Run(k, counted, missed).k.swaps >= k.swaps
    decreases Left(k), |k.ready|
  {
    hide Inv, TakeTurn, Left;
    if counted < |k.procs| && k.ready != [] {
      RunUnfolds(k, counted, missed);
      TurnEffect(k);
      var t := TakeTurn(k);
      SwapsGrow(t.k, counted + t.counted, missed + t.missed);
    }
  }

  /** With one search each, whoever is swapped out is doomed. */
  lemma OneSearchDooms(k: Kernel)
    requires Shape(k) && Inv(k, {}) && k.searches == 1 && k.swapped != []
    ensures Doomed(k)
  {
    var q := k.swapped[0];
    assert q in k.swapped && ProcOk(k, k.procs[q]);
  }

  /** With one search each, a run counts everybody only if it never swaps. */
  lemma {:induction false} OneSearchSwaps(k: Kernel, counted: nat)
    requires Shape(k) && Inv(k, {}) && k.searches == 1 && counted == |Completed(k)| && !Spinning(k)
    requires Run(k, counted, 0).missed == 0
    ensures Run(k, counted, 0).k.swaps == k.swaps
    decreases Left(k), |k.ready|
  {
    hide Inv, TakeTurn, Left, Completed, Doomed;
    if counted < |k.procs| && k.ready != [] {
      RunUnfolds(k, counted, 0);
      TurnEffect(k);
      MissedBeforeSpinning(k);
      var t := TakeTurn(k);
      MissedAdds(t.k, counted + t.counted, t.missed);
      if t.k.swaps > k.swaps {
        OneSearchDooms(t.k);
        DoomedIsMissed(t.k, counted + t.counted);
      }
      OneSearchSwaps(t.k, counted + t.counted);
    }
  }

  // ----- how many can be left behind

  /** At most so many more are swapped out than ready. */
  predicate Balance(k: Kernel, x: nat) { |k.swapped| <= |k.ready| + x }

  lemma PlacesTaken(k: Kernel)
    requires Shape(k) && Inv(k, {})
    ensures |k.ready| + |k.swapped| <= |k.procs|
  {
    var both := k.ready + k.swapped;
    forall i, j | 0 <= i < j < |both| ensures both[i] != both[j] {
      assert both[i] in k.ready || both[i] in k.swapped;
      if i < |k.ready| <= j {
        assert both[i] in k.ready && both[j] in k.swapped;
      }
    }
    DistinctBound(both, |k.procs|);
  }

  lemma TurnBalance(k: Kernel, x: nat)
    requires Shape(k) && Inv(k, {}) && k.ready != [] && Balance(k, x) && |k.procs| <= 12 + x
    ensures Balance(TakeTurn(k).k, x)
  {
    TurnIsOk(k);
    TurnEffect(k);
    PlacesTaken(TakeTurn(k).k);
  }

  /** A swap-out leaves six ready, so when the loop ends at most n - 12 processes are still out; with at most
      twelve processes it never spins. */
  lemma {:induction false} FewAreStranded(k: Kernel, counted: nat, missed: nat, x: nat)
    requires Shape(k) && Inv(k, {}) && Balance(k, x) && |k.procs| <= 12 + x
    ensures Run(k, counted, missed).spinning ==> 1 <= |Run(k, counted, missed).k.swapped| <= x
    decreases Left(k), |k.ready|
  {
    hide Inv, TakeTurn, Left;
    if counted < |k.procs| && k.ready != [] {
      RunUnfolds(k, counted, missed);
      TurnBalance(k, x);
      var t := TakeTurn(k);
      FewAreStranded(t.k, counted + t.counted, missed + t.missed, x);
    }
  }
}
