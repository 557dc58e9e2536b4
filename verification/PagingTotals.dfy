/** The statistics of a simulation, told from its input. */
module PagingTotals {

  // While nothing is swapped out, every search costs its probes in accesses and its new pages in faults. So when
  // memory suffices, the totals are the probes of all searches and the different data pages of all processes.

  import opened Collections
  import opened FrameTable
  import opened BinarySearch
  import opened Paging
  import opened PagingRun
  import opened PagingFit
  import opened PagingLoss
  import opened PagingCounts
  import opened PagingStart
  import opened PagingOutcome

  /** The probes of the first `j` searches of a process. */
  function ProbesOf(i: Input, j: nat): nat
    requires j <= |i.keys|
  {
    if j == 0 then 0 else ProbesOf(i, j - 1) + |Probes(Window(0, i.size - 1), i.keys[j - 1])|
  }

  /** The different data pages that the first `i` processes use, when process `q` has done `done(q)` searches. */
  function DataPages(inputs: seq<Input>, done: nat -> nat, i: nat): int
    requires i <= |inputs| && forall q :: 0 <= q < i ==> done(q) <= |inputs[q].keys|
  {
    if i == 0 then 0 else DataPages(inputs, done, i - 1) + |Uses(inputs[i - 1], done(i - 1))| - ESSENTIAL
  }

  function AllProbes(inputs: seq<Input>, done: nat -> nat, i: nat): int
    requires i <= |inputs| && forall q :: 0 <= q < i ==> done(q) <= |inputs[q].keys|
  {
    if i == 0 then 0 else AllProbes(inputs, done, i - 1) + ProbesOf(inputs[i - 1], done(i - 1))
  }

  /** The searches done when it is the turn of process `p` in round `r`. */
  function Progress(r: nat, p: nat): nat -> nat { q => Done(r, p, q) }

  function AllDone(m: nat): nat -> nat { q => m }

  lemma {:induction false} TotalsStep(inputs: seq<Input>, f: nat -> nat, g: nat -> nat, p: nat, i: nat)
    requires i <= |inputs| && p < |inputs| && f(p) <= |inputs[p].keys| && g(p) <= |inputs[p].keys|
    requires forall q :: 0 <= q < i ==> f(q) <= |inputs[q].keys| && g(q) <= |inputs[q].keys|
    requires forall q :: 0 <= q < i && q != p ==> f(q) == g(q)
    ensures DataPages(inputs, g, i)
      == DataPages(inputs, f, i) + if p < i then |Uses(inputs[p], g(p))| - |Uses(inputs[p], f(p))| else 0
    ensures AllProbes(inputs, g, i)
      == AllProbes(inputs, f, i) + if p < i then ProbesOf(inputs[p], g(p)) - ProbesOf(inputs[p], f(p)) else 0
  {
    hide Uses, ProbesOf;
    if i > 0 { TotalsStep(inputs, f, g, p, i - 1); }
  }

  lemma {:induction false} NothingUsed(inputs: seq<Input>, i: nat)
    requires i <= |inputs|
    ensures DataPages(inputs, Progress(0, 0), i) == 0 && AllProbes(inputs, Progress(0, 0), i) == 0
  {
    hide Upto, PagesFor, Elements;
    if i > 0 {
      NothingUsed(inputs, i - 1);
      assert Uses(inputs[i - 1], 0) == Upto(ESSENTIAL);
    }
  }

  /** One turn of a round costs the probes of its search and the pages it uses for the first time. */
  lemma RoundCosts(m: nat, inputs: seq<Input>, k: Kernel, r: nat, p: nat)
    requires InRound(m, inputs, k, r, p) && p < |inputs| && k.ready != [] && CanSearch(k, p) && Fits(k, p)
    ensures |inputs[p].keys| == m
    ensures var k' := TakeTurn(k).k;
      && k'.faults == k.faults + |Uses(inputs[p], r + 1)| - |Uses(inputs[p], r)|
      && k'.accesses == k.accesses + ProbesOf(inputs[p], r + 1) - ProbesOf(inputs[p], r)
  {
    hide Inv, TakeTurn, Fits, Uses, Probes, Pages, Missing, FrontAfter, BackAfter, Domain, Line;
    SearchPages(Window(0, inputs[p].size - 1), inputs[p].keys[r]);
    FrontOfLine(m, inputs, k, r, p);
    TurnComesTo(k);
    FitsDequeued(k);
    assert ProcAt(m, inputs[p], k.procs[p], Done(r, p, p));
    MissingGrowsUses(m, inputs[p], k.procs[p], r);
  }

  lemma RoundFits(m: nat, inputs: seq<Input>, k: Kernel, r: nat, p: nat)
    requires InRound(m, inputs, k, r, p) && p < |inputs| && CanSearch(k, p) && Suffices(m, inputs)
    ensures Fits(k, p)
  {
    hide Demand, Fits, Inv;
    DemandIsResident(m, inputs, k, r, p);
    if !Fits(k, p) { SwapMeansShort(m, inputs, r, p); }
  }

  lemma {:induction false} RoundTotals(m: nat, inputs: seq<Input>, k: Kernel, r: nat, p: nat)
    requires InRound(m, inputs, k, r, p) && Suffices(m, inputs)
    ensures forall q :: 0 <= q < |inputs| ==> |inputs[q].keys| == m
    ensures var e, n := Run(k, if r == m - 1 then p else 0, 0), |inputs|;
      && e.k.faults - DataPages(inputs, AllDone(m), n) == k.faults - DataPages(inputs, Progress(r, p), n)
      && e.k.accesses - AllProbes(inputs, AllDone(m), n) == k.accesses - AllProbes(inputs, Progress(r, p), n)
    decreases m - r, |inputs| - p
  {
    hide Inv, TakeTurn, Left, ProcAt, Line, Fits, Suffices, DataPages, AllProbes, Uses, ProbesOf;
    var n := |inputs|;
    if p < n {
      FrontOfLine(m, inputs, k, r, p);
      RoundFits(m, inputs, k, r, p);
      RunUnfolds(k, if r == m - 1 then p else 0, 0);
      RoundTurn(m, inputs, k, r, p);
      RoundCosts(m, inputs, k, r, p);
      TotalsStep(inputs, Progress(r, p), Progress(r, p + 1), p, n);
      RoundTotals(m, inputs, TakeTurn(k).k, r, p + 1);
    } else if r + 1 < m && n > 0 {
      RoundWraps(m, inputs, k, r);
      TotalsStep(inputs, Progress(r, n), Progress(r + 1, 0), 0, n);
      RoundTotals(m, inputs, k, r + 1, 0);
    } else {
      if n > 0 { TotalsStep(inputs, Progress(r, n), AllDone(m), 0, n); } else { NoProcesses(AllDone(m), Progress(r, n), inputs); }
    }
  }

  lemma NoProcesses(f: nat -> nat, g: nat -> nat, inputs: seq<Input>)
    ensures DataPages(inputs, f, 0) == DataPages(inputs, g, 0) && AllProbes(inputs, f, 0) == AllProbes(inputs, g, 0)
  {
  }

  /** When memory suffices, the program reports one access for every probe, one fault for every different data page
      of every process, no swap, and all processes as its degree of multiprogramming. */
  lemma StatisticsIfSuffices(m: nat, inputs: seq<Input>)
    requires InputOk(m, inputs) && ESSENTIAL * |inputs| <= USABLE && Suffices(m, inputs)
    ensures var k := Outcome(m, inputs).k;
      && k.accesses == AllProbes(inputs, AllDone(m), |inputs|)
      && k.faults == DataPages(inputs, AllDone(m), |inputs|)
      && k.swaps == 0 && k.minActive == |inputs|
  {
    hide Inv, Run, Suffices, IsLowest, DataPages, AllProbes;
    StartInRound(m, inputs);
    StartInv(m, inputs);
    NothingUsed(inputs, |inputs|);
    StartCounts(m, inputs);
    RoundTotals(m, inputs, Boot(m, inputs).value, 0, 0);
    NeverSwapsIffSuffices(m, inputs);
    DegreeReported(m, inputs);
  }

  lemma StartCounts(m: nat, inputs: seq<Input>)
    requires InputOk(m, inputs) && ESSENTIAL * |inputs| <= USABLE
    ensures var k := Boot(m, inputs).value; k.accesses == 0 && k.faults == 0 && k.minActive == |inputs|
  {
    BootInv(m, inputs, |inputs|);
  }

  /** The ready processes at each swap-out of a simulation. */
  ghost function SwapDegrees(m: nat, inputs: seq<Input>): seq<nat>
    requires InputOk(m, inputs) && ESSENTIAL * |inputs| <= USABLE
  {
    StartInv(m, inputs);
    Degrees(Boot(m, inputs).value, 0)
  }

  /** From any input that boots: the degree reported is at most the number of ready processes at every swap-out and
      that number at one of them, or all processes if nothing was swapped out. */
  lemma DegreeReported(m: nat, inputs: seq<Input>)
    requires InputOk(m, inputs) && ESSENTIAL * |inputs| <= USABLE
    ensures var k, ds := Outcome(m, inputs).k, SwapDegrees(m, inputs);
      && k.swaps == |ds|
      && (forall i :: 0 <= i < |ds| ==> 6 <= k.minActive <= ds[i])
      && if ds == [] then k.minActive == |inputs| else exists i :: 0 <= i < |ds| && k.minActive == ds[i]
  {
    hide Inv, Run, Degrees;
    StartInv(m, inputs);
    StartCounts(m, inputs);
    Simulation(m, inputs);
    RunDegree(Boot(m, inputs).value, 0, 0);
  }
}
