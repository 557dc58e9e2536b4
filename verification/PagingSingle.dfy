/** Simulations with one search for each process. */
module PagingSingle {

  // With one search each, a search needs at most thirteen pages, so memory is short at most once: when as many
  // processes are booted as can be, and the first of them finds the eight frames left too few. It is swapped out,
  // let back in after the next completion, and completes uncounted. Nothing else can go wrong.

  import opened Collections
  import opened FrameTable
  import opened BinarySearch
  import opened Paging
  import opened PagingRun
  import opened PagingFit
  import opened PagingStart
  import opened PagingOutcome

  // ----- how many pages a search needs

  /** The different pages that a search of an array of `size` elements touches. */
  function PagesNeeded(size: int, key: int): set<nat> { Elements(PagesFor(size, key)) }

  /** All indices of a window no wider than a page lie in two pages. */
  lemma NarrowWindow(w: Window, key: int)
    requires w.hi - w.lo <= PER_PAGE
    ensures |Elements(Pages(Probes(w, key)))| <= 2
  {
    var probes := Probes(w, key);
    if probes != [] { PagesAt(probes, 0); }
    forall i | 0 <= i < |Pages(probes)| ensures Pages(probes)[i] in {PageOf(w.lo), PageOf(w.lo) + 1} {
      ProbesInside(w, key, i);
      PagesAt(probes, i);
    }
    SubsetSize(Elements(Pages(probes)), {PageOf(w.lo), PageOf(w.lo) + 1});
  }

  lemma FirstPage(w: Window, key: int)
    requires w.Open()
    ensures Elements(Pages(Probes(w, key))) == Elements(Pages(Probes(w.Narrow(key), key))) + {PageOf(w.Middle())}
  {
    hide Elements;
    var pages := Pages(Probes(w, key));
    assert Probes(w, key)[1..] == Probes(w.Narrow(key), key);
    ElementsCons(pages);
  }

  /** Every halving of a window of pages adds one page. */
  lemma {:induction false} FewPages(w: Window, key: int, b: nat)
    requires w.hi - w.lo <= PER_PAGE * PowerOfTwo(b)
    ensures |Elements(Pages(Probes(w, key)))| <= b + 2
    decreases b
  {
    hide Elements, PageOf;
    if b > 0 && w.Open() {
      FewPages(w.Narrow(key), key, b - 1);
      FirstPage(w, key);
    } else {
      NarrowWindow(w, key);
    }
  }

  lemma ThirteenPages(size: int, key: int)
    requires size <= MAX_ARRAY
    ensures |PagesNeeded(size, key)| <= 13
  {
    hide Elements;
    assert PowerOfTwo(11) == 2048;
    FewPages(Window(0, size - 1), key, 11);
  }

  // ----- turns

  /** At most one process is in trouble, and once one is there is room for any search. */
  ghost predicate Roomy(k: Kernel, missed: nat) {
    && Shape(k) && Inv(k, {}) && k.searches == 1
    && |k.swapped| + missed <= 1
    && |k.free| >= if |k.swapped| + missed == 1 then 18 else 8
  }

  lemma SearchNeeds(k: Kernel, pid: nat)
    requires CanSearch(k, pid)
    ensures |Missing(k.procs[pid].table, PagesOfSearch(k.procs[pid]))| <= 13
    ensures |Elements(PagesOfSearch(k.procs[pid]))| <= 13
  {
    hide Domain, Elements, PagesFor;
    var p := k.procs[pid];
    ThirteenPages(p.size, p.keys[p.current]);
    SubsetSize(Missing(p.table, PagesOfSearch(p)), Elements(PagesOfSearch(p)));
  }

  /** A process in memory holds at least ten frames, one out of memory none. */
  lemma HoldsTen(k: Kernel, run: set<nat>, pid: nat)
    requires Shape(k) && pid < |k.procs| && Inv(k, run)
    ensures Alive(k.procs[pid]) ==> Resident(k.procs[pid]) >= ESSENTIAL
    ensures !Alive(k.procs[pid]) ==> Resident(k.procs[pid]) == 0
    ensures Conserved(k) && (k.searches == 1 && !k.procs[pid].completed ==> LastSearch(k, pid))
  {
    hide Resident;
    assert ProcOk(k, k.procs[pid]);
    if Alive(k.procs[pid]) { EssentialsCount(k.procs[pid]); }
  }

  /** The only search of a process ends with the process out of memory and its frames free. */
  lemma SingleSearch(k: Kernel, pid: nat)
    requires Shape(k) && pid < |k.procs| && Inv(k, {pid}) && k.searches == 1
    ensures CanSearch(k, pid) && Inv(Search(k, pid), {})
    ensures var k' := Search(k, pid);
      && SearchOutcome(k, k', pid)
      && (k'.procs[pid].swappedOut || k'.procs[pid].completed)
      && (k'.procs[pid].swappedOut ==> |k.free| < 13)
      && |k'.free| >= |k.free| + ESSENTIAL
  {
    hide Inv, Search, Missing, PagesOfSearch, Resident, Conserved;
    SearchInv(k, pid);
    SearchFits(k, pid);
    SearchNeeds(k, pid);
    var k' := Search(k, pid);
    RunnerFlags(k, pid);
    HoldsTen(k, {pid}, pid);
    HoldsTen(k', {}, pid);
    RunnerHolds(k, pid);
    FreeBalance(k, k', pid);
  }

  lemma RunnerHolds(k: Kernel, pid: nat)
    requires Shape(k) && pid < |k.procs| && Inv(k, {pid})
    ensures Alive(k.procs[pid])
  {
  }

  lemma NotReady(k: Kernel, k': Kernel)
    requires Inv(k, {}) && Inv(k', {}) && k.swapped != [] && k.swapped[0] < |k.procs| == |k'.procs| && k'.ready == k.ready
    ensures !Alive(k.procs[k.swapped[0]]) && !Alive(k'.procs[k.swapped[0]])
  {
    assert k.swapped[0] in k.swapped;
  }

  /** Letting somebody back in with room for any search misses one completion and leaves the frames as they were. */
  lemma SingleSwapIn(k: Kernel)
    requires Shape(k) && Inv(k, {}) && k.searches == 1 && |k.swapped| == 1 && |k.free| >= 28
    ensures var t := SwapIn(k); t.missed == 1 && t.k.swapped == [] && |t.k.free| == |k.free|
  {
    hide Inv, SwapIn, Resident, PagesOfSearch, Elements, Conserved;
    SwapInMisses(k);
    SwapInQueuesOk(k);
    SwapInOk(k);
    var q, t := k.swapped[0], SwapIn(k);
    FrontIsOut(k);
    HoldsTen(k, {}, q);
    SearchNeeds(k, q);
    NotReady(k, t.k);
    HoldsTen(t.k, {}, q);
    FreeBalance(k, t.k, q);
  }

  lemma TurnKeepsRoom(k: Kernel, missed: nat)
    requires Roomy(k, missed) && k.ready != []
    ensures Roomy(TakeTurn(k).k, missed + TakeTurn(k).missed)
  {
    hide Inv, Search, SwapIn;
    TurnIsOk(k);
    FrontIsAlive(k);
    var k1 := Dequeued(k);
    SingleSearch(k1, k.ready[0]);
    var k2 := Search(k1, k.ready[0]);
    if k2.procs[k.ready[0]].completed && k2.swapped != [] { SingleSwapIn(k2); }
  }

  lemma {:induction false} RunKeepsRoom(k: Kernel, counted: nat, missed: nat)
    requires Roomy(k, missed)
    ensures var e := Run(k, counted, missed); e.missed + |e.k.swapped| <= 1
    decreases Left(k), |k.ready|
  {
    hide Inv, TakeTurn, Left;
    if counted < |k.procs| && k.ready != [] {
      RunUnfolds(k, counted, missed);
      TurnKeepsRoom(k, missed);
      var t := TakeTurn(k);
      RunKeepsRoom(t.k, counted + t.counted, missed + t.missed);
    }
  }

  // ----- the whole simulation

  /** As many processes as can be booted, and the first needs more than the eight frames that are left. */
  predicate Overfull(inputs: seq<Input>)
    requires InputOk(1, inputs)
  {
    ESSENTIAL * |inputs| + 8 == USABLE && |PagesNeeded(inputs[0].size, inputs[0].keys[0])| > 8
  }

  lemma UsesOfOne(i: Input)
    requires |i.keys| == 1 && i.size <= MAX_ARRAY
    ensures |Uses(i, 0)| == ESSENTIAL && |Uses(i, 1)| == ESSENTIAL + |PagesNeeded(i.size, i.keys[0])|
  {
    hide Upto, PagesFor;
    var pages := PagesFor(i.size, i.keys[0]);
    assert Uses(i, 0) == Upto(ESSENTIAL);
    forall j | 0 <= j < |pages| ensures pages[j] !in Upto(ESSENTIAL) { DataPage(i.size, i.keys[0], j); }
    assert Upto(ESSENTIAL) !! Elements(pages);
  }

  lemma PeakOfOne(inputs: seq<Input>, p: nat, q: nat)
    requires InputOk(1, inputs) && p < |inputs| && q < |inputs|
    ensures Peak(1, inputs, 0, p, q) == if q < p then 0 else if q > p then ESSENTIAL
      else ESSENTIAL + |PagesNeeded(inputs[p].size, inputs[p].keys[0])|
  {
    hide PagesNeeded, Uses;
    UsesOfOne(inputs[q]);
  }

  /** When it is the turn of a process, those before it are gone and those after it hold ten frames each. */
  lemma {:induction false} DemandOfOne(inputs: seq<Input>, p: nat, i: nat)
    requires InputOk(1, inputs) && p < |inputs| && i <= |inputs|
    ensures Demand(1, inputs, 0, p, i) ==
      if i <= p then 0 else ESSENTIAL * (i - p) + |PagesNeeded(inputs[p].size, inputs[p].keys[0])|
  {
    hide Peak, InputOk, PagesNeeded;
    if i > 0 {
      DemandOfOne(inputs, p, i - 1);
      PeakOfOne(inputs, p, i - 1);
    }
  }

  lemma OverfullIsShort(inputs: seq<Input>)
    requires InputOk(1, inputs) && ESSENTIAL * |inputs| <= USABLE
    ensures Suffices(1, inputs) <==> !Overfull(inputs)
  {
    hide Demand, PagesNeeded;
    forall p | 0 <= p < |inputs| ensures PeakFits(1, inputs, p) <==> !(Overfull(inputs) && p == 0) {
      DemandOfOne(inputs, p, |inputs|);
      ThirteenPages(inputs[p].size, inputs[p].keys[0]);
    }
    assert Overfull(inputs) ==> !PeakFits(1, inputs, 0);
  }

  lemma StartRoomy(inputs: seq<Input>)
    requires InputOk(1, inputs) && ESSENTIAL * |inputs| <= USABLE
    ensures StartReady(1, inputs) && Roomy(Boot(1, inputs).value, 0)
  {
    hide Inv;
    StartInv(1, inputs);
    BootInv(1, inputs, |inputs|);
  }

  /** With one search each the simulation always ends, and it counts everybody, or everybody but one exactly when
      the machine is overfull. */
  lemma OneSearchOutcome(inputs: seq<Input>)
    requires InputOk(1, inputs) && ESSENTIAL * |inputs| <= USABLE
    ensures !Outcome(1, inputs).spinning
    ensures Outcome(1, inputs).counted == |inputs| - if Overfull(inputs) then 1 else 0
  {
    hide Inv, Run, Suffices, Completed, Overfull, Boot, InputOk;
    StartRoomy(inputs);
    RunKeepsRoom(Boot(1, inputs).value, 0, 0);
    Simulation(1, inputs);
    OneSearchCountsAllIffSuffices(inputs);
    OverfullIsShort(inputs);
    CompletedBound(Outcome(1, inputs).k);
  }

  // ----- an input whose simulation loses a completion

  /** As many processes as can be booted; the first searches 2^20 integers, the others a single one. */
  const CROWD: seq<Input> := [Input(0x10_0000, [0])] + seq(1227, _ => Input(1, [0]))

  lemma {:induction false} Positive(k: nat)
    ensures PowerOfTwo(k) >= 1
  {
    if k > 0 { Positive(k - 1); }
  }

  /** The last index of the first 2^j elements. */
  function Mark(j: nat): nat {
    Positive(j);
    PowerOfTwo(j) - 1
  }

  /** A search for the first of 2^k elements halves its way down. */
  lemma HalvingStep(k: nat)
    requires k > 0
    ensures Elements(PagesFor(PowerOfTwo(k), 0)) == {PageOf(Mark(k - 1))} + Elements(PagesFor(PowerOfTwo(k - 1), 0))
  {
    hide Elements, PageOf;
    Positive(k - 1);
    var w := Window(0, PowerOfTwo(k) - 1);
    var probes := Probes(w, 0);
    assert w.Middle() == Mark(k - 1) && w.Narrow(0) == Window(0, Mark(k - 1));
    assert probes[0] == Mark(k - 1) && probes[1..] == Probes(w.Narrow(0), 0);
    assert Pages(probes)[1..] == Pages(probes[1..]);
    ElementsCons(Pages(probes));
  }

  lemma {:induction false} HalvingHits(k: nat, j: nat)
    requires j < k
    ensures PageOf(Mark(j)) in Elements(PagesFor(PowerOfTwo(k), 0))
  {
    hide Elements, PagesFor, PageOf, Mark, PowerOfTwo;
    HalvingStep(k);
    if j < k - 1 { HalvingHits(k - 1, j); }
  }

  /** Nine data pages of the search that starts the crowd. */
  const NINE := {11, 13, 17, 25, 41, 73, 137, 265, 521}

  lemma Marks()
    ensures PageOf(Mark(11)) == 11 && PageOf(Mark(12)) == 13 && PageOf(Mark(13)) == 17
    ensures PageOf(Mark(14)) == 25 && PageOf(Mark(15)) == 41 && PageOf(Mark(16)) == 73
    ensures PageOf(Mark(17)) == 137 && PageOf(Mark(18)) == 265 && PageOf(Mark(19)) == 521
    ensures PowerOfTwo(20) == 0x10_0000
  {
    assert PowerOfTwo(5) == 32;
    assert PowerOfTwo(10) == 1024;
    assert PowerOfTwo(15) == 0x8000;
  }

  lemma NinePages()
    ensures |PagesNeeded(0x10_0000, 0)| >= 9
  {
    hide Elements, PagesFor, Mark, PageOf, PowerOfTwo;
    Marks();
    forall g | g in NINE ensures g in PagesNeeded(0x10_0000, 0) {
      var j := if g == 11 then 11 else if g == 13 then 12 else if g == 17 then 13 else if g == 25 then 14
        else if g == 41 then 15 else if g == 73 then 16 else if g == 137 then 17 else if g == 265 then 18 else 19;
      HalvingHits(20, j);
    }
    SubsetSize(NINE, PagesNeeded(0x10_0000, 0));
  }

  /** The crowd boots, but its simulation ends with one completion that was never counted. */
  lemma CrowdLosesOne()
    ensures InputOk(1, CROWD) && ESSENTIAL * |CROWD| <= USABLE
    ensures var e := Outcome(1, CROWD); e.missed == 1 && e.counted == |CROWD| - 1 && e.k.swaps > 0
  {
    hide PagesNeeded, Run, Suffices;
    CrowdOk();
    NinePages();
    OneSearchOutcome(CROWD);
    OverfullIsShort(CROWD);
    NeverSwapsIffSuffices(1, CROWD);
    Simulation(1, CROWD);
    CompletedBound(Outcome(1, CROWD).k);
  }

  lemma CrowdOk()
    ensures InputOk(1, CROWD) && |CROWD| == 1228
    ensures CROWD[0] == Input(0x10_0000, [0])
  {
  }
}
