/** What a simulation comes to, told from its input. */
module PagingOutcome {

  // As long as nothing is swapped out the processes take turns in rounds, so what is in memory at every turn can
  // be told from the keys. From that: the simulation never swaps exactly when its peak demand fits; it then counts
  // every process; with one search each it counts every process only then; and twelve processes never make it spin.

  import opened Collections
  import opened FrameTable
  import opened BinarySearch
  import opened Paging
  import opened PagingRun
  import opened PagingFit
  import opened PagingLoss
  import opened PagingStart

  // ----- demand

  /** The pages a process has used after its first `j` searches, with the essential ones. */
  function Uses(i: Input, j: nat): set<nat>
    requires j <= |i.keys|
  {
    if j == 0 then Upto(ESSENTIAL) else Uses(i, j - 1) + Elements(PagesFor(i.size, i.keys[j - 1]))
  }

  /** How many frames a process holds after `j` of `m` searches: none when it has completed. */
  function HeldBy(m: nat, i: Input, j: nat): nat
    requires m <= |i.keys|
  {
    if j >= m then 0 else |Uses(i, j)|
  }

  /** How many searches process `q` has done when it is the turn of process `p` in round `r`. */
  function Done(r: nat, p: nat, q: nat): nat { if q < p then r + 1 else r }

  /** What process `q` holds when process `p` has all pages of its search in round `r`. */
  function Peak(m: nat, inputs: seq<Input>, r: nat, p: nat, q: nat): nat
    requires InputOk(m, inputs) && r < m && p < |inputs| && q < |inputs|
  {
    if q == p then |Uses(inputs[p], r + 1)| else HeldBy(m, inputs[q], Done(r, p, q))
  }

  function Demand(m: nat, inputs: seq<Input>, r: nat, p: nat, i: nat): nat
    requires InputOk(m, inputs) && r < m && p < |inputs| && i <= |inputs|
  {
    if i == 0 then 0 else Demand(m, inputs, r, p, i - 1) + Peak(m, inputs, r, p, i - 1)
  }

  /** All pages that process `p` ever uses, and those that the processes after it use before their last search,
      fit in the frames of the machine. */
  predicate PeakFits(m: nat, inputs: seq<Input>, p: nat)
    requires InputOk(m, inputs) && p < |inputs|
  {
    Demand(m, inputs, m - 1, p, |inputs|) <= USABLE
  }

  predicate Suffices(m: nat, inputs: seq<Input>)
    requires InputOk(m, inputs)
  {
    forall p :: 0 <= p < |inputs| ==> PeakFits(m, inputs, p)
  }

  lemma {:induction false} UsesGrow(i: Input, j: nat, l: nat)
    requires j <= l <= |i.keys|
    ensures Uses(i, j) <= Uses(i, l)
    decreases l
  {
    if j < l { UsesGrow(i, j, l - 1); }
  }

  lemma PagesInTable(size: int, key: int)
    requires size <= MAX_ARRAY
    ensures Elements(PagesFor(size, key)) <= Upto(PAGES)
  {
    hide PagesFor, Upto;
    var pages := PagesFor(size, key);
    forall i | 0 <= i < |pages| ensures pages[i] in Upto(PAGES) { DataPage(size, key, i); }
  }

  lemma {:induction false} UsesInTable(i: Input, j: nat)
    requires j <= |i.keys| && i.size <= MAX_ARRAY
    ensures Uses(i, j) <= Upto(PAGES) && |Uses(i, j)| <= PAGES
  {
    hide PagesFor, Elements, Upto;
    if j > 0 {
      UsesInTable(i, j - 1);
      PagesInTable(i.size, i.keys[j - 1]);
    } else {
      assert Upto(ESSENTIAL) <= Upto(PAGES);
    }
    SubsetSize(Uses(i, j), Upto(PAGES));
  }

  lemma UsesCount(i: Input, j: nat, l: nat)
    requires j <= l <= |i.keys|
    ensures |Uses(i, j)| <= |Uses(i, l)|
  {
    UsesGrow(i, j, l);
    SubsetSize(Uses(i, j), Uses(i, l));
  }

  lemma PeakGrows(m: nat, inputs: seq<Input>, r: nat, p: nat, q: nat)
    requires InputOk(m, inputs) && r + 1 < m && p < |inputs| && q < |inputs|
    ensures Peak(m, inputs, r, p, q) <= Peak(m, inputs, m - 1, 0, q)
  {
    hide Uses;
    UsesCount(inputs[q], if q == p then r + 1 else Done(r, p, q), m - 1);
    UsesCount(inputs[q], m - 1, m);
  }

  /** Demand in an earlier round is never above that of the last. */
  lemma {:induction false} DemandGrows(m: nat, inputs: seq<Input>, r: nat, p: nat, i: nat)
    requires InputOk(m, inputs) && r + 1 < m && p < |inputs| && i <= |inputs|
    ensures Demand(m, inputs, r, p, i) <= Demand(m, inputs, m - 1, 0, i)
  {
    hide InputOk, Peak;
    if i > 0 {
      DemandGrows(m, inputs, r, p, i - 1);
      PeakGrows(m, inputs, r, p, i - 1);
    }
  }

  // ----- rounds without swapping

  /** The process has done `j` of its searches and holds the pages it has used. */
  predicate ProcAt(m: nat, i: Input, p: Proc, j: nat) {
    && |p.table| == PAGES && p.size == i.size && p.keys == i.keys && p.current == j
    && !p.swappedOut && (p.completed <==> j == m)
    && (j < m ==> j <= |i.keys| && Domain(p.table) == Uses(i, j))
  }

  /** The ready queue at the turn of process `p`. */
  function Line(n: nat, p: nat, last: bool): seq<nat>
    requires p <= n
  {
    seq(n - p, x => p + x) + if last then [] else seq(p, x => x)
  }

  /** Nothing was swapped out and it is the turn of process `p` in round `r`. */
  ghost predicate InRound(m: nat, inputs: seq<Input>, k: Kernel, r: nat, p: nat) {
    && InputOk(m, inputs) && r < m && p <= |inputs|
    && Shape(k) && Inv(k, {}) && k.searches == m && |k.procs| == |inputs|
    && k.swaps == 0 && k.swapped == [] && k.ready == Line(|inputs|, p, r == m - 1)
    && forall q :: 0 <= q < |inputs| ==> ProcAt(m, inputs[q], k.procs[q], Done(r, p, q))
  }

  lemma ProcHolds(m: nat, i: Input, k: Kernel, p: Proc, j: nat)
    requires ProcAt(m, i, p, j) && ProcOk(k, p) && k.searches == m && |i.keys| == m
    ensures Resident(p) == HeldBy(m, i, j)
  {
    ResidentSize(p);
  }

  lemma TermIsPeak(m: nat, inputs: seq<Input>, k: Kernel, r: nat, p: nat, q: nat)
    requires InRound(m, inputs, k, r, p) && p < |inputs| && q < |inputs| && CanSearch(k, p)
    ensures Resident(k.procs[q]) + (if q == p then |Missing(k.procs[p].table, PagesOfSearch(k.procs[p]))| else 0)
      == Peak(m, inputs, r, p, q)
  {
    hide Partition, Conserved, Placed, Resident, Missing, PagesOfSearch, Uses;
    assert ProcAt(m, inputs[q], k.procs[q], Done(r, p, q)) && ProcOk(k, k.procs[q]);
    ProcHolds(m, inputs[q], k, k.procs[q], Done(r, p, q));
    if q == p { MissingGrowsUses(m, inputs[p], k.procs[p], r); }
  }

  lemma {:induction false} SumOfPeaks(m: nat, inputs: seq<Input>, procs: seq<Proc>, r: nat, p: nat, x: nat, i: nat)
    requires InputOk(m, inputs) && r < m && p < |inputs| == |procs| && i <= |inputs|
    requires forall q :: 0 <= q < |inputs| ==> Resident(procs[q]) + (if q == p then x else 0) == Peak(m, inputs, r, p, q)
    ensures ResidentTotal(procs, i) + (if p < i then x else 0) == Demand(m, inputs, r, p, i)
  {
    hide InputOk, Peak, Resident;
    if i > 0 { SumOfPeaks(m, inputs, procs, r, p, x, i - 1); }
  }

  /** What is resident, with the pages that the search of `p` still misses, is the demand of the turn. */
  lemma DemandIsResident(m: nat, inputs: seq<Input>, k: Kernel, r: nat, p: nat)
    requires InRound(m, inputs, k, r, p) && p < |inputs| && CanSearch(k, p)
    ensures Fits(k, p) <==> Demand(m, inputs, r, p, |inputs|) <= USABLE
  {
    hide Resident, Missing, PagesOfSearch, Peak, ResidentTotal, Demand;
    forall q | 0 <= q < |inputs|
      ensures Resident(k.procs[q]) + (if q == p then |Missing(k.procs[p].table, PagesOfSearch(k.procs[p]))| else 0)
        == Peak(m, inputs, r, p, q)
    {
      TermIsPeak(m, inputs, k, r, p, q);
    }
    SumOfPeaks(m, inputs, k.procs, r, p, |Missing(k.procs[p].table, PagesOfSearch(k.procs[p]))|, |inputs|);
  }

  lemma MissingGrowsUses(m: nat, i: Input, p: Proc, r: nat)
    requires ProcAt(m, i, p, r) && r < m == |i.keys| && i.size <= MAX_ARRAY
    ensures |Missing(p.table, PagesOfSearch(p))| + HeldBy(m, i, r) == |Uses(i, r + 1)|
  {
    var missing, pages := Missing(p.table, PagesOfSearch(p)), Elements(PagesOfSearch(p));
    assert missing !! Uses(i, r) && Uses(i, r + 1) == Uses(i, r) + missing;
  }

  // ----- one turn

  lemma FrontOfLine(m: nat, inputs: seq<Input>, k: Kernel, r: nat, p: nat)
    requires InRound(m, inputs, k, r, p) && p < |inputs|
    ensures k.ready != [] && k.ready[0] == p && CanSearch(k, p) && Inv(Dequeued(k), {p})
    ensures k.procs[p].current == r
  {
    FrontIsAlive(k);
    assert ProcOk(k, k.procs[p]) && ProcAt(m, inputs[p], k.procs[p], r);
  }

  lemma LineMoves(n: nat, p: nat)
    requires p < n
    ensures Line(n, p, true)[1..] == Line(n, p + 1, true)
    ensures Line(n, p, false)[1..] + [p] == Line(n, p + 1, false)
  {
  }

  /** When the search fits, the round goes on with the next process. */
  lemma RoundTurn(m: nat, inputs: seq<Input>, k: Kernel, r: nat, p: nat)
    requires InRound(m, inputs, k, r, p) && p < |inputs| && k.ready != [] && CanSearch(k, p) && Fits(k, p)
    ensures var t := TakeTurn(k);
      && InRound(m, inputs, t.k, r, p + 1)
      && t.counted == (if r == m - 1 then 1 else 0) && t.missed == 0
  {
    hide Inv, Search, Fits, Line, PagesOfSearch, Domain;
    FrontOfLine(m, inputs, k, r, p);
    LineMoves(|inputs|, p);
    var k1 := Dequeued(k);
    SearchInv(k1, p);
    SearchFits(k1, p);
    FitsDequeued(k);
    var k2 := Search(k1, p);
    assert ProcAt(m, inputs[p], k.procs[p], r);
    TurnIsOk(k);
    var t := TakeTurn(k);
    assert t.k.procs == k2.procs;
    AfterSearchAt(m, inputs[p], k1, k2, p, r);
    forall q | 0 <= q < |inputs| ensures ProcAt(m, inputs[q], t.k.procs[q], Done(r, p + 1, q)) {
      assert ProcAt(m, inputs[q], k.procs[q], Done(r, p, q));
    }
  }

  lemma AfterSearchAt(m: nat, i: Input, k: Kernel, k': Kernel, p: nat, r: nat)
    requires Shape(k) && Shape(k') && p < |k.procs| == |k'.procs| && ProcAt(m, i, k.procs[p], r) && k.searches == m
    requires r < m == |i.keys| && i.size <= MAX_ARRAY
    requires SearchOutcome(k, k', p) && !k'.procs[p].swappedOut
    requires k'.procs[p].size == k.procs[p].size && k'.procs[p].keys == k.procs[p].keys
    requires Alive(k'.procs[p]) ==>
      Domain(k'.procs[p].table) == Domain(k.procs[p].table) + Elements(PagesOfSearch(k.procs[p]))
    ensures ProcAt(m, i, k'.procs[p], r + 1)
  {
  }

  /** When the search does not fit, the turn swaps. */
  lemma TurnSwaps(k: Kernel)
    requires Shape(k) && Inv(k, {}) && k.ready != [] && CanSearch(k, k.ready[0]) && !Fits(k, k.ready[0])
    ensures TakeTurn(k).k.swaps > k.swaps
  {
    hide Inv, Search, Fits;
    FrontIsAlive(k);
    SearchInv(Dequeued(k), k.ready[0]);
    SearchFits(Dequeued(k), k.ready[0]);
    FitsDequeued(k);
  }

  // ----- the whole simulation

  lemma RoundWraps(m: nat, inputs: seq<Input>, k: Kernel, r: nat)
    requires InRound(m, inputs, k, r, |inputs|) && r + 1 < m
    ensures InRound(m, inputs, k, r + 1, 0)
  {
    hide Inv;
    assert Line(|inputs|, |inputs|, false) == Line(|inputs|, 0, r + 1 == m - 1);
    forall q | 0 <= q < |inputs| ensures ProcAt(m, inputs[q], k.procs[q], r + 1) {
      assert ProcAt(m, inputs[q], k.procs[q], Done(r, |inputs|, q));
    }
  }

  /** A turn that swaps in an earlier round shows that memory does not suffice. */
  lemma SwapMeansShort(m: nat, inputs: seq<Input>, r: nat, p: nat)
    requires InputOk(m, inputs) && r < m && p < |inputs| && Demand(m, inputs, r, p, |inputs|) > USABLE
    ensures !Suffices(m, inputs)
  {
    if r < m - 1 {
      DemandGrows(m, inputs, r, p, |inputs|);
      assert !PeakFits(m, inputs, 0);
    } else {
      assert !PeakFits(m, inputs, p);
    }
  }

  /** From here on the last round fits. */
  predicate RestFits(m: nat, inputs: seq<Input>, r: nat, p: nat)
    requires InputOk(m, inputs)
  {
    forall q :: 0 <= q < |inputs| && (r == m - 1 ==> p <= q) ==> PeakFits(m, inputs, q)
  }

  lemma {:induction false} RoundRun(m: nat, inputs: seq<Input>, k: Kernel, r: nat, p: nat)
    requires InRound(m, inputs, k, r, p) && inputs != []
    ensures var e := Run(k, if r == m - 1 then p else 0, 0);
      && (Suffices(m, inputs) ==> e.k.swaps == 0 && e.missed == 0)
      && (e.k.swaps == 0 ==> RestFits(m, inputs, r, p))
    decreases m - r, |inputs| - p
  {
    hide Inv, TakeTurn, Left, ProcAt, Demand, Line, Fits;
    if p == |inputs| {
      if r + 1 < m {
        RoundWraps(m, inputs, k, r);
        RoundRun(m, inputs, k, r + 1, 0);
      }
    } else {
      FrontOfLine(m, inputs, k, r, p);
      DemandIsResident(m, inputs, k, r, p);
      var counted := if r == m - 1 then p else 0;
      RunUnfolds(k, counted, 0);
      if Fits(k, p) {
        RoundTurn(m, inputs, k, r, p);
        RoundRun(m, inputs, TakeTurn(k).k, r, p + 1);
      } else {
        TurnSwaps(k);
        SwapMeansShort(m, inputs, r, p);
        var t := TakeTurn(k);
        SwapsGrow(t.k, counted + t.counted, t.missed);
      }
    }
  }

  lemma BootedDomain(p: Proc, i: Input)
    requires |p.table| == PAGES && Booted(p, i)
    ensures Domain(p.table) == Upto(ESSENTIAL)
  {
    hide Upto;
    ResidentSize(p);
    var domain := Domain(p.table);
    if g :| g in domain && g !in Upto(ESSENTIAL) {
      SubsetSize(Upto(ESSENTIAL) + {g}, domain);
    }
  }

  lemma StartInRound(m: nat, inputs: seq<Input>)
    requires InputOk(m, inputs) && ESSENTIAL * |inputs| <= USABLE
    ensures InRound(m, inputs, Boot(m, inputs).value, 0, 0)
  {
    hide Upto, Partition, Conserved, Resident, Domain, Inv;
    var k := Boot(m, inputs).value;
    StartInv(m, inputs);
    BootInv(m, inputs, |inputs|);
    assert k.ready == Line(|inputs|, 0, 0 == m - 1);
    forall p | 0 <= p < |inputs| ensures ProcAt(m, inputs[p], k.procs[p], 0) {
      assert Booted(k.procs[p], inputs[p]);
      BootedDomain(k.procs[p], inputs[p]);
    }
  }

  /** The outcome of a simulation from its input. */
  ghost function Outcome(m: nat, inputs: seq<Input>): Ended
    requires InputOk(m, inputs) && ESSENTIAL * |inputs| <= USABLE
  {
    StartInv(m, inputs);
    Run(Boot(m, inputs).value, 0, 0)
  }

  /** The simulation never swaps exactly when memory suffices, and then it counts every process. */
  lemma NeverSwapsIffSuffices(m: nat, inputs: seq<Input>)
    requires InputOk(m, inputs) && ESSENTIAL * |inputs| <= USABLE
    ensures Outcome(m, inputs).k.swaps == 0 <==> Suffices(m, inputs)
    ensures Suffices(m, inputs) ==>
      Outcome(m, inputs).missed == 0 && Outcome(m, inputs).counted == |inputs| && !Outcome(m, inputs).spinning
  {
    hide InRound, Run, EndOk, Demand, InputOk;
    Simulation(m, inputs);
    StartInRound(m, inputs);
    if inputs != [] {
      RoundRun(m, inputs, Boot(m, inputs).value, 0, 0);
    } else {
      NobodySwaps(m);
    }
  }

  lemma NobodySwaps(m: nat)
    requires InputOk(m, [])
    ensures Outcome(m, []).k.swaps == 0 && Outcome(m, []).missed == 0 && Suffices(m, [])
  {
    StartInRound(m, []);
  }

  /** Completions go uncounted exactly when some process is swapped out during its last search. */
  lemma UncountedIffLastSearchSwapped(m: nat, inputs: seq<Input>)
    requires InputOk(m, inputs) && ESSENTIAL * |inputs| <= USABLE
    ensures StartReady(m, inputs)
    ensures Outcome(m, inputs).missed > 0 <==> MeetsDoom(Boot(m, inputs).value, 0)
    ensures Outcome(m, inputs).missed > 0 ==> Outcome(m, inputs).counted < |inputs|
  {
    hide Inv, Run, Completed;
    Simulation(m, inputs);
    StartInv(m, inputs);
    MissesIffDoomed(Boot(m, inputs).value, 0);
    CompletedBound(Outcome(m, inputs).k);
  }

  /** With one search each, the simulation counts every process exactly when memory suffices. */
  lemma OneSearchCountsAllIffSuffices(inputs: seq<Input>)
    requires InputOk(1, inputs) && ESSENTIAL * |inputs| <= USABLE
    ensures Outcome(1, inputs).counted == |inputs| <==> Suffices(1, inputs)
  {
    hide Inv, Run, Completed, Suffices;
    Simulation(1, inputs);
    StartInv(1, inputs);
    NeverSwapsIffSuffices(1, inputs);
    CompletedBound(Outcome(1, inputs).k);
    var k := Boot(1, inputs).value;
    if Outcome(1, inputs).missed == 0 { OneSearchSwaps(k, 0); }
  }

  /** Six processes always fit, whatever they search for. */
  lemma SixSuffice(m: nat, inputs: seq<Input>)
    requires InputOk(m, inputs) && |inputs| <= 6
    ensures Suffices(m, inputs)
  {
    hide Demand;
    forall p | 0 <= p < |inputs| ensures PeakFits(m, inputs, p) { DemandBound(m, inputs, m - 1, p, |inputs|); }
  }

  lemma {:induction false} DemandBound(m: nat, inputs: seq<Input>, r: nat, p: nat, i: nat)
    requires InputOk(m, inputs) && r < m && p < |inputs| && i <= |inputs|
    ensures Demand(m, inputs, r, p, i) <= PAGES * i
  {
    hide Peak, InputOk;
    if i > 0 {
      DemandBound(m, inputs, r, p, i - 1);
      PeakBound(m, inputs, r, p, i - 1);
    }
  }

  lemma PeakBound(m: nat, inputs: seq<Input>, r: nat, p: nat, q: nat)
    requires InputOk(m, inputs) && r < m && p < |inputs| && q < |inputs|
    ensures Peak(m, inputs, r, p, q) <= PAGES
  {
    hide Uses, Upto;
    if q == p {
      UsesInTable(inputs[q], r + 1);
    } else if Done(r, p, q) < m {
      UsesInTable(inputs[q], Done(r, p, q));
    }
  }

  /** With at most twelve processes the loop never spins; with more, at most n - 12 are left behind. */
  lemma FewStranded(m: nat, inputs: seq<Input>)
    requires InputOk(m, inputs) && ESSENTIAL * |inputs| <= USABLE
    ensures Outcome(m, inputs).spinning ==> |inputs| > 12 && 1 <= |Outcome(m, inputs).k.swapped| <= |inputs| - 12
  {
    hide Inv, Run;
    StartInRound(m, inputs);
    FewAreStranded(Boot(m, inputs).value, 0, 0, if |inputs| > 12 then |inputs| - 12 else 0);
  }
}
