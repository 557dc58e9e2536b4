/** Demand paging: loading pages, searching, swapping out and in. */
module Paging {
  import opened Collections
  import opened FrameTable
  import opened BinarySearch

  datatype Loaded = Loaded(k: Kernel, ok: bool)

  function LoadPage(k: Kernel, pid: nat, page: nat): (r: Loaded)
    requires Shape(k) && pid < |k.procs| && page < PAGES
    ensures Shape(r.k) && |r.k.procs| == |k.procs|
  {
    if k.procs[pid].table[page].Some? then Loaded(k, true)
    else
      var k1 := k.(faults := k.faults + 1);
      if k.free == [] then Loaded(k1, false) else Loaded(Assign(k1, pid, page), true)
  }

  function Touch(k: Kernel, pid: nat, page: nat): (r: Loaded)
    requires Shape(k) && pid < |k.procs| && page < PAGES
    ensures Shape(r.k) && |r.k.procs| == |k.procs|
  {
    LoadPage(k.(accesses := k.accesses + 1), pid, page)
  }

  predicate InTable(pages: seq<nat>) {
    forall i :: 0 <= i < |pages| ==> pages[i] < PAGES
  }

  /** Touches pages one after another until one cannot be loaded. */
  function TouchAll(k: Kernel, pid: nat, pages: seq<nat>): (r: Loaded)
    requires Shape(k) && pid < |k.procs| && InTable(pages)
    ensures Shape(r.k) && |r.k.procs| == |k.procs|
    decreases |pages|
  {
    if pages == [] then Loaded(k, true)
    else
      var r := Touch(k, pid, pages[0]);
      if r.ok then TouchAll(r.k, pid, pages[1..]) else r
  }

  /** The process leaves memory; the lowest degree of multiprogramming seen at a swap-out is recorded. */
  function SwapOut(k: Kernel, pid: nat): (k': Kernel)
    requires Shape(k) && pid < |k.procs|
    ensures Shape(k') && |k'.procs| == |k.procs|
  {
    var k1 := FreeProcessFrames(k.(swaps := k.swaps + 1), pid);
    var k2 := WithProc(k1, pid, k1.procs[pid].(swappedOut := true));
    var active := |k.ready|;
    k2.(swapped := k2.swapped + [pid],
        minActive := if k2.swaps == 1 || active < k2.minActive then active else k2.minActive)
  }

  function FinishSearch(k: Kernel, pid: nat): (k': Kernel)
    requires Shape(k) && pid < |k.procs|
    ensures Shape(k') && |k'.procs| == |k.procs|
  {
    var k1 := WithProc(k, pid, k.procs[pid].(current := k.procs[pid].current + 1));
    if k1.procs[pid].current >= k.searches then
      FreeProcessFrames(WithProc(k1, pid, k1.procs[pid].(completed := true)), pid)
    else k1
  }

  function PagesOfSearch(p: Proc): (pages: seq<nat>)
    requires p.size <= MAX_ARRAY && p.current < |p.keys|
    ensures InTable(pages)
  {
    SearchPages(Window(0, p.size - 1), p.keys[p.current]);
    PagesFor(p.size, p.keys[p.current])
  }

  predicate CanSearch(k: Kernel, pid: nat) {
    Shape(k) && pid < |k.procs| && k.procs[pid].size <= MAX_ARRAY && k.procs[pid].current < |k.procs[pid].keys|
  }

  function Search(k: Kernel, pid: nat): (k': Kernel)
    requires CanSearch(k, pid)
    ensures Shape(k') && |k'.procs| == |k.procs|
  {
    var r := TouchAll(k, pid, PagesOfSearch(k.procs[pid]));
    if r.ok then FinishSearch(r.k, pid) else SwapOut(r.k, pid)
  }

  function LoadEssential(k: Kernel, pid: nat, i: nat): (k': Kernel)
    requires Shape(k) && pid < |k.procs| && i <= ESSENTIAL && i <= |k.free|
    ensures Shape(k') && |k'.procs| == |k.procs| && |k'.free| == |k.free| - i
    ensures k' == k.(procs := k'.procs, free := k'.free)
  {
    if i == 0 then k else Assign(LoadEssential(k, pid, i - 1), pid, i - 1)
  }

  // ----- the invariant

  function Alive(p: Proc): bool { !p.completed && !p.swappedOut }

  predicate ProcOk(k: Kernel, p: Proc)
    requires |p.table| == PAGES
  {
    && p.size <= MAX_ARRAY && |p.keys| == k.searches
    && p.frames == Resident(p)
    && (p.completed ==> p.current == k.searches && !p.swappedOut)
    && (!p.completed ==> p.current < k.searches)
    && (!Alive(p) ==> p.frames == 0)
    && (Alive(p) ==> forall g :: 0 <= g < ESSENTIAL ==> p.table[g].Some?)
  }

  /** Where each process is: completed, swapped out, running, or else ready.  `run` holds whoever is
      between the queues. */
  predicate Placed(k: Kernel, run: set<nat>) {
    && Distinct(k.ready) && Distinct(k.swapped)
    && (forall i :: 0 <= i < |k.ready| ==> k.ready[i] < |k.procs|)
    && (forall i :: 0 <= i < |k.swapped| ==> k.swapped[i] < |k.procs|)
    && (forall p :: 0 <= p < |k.procs| ==> (p in k.swapped <==> k.procs[p].swappedOut))
    && (forall p :: 0 <= p < |k.procs| ==> (p in k.ready <==> Alive(k.procs[p]) && p !in run))
    && (forall p :: p in run ==> p < |k.procs| && Alive(k.procs[p]))
  }

  ghost predicate Inv(k: Kernel, run: set<nat>) {
    && Partition(k) && Conserved(k) && k.searches >= 1
    && (forall p :: 0 <= p < |k.procs| ==> ProcOk(k, k.procs[p]))
    && Placed(k, run)
    && (k.swaps > 0 ==> k.minActive >= 6)
  }

  // ----- loading pages

  /** Between two states of one search only the process's table and the free stack have changed, and
      pages once resident have stayed so. */
  predicate OnlyLoads(k: Kernel, k': Kernel, pid: nat)
    requires Shape(k) && Shape(k') && pid < |k.procs| == |k'.procs|
  {
    var p, p' := k.procs[pid], k'.procs[pid];
    && k' == k.(procs := k'.procs, free := k'.free, accesses := k'.accesses, faults := k'.faults)
    && k'.procs == k.procs[pid := p']
    && p' == p.(table := p'.table, frames := p'.frames)
    && (forall g :: 0 <= g < PAGES && p.table[g].Some? ==> p'.table[g] == p.table[g])
  }

  lemma PlacedSame(k: Kernel, k': Kernel, run: set<nat>)
    requires Placed(k, run) && k'.ready == k.ready && k'.swapped == k.swapped && |k'.procs| == |k.procs|
    requires forall p :: 0 <= p < |k.procs| ==>
      k'.procs[p].completed == k.procs[p].completed && k'.procs[p].swappedOut == k.procs[p].swappedOut
    ensures Placed(k', run)
  {
  }

  lemma AssignInv(k: Kernel, pid: nat, page: nat)
    requires Inv(k, {pid}) && page < PAGES && k.procs[pid].table[page] == None && k.free != []
    ensures Inv(Assign(k, pid, page), {pid}) && OnlyLoads(k, Assign(k, pid, page), pid)
    ensures Assign(k, pid, page).procs[pid].table[page].Some?
  {
    assert Shape(k);
    AssignKeepsPartition(k, pid, page);
    AssignConserves(k, pid, page);
    hide Partition, Conserved;
    PlacedSame(k, Assign(k, pid, page), {pid});
  }

  /** A change of the counters alone. */
  lemma CountersInv(k: Kernel, k1: Kernel, run: set<nat>)
    requires Inv(k, run) && k1 == k.(accesses := k1.accesses, faults := k1.faults)
    ensures Inv(k1, run)
  {
    SameFrames(k, k1);
  }

  lemma TouchInv(k: Kernel, pid: nat, page: nat)
    requires Shape(k) && pid < |k.procs| && Inv(k, {pid}) && page < PAGES
    ensures var r := Touch(k, pid, page);
      && Inv(r.k, {pid}) && OnlyLoads(k, r.k, pid)
      && (r.ok ==> r.k.procs[pid].table[page].Some?)
      && (!r.ok ==> r.k.free == [] && r.k.procs[pid].table[page] == None)
  {
    hide Inv;
    var k1 := k.(accesses := k.accesses + 1, faults := if k.procs[pid].table[page].Some? then k.faults else k.faults + 1);
    CountersInv(k, k1, {pid});
    if k.procs[pid].table[page] == None && k.free != [] {
      AssignInv(k1, pid, page);
    }
  }

  lemma SameFrames(k: Kernel, k1: Kernel)
    requires k1.procs == k.procs && k1.free == k.free
    ensures Partition(k) ==> Partition(k1)
    ensures Conserved(k) ==> Conserved(k1)
  {
    if Partition(k) {
      var owner: seq<Owner> :| Owns(k, owner);
      assert Owns(k1, owner);
    }
  }

  /** Touching all pages of a search keeps everything in order, leaves every page touched resident, and
      fails only when a page is missing and no frame is left. */
  lemma {:induction false} TouchAllInv(k: Kernel, pid: nat, pages: seq<nat>)
    requires Shape(k) && pid < |k.procs| && Inv(k, {pid}) && InTable(pages)
    ensures var r := TouchAll(k, pid, pages);
      && Inv(r.k, {pid}) && OnlyLoads(k, r.k, pid)
      && (r.ok ==> forall i :: 0 <= i < |pages| ==> r.k.procs[pid].table[pages[i]].Some?)
      && (!r.ok ==> r.k.free == [] && exists g :: 0 <= g < PAGES && r.k.procs[pid].table[g] == None)
    decreases |pages|
  {
    hide Inv, Touch;
    if pages != [] {
      TouchInv(k, pid, pages[0]);
      var r := Touch(k, pid, pages[0]);
      if r.ok {
        TouchAllInv(r.k, pid, pages[1..]);
        assert forall i :: 1 <= i < |pages| ==> pages[i] == pages[1..][i - 1];
      }
    }
  }

  // ----- a failed load leaves at least six processes ready

  function AliveBelow(k: Kernel, i: nat): set<nat>
    requires i <= |k.procs|
  {
    set p | 0 <= p < i && Alive(k.procs[p])
  }

  lemma AliveBelowStep(k: Kernel, i: nat)
    requires 0 < i <= |k.procs|
    ensures |AliveBelow(k, i)| == |AliveBelow(k, i - 1)| + if Alive(k.procs[i - 1]) then 1 else 0
  {
    assert AliveBelow(k, i) == AliveBelow(k, i - 1) + if Alive(k.procs[i - 1]) then {i - 1} else {};
  }

  lemma {:induction false} ResidentBound(k: Kernel, pid: nat, i: nat)
    requires Shape(k) && pid < |k.procs| && i <= |k.procs|
    requires forall p :: 0 <= p < |k.procs| ==> ProcOk(k, k.procs[p])
    requires Alive(k.procs[pid]) && Resident(k.procs[pid]) < PAGES
    ensures ResidentTotal(k.procs, i) + (if pid < i then 1 else 0) <= PAGES * |AliveBelow(k, i)|
  {
    if i > 0 {
      hide CountValid, AliveBelow;
      ResidentBound(k, pid, i - 1);
      CountBound(k.procs[i - 1].table, PAGES);
      AliveBelowStep(k, i);
      assert ProcOk(k, k.procs[i - 1]);
    }
  }

  lemma AliveAreReady(k: Kernel, pid: nat)
    requires Inv(k, {pid})
    ensures |AliveBelow(k, |k.procs|)| == |k.ready| + 1
  {
    DistinctSize(k.ready);
    assert AliveBelow(k, |k.procs|) == Elements(k.ready) + {pid};
  }

  /** The pigeonhole: when no frame is left and the running process still misses a page, at least seven
      processes are resident, so at least six are ready. */
  lemma FailedLoadMeansCrowd(k: Kernel, pid: nat)
    requires Inv(k, {pid}) && k.free == []
    requires exists g :: 0 <= g < PAGES && k.procs[pid].table[g] == None
    ensures |k.ready| >= 6
  {
    CountBound(k.procs[pid].table, PAGES);
    ResidentBound(k, pid, |k.procs|);
    AliveAreReady(k, pid);
  }

  // ----- the end of a search

  lemma FreeInv(k: Kernel, k': Kernel, pid: nat)
    requires Inv(k, {pid}) && pid < |k.procs|
    requires Partition(k') && Conserved(k')
    requires k' == k.(procs := k'.procs, free := k'.free, swapped := k'.swapped, swaps := k'.swaps, minActive := k'.minActive)
    requires |k'.procs| == |k.procs| && forall p :: 0 <= p < |k.procs| && p != pid ==> k'.procs[p] == k.procs[p]
    requires var p := k'.procs[pid];
      && p == k.procs[pid].(table := EmptyTable(), frames := 0, current := p.current, completed := p.completed, swappedOut := p.swappedOut)
      && p.completed == !p.swappedOut
      && (if p.completed then p.current == k.searches else p.current == k.procs[pid].current)
      && k'.swapped == if p.completed then k.swapped else k.swapped + [pid]
    requires k'.swaps > 0 ==> k'.minActive >= 6
    ensures Inv(k', {})
  {
    hide Partition, Conserved, CountValid;
    CountBound(EmptyTable(), PAGES);
    assert pid !in k.swapped;
  }

  lemma SwapOutInv(k: Kernel, pid: nat)
    requires Shape(k) && pid < |k.procs| && Inv(k, {pid}) && |k.ready| >= 6
    ensures Inv(SwapOut(k, pid), {})
    ensures var k' := SwapOut(k, pid);
      && k'.swapped == k.swapped + [pid] && k'.ready == k.ready && k'.swaps == k.swaps + 1
      && k'.procs[pid].swappedOut && k'.procs[pid].current == k.procs[pid].current
      && forall p :: 0 <= p < |k.procs| && p != pid ==> k'.procs[p] == k.procs[p]
  {
    hide Partition, Conserved, FreeProcessFrames;
    var k0 := k.(swaps := k.swaps + 1);
    SameFrames(k, k0);
    FreeKeepsPartition(k0, pid);
    FreeConserves(k0, pid);
    var k1 := FreeProcessFrames(k0, pid);
    var k' := SwapOut(k, pid);
    FlagsKeepFrames(k1, k');
    FreeInv(k, k', pid);
  }

  /** Flags and counters of processes do not matter to the frames. */
  lemma FlagsKeepFrames(k: Kernel, k': Kernel)
    requires Partition(k) && Conserved(k) && k'.free == k.free && |k'.procs| == |k.procs|
    requires forall p :: 0 <= p < |k.procs| ==> k'.procs[p].table == k.procs[p].table
    ensures Partition(k') && Conserved(k')
  {
    var owner: seq<Owner> :| Owns(k, owner);
    assert Owns(k', owner);
    SameTotal(k.procs, k'.procs, |k.procs|);
  }

  lemma {:induction false} SameTotal(ps: seq<Proc>, qs: seq<Proc>, i: nat)
    requires i <= |ps| == |qs| && forall p :: 0 <= p < |ps| ==> ps[p].table == qs[p].table
    ensures ResidentTotal(ps, i) == ResidentTotal(qs, i)
  {
    if i > 0 { SameTotal(ps, qs, i - 1); }
  }

  /** A finished search either leaves the process running or completes it, freeing all its frames. */
  lemma FinishInv(k: Kernel, pid: nat)
    requires Shape(k) && pid < |k.procs| && Inv(k, {pid})
    ensures var k' := FinishSearch(k, pid);
      && (k.procs[pid].current + 1 < k.searches ==> Inv(k', {pid}) && Alive(k'.procs[pid]))
      && (k.procs[pid].current + 1 == k.searches ==>
            Inv(k', {}) && k'.procs[pid].completed && |k'.free| >= ESSENTIAL)
      && k'.procs[pid].current == k.procs[pid].current + 1
      && k'.ready == k.ready && k'.swapped == k.swapped && k'.swaps == k.swaps
      && forall p :: 0 <= p < |k.procs| && p != pid ==> k'.procs[p] == k.procs[p]
  {
    hide Partition, Conserved, FreeProcessFrames;
    var p := k.procs[pid];
    var k1 := WithProc(k, pid, p.(current := p.current + 1));
    FlagsKeepFrames(k, k1);
    if p.current + 1 < k.searches {
      PlacedSame(k, k1, {pid});
    } else {
      var k2 := WithProc(k1, pid, k1.procs[pid].(completed := true));
      FlagsKeepFrames(k1, k2);
      FreeKeepsPartition(k2, pid);
      FreeConserves(k2, pid);
      EssentialsCount(p);
      FreeInv(k, FreeProcessFrames(k2, pid), pid);
    }
  }

  lemma EssentialsCount(p: Proc)
    requires |p.table| == PAGES && forall g :: 0 <= g < ESSENTIAL ==> p.table[g].Some?
    ensures Resident(p) >= ESSENTIAL
  {
    CountBound(p.table, ESSENTIAL);
    CountGrows(p.table, ESSENTIAL, PAGES);
  }

  /** What one search by `pid` can come to. */
  predicate SearchOutcome(k: Kernel, k': Kernel, pid: nat)
    requires pid < |k.procs| == |k'.procs|
  {
    var p, p' := k.procs[pid], k'.procs[pid];
    && k'.ready == k.ready && k'.searches == k.searches
    && (p'.swappedOut ==>
          && |k.ready| >= 6 && p'.current == p.current && !p'.completed
          && k'.swapped == k.swapped + [pid] && k'.swaps == k.swaps + 1)
    && (!p'.swappedOut ==>
          && p'.current == p.current + 1 && k'.swapped == k.swapped && k'.swaps == k.swaps
          && (p'.completed <==> p.current + 1 == k.searches)
          && (p'.completed ==> |k'.free| >= ESSENTIAL))
    && (forall q :: 0 <= q < |k.procs| && q != pid ==> k'.procs[q] == k.procs[q])
  }

  lemma FinishOutcome(k: Kernel, k1: Kernel, pid: nat)
    requires Shape(k) && Shape(k1) && pid < |k.procs| == |k1.procs|
    requires Inv(k1, {pid}) && OnlyLoads(k, k1, pid)
    ensures SearchOutcome(k, FinishSearch(k1, pid), pid)
    ensures Inv(FinishSearch(k1, pid), if Alive(FinishSearch(k1, pid).procs[pid]) then {pid} else {})
  {
    assert ProcOk(k1, k1.procs[pid]);
    hide Inv, Partition, Conserved;
    FinishInv(k1, pid);
    var k' := FinishSearch(k1, pid);
    assert !k1.procs[pid].swappedOut && !k1.procs[pid].completed;
    FinishFlags(k1, pid);
  }

  lemma FinishFlags(k: Kernel, pid: nat)
    requires Shape(k) && pid < |k.procs|
    ensures var p' := FinishSearch(k, pid).procs[pid];
      && p'.swappedOut == k.procs[pid].swappedOut
      && p'.completed == (k.procs[pid].completed || k.procs[pid].current + 1 >= k.searches)
      && p'.size == k.procs[pid].size && p'.keys == k.procs[pid].keys
    ensures FinishSearch(k, pid).searches == k.searches
  {
    if k.procs[pid].current + 1 >= k.searches {
      var k1 := WithProc(k, pid, k.procs[pid].(current := k.procs[pid].current + 1));
      ReleaseUpToEffect(WithProc(k1, pid, k1.procs[pid].(completed := true)), pid, PAGES);
    }
  }

  lemma SwapOutcome(k: Kernel, k1: Kernel, pid: nat)
    requires Shape(k) && Shape(k1) && pid < |k.procs| == |k1.procs|
    requires Inv(k1, {pid}) && OnlyLoads(k, k1, pid) && |k1.ready| >= 6
    ensures SearchOutcome(k, SwapOut(k1, pid), pid)
    ensures Inv(SwapOut(k1, pid), {}) && SwapOut(k1, pid).procs[pid].swappedOut
  {
    assert ProcOk(k1, k1.procs[pid]);
    hide Inv, Partition, Conserved;
    SwapOutInv(k1, pid);
    ReleaseUpToEffect(k1.(swaps := k1.swaps + 1), pid, PAGES);
  }

  /** One search, whatever the memory situation: it completes and advances the process by one, or it is
      interrupted, the process is swapped out where it stands, and at least six others are ready. */
  lemma SearchInv(k: Kernel, pid: nat)
    requires Shape(k) && pid < |k.procs| && Inv(k, {pid})
    ensures CanSearch(k, pid)
    ensures SearchOutcome(k, Search(k, pid), pid)
    ensures Inv(Search(k, pid), if Alive(Search(k, pid).procs[pid]) then {pid} else {})
  {
    assert ProcOk(k, k.procs[pid]);
    hide Inv, ProcOk, SearchOutcome;
    var pages := PagesOfSearch(k.procs[pid]);
    TouchAllInv(k, pid, pages);
    var r := TouchAll(k, pid, pages);
    if r.ok {
      FinishOutcome(k, r.k, pid);
    } else {
      FailedLoadMeansCrowd(r.k, pid);
      SwapOutcome(k, r.k, pid);
    }
  }

  lemma {:induction false} TouchAllAccesses(k: Kernel, pid: nat, pages: seq<nat>)
    requires Shape(k) && pid < |k.procs| && InTable(pages)
    ensures var r := TouchAll(k, pid, pages);
      && k.accesses <= r.k.accesses <= k.accesses + |pages|
      && (r.ok ==> r.k.accesses == k.accesses + |pages|)
    decreases |pages|
  {
    if pages != [] {
      var r := Touch(k, pid, pages[0]);
      if r.ok { TouchAllAccesses(r.k, pid, pages[1..]); }
    }
  }

  /** A search that is not interrupted closes in on its key, makes one access for each probe, no more than
      `b` of them in an array of 2^b elements, and leaves every page it probed resident. */
  lemma UninterruptedSearch(k: Kernel, pid: nat, b: nat)
    requires Shape(k) && pid < |k.procs| && Inv(k, {pid}) && CanSearch(k, pid)
    requires !Search(k, pid).procs[pid].swappedOut
    ensures var p, k' := k.procs[pid], Search(k, pid);
      var w, key := Window(0, p.size - 1), p.keys[p.current];
      && (0 <= key < p.size ==> Final(w, key) == Window(key, key))
      && k'.accesses == k.accesses + |Probes(w, key)|
      && (p.size <= PowerOfTwo(b) ==> k'.accesses <= k.accesses + b)
      && (!k'.procs[pid].completed ==>
            forall i :: 0 <= i < |PagesOfSearch(p)| ==> k'.procs[pid].table[PagesOfSearch(p)[i]].Some?)
  {
    hide Inv, TouchAll, Probes, Pages, Final, SwapOut, FinishSearch, ProcOk;
    var p := k.procs[pid];
    var w, key := Window(0, p.size - 1), p.keys[p.current];
    var pages := PagesOfSearch(p);
    if 0 <= key < p.size { SearchFindsKey(w, key); }
    if p.size <= PowerOfTwo(b) { SearchIsShort(w, key, b); }
    SearchPages(w, key);
    TouchAllInv(k, pid, pages);
    TouchAllAccesses(k, pid, pages);
    var r := TouchAll(k, pid, pages);
    if r.ok {
      FinishFlags(r.k, pid);
      FinishKeepsAccesses(r.k, pid);
    } else {
      SwappedOutSets(r.k, pid);
    }
  }

  lemma SwappedOutSets(k: Kernel, pid: nat)
    requires Shape(k) && pid < |k.procs|
    ensures SwapOut(k, pid).procs[pid].swappedOut
    ensures SwapOut(k, pid).procs[pid].size == k.procs[pid].size && SwapOut(k, pid).procs[pid].keys == k.procs[pid].keys
  {
    ReleaseUpToEffect(k.(swaps := k.swaps + 1), pid, PAGES);
  }

  lemma FinishKeepsAccesses(k: Kernel, pid: nat)
    requires Shape(k) && pid < |k.procs|
    ensures FinishSearch(k, pid).accesses == k.accesses
    ensures k.procs[pid].current + 1 < k.searches ==> FinishSearch(k, pid).procs[pid].table == k.procs[pid].table
  {
    var k1 := WithProc(k, pid, k.procs[pid].(current := k.procs[pid].current + 1));
    ReleaseUpToEffect(WithProc(k1, pid, k1.procs[pid].(completed := true)), pid, PAGES);
  }

  // ----- swapping in

  /** The process at the front of the swapped queue gets its essential pages and restarts its search. */
  function Revive(k: Kernel): (k': Kernel)
    requires Shape(k) && k.swapped != [] && k.swapped[0] < |k.procs| && |k.free| >= ESSENTIAL
    ensures Shape(k') && |k'.procs| == |k.procs|
  {
    var q := k.swapped[0];
    var k1 := LoadEssential(k.(swapped := k.swapped[1..]), q, ESSENTIAL);
    WithProc(k1, q, k1.procs[q].(swappedOut := false))
  }

  lemma {:induction false} LoadEssentialInv(k: Kernel, pid: nat, i: nat)
    requires Shape(k) && pid < |k.procs| && i <= ESSENTIAL && i <= |k.free|
    requires Partition(k) && Conserved(k) && forall g :: 0 <= g < ESSENTIAL ==> k.procs[pid].table[g] == None
    ensures var k' := LoadEssential(k, pid, i);
      && Partition(k') && Conserved(k')
      && k'.procs == k.procs[pid := k.procs[pid].(table := k'.procs[pid].table, frames := k'.procs[pid].frames)]
      && Resident(k'.procs[pid]) == Resident(k.procs[pid]) + i
      && k'.procs[pid].frames == k.procs[pid].frames + i
      && (forall g :: 0 <= g < i ==> k'.procs[pid].table[g].Some?)
      && (forall g :: i <= g < PAGES ==> k'.procs[pid].table[g] == k.procs[pid].table[g])
  {
    hide Partition, Conserved, CountValid;
    if i > 0 {
      LoadEssentialInv(k, pid, i - 1);
      var k1 := LoadEssential(k, pid, i - 1);
      AssignKeepsPartition(k1, pid, i - 1);
      AssignConserves(k1, pid, i - 1);
    }
  }

  lemma {:induction false} NoFrames(table: seq<Option<nat>>, i: nat, g: nat)
    requires g < i <= |table| && CountValid(table, i) == 0
    ensures table[g] == None
  {
    if g < i - 1 { NoFrames(table, i - 1, g); }
  }

  lemma ReviveInv(k: Kernel)
    requires Shape(k) && Inv(k, {}) && k.swapped != [] && |k.free| >= ESSENTIAL
    ensures k.swapped[0] < |k.procs|
    ensures var q, k' := k.swapped[0], Revive(k);
      && Inv(k', {q})
      && k'.ready == k.ready && k'.swapped == k.swapped[1..] && k'.searches == k.searches && k'.swaps == k.swaps
      && k'.procs[q].current == k.procs[q].current
      && forall p :: 0 <= p < |k.procs| && p != q ==> k'.procs[p] == k.procs[p]
  {
    hide Partition, Conserved, LoadEssential, CountValid;
    var q := k.swapped[0];
    var k0 := k.(swapped := k.swapped[1..]);
    SameFrames(k, k0);
    assert q in k.swapped && ProcOk(k, k.procs[q]);
    forall g | 0 <= g < ESSENTIAL ensures k0.procs[q].table[g] == None {
      NoFrames(k.procs[q].table, PAGES, g);
    }
    LoadEssentialInv(k0, q, ESSENTIAL);
    var k1 := LoadEssential(k0, q, ESSENTIAL);
    FlagsKeepFrames(k1, Revive(k));
    RevivePlaced(k, Revive(k));
  }

  lemma RevivePlaced(k: Kernel, k': Kernel)
    requires Placed(k, {}) && k.swapped != [] && |k'.procs| == |k.procs|
    requires k'.ready == k.ready && k'.swapped == k.swapped[1..]
    requires forall p :: 0 <= p < |k.procs| ==> k'.procs[p].completed == k.procs[p].completed
    requires forall p :: 0 <= p < |k.procs| ==> k'.procs[p].swappedOut == (k.procs[p].swappedOut && p != k.swapped[0])
    requires !k.procs[k.swapped[0]].completed
    ensures Placed(k', {k.swapped[0]})
  {
    var q, rest := k.swapped[0], k.swapped[1..];
    assert k.swapped == [q] + rest;
    assert q !in rest;
    forall p | 0 <= p < |k.procs| ensures p in rest <==> k'.procs[p].swappedOut {
      assert p in k.swapped <==> p == q || p in rest;
    }
  }
}
