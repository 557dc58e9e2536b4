/** What a turn does and what the statistics count. */
module PagingCounts {

  // Everything a turn does is told here from the state before it: which pages are missing, how many frames are
  // free, who is first in the two queues. Faults are the different pages that were missing, with one more for a
  // search that is cut off; the degree of multiprogramming is the least number of ready processes at a swap-out.

  import opened Collections
  import opened FrameTable
  import opened BinarySearch
  import opened Paging
  import opened PagingRun
  import opened PagingFit

  // ----- accesses and faults of a search

  /** The first `j` pages just fill the free frames, and the next one finds none. */
  predicate CutOff(table: seq<Option<nat>>, pages: seq<nat>, free: int, j: nat) {
    && j < |pages|
    && |Missing(table, pages[..j])| == free
    && |Missing(table, pages[..j + 1])| == free + 1
  }

  /** As many accesses were made as it takes to be cut off, the failing one included. */
  ghost predicate CutShort(table: seq<Option<nat>>, pages: seq<nat>, free: int, accesses: int) {
    exists j: nat :: CutOff(table, pages, free, j) && accesses == j + 1
  }

  lemma TouchCounts(k: Kernel, pid: nat, page: nat)
    requires Shape(k) && pid < |k.procs| && page < PAGES
    ensures var r := Touch(k, pid, page);
      && r.k.accesses == k.accesses + 1
      && r.k.faults == k.faults + if page in Domain(k.procs[pid].table) then 0 else 1
  {
  }

  lemma MissingFirst(table: seq<Option<nat>>, page: nat)
    ensures |Missing(table, [page])| == if page in Domain(table) then 0 else 1
    ensures |Missing(table, [])| == 0
  {
    ElementsCons([page]);
    NothingMissing(table);
    assert Missing(table, [page]) == if page in Domain(table) then {} else {page};
  }

  lemma CutOffLater(table: seq<Option<nat>>, table': seq<Option<nat>>, pages: seq<nat>, free: int, free': int, j: nat)
    requires pages != [] && Domain(table') == Domain(table) + {pages[0]}
    requires free' == free - if pages[0] in Domain(table) then 0 else 1
    requires CutOff(table', pages[1..], free', j)
    ensures CutOff(table, pages, free, j + 1)
  {
    hide Domain, Missing;
    assert pages[..j + 1][1..] == pages[1..][..j] && pages[..j + 2][1..] == pages[1..][..j + 1];
    MissingStep(table, table', pages[..j + 1]);
    MissingStep(table, table', pages[..j + 2]);
  }

  /** Touching a list of pages costs one fault for each different page that was missing; when the frames run out,
      one for each frame there was and one for the page that finds none, which is the last one touched. */
  lemma {:induction false} TouchAllCounts(k: Kernel, pid: nat, pages: seq<nat>)
    requires Shape(k) && pid < |k.procs| && InTable(pages)
    ensures var r, table := TouchAll(k, pid, pages), k.procs[pid].table;
      && (r.ok ==> r.k.faults == k.faults + |Missing(table, pages)| && r.k.accesses == k.accesses + |pages|)
      && (!r.ok ==> r.k.faults == k.faults + |k.free| + 1)
      && (!r.ok ==> CutShort(table, pages, |k.free|, r.k.accesses - k.accesses))
    decreases |pages|
  {
    hide Touch, Domain, Missing, CutOff;
    var table := k.procs[pid].table;
    if pages == [] {
      NothingMissing(table);
    } else {
      TouchOne(k, pid, pages[0]);
      TouchCounts(k, pid, pages[0]);
      var r := Touch(k, pid, pages[0]);
      if r.ok {
        TouchAllCounts(r.k, pid, pages[1..]);
        MissingStep(table, r.k.procs[pid].table, pages);
        var rest := TouchAll(r.k, pid, pages[1..]);
        if !rest.ok {
          var j: nat :| CutOff(r.k.procs[pid].table, pages[1..], |r.k.free|, j) && rest.k.accesses - r.k.accesses == j + 1;
          CutOffLater(table, r.k.procs[pid].table, pages, |k.free|, |r.k.free|, j);
        }
      } else {
        CutOffAtOnce(table, pages);
      }
    }
  }

  lemma CutOffAtOnce(table: seq<Option<nat>>, pages: seq<nat>)
    requires pages != [] && pages[0] !in Domain(table)
    ensures CutOff(table, pages, 0, 0)
  {
    MissingFirst(table, pages[0]);
    assert pages[..1] == [pages[0]] && pages[..0] == [];
  }

  /** What a search by `pid` adds to the statistics: `k'` shows them afterwards. */
  ghost predicate Charged(k: Kernel, pid: nat, k': Kernel)
    requires CanSearch(k, pid)
  {
    var table, pages := k.procs[pid].table, PagesOfSearch(k.procs[pid]);
    if Fits(k, pid) then
      && k'.faults == k.faults + |Missing(table, pages)| && k'.accesses == k.accesses + |pages|
      && k'.swaps == k.swaps && k'.minActive == k.minActive
    else
      && k'.faults == k.faults + |k.free| + 1
      && CutShort(table, pages, |k.free|, k'.accesses - k.accesses)
      && k'.swaps == k.swaps + 1
      && k'.minActive == if k.swaps == 0 || |k.ready| < k.minActive then |k.ready| else k.minActive
  }

  lemma FinishCounts(k: Kernel, pid: nat)
    requires Shape(k) && pid < |k.procs|
    ensures var k' := FinishSearch(k, pid);
      k'.faults == k.faults && k'.accesses == k.accesses && k'.swaps == k.swaps && k'.minActive == k.minActive
  {
    var k1 := WithProc(k, pid, k.procs[pid].(current := k.procs[pid].current + 1));
    ReleaseUpToEffect(WithProc(k1, pid, k1.procs[pid].(completed := true)), pid, PAGES);
  }

  lemma SwapOutCounts(k: Kernel, pid: nat)
    requires Shape(k) && pid < |k.procs|
    ensures var k' := SwapOut(k, pid);
      && k'.faults == k.faults && k'.accesses == k.accesses && k'.swaps == k.swaps + 1
      && k'.minActive == if k.swaps == 0 || |k.ready| < k.minActive then |k.ready| else k.minActive
  {
    ReleaseUpToEffect(k.(swaps := k.swaps + 1), pid, PAGES);
  }

  lemma SearchCounts(k: Kernel, pid: nat)
    requires Shape(k) && pid < |k.procs| && Inv(k, {pid})
    ensures CanSearch(k, pid) && Charged(k, pid, Search(k, pid))
  {
    hide Inv, TouchAll, CutShort, Missing, FinishSearch, SwapOut, PagesOfSearch, SearchOutcome;
    SearchInv(k, pid);
    var pages := PagesOfSearch(k.procs[pid]);
    TouchAllInv(k, pid, pages);
    TouchAllFits(k, pid, pages);
    TouchAllCounts(k, pid, pages);
    var r := TouchAll(k, pid, pages);
    if r.ok { FinishCounts(r.k, pid); } else { SwapOutCounts(r.k, pid); }
  }

  // ----- a turn

  /** The frames there are once the process at the front of the ready queue has given back its own. */
  function Room(k: Kernel): nat
    requires k.ready != [] && k.ready[0] < |k.procs|
  {
    |k.free| + Resident(k.procs[k.ready[0]])
  }

  /** The first process swapped out can come back and do its search in that room. */
  predicate Returns(k: Kernel)
    requires k.ready != [] && k.ready[0] < |k.procs| && k.swapped != [] && CanSearch(k, k.swapped[0])
  {
    ESSENTIAL + |Elements(PagesOfSearch(k.procs[k.swapped[0]]))| <= Room(k)
  }

  predicate Ready(k: Kernel) {
    && Shape(k) && k.ready != [] && CanSearch(k, k.ready[0])
    && (k.swapped != [] ==> CanSearch(k, k.swapped[0]) && k.swapped[0] != k.ready[0])
  }

  /** The turn lets somebody back in. */
  predicate LetsIn(k: Kernel)
    requires Ready(k)
  {
    Fits(k, k.ready[0]) && LastSearch(k, k.ready[0]) && k.swapped != []
  }

  /** Where a turn leaves the first ready process, in the queues and in memory. */
  ghost predicate FrontAfter(k: Kernel, t: Turn)
    requires Ready(k) && |t.k.procs| == |k.procs|
  {
    var p, rest := k.ready[0], k.ready[1..];
    var x, x' := k.procs[p], t.k.procs[p];
    if !Fits(k, p) then
      && t.counted == 0 && t.missed == 0
      && t.k.ready == rest && t.k.swapped == k.swapped + [p]
      && x'.swappedOut && !x'.completed && x'.current == x.current
    else if !LastSearch(k, p) then
      && t.counted == 0 && t.missed == 0
      && t.k.ready == rest + [p] && t.k.swapped == k.swapped
      && Alive(x') && x'.current == x.current + 1
      && Domain(x'.table) == Domain(x.table) + Elements(PagesOfSearch(x))
    else
      && t.counted == 1 && x'.completed
      && (k.swapped == [] ==> t.missed == 0 && t.k.ready == rest && t.k.swapped == [])
  }

  /** Where it leaves the one let back in. */
  ghost predicate BackAfter(k: Kernel, t: Turn)
    requires Ready(k) && |t.k.procs| == |k.procs| && LetsIn(k)
  {
    var q, rest := k.swapped[0], k.ready[1..];
    var y, y' := k.procs[q], t.k.procs[q];
    if !Returns(k) then
      && t.missed == 0 && t.k.ready == rest && t.k.swapped == k.swapped[1..] + [q]
      && y'.swappedOut && !y'.completed && y'.current == y.current
    else if !LastSearch(k, q) then
      && t.missed == 0 && t.k.ready == rest + [q] && t.k.swapped == k.swapped[1..]
      && Alive(y') && y'.current == y.current + 1
      && Domain(y'.table) == Upto(ESSENTIAL) + Elements(PagesOfSearch(y))
    else
      t.missed == 1 && t.k.ready == rest && t.k.swapped == k.swapped[1..] && y'.completed
  }

  /** What a turn that lets nobody in adds to the statistics is what its search adds; one that lets somebody in
      adds what both searches do. */
  ghost predicate TurnCharged(k: Kernel, k': Kernel)
    requires Ready(k)
  {
    if !LetsIn(k) then Charged(Dequeued(k), k.ready[0], k')
    else
      var p, q := k.procs[k.ready[0]], k.procs[k.swapped[0]];
      var faults := k.faults + |Missing(p.table, PagesOfSearch(p))|;
      var accesses := k.accesses + |PagesOfSearch(p)|;
      var active := |k.ready| - 1;
      if Returns(k) then
        && k'.faults == faults + |Elements(PagesOfSearch(q))| && k'.accesses == accesses + |PagesOfSearch(q)|
        && k'.swaps == k.swaps && k'.minActive == k.minActive
      else
        && k'.faults == faults + Room(k) - ESSENTIAL + 1
        && CutShort(EmptyTable(), PagesOfSearch(q), Room(k) - ESSENTIAL, k'.accesses - accesses)
        && k'.swaps == k.swaps + 1
        && k'.minActive == if k.swaps == 0 || active < k.minActive then active else k.minActive
  }

  lemma ReadyOk(k: Kernel)
    requires Shape(k) && Inv(k, {}) && k.ready != []
    ensures Ready(k)
  {
    AllCanSearch(k);
    if k.swapped != [] { SwappedIsOther(k, k.ready[0]); }
  }

  /** The first half of a turn, told of the search that was made. */
  lemma FrontSearched(k: Kernel)
    requires Shape(k) && Inv(k, {}) && k.ready != []
    ensures Ready(k)
    ensures var p, k1 := k.ready[0], Dequeued(k);
      && Inv(k1, {p}) && CanSearch(k1, p) && Fits(k1, p) == Fits(k, p)
      && var k2 := Search(k1, p);
        && SearchOutcome(k1, k2, p) && (k2.procs[p].swappedOut <==> !Fits(k, p)) && Charged(k1, p, k2)
        && k2.procs[p].completed == (Fits(k, p) && LastSearch(k, p))
        && Inv(k2, if Alive(k2.procs[p]) then {p} else {})
        && (Alive(k2.procs[p]) ==>
              Domain(k2.procs[p].table) == Domain(k.procs[p].table) + Elements(PagesOfSearch(k.procs[p])))
        && (k2.procs[p].completed ==> |k2.free| == Room(k))
  {
    hide Inv, Search, Fits, PagesOfSearch, Domain, Resident, Elements, Charged;
    ReadyOk(k);
    FrontIsAlive(k);
    var p, k1 := k.ready[0], Dequeued(k);
    SearchInv(k1, p);
    SearchFits(k1, p);
    SearchCounts(k1, p);
    FitsDequeued(k);
    if Search(k1, p).procs[p].completed { CompletedLeaves(k1, Search(k1, p), p); }
  }

  /** A turn that lets nobody in. */
  lemma TurnAlone(k: Kernel)
    requires Shape(k) && Inv(k, {}) && k.ready != []
    ensures Ready(k) && FrontAfter(k, TakeTurn(k))
    ensures !LetsIn(k) ==> TurnCharged(k, TakeTurn(k).k)
    ensures forall r :: 0 <= r < |k.procs| && r != k.ready[0] && (LetsIn(k) ==> r != k.swapped[0]) ==>
      TakeTurn(k).k.procs[r] == k.procs[r]
  {
    hide Inv, Search, SwapIn, Fits, PagesOfSearch, Domain, Resident, Elements, CutShort, Missing;
    FrontSearched(k);
    var k2 := Search(Dequeued(k), k.ready[0]);
    if LetsIn(k) { SwapInQueuesOk(k2); }
  }

  /** Essential pages do not matter to where a search is cut off. */
  lemma CutShortFresh(p: Proc, free: int, accesses: int)
    requires p.size <= MAX_ARRAY && p.current < |p.keys| && Domain(p.table) == Upto(ESSENTIAL)
    requires CutShort(p.table, PagesOfSearch(p), free, accesses)
    ensures CutShort(EmptyTable(), PagesOfSearch(p), free, accesses)
  {
    hide Domain, PagesOfSearch, Upto, Missing;
    var pages := PagesOfSearch(p);
    var j: nat :| CutOff(p.table, pages, free, j) && accesses == j + 1;
    FreshMissing(p, j);
    FreshMissing(p, j + 1);
    assert CutOff(EmptyTable(), pages, free, j);
  }

  lemma FreshMissing(p: Proc, i: nat)
    requires p.size <= MAX_ARRAY && p.current < |p.keys| && Domain(p.table) == Upto(ESSENTIAL)
    requires i <= |PagesOfSearch(p)|
    ensures Missing(p.table, PagesOfSearch(p)[..i]) == Missing(EmptyTable(), PagesOfSearch(p)[..i])
  {
    hide Domain, Elements, Upto, PagesOfSearch;
    NoneEssential(p, i);
    EmptyDomain();
    var pages := Elements(PagesOfSearch(p)[..i]);
    assert pages - Upto(ESSENTIAL) == pages - {};
  }

  lemma NoneEssential(p: Proc, i: nat)
    requires p.size <= MAX_ARRAY && p.current < |p.keys| && i <= |PagesOfSearch(p)|
    ensures Elements(PagesOfSearch(p)[..i]) !! Upto(ESSENTIAL)
  {
    hide PagesFor, Upto;
    var pages := PagesOfSearch(p)[..i];
    forall j | 0 <= j < i ensures pages[j] !in Upto(ESSENTIAL) { DataPage(p.size, p.keys[p.current], j); }
  }

  lemma EmptyDomain()
    ensures Domain(EmptyTable()) == {}
  {
  }

  /** What letting the first process swapped out back in adds to the statistics. */
  ghost predicate BackCharged(k: Kernel, k': Kernel)
    requires k.swapped != [] && CanSearch(k, k.swapped[0])
  {
    var pages := PagesOfSearch(k.procs[k.swapped[0]]);
    if ESSENTIAL + |Elements(pages)| <= |k.free| then
      && k'.faults == k.faults + |Elements(pages)| && k'.accesses == k.accesses + |pages|
      && k'.swaps == k.swaps && k'.minActive == k.minActive
    else
      && k'.faults == k.faults + |k.free| - ESSENTIAL + 1
      && CutShort(EmptyTable(), pages, |k.free| - ESSENTIAL, k'.accesses - k.accesses)
      && k'.swaps == k.swaps + 1
      && k'.minActive == if k.swaps == 0 || |k.ready| < k.minActive then |k.ready| else k.minActive
  }

  /** The second half of such a turn. */
  lemma BackSearched(k: Kernel)
    requires Shape(k) && Inv(k, {}) && k.swapped != [] && |k.free| >= ESSENTIAL
    ensures CanSearch(k, k.swapped[0])
    ensures var q, k1 := k.swapped[0], Revive(k);
      && Inv(k1, {q}) && CanSearch(k1, q) && k1.ready == k.ready && k1.swapped == k.swapped[1..]
      && k1.searches == k.searches && k1.procs[q].current == k.procs[q].current
      && var k2, pages := Search(k1, q), PagesOfSearch(k.procs[q]);
        && SearchOutcome(k1, k2, q) && BackCharged(k, k2)
        && (k2.procs[q].swappedOut <==> ESSENTIAL + |Elements(pages)| > |k.free|)
        && (Alive(k2.procs[q]) ==> Domain(k2.procs[q].table) == Upto(ESSENTIAL) + Elements(pages))
  {
    hide Inv, Revive, Search, Domain, Missing, Elements, PagesOfSearch, CutShort, Upto;
    ReviveInv(k);
    var q, k1 := k.swapped[0], Revive(k);
    RevivedFits(k);
    OutIsEmpty(k);
    RevivedTable(k);
    SearchInv(k1, q);
    SearchFits(k1, q);
    SearchCounts(k1, q);
    RevivedKeepsCounts(k);
    OnlyEssentials(k1.procs[q]);
    SameSearch(k.procs[q], k1.procs[q]);
    if !Fits(k1, q) { CutShortFresh(k1.procs[q], |k1.free|, Search(k1, q).accesses - k1.accesses); }
  }

  lemma RevivedKeepsCounts(k: Kernel)
    requires Shape(k) && k.swapped != [] && k.swapped[0] < |k.procs| && |k.free| >= ESSENTIAL
    ensures var k' := Revive(k);
      k'.faults == k.faults && k'.accesses == k.accesses && k'.swaps == k.swaps && k'.minActive == k.minActive
  {
  }

  /** A turn that lets somebody in. */
  lemma TurnTogether(k: Kernel)
    requires Shape(k) && Inv(k, {}) && k.ready != []
    ensures Ready(k)
    ensures LetsIn(k) ==> BackAfter(k, TakeTurn(k)) && TurnCharged(k, TakeTurn(k).k)
  {
    hide Inv, Search, SwapIn, Fits, PagesOfSearch, Domain, Resident, Elements, CutShort, Missing, Revive, Upto;
    FrontSearched(k);
    if LetsIn(k) {
      var k2 := Search(Dequeued(k), k.ready[0]);
      BackSearched(k2);
      SwapInIs(k2);
    }
  }

  lemma SwapInIs(k: Kernel)
    requires Shape(k) && Inv(k, {}) && k.swapped != [] && |k.free| >= ESSENTIAL && CanSearch(k, k.swapped[0])
    requires CanSearch(Revive(k), k.swapped[0])
    ensures var q, k2 := k.swapped[0], Search(Revive(k), k.swapped[0]);
      SwapIn(k) == if Alive(k2.procs[q]) then Turn(k2.(ready := k2.ready + [q]), 1, 0)
        else Turn(k2, 1, if k2.procs[q].completed then 1 else 0)
  {
    hide Inv, Search, Revive;
    ReviveInv(k);
  }

  /** What one turn comes to, from the state before it. */
  lemma TurnComesTo(k: Kernel)
    requires Shape(k) && Inv(k, {}) && k.ready != []
    ensures Ready(k)
    ensures var t := TakeTurn(k);
      && FrontAfter(k, t) && (LetsIn(k) ==> BackAfter(k, t)) && TurnCharged(k, t.k)
      && forall r :: 0 <= r < |k.procs| && r != k.ready[0] && (LetsIn(k) ==> r != k.swapped[0]) ==> t.k.procs[r] == k.procs[r]
  {
    hide Inv, TakeTurn, Fits, FrontAfter, BackAfter, TurnCharged;
    TurnAlone(k);
    TurnTogether(k);
  }

  // ----- the degree of multiprogramming

  /** A turn that swaps somebody out lowers the recorded degree to the number of processes then ready, if that is
      lower or nothing was recorded yet; no other turn touches it. */
  lemma TurnDegree(k: Kernel)
    requires Shape(k) && Inv(k, {}) && k.ready != []
    ensures var t := TakeTurn(k).k;
      if t.swaps > k.swaps then
        t.swaps == k.swaps + 1 && t.minActive == if k.swaps == 0 || |t.ready| < k.minActive then |t.ready| else k.minActive
      else t.swaps == k.swaps && t.minActive == k.minActive
  {
    hide Inv, TakeTurn, Fits, Returns, PagesOfSearch, CutShort, Missing, Domain, Elements, Room;
    TurnComesTo(k);
    FitsDequeued(k);
    assert |Dequeued(k).ready| == |k.ready| - 1;
  }

  /** The number of ready processes after a turn that swapped somebody out. */
  function DegreeBetween(k: Kernel, k': Kernel): seq<nat> { if k'.swaps > k.swaps then [|k'.ready|] else [] }

  /** The numbers of ready processes at the swap-outs of a run, in order. */
  ghost function Degrees(k: Kernel, counted: nat): (ds: seq<nat>)
    requires Shape(k) && Inv(k, {})
    decreases Left(k), |k.ready|
  {
    if counted >= |k.procs| || k.ready == [] then []
    else
      TurnIsOk(k);
      DegreeBetween(k, TakeTurn(k).k) + Degrees(TakeTurn(k).k, counted + TakeTurn(k).counted)
  }

  /** `degree` is the least of `ds`, and of `was` when something has been recorded before. */
  predicate IsLowest(degree: int, ds: seq<nat>, was: int, recorded: bool) {
    && (forall i :: 0 <= i < |ds| ==> degree <= ds[i])
    && (recorded ==> degree <= was)
    && ((exists i :: 0 <= i < |ds| && degree == ds[i]) || (degree == was && (recorded || ds == [])))
  }

  lemma LowestOn(degree: int, d: nat, ds: seq<nat>, was: int, recorded: bool)
    requires IsLowest(degree, ds, if !recorded || d < was then d else was, true)
    ensures IsLowest(degree, [d] + ds, was, recorded)
  {
    if i :| 0 <= i < |ds| && degree == ds[i] {
      assert ([d] + ds)[i + 1] == degree;
    } else {
      assert ([d] + ds)[0] == d;
    }
  }

  /** The degree reported is the least number of ready processes at any swap-out of the run. */
  lemma {:induction false} RunDegree(k: Kernel, counted: nat, missed: nat)
    requires Shape(k) && Inv(k, {})
    ensures var e, ds := Run(k, counted, missed), Degrees(k, counted);
      e.k.swaps == k.swaps + |ds| && IsLowest(e.k.minActive, ds, k.minActive, k.swaps > 0)
    decreases Left(k), |k.ready|
  {
    hide Inv, TakeTurn, Left, IsLowest;
    if counted < |k.procs| && k.ready != [] {
      RunUnfolds(k, counted, missed);
      TurnDegree(k);
      var t := TakeTurn(k);
      RunDegree(t.k, counted + t.counted, missed + t.missed);
      if t.k.swaps > k.swaps {
        LowestOn(Run(k, counted, missed).k.minActive, |t.k.ready|, Degrees(t.k, counted + t.counted), k.minActive, k.swaps > 0);
      } else {
        assert Degrees(k, counted) == Degrees(t.k, counted + t.counted);
      }
    } else {
      NothingRecorded(k.minActive, k.swaps > 0);
    }
  }

  lemma NothingRecorded(was: int, recorded: bool)
    ensures IsLowest(was, [], was, recorded)
  {
  }
}
