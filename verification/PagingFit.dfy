/** When a search fits in memory, and when a turn loses a completion. */
module PagingFit {

  // A search is interrupted exactly when more of its pages are missing than frames are free. Everything a turn
  // does can therefore be told from the state before it.

  import opened Collections
  import opened FrameTable
  import opened BinarySearch
  import opened Paging
  import opened PagingRun

  /** The pages that have a frame. */
  function Domain(table: seq<Option<nat>>): set<nat> {
    set g | 0 <= g < |table| && table[g].Some?
  }

  /** The pages among those listed that have no frame, each once. */
  function Missing(table: seq<Option<nat>>, pages: seq<nat>): set<nat> {
    Elements(pages) - Domain(table)
  }

  lemma {:induction false} ResidentIsDomain(table: seq<Option<nat>>, i: nat)
    requires i <= |table|
    ensures CountValid(table, i) == |Domain(table[..i])|
  {
    if i == 0 {
      assert Domain(table[..0]) == {};
    } else {
      ResidentIsDomain(table, i - 1);
      assert Domain(table[..i]) == Domain(table[..i - 1]) + if table[i - 1].Some? then {i - 1} else {};
    }
  }

  lemma ResidentSize(p: Proc)
    ensures Resident(p) == |Domain(p.table)|
  {
    ResidentIsDomain(p.table, |p.table|);
    assert p.table[..|p.table|] == p.table;
  }

  lemma TouchOne(k: Kernel, pid: nat, page: nat)
    requires Shape(k) && pid < |k.procs| && page < PAGES
    ensures var r, table := Touch(k, pid, page), k.procs[pid].table;
      && (r.ok <==> page in Domain(table) || k.free != [])
      && (r.ok ==> Domain(r.k.procs[pid].table) == Domain(table) + {page})
      && (r.ok ==> |r.k.free| == |k.free| - if page in Domain(table) then 0 else 1)
  {
  }

  lemma ElementsCons(pages: seq<nat>)
    requires pages != []
    ensures Elements(pages) == Elements(pages[1..]) + {pages[0]}
  {
    var rest := pages[1..];
    forall g | g in Elements(pages) ensures g in Elements(rest) + {pages[0]} {
      var i :| 0 <= i < |pages| && pages[i] == g;
      assert i > 0 ==> rest[i - 1] == g;
    }
    forall g | g in Elements(rest) ensures g in Elements(pages) {
      var i :| 0 <= i < |rest| && rest[i] == g;
      assert pages[i + 1] == g;
    }
  }

  /** One page fewer is missing once the first of a list has its frame. */
  lemma MissingStep(table: seq<Option<nat>>, table': seq<Option<nat>>, pages: seq<nat>)
    requires pages != [] && Domain(table') == Domain(table) + {pages[0]}
    ensures |Missing(table', pages[1..])| == |Missing(table, pages)| - if pages[0] in Domain(table) then 0 else 1
  {
    hide Domain, Elements;
    ElementsCons(pages);
    var before := Missing(table, pages);
    assert Missing(table', pages[1..]) == before - {pages[0]};
    if pages[0] in Domain(table) { assert before - {pages[0]} == before; }
  }

  lemma SomethingMissing(table: seq<Option<nat>>, pages: seq<nat>)
    requires pages != [] && pages[0] !in Domain(table)
    ensures |Missing(table, pages)| > 0
  {
    assert pages[0] in Missing(table, pages);
  }

  /** Touching the pages of a list succeeds exactly when the missing ones are no more than the free frames, and
      then exactly those are added. */
  lemma {:induction false} TouchAllFits(k: Kernel, pid: nat, pages: seq<nat>)
    requires Shape(k) && pid < |k.procs| && InTable(pages)
    ensures var r, missing := TouchAll(k, pid, pages), Missing(k.procs[pid].table, pages);
      && (r.ok <==> |missing| <= |k.free|)
      && (r.ok ==> Domain(r.k.procs[pid].table) == Domain(k.procs[pid].table) + Elements(pages))
    decreases |pages|
  {
    hide Touch, Domain, Missing;
    if pages == [] {
      NothingMissing(k.procs[pid].table);
    } else {
      TouchOne(k, pid, pages[0]);
      var r := Touch(k, pid, pages[0]);
      if r.ok {
        TouchAllFits(r.k, pid, pages[1..]);
        MissingStep(k.procs[pid].table, r.k.procs[pid].table, pages);
        ElementsCons(pages);
      } else {
        SomethingMissing(k.procs[pid].table, pages);
      }
    }
  }

  lemma NothingMissing(table: seq<Option<nat>>)
    ensures |Missing(table, [])| == 0 && Domain(table) + Elements([]) == Domain(table)
  {
    assert Missing(table, []) == {};
  }

  /** Frames are only moved between the stack and one process. */
  lemma FreeBalance(k: Kernel, k': Kernel, pid: nat)
    requires Shape(k) && Shape(k') && Conserved(k) && Conserved(k') && pid < |k.procs| == |k'.procs|
    requires forall p :: 0 <= p < |k.procs| && p != pid ==> k'.procs[p] == k.procs[p]
    ensures |k'.free| + Resident(k'.procs[pid]) == |k.free| + Resident(k.procs[pid])
  {
    TotalUpdate(k.procs, pid, k'.procs[pid], |k.procs|);
    assert k'.procs == k.procs[pid := k'.procs[pid]];
  }

  /** The pages of a process's next search fit in the frames that are free. */
  predicate Fits(k: Kernel, pid: nat)
    requires CanSearch(k, pid)
  {
    |Missing(k.procs[pid].table, PagesOfSearch(k.procs[pid]))| <= |k.free|
  }

  /** A search swaps its process out exactly when its pages do not fit; it leaves its process with the pages it
      had and those of the search, or with none. */
  lemma SearchFits(k: Kernel, pid: nat)
    requires Shape(k) && pid < |k.procs| && Inv(k, {pid})
    ensures CanSearch(k, pid)
    ensures var k' := Search(k, pid);
      && k'.procs[pid].size == k.procs[pid].size && k'.procs[pid].keys == k.procs[pid].keys
      && (k'.procs[pid].swappedOut <==> !Fits(k, pid))
      && (Alive(k'.procs[pid]) ==>
            Domain(k'.procs[pid].table) == Domain(k.procs[pid].table) + Elements(PagesOfSearch(k.procs[pid])))
  {
    SearchInv(k, pid);
    hide Inv, TouchAll, SearchOutcome, FreeProcessFrames;
    var pages := PagesOfSearch(k.procs[pid]);
    TouchAllInv(k, pid, pages);
    TouchAllFits(k, pid, pages);
    var r := TouchAll(k, pid, pages);
    if r.ok {
      FinishFlags(r.k, pid);
      RunnerFlags(r.k, pid);
      FinishKeepsAccesses(r.k, pid);
    } else {
      SwappedOutSets(r.k, pid);
    }
  }

  lemma RunnerFlags(k: Kernel, pid: nat)
    requires Shape(k) && pid < |k.procs| && Inv(k, {pid})
    ensures !k.procs[pid].swappedOut && !k.procs[pid].completed && k.procs[pid].current < k.searches
    ensures Conserved(k) && k.procs[pid].frames == Resident(k.procs[pid])
  {
    assert ProcOk(k, k.procs[pid]);
  }

  // ----- a turn that loses a completion

  /** The kernel from which the process at the front of the ready queue searches. */
  function Dequeued(k: Kernel): Kernel
    requires k.ready != []
  {
    k.(ready := k.ready[1..])
  }

  /** The process at the front of the ready queue and the one it would let back in are both at their last search;
      the pages of the first search fit in the free frames, and ten essential pages with those of the second fit
      in what the first process then leaves. */
  predicate AboutToMiss(k: Kernel)
    requires Shape(k) && k.ready != [] && CanSearch(k, k.ready[0])
    requires k.swapped != [] ==> CanSearch(k, k.swapped[0])
  {
    && LastSearch(k, k.ready[0]) && Fits(k, k.ready[0])
    && k.swapped != [] && LastSearch(k, k.swapped[0])
    && ESSENTIAL + |Elements(PagesOfSearch(k.procs[k.swapped[0]]))| <= |k.free| + Resident(k.procs[k.ready[0]])
  }

  lemma AllCanSearch(k: Kernel)
    requires Shape(k) && Inv(k, {}) && k.ready != []
    ensures CanSearch(k, k.ready[0]) && (k.swapped != [] ==> CanSearch(k, k.swapped[0]))
  {
    FrontIsAlive(k);
    assert ProcOk(k, k.procs[k.ready[0]]);
    if k.swapped != [] {
      assert k.swapped[0] in k.swapped && ProcOk(k, k.procs[k.swapped[0]]);
    }
  }

  /** Letting a process back in and having it search succeeds exactly when its essential pages and those of the
      search fit. */
  lemma RevivedFits(k: Kernel)
    requires Shape(k) && Inv(k, {}) && k.swapped != [] && |k.free| >= ESSENTIAL
    ensures k.swapped[0] < |k.procs| && CanSearch(k, k.swapped[0]) && CanSearch(Revive(k), k.swapped[0])
    ensures Fits(Revive(k), k.swapped[0])
      <==> ESSENTIAL + |Elements(PagesOfSearch(k.procs[k.swapped[0]]))| <= |k.free|
  {
    hide Inv, Revive, Domain, Missing, Elements, PagesOfSearch;
    ReviveInv(k);
    var q, k1 := k.swapped[0], Revive(k);
    SearchInv(k1, q);
    OutIsEmpty(k);
    RevivedTable(k);
    OnlyEssentials(k1.procs[q]);
    SameSearch(k.procs[q], k1.procs[q]);
  }

  lemma OnlyEssentials(p: Proc)
    requires p.size <= MAX_ARRAY && p.current < |p.keys| && Domain(p.table) == Upto(ESSENTIAL)
    ensures Missing(p.table, PagesOfSearch(p)) == Elements(PagesOfSearch(p))
  {
    hide Domain, PagesFor;
    var pages := PagesOfSearch(p);
    forall i | 0 <= i < |pages| ensures pages[i] !in Domain(p.table) { DataPage(p.size, p.keys[p.current], i); }
    assert Missing(p.table, pages) == Elements(pages);
  }

  lemma DataPage(size: int, key: int, i: nat)
    requires size <= MAX_ARRAY && i < |PagesFor(size, key)|
    ensures ESSENTIAL <= PagesFor(size, key)[i] < PAGES
  {
    SearchPages(Window(0, size - 1), key);
  }

  lemma SameSearch(p: Proc, p': Proc)
    requires p.size <= MAX_ARRAY && p.current < |p.keys|
    requires p'.size == p.size && p'.keys == p.keys && p'.current == p.current
    ensures PagesOfSearch(p') == PagesOfSearch(p)
  {
  }

  lemma OutIsEmpty(k: Kernel)
    requires Shape(k) && Inv(k, {}) && k.swapped != []
    ensures k.swapped[0] < |k.procs| && k.procs[k.swapped[0]].table == EmptyTable()
  {
    var q := k.swapped[0];
    assert q in k.swapped && ProcOk(k, k.procs[q]);
    forall g | 0 <= g < PAGES ensures k.procs[q].table[g] == None {
      NoFrames(k.procs[q].table, PAGES, g);
    }
  }

  lemma RevivedTable(k: Kernel)
    requires Shape(k) && Inv(k, {}) && k.swapped != [] && |k.free| >= ESSENTIAL
    requires k.swapped[0] < |k.procs| && k.procs[k.swapped[0]].table == EmptyTable()
    ensures var q, k1 := k.swapped[0], Revive(k);
      && |k1.free| == |k.free| - ESSENTIAL && k1.procs[q] == k.procs[q].(table := k1.procs[q].table, frames := ESSENTIAL, swappedOut := false)
      && Domain(k1.procs[q].table) == Upto(ESSENTIAL)
  {
    var q := k.swapped[0];
    var k0 := k.(swapped := k.swapped[1..]);
    SameFrames(k, k0);
    assert q in k.swapped && ProcOk(k, k.procs[q]);
    LoadEssentialInv(k0, q, ESSENTIAL);
  }

  /** What a turn misses is what its swap-in misses. */
  lemma TurnMissed(k: Kernel)
    requires Shape(k) && Inv(k, {}) && k.ready != []
    ensures k.ready[0] < |k.procs| && Inv(Dequeued(k), {k.ready[0]}) && CanSearch(Dequeued(k), k.ready[0])
    ensures var k2 := Search(Dequeued(k), k.ready[0]);
      && (k2.procs[k.ready[0]].completed ==> Inv(k2, {}))
      && TakeTurn(k).missed ==
           if k2.procs[k.ready[0]].completed && k2.swapped != [] && |k2.free| >= ESSENTIAL then SwapIn(k2).missed else 0
  {
    hide Inv, Search, SwapIn;
    FrontIsAlive(k);
    SearchInv(Dequeued(k), k.ready[0]);
  }

  /** A turn misses a completion exactly when it began about to. */
  lemma MissesExactlyWhen(k: Kernel)
    requires Shape(k) && Inv(k, {}) && k.ready != []
    ensures CanSearch(k, k.ready[0]) && (k.swapped != [] ==> CanSearch(k, k.swapped[0]))
    ensures TakeTurn(k).missed > 0 <==> AboutToMiss(k)
  {
    hide Inv, Search, SwapIn, TakeTurn, Fits, PagesOfSearch, Resident, Elements;
    AllCanSearch(k);
    TurnMissed(k);
    var pid, k1 := k.ready[0], Dequeued(k);
    SearchInv(k1, pid);
    SearchFits(k1, pid);
    FitsDequeued(k);
    var k2 := Search(k1, pid);
    if k2.procs[pid].completed && k2.swapped != [] {
      CompletedLeaves(k1, k2, pid);
      SwapInMisses(k2);
      SwappedIsOther(k, pid);
    }
  }

  lemma FitsDequeued(k: Kernel)
    requires k.ready != [] && CanSearch(k, k.ready[0])
    ensures Fits(Dequeued(k), k.ready[0]) == Fits(k, k.ready[0])
  {
  }

  /** A completed process leaves its frames behind. */
  lemma CompletedLeaves(k: Kernel, k': Kernel, pid: nat)
    requires Shape(k) && Shape(k') && pid < |k.procs| == |k'.procs| && Inv(k, {pid}) && Inv(k', {})
    requires SearchOutcome(k, k', pid) && k'.procs[pid].completed
    ensures |k'.free| == |k.free| + Resident(k.procs[pid])
  {
    FreeBalance(k, k', pid);
    assert ProcOk(k', k'.procs[pid]);
  }

  lemma SwapInMisses(k: Kernel)
    requires Shape(k) && Inv(k, {}) && k.swapped != [] && |k.free| >= ESSENTIAL
    ensures k.swapped[0] < |k.procs| && CanSearch(k, k.swapped[0])
    ensures SwapIn(k).missed > 0 <==>
      && LastSearch(k, k.swapped[0])
      && ESSENTIAL + |Elements(PagesOfSearch(k.procs[k.swapped[0]]))| <= |k.free|
  {
    hide Inv, Search, Fits;
    ReviveInv(k);
    RevivedFits(k);
    var q, k1 := k.swapped[0], Revive(k);
    SearchInv(k1, q);
    SearchFits(k1, q);
  }
}
