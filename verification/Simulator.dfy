/** The paging simulator itself: packed page tables, a stack of free frames and two ring queues, all
    updated in place.

    Each method is proved to take the simulator's abstract state where the corresponding function of Paging
    and PagingRun takes it.  The abstract state is a ghost field; the predicates say how tables, stack,
    queues and counters show it.  Where the program would spin for ever the loop stops and says so;
    what it counts as completed is kept apart from what it misses. */
module Simulator {
  import opened Collections
  import opened FrameTable
  import opened BinarySearch
  import opened Paging
  import opened PagingRun
  import opened PagingStart
  import opened PagingOutcome
  import opened PagingSingle
  import opened PagingTotals
  import RingQueue

  class Process {
    const size: int
    const keys: seq<int>
    const table: array<Entry>
    var current: nat
    var frames: nat
    var completed: bool
    var swappedOut: bool

    /** This process is what `p` says. */
    ghost predicate Is(p: Proc)
      reads this, table
    {
      && p == Proc(size, keys, p.table, current, frames, completed, swappedOut)
      && table.Length == |p.table| == PAGES
      && forall g :: 0 <= g < PAGES ==> Decode(table[g]) == p.table[g]
    }

    constructor (input: Input)
      ensures Is(Unbooted(input)) && fresh(table)
    {
      size, keys := input.size, input.keys;
      table := new Entry[PAGES](g => 0);
      current, frames, completed, swappedOut := 0, 0, false, false;
    }
  }

  class Simulator {
    const searches: nat
    const procs: seq<Process>
    const freeFrames: array<int>
    var numFree: nat
    const ready: RingQueue.Queue
    const swapped: RingQueue.Queue
    var accesses: nat
    var faults: nat
    var swaps: nat
    var minActive: int
    /** The state of the simulator, as the paging functions see it. */
    ghost var model: Kernel
    ghost const repr: set<object>

    /** Nothing is shared. */
    ghost predicate Wired()
      reads this
    {
      && (forall i :: 0 <= i < |procs| ==> procs[i] in repr && procs[i].table in repr && procs[i].table.Length == PAGES)
      && (forall i, j :: 0 <= i < j < |procs| ==> procs[i] != procs[j] && procs[i].table != procs[j].table)
      && {this, freeFrames, ready, ready.items, swapped, swapped.items} <= repr
      && freeFrames.Length == USABLE
      && ready != swapped && ready.items != swapped.items
      && ready.capacity == swapped.capacity == |procs|
    }

    ghost predicate ProcsMatch()
      requires Wired()
      reads this, repr
    {
      && |model.procs| == |procs|
      && forall p :: 0 <= p < |procs| ==> procs[p].Is(model.procs[p])
    }

    ghost predicate StackMatches()
      requires Wired()
      reads this, freeFrames
    {
      && numFree == |model.free| <= USABLE
      && forall i :: 0 <= i < numFree ==> freeFrames[i] == model.free[i]
    }

    ghost predicate QueuesMatch()
      requires Wired()
      reads this, ready, ready.items, swapped, swapped.items
    {
      && ready.Valid() && ready.Contents() == model.ready
      && swapped.Valid() && swapped.Contents() == model.swapped
    }

    ghost predicate CountersMatch()
      reads this
    {
      && model.searches == searches && model.accesses == accesses && model.faults == faults
      && model.swaps == swaps && model.minActive == minActive
    }

    ghost predicate Valid()
      reads this, repr
    {
      Wired() && ProcsMatch() && StackMatches() && QueuesMatch() && CountersMatch()
    }

    static method MakeProcesses(inputs: seq<Input>) returns (ps: seq<Process>, ghost objects: set<object>)
      ensures |ps| == |inputs| && fresh(objects)
      ensures forall j :: 0 <= j < |ps| ==> ps[j] in objects && ps[j].table in objects && ps[j].Is(Unbooted(inputs[j]))
      ensures forall j, l :: 0 <= j < l < |ps| ==> ps[j] != ps[l] && ps[j].table != ps[l].table
    {
      ps, objects := [], {};
      for i := 0 to |inputs|
        invariant |ps| == i && fresh(objects)
        invariant forall j :: 0 <= j < i ==> ps[j] in objects && ps[j].table in objects && ps[j].Is(Unbooted(inputs[j]))
        invariant forall j, l :: 0 <= j < l < i ==> ps[j] != ps[l] && ps[j].table != ps[l].table
      {
        var p := new Process(inputs[i]);
        ps := ps + [p];
        objects := objects + {p, p.table};
      }
    }

    /** Everything allocated, nothing read in yet. */
    constructor (searches: nat, inputs: seq<Input>)
      ensures Valid() && fresh(repr) && model == Blank(searches, inputs)
    {
      var ps;
      ghost var objects;
      ps, objects := MakeProcesses(inputs);
      this.searches, procs := searches, ps;
      var frames := new int[USABLE](f => f);
      var r := new RingQueue.Queue(|inputs|);
      var s := new RingQueue.Queue(|inputs|);
      freeFrames, ready, swapped := frames, r, s;
      numFree := USABLE;
      accesses, faults, swaps, minActive := 0, 0, 0, 0;
      model := Blank(searches, inputs);
      repr := objects + {this, frames, r, r.items, s, s.items};
    }

    /** A frame from the stack, or -1. */
    method AllocateFrame() returns (frame: int)
      requires Wired() && StackMatches()
      modifies this`numFree, this`model
      ensures StackMatches()
      ensures old(numFree) == 0 ==> frame == -1 && model == old(model)
      ensures old(numFree) > 0 ==>
        && frame == old(model).free[old(numFree) - 1]
        && model == old(model).(free := old(model).free[..old(numFree) - 1])
    {
      if numFree == 0 { return -1; }
      numFree := numFree - 1;
      frame := freeFrames[numFree];
      model := model.(free := model.free[..numFree]);
    }

    lemma TopOfStack()
      requires Partition(model) && model.free != []
      ensures model.free[|model.free| - 1] < USABLE
    {
    }

    /** `frame` was taken off the stack: page `page` of process `pid` gets it. */
    method MapPage(pid: nat, page: nat, frame: nat)
      requires Valid() && pid < |procs| && page < PAGES && frame < 0x8000
      modifies this`model, procs[pid], procs[pid].table
      ensures Valid()
      ensures var p := old(model).procs[pid];
        model == WithProc(old(model), pid, p.(table := p.table[page := Some(frame)], frames := p.frames + 1))
    {
      var p := procs[pid];
      assert p.Is(model.procs[pid]);
      p.table[page] := CreateEntry(frame);
      p.frames := p.frames + 1;
      EntryRoundTrip(frame, 0);
      model := WithProc(model, pid, model.procs[pid].(table := model.procs[pid].table[page := Some(frame)], frames := p.frames));
      assert p.Is(model.procs[pid]);
      assert forall q :: 0 <= q < |procs| && q != pid ==> procs[q].Is(model.procs[q]);
    }

    method AssignPage(pid: nat, page: nat) returns (ok: bool)
      requires Valid() && Partition(model) && pid < |procs| && page < PAGES
      modifies this`numFree, this`model, procs[pid], procs[pid].table
      ensures Valid() && ok == (old(model).free != [])
      ensures model == if ok then Assign(old(model), pid, page) else old(model)
    {
      hide Partition;
      if numFree > 0 { TopOfStack(); }
      ghost var k := model;
      var frame := AllocateFrame();
      if frame == -1 { return false; }
      MapPage(pid, page, frame);
      return true;
    }

    method LoadPage(pid: nat, page: nat) returns (ok: bool)
      requires Valid() && Partition(model) && pid < |procs| && page < PAGES
      modifies this`numFree, this`faults, this`model, procs[pid], procs[pid].table
      ensures Valid()
      ensures Paging.LoadPage(old(model), pid, page) == Loaded(model, ok)
    {
      assert procs[pid].Is(model.procs[pid]);
      if IsValid(procs[pid].table[page]) {
        return true;
      }
      faults := faults + 1;
      SameFrames(model, model.(faults := faults));
      model := model.(faults := faults);
      hide Partition;
      ok := AssignPage(pid, page);
    }

    method PushFrame(frame: nat)
      requires Wired() && StackMatches() && numFree < USABLE
      modifies this`numFree, this`model, freeFrames
      ensures StackMatches()
      ensures model == old(model).(free := old(model).free + [frame])
    {
      freeFrames[numFree] := frame;
      numFree := numFree + 1;
      model := model.(free := model.free + [frame]);
    }

    method InvalidatePage(pid: nat, page: nat)
      requires Valid() && pid < |procs| && page < PAGES
      modifies this`model, procs[pid].table
      ensures Valid()
      ensures var p := old(model).procs[pid]; model == WithProc(old(model), pid, p.(table := p.table[page := None]))
    {
      var p := procs[pid];
      assert p.Is(model.procs[pid]);
      EntryRoundTrip(0, p.table[page]);
      p.table[page] := ClearValid(p.table[page]);
      model := WithProc(model, pid, model.procs[pid].(table := model.procs[pid].table[page := None]));
      assert p.Is(model.procs[pid]);
      assert forall q :: 0 <= q < |procs| && q != pid ==> procs[q].Is(model.procs[q]);
    }

    /** The frame of a page, if it has one, goes back on the stack. */
    method UnmapPage(pid: nat, page: nat)
      requires Valid() && pid < |procs| && page < PAGES
      requires numFree < USABLE || !IsValid(procs[pid].table[page])
      modifies this`numFree, this`model, freeFrames, procs[pid].table
      ensures Valid() && Shape(old(model)) && model == ReleasePage(old(model), pid, page)
    {
      IsOf(pid);
      ShapeOf();
      if IsValid(procs[pid].table[page]) {
        PushFrame(GetFrame(procs[pid].table[page]));
        InvalidatePage(pid, page);
      }
    }

    lemma IsOf(pid: nat)
      requires Valid() && pid < |procs|
      ensures |model.procs| == |procs| && procs[pid].Is(model.procs[pid])
    {
    }

    lemma RoomOnStack(pid: nat, page: nat)
      requires Valid() && Conserved(model) && pid < |procs| && page < PAGES
      ensures numFree < USABLE || !IsValid(procs[pid].table[page])
    {
      assert procs[pid].Is(model.procs[pid]);
      if IsValid(procs[pid].table[page]) {
        SomethingResident(model, pid, page);
      }
    }

    method FreeProcessFrames(pid: nat)
      requires Valid() && Conserved(model) && pid < |procs|
      modifies this`numFree, this`model, freeFrames, procs[pid], procs[pid].table
      ensures Valid() && Shape(old(model)) && model == FrameTable.FreeProcessFrames(old(model), pid)
    {
      ghost var k := model;
      ShapeOf();
      hide Valid, Conserved;
      for i := 0 to PAGES
        invariant Valid() && Conserved(model)
        invariant model == ReleaseUpTo(k, pid, i)
      {
        RoomOnStack(pid, i);
        ReleasePageConserves(model, pid, i);
        UnmapPage(pid, i);
      }
      IsOf(pid);
      SetProcess(pid, procs[pid].current, 0, procs[pid].completed, procs[pid].swappedOut);
    }

    lemma ShapeOf()
      requires Valid()
      ensures Shape(model) && |model.procs| == |procs|
    {
      forall p | 0 <= p < |model.procs| ensures |model.procs[p].table| == PAGES { assert procs[p].Is(model.procs[p]); }
    }

    /** Updates the fields of one process. */
    method SetProcess(pid: nat, current: nat, frames: nat, completed: bool, swappedOut: bool)
      requires Valid() && pid < |procs|
      modifies this`model, procs[pid]
      ensures Valid()
      ensures model == WithProc(old(model), pid, old(model).procs[pid].(
        current := current, frames := frames, completed := completed, swappedOut := swappedOut))
    {
      hide Decode, RingQueue.Queue.Contents, RingQueue.Queue.Valid;
      var p := procs[pid];
      assert p.Is(model.procs[pid]);
      p.current, p.frames, p.completed, p.swappedOut := current, frames, completed, swappedOut;
      model := WithProc(model, pid, model.procs[pid].(
        current := current, frames := frames, completed := completed, swappedOut := swappedOut));
      assert forall q :: 0 <= q < |procs| && q != pid ==> procs[q].Is(model.procs[q]);
    }

    // ----- one search

    method EnqueueReady(pid: nat)
      requires Valid() && |model.ready| < |procs|
      modifies this`model, ready, ready.items
      ensures Valid() && model == old(model).(ready := old(model).ready + [pid])
    {
      ready.Enqueue(pid);
      model := model.(ready := model.ready + [pid]);
    }

    method EnqueueSwapped(pid: nat)
      requires Valid() && |model.swapped| < |procs|
      modifies this`model, swapped, swapped.items
      ensures Valid() && model == old(model).(swapped := old(model).swapped + [pid])
    {
      swapped.Enqueue(pid);
      model := model.(swapped := model.swapped + [pid]);
    }

    method RecordDegree()
      requires Valid()
      modifies this`model, this`minActive
      ensures Valid()
      ensures var active := |old(model).ready|;
        model == old(model).(minActive :=
          if old(model).swaps == 1 || active < old(model).minActive then active else old(model).minActive)
    {
      var n: int := |procs|;
      var active := n - swaps - (n - ready.size - swaps);
      if swaps == 1 || active < minActive {
        minActive := active;
      }
      model := model.(minActive := minActive);
    }

    method CountSwap()
      requires Valid()
      modifies this`model, this`swaps
      ensures Valid() && model == old(model).(swaps := old(model).swaps + 1)
    {
      swaps := swaps + 1;
      model := model.(swaps := swaps);
    }

    method CountAccess()
      requires Valid()
      modifies this`model, this`accesses
      ensures Valid() && model == old(model).(accesses := old(model).accesses + 1)
    {
      accesses := accesses + 1;
      model := model.(accesses := accesses);
    }

    method SetSwappedOut(pid: nat, out: bool)
      requires Valid() && pid < |procs|
      modifies this`model, procs[pid]
      ensures Valid() && pid < |old(model).procs|
      ensures model == WithProc(old(model), pid, old(model).procs[pid].(swappedOut := out))
    {
      IsOf(pid);
      SetProcess(pid, procs[pid].current, procs[pid].frames, procs[pid].completed, out);
    }

    method SwapOutProcess(pid: nat)
      requires Valid() && pid < |procs| && Inv(model, {pid})
      modifies this`numFree, this`swaps, this`minActive, this`model, freeFrames, procs[pid], procs[pid].table, swapped, swapped.items
      ensures Valid() && Shape(old(model)) && |old(model).procs| == |procs| && model == SwapOut(old(model), pid)
    {
      hide Valid, Inv, Partition, Conserved, ReleaseUpTo;
      ghost var k := model;
      ShapeOf();
      NotFull(k, pid);
      FramesOf(k, {pid});
      SameFrames(k, k.(swaps := k.swaps + 1));
      ReleaseUpToEffect(k.(swaps := k.swaps + 1), pid, PAGES);
      CountSwap();
      FreeProcessFrames(pid);
      SetSwappedOut(pid, true);
      EnqueueSwapped(pid);
      RecordDegree();
    }

    method CompleteSearch(pid: nat)
      requires Valid() && pid < |procs| && Inv(model, {pid})
      modifies this`numFree, this`model, freeFrames, procs[pid], procs[pid].table
      ensures Valid() && Shape(old(model)) && |old(model).procs| == |procs| && model == FinishSearch(old(model), pid)
    {
      hide Valid, Inv, Partition, ReleaseUpTo, Shape;
      ghost var k := model;
      ShapeOf();
      FramesOf(k, {pid});
      Advance(pid);
      var last := IsLast(pid);
      if last {
        ghost var k1 := model;
        MarkCompleted(pid);
        assert Conserved(model) by {
          SameTotal(k.procs, model.procs, |k.procs|);
        }
        FreeProcessFrames(pid);
      }
    }

    method IsLast(pid: nat) returns (last: bool)
      requires Valid() && pid < |procs|
      ensures |model.procs| == |procs| && last == (model.procs[pid].current >= model.searches)
    {
      IsOf(pid);
      last := procs[pid].current >= searches;
    }

    method Advance(pid: nat)
      requires Valid() && pid < |procs|
      modifies this`model, procs[pid]
      ensures Valid() && pid < |old(model).procs|
      ensures model == WithProc(old(model), pid, old(model).procs[pid].(current := old(model).procs[pid].current + 1))
    {
      IsOf(pid);
      SetProcess(pid, procs[pid].current + 1, procs[pid].frames, procs[pid].completed, procs[pid].swappedOut);
    }

    method MarkCompleted(pid: nat)
      requires Valid() && pid < |procs|
      modifies this`model, procs[pid]
      ensures Valid() && pid < |old(model).procs|
      ensures model == WithProc(old(model), pid, old(model).procs[pid].(completed := true))
    {
      IsOf(pid);
      SetProcess(pid, procs[pid].current, procs[pid].frames, true, procs[pid].swappedOut);
    }

    method TouchPage(pid: nat, page: nat) returns (ok: bool)
      requires Valid() && pid < |procs| && Inv(model, {pid}) && page < PAGES
      modifies this`numFree, this`accesses, this`faults, this`model, procs[pid], procs[pid].table
      ensures Valid() && Shape(old(model)) && |old(model).procs| == |procs|
      ensures Touch(old(model), pid, page) == Loaded(model, ok)
      ensures Inv(model, {pid}) && |model.procs| == |procs|
    {
      hide Valid, Inv, Partition, Conserved, Paging.LoadPage, OnlyLoads, Shape;
      ghost var k := model;
      ShapeOf();
      TouchInv(k, pid, page);
      FramesOf(k, {pid});
      SameFrames(k, k.(accesses := k.accesses + 1));
      CountAccess();
      ok := LoadPage(pid, page);
    }

    method PerformBinarySearch(pid: nat)
      requires Valid() && pid < |procs| && Inv(model, {pid})
      modifies this`numFree, this`accesses, this`faults, this`swaps, this`minActive, this`model
      modifies freeFrames, procs[pid], procs[pid].table, swapped, swapped.items
      ensures Valid() && CanSearch(old(model), pid) && model == Search(old(model), pid)
    {
      hide Valid, Inv, TouchAll, Probes, PagesOfSearch, Shape, Search, FinishSearch, SwapOut, Touch, Pages, SearchOutcome, Rest;
      ghost var k0 := model;
      ShapeOf();
      SearchInv(k0, pid);
      var p, key := SearchKey(pid);
      var lo, hi := 0, p.size - 1;
      ghost var goal := Rest(model, pid, Window(lo, hi), key);
      SearchIs(k0, pid, goal);
      while lo < hi
        invariant Valid() && Shape(model) && Inv(model, {pid}) && |model.procs| == |procs|
        invariant 0 <= lo && hi < MAX_ARRAY
        invariant goal == Rest(model, pid, Window(lo, hi), key)
        decreases hi - lo
      {
        ghost var k := model;
        ghost var w := Window(lo, hi);
        var mid := (lo + hi) / 2;
        RestUnfolds(k, pid, w, key);
        var ok := TouchPage(pid, mid / PER_PAGE + ESSENTIAL);
        if !ok {
          SwapOutProcess(pid);
          return;
        }
        if key <= mid { hi := mid; } else { lo := mid + 1; }
      }
      WindowShut(model, pid, Window(lo, hi), key);
      CompleteSearch(pid);
    }

    method SearchKey(pid: nat) returns (p: Process, key: int)
      requires Valid() && pid < |procs| && CanSearch(model, pid)
      ensures p == procs[pid] && p.size == model.procs[pid].size <= MAX_ARRAY
      ensures key == model.procs[pid].keys[model.procs[pid].current]
    {
      IsOf(pid);
      p := procs[pid];
      key := p.keys[p.current];
    }

    // ----- booting

    method LoadEssentials(pid: nat) returns (ok: bool)
      requires Valid() && pid < |procs| && Partition(model) && Conserved(model)
      requires |model.procs| == |procs| && Shape(model) && forall g :: 0 <= g < ESSENTIAL ==> model.procs[pid].table[g] == None
      modifies this`numFree, this`model, procs[pid], procs[pid].table
      ensures Valid() && ok == (|old(model).free| >= ESSENTIAL)
      ensures ok ==> model == LoadEssential(old(model), pid, ESSENTIAL)
    {
      hide Valid, Partition, Conserved;
      ghost var k := model;
      for j := 0 to ESSENTIAL
        invariant Valid() && j <= |k.free| && model == LoadEssential(k, pid, j)
      {
        LoadEssentialInv(k, pid, j);
        ok := AssignPage(pid, j);
        if !ok { return; }
      }
      return true;
    }

    /** Reads the processes in; fails when the essential pages of one of them do not fit. */
    method ReadInput(inputs: seq<Input>) returns (ok: bool)
      requires Valid() && model == Blank(searches, inputs)
      modifies this`numFree, this`model, procs, set p | p in procs :: p.table, ready, ready.items
      ensures Valid()
      ensures ok == Boot(searches, inputs).Some?
      ensures ok ==> model.(minActive := |inputs|) == Boot(searches, inputs).value
    {
      hide Valid, Partition, Conserved;
      ShapeOf();
      assert Blank(searches, inputs) == BootUpTo(searches, inputs, 0);
      for i := 0 to |procs|
        invariant Valid() && |procs| == |inputs|
        invariant ESSENTIAL * i <= USABLE && model == BootUpTo(searches, inputs, i)
      {
        BootInv(searches, inputs, i);
        BootedSoFar(i);
        ok := LoadEssentials(i);
        if !ok { return; }
        EnqueueReady(i);
      }
      return true;
    }

    lemma BootedSoFar(i: nat)
      requires Valid() && i < |procs|
      ensures procs[i] in procs && procs[i].table in set p | p in procs :: p.table
    {
    }

    // ----- the scheduling loop

    method DequeueReady() returns (pid: int)
      requires Valid()
      modifies this`model, ready
      ensures Valid()
      ensures old(model).ready == [] ==> pid == -1 && model == old(model)
      ensures old(model).ready != [] ==>
        pid == old(model).ready[0] && model == old(model).(ready := old(model).ready[1..])
    {
      hide Decode;
      pid := ready.Dequeue();
      if pid != -1 { model := model.(ready := model.ready[1..]); }
    }

    method DequeueSwapped() returns (pid: int)
      requires Valid() && model.swapped != []
      modifies this`model, swapped
      ensures Valid()
      ensures pid == old(model).swapped[0] && model == old(model).(swapped := old(model).swapped[1..])
    {
      pid := swapped.Dequeue();
      model := model.(swapped := model.swapped[1..]);
    }

    method Flags(pid: nat) returns (completed: bool, out: bool)
      requires Valid() && pid < |procs|
      ensures |model.procs| == |procs|
      ensures completed == model.procs[pid].completed && out == model.procs[pid].swappedOut
    {
      IsOf(pid);
      completed, out := procs[pid].completed, procs[pid].swappedOut;
    }

    /** Whether somebody can be let back in. */
    method CanSwapIn() returns (can: bool)
      requires Valid()
      ensures can <==> model.swapped != [] && |model.free| >= ESSENTIAL
    {
      var none := swapped.IsEmpty();
      can := !none && numFree >= ESSENTIAL;
    }

    method BackToReady(pid: nat)
      requires Valid() && pid < |procs| && Inv(model, {pid})
      modifies this`model, ready, ready.items
      ensures Valid() && model == old(model).(ready := old(model).ready + [pid])
    {
      ShapeOf();
      BackOfReady(model, pid);
      EnqueueReady(pid);
    }

    /** The process swapped out longest ago gets its essential pages back. */
    method ReviveFront() returns (q: nat)
      requires Valid() && Inv(model, {}) && model.swapped != [] && |model.free| >= ESSENTIAL
      modifies this`numFree, this`model, procs, set p | p in procs :: p.table, swapped
      ensures Valid() && Shape(old(model)) && |old(model).procs| == |procs|
      ensures q == old(model).swapped[0] < |procs| && model == Revive(old(model))
    {
      hide Valid, Inv, Partition, Conserved, Shape, LoadEssential;
      ghost var k := model;
      ShapeOf();
      ReviveReady(k);
      q := DequeueSwapped();
      BootedSoFar(q);
      var ok := LoadEssentials(q);
      SetSwappedOut(q, false);
    }

    method SwapInProcess() returns (ghost missed: nat)
      requires Valid() && Inv(model, {}) && model.swapped != [] && |model.free| >= ESSENTIAL
      modifies this`numFree, this`accesses, this`faults, this`swaps, this`minActive, this`model
      modifies freeFrames, procs, set p | p in procs :: p.table, ready, ready.items, swapped, swapped.items
      ensures Valid() && Shape(old(model)) && |old(model).procs| == |procs|
      ensures Turn(model, 1, missed) == SwapIn(old(model))
    {
      hide Valid, Inv, Shape, Revive, Search, SearchOutcome;
      ghost var k := model;
      ShapeOf();
      ReviveInv(k);
      SearchInv(Revive(k), k.swapped[0]);
      var q := ReviveFront();
      BootedSoFar(q);
      PerformBinarySearch(q);
      var completed, out := Flags(q);
      missed := if completed then 1 else 0;
      if !completed && !out {
        BackToReady(q);
      }
    }

    /** One turn, for the process `pid` just taken off the ready queue of state `k`. */
    method TurnOf(pid: nat, ghost k: Kernel) returns (counted: nat, ghost missed: nat)
      requires Valid() && Shape(k) && |k.procs| == |procs| && Inv(k, {}) && k.ready != []
      requires pid == k.ready[0] && model == k.(ready := k.ready[1..]) && pid < |procs|
      modifies this`numFree, this`accesses, this`faults, this`swaps, this`minActive, this`model
      modifies freeFrames, procs, set p | p in procs :: p.table, ready, ready.items, swapped, swapped.items
      ensures Valid() && Turn(model, counted, missed) == TakeTurn(k)
    {
      hide Valid, Inv, Shape, Search, SearchOutcome, SwapIn;
      FrontIsAlive(k);
      ShapeOf();
      SearchInv(model, pid);
      BootedSoFar(pid);
      counted, missed := 0, 0;
      var completed, out := Flags(pid);
      if !completed && !out {
        PerformBinarySearch(pid);
        completed, out := Flags(pid);
        if completed {
          counted := 1;
          var can := CanSwapIn();
          if can {
            missed := SwapInProcess();
          }
        } else if !out {
          BackToReady(pid);
        }
      }
    }

    /** The whole simulation.  Where the C program spins with nobody ready and somebody swapped out, no
        iteration changes anything any more, and the method returns with `spins` set. */
    method RunSimulation() returns (completedProcesses: nat, spins: bool, ghost missed: nat)
      requires Valid() && Inv(model.(minActive := |procs|), {})
      modifies this`numFree, this`accesses, this`faults, this`swaps, this`minActive, this`model
      modifies freeFrames, procs, set p | p in procs :: p.table, ready, ready.items, swapped, swapped.items
      ensures Valid() && Shape(old(model))
      ensures Ended(model, completedProcesses, missed, spins) == Run(old(model).(minActive := |procs|), 0, 0)
    {
      hide Valid, Inv, Left, TakeTurn, Run, Shape, TurnOk;
      completedProcesses, spins, missed := 0, false, 0;
      ShapeOf();
      StartCounting();
      ShapeOf();
      ghost var goal := Run(model, 0, 0);
      while completedProcesses < |procs|
        invariant Valid() && Shape(model) && |model.procs| == |procs| && Inv(model, {})
        invariant goal == Run(model, completedProcesses, missed)
        invariant !spins
        decreases Left(model), |model.ready|
      {
        ghost var k := model;
        RunStopsHere(k, completedProcesses, missed);
        var pid := DequeueReady();
        if pid == -1 {
          var none := NobodySwapped();
          spins := !none;
          return;
        }
        TurnAhead(k, completedProcesses, missed);
        var counted;
        ghost var more;
        counted, more := TurnOf(pid, k);
        completedProcesses, missed := completedProcesses + counted, missed + more;
      }
      RunStopsHere(model, completedProcesses, missed);
    }

    method StartCounting()
      requires Valid()
      modifies this`minActive, this`model
      ensures Valid() && model == old(model).(minActive := |procs|)
    {
      minActive := |procs|;
      model := model.(minActive := |procs|);
    }

    method NobodySwapped() returns (none: bool)
      requires Valid()
      ensures none <==> model.swapped == []
    {
      none := swapped.IsEmpty();
    }
  }

  lemma ReviveReady(k: Kernel)
    requires Shape(k) && Inv(k, {}) && k.swapped != []
    ensures k.swapped[0] < |k.procs|
    ensures Partition(k.(swapped := k.swapped[1..])) && Conserved(k.(swapped := k.swapped[1..]))
    ensures forall g :: 0 <= g < ESSENTIAL ==> k.procs[k.swapped[0]].table[g] == None
  {
    SameFrames(k, k.(swapped := k.swapped[1..]));
    var q := k.swapped[0];
    assert q in k.swapped && ProcOk(k, k.procs[q]);
    forall g | 0 <= g < ESSENTIAL ensures k.procs[q].table[g] == None { NoFrames(k.procs[q].table, PAGES, g); }
  }

  lemma TurnAhead(k: Kernel, counted: nat, missed: nat)
    requires Shape(k) && Inv(k, {}) && counted < |k.procs| && k.ready != []
    ensures k.ready[0] < |k.procs|
    ensures var t := TakeTurn(k);
      && Inv(t.k, {}) && (Left(t.k) < Left(k) || (Left(t.k) == Left(k) && |t.k.ready| < |k.ready|))
      && Run(k, counted, missed) == Run(t.k, counted + t.counted, missed + t.missed)
  {
    hide Inv, TakeTurn, Left, Run;
    RunUnfolds(k, counted, missed);
    FrontIsAlive(k);
  }

  lemma RunStopsHere(k: Kernel, counted: nat, missed: nat)
    requires Shape(k) && Inv(k, {})
    ensures counted >= |k.procs| ==> Run(k, counted, missed) == Ended(k, counted, missed, false)
    ensures counted < |k.procs| && k.ready == [] ==> Run(k, counted, missed) == Ended(k, counted, missed, k.swapped != [])
  {
  }

  /** What is left of a search from state `k`, when its window is still `w`. */
  ghost function Rest(k: Kernel, pid: nat, w: Window, key: int): (r: Loaded)
    requires Shape(k) && pid < |k.procs| && w.hi < MAX_ARRAY
  {
    SearchPages(w, key);
    TouchAll(k, pid, Pages(Probes(w, key)))
  }

  lemma SearchIs(k: Kernel, pid: nat, goal: Loaded)
    requires CanSearch(k, pid)
    requires goal == Rest(k, pid, Window(0, k.procs[pid].size - 1), k.procs[pid].keys[k.procs[pid].current])
    ensures Shape(goal.k) && |goal.k.procs| == |k.procs|
    ensures Search(k, pid) == if goal.ok then FinishSearch(goal.k, pid) else SwapOut(goal.k, pid)
  {
    assert goal == TouchAll(k, pid, PagesOfSearch(k.procs[pid]));
  }

  lemma FramesOf(k: Kernel, run: set<nat>)
    requires Inv(k, run)
    ensures Partition(k) && Conserved(k)
  {
  }

  lemma RestUnfolds(k: Kernel, pid: nat, w: Window, key: int)
    requires Shape(k) && pid < |k.procs| && w.hi < MAX_ARRAY && w.Open()
    ensures PageOf(w.Middle()) < PAGES
    ensures var r := Touch(k, pid, PageOf(w.Middle()));
      Rest(k, pid, w, key) == if r.ok then Rest(r.k, pid, w.Narrow(key), key) else r
  {
    SearchPages(w, key);
    SearchPages(w.Narrow(key), key);
    var rest := Probes(w.Narrow(key), key);
    assert ([w.Middle()] + rest)[1..] == rest;
    assert ([PageOf(w.Middle())] + Pages(rest))[1..] == Pages(rest);
  }

  lemma WindowShut(k: Kernel, pid: nat, w: Window, key: int)
    requires Shape(k) && pid < |k.procs| && w.hi < MAX_ARRAY && !w.Open()
    ensures Rest(k, pid, w, key) == Loaded(k, true)
  {
  }

  lemma NotFull(k: Kernel, pid: nat)
    requires Inv(k, {pid}) && pid < |k.procs|
    ensures |k.swapped| < |k.procs|
  {
    assert pid !in k.swapped;
    DistinctBound(k.swapped, |k.procs|);
  }

  lemma {:induction false} TotalAtLeast(procs: seq<Proc>, pid: nat, i: nat)
    requires pid < i <= |procs|
    ensures ResidentTotal(procs, i) >= Resident(procs[pid])
  {
    if pid < i - 1 { TotalAtLeast(procs, pid, i - 1); }
  }

  lemma SomethingResident(k: Kernel, pid: nat, page: nat)
    requires Shape(k) && Conserved(k) && pid < |k.procs| && page < PAGES && k.procs[pid].table[page].Some?
    ensures |k.free| < USABLE
  {
    CountGrows(k.procs[pid].table, page + 1, PAGES);
    TotalAtLeast(k.procs, pid, |k.procs|);
  }

  lemma BootsIffFits(m: nat, inputs: seq<Input>)
    ensures Boot(m, inputs).Some? <==> ESSENTIAL * |inputs| <= USABLE
  {
  }

  lemma OutcomeIs(m: nat, inputs: seq<Input>)
    requires InputOk(m, inputs) && ESSENTIAL * |inputs| <= USABLE
    ensures StartReady(m, inputs) && Outcome(m, inputs) == Run(Boot(m, inputs).value, 0, 0)
  {
    hide Inv, Run;
    StartInv(m, inputs);
  }

  /** From input to what the program reports.  A simulation that boots never swaps exactly when memory suffices,
      and then it counts every process, with one access for each probe and one fault for each data page; with one
      search each, it counts all or all but one, as `Overfull` tells.  Completions that it does not count are in
      `missed`; it spins only after such a one, and never with at most twelve processes.  The degree of
      multiprogramming it reports is the least number of ready processes at a swap-out. */
  method Simulate(m: nat, inputs: seq<Input>)
    returns (booted: bool, completedProcesses: nat, spins: bool,
             accesses: nat, faults: nat, swaps: nat, degree: int, ghost missed: nat)
    requires InputOk(m, inputs)
    ensures booted <==> ESSENTIAL * |inputs| <= USABLE
    ensures booted ==> StartReady(m, inputs)
    ensures booted ==>
      var e := Outcome(m, inputs);
      && e.counted == completedProcesses && e.missed == missed && e.spinning == spins
      && e.k.accesses == accesses && e.k.faults == faults && e.k.swaps == swaps && e.k.minActive == degree
    ensures booted ==> (swaps == 0 <==> Suffices(m, inputs))
    ensures booted && Suffices(m, inputs) ==>
      && completedProcesses == |inputs| && !spins
      && accesses == AllProbes(inputs, AllDone(m), |inputs|) && faults == DataPages(inputs, AllDone(m), |inputs|)
    ensures booted && m == 1 ==> !spins && completedProcesses == |inputs| - if Overfull(inputs) then 1 else 0
    ensures |inputs| <= 6 ==> swaps == 0 && completedProcesses == |inputs|
    ensures |inputs| <= 12 ==> !spins
    ensures booted && missed == 0 ==> completedProcesses == |inputs| && !spins
    ensures booted && spins ==> missed > 0
    ensures booted ==>
      var ds := SwapDegrees(m, inputs);
      && swaps == |ds|
      && (forall i :: 0 <= i < |ds| ==> 6 <= degree <= ds[i])
      && if ds == [] then degree == |inputs| else exists i :: 0 <= i < |ds| && degree == ds[i]
    ensures completedProcesses + missed <= |inputs|
  {
    hide Inv, Run, Suffices, Completed, Overfull, DataPages, AllProbes, SwapDegrees, EndOk, Boot, Outcome;
    BootsIffFits(m, inputs);
    completedProcesses, spins, missed, accesses, faults, swaps, degree := 0, false, 0, 0, 0, 0, 0;
    if |inputs| <= 6 { SixSuffice(m, inputs); }
    var sim := new Simulator(m, inputs);
    booted := sim.ReadInput(inputs);
    if booted {
      OutcomeIs(m, inputs);
      Simulation(m, inputs);
      NeverSwapsIffSuffices(m, inputs);
      FewStranded(m, inputs);
      if m == 1 { OneSearchOutcome(inputs); }
      ghost var enough := Suffices(m, inputs);
      if enough { StatisticsIfSuffices(m, inputs); }
      DegreeReported(m, inputs);
      completedProcesses, spins, missed := sim.RunSimulation();
      accesses, faults, swaps, degree := sim.accesses, sim.faults, sim.swaps, sim.minActive;
      CompletedBound(sim.model);
    }
  }
}
