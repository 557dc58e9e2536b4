/** Booting the kernel from its input: every process gets its ten essential pages and joins the ready queue.
    What every simulation from there comes to follows from the results about runs. */
module PagingStart {
  import opened Collections
  import opened FrameTable
  import opened BinarySearch
  import opened Paging
  import opened PagingRun

  datatype Input = Input(size: int, keys: seq<int>)

  /** The input gives every process a number of searches, and arrays that fit the page table. */
  predicate InputOk(m: nat, inputs: seq<Input>) {
    && m >= 1
    && forall p :: 0 <= p < |inputs| ==> |inputs[p].keys| == m && inputs[p].size <= MAX_ARRAY
  }

  function Unbooted(i: Input): Proc {
    Proc(i.size, i.keys, EmptyTable(), 0, 0, false, false)
  }

  function Blank(m: nat, inputs: seq<Input>): (k: Kernel)
    ensures Shape(k) && |k.procs| == |inputs|
  {
    Kernel(m, seq(|inputs|, p requires 0 <= p < |inputs| => Unbooted(inputs[p])), seq(USABLE, f => f), [], [], 0, 0, 0, 0)
  }

  /** After `i` processes have been read: each got its essential pages and joined the ready queue. */
  function BootUpTo(m: nat, inputs: seq<Input>, i: nat): (k: Kernel)
    requires i <= |inputs| && ESSENTIAL * i <= USABLE
    ensures Shape(k) && |k.procs| == |inputs| && |k.free| == USABLE - ESSENTIAL * i
  {
    if i == 0 then Blank(m, inputs)
    else
      var k := LoadEssential(BootUpTo(m, inputs, i - 1), i - 1, ESSENTIAL);
      k.(ready := k.ready + [i - 1])
  }

  /** The kernel at the start of the simulation; reading fails when the essential pages do not fit. */
  function Boot(m: nat, inputs: seq<Input>): Option<Kernel> {
    if ESSENTIAL * |inputs| <= USABLE then Some(BootUpTo(m, inputs, |inputs|).(minActive := |inputs|)) else None
  }

  lemma {:induction false} NothingResident(procs: seq<Proc>, i: nat)
    requires i <= |procs| && forall p :: 0 <= p < |procs| ==> procs[p].table == EmptyTable()
    ensures ResidentTotal(procs, i) == 0
  {
    if i > 0 {
      NothingResident(procs, i - 1);
      CountBound(EmptyTable(), PAGES);
    }
  }

  lemma BlankFrames(m: nat, inputs: seq<Input>)
    ensures Partition(Blank(m, inputs)) && Conserved(Blank(m, inputs))
  {
    var k := Blank(m, inputs);
    assert Owns(k, seq(USABLE, f requires 0 <= f < USABLE => Free(f)));
    NothingResident(k.procs, |k.procs|);
  }

  predicate Booted(p: Proc, i: Input)
    requires |p.table| == PAGES
  {
    && p == Unbooted(i).(table := p.table, frames := ESSENTIAL)
    && Resident(p) == ESSENTIAL
    && (forall g :: 0 <= g < ESSENTIAL ==> p.table[g].Some?)
  }

  lemma {:induction false} BootInv(m: nat, inputs: seq<Input>, i: nat)
    requires i <= |inputs| && ESSENTIAL * i <= USABLE
    ensures var k := BootUpTo(m, inputs, i);
      && Partition(k) && Conserved(k)
      && k == Blank(m, inputs).(procs := k.procs, free := k.free, ready := k.ready)
      && (forall p :: 0 <= p < i ==> Booted(k.procs[p], inputs[p]))
      && (forall p :: i <= p < |inputs| ==> k.procs[p] == Unbooted(inputs[p]))
      && |k.ready| == i && (forall p :: 0 <= p < i ==> k.ready[p] == p)
  {
    hide Partition, Conserved, CountValid, LoadEssential;
    BlankFrames(m, inputs);
    if i > 0 {
      BootInv(m, inputs, i - 1);
      var k0 := BootUpTo(m, inputs, i - 1);
      CountBound(EmptyTable(), PAGES);
      LoadEssentialInv(k0, i - 1, ESSENTIAL);
      SameFrames(LoadEssential(k0, i - 1, ESSENTIAL), BootUpTo(m, inputs, i));
    }
  }

  /** A freshly booted kernel is in order. */
  lemma StartInv(m: nat, inputs: seq<Input>)
    requires InputOk(m, inputs) && ESSENTIAL * |inputs| <= USABLE
    ensures Inv(Boot(m, inputs).value, {}) && Completed(Boot(m, inputs).value) == {}
    ensures !Spinning(Boot(m, inputs).value)
    ensures Boot(m, inputs).value.searches == m && Boot(m, inputs).value.swaps == 0
  {
    var n := |inputs|;
    BootInv(m, inputs, n);
    var k := Boot(m, inputs).value;
    SameFrames(BootUpTo(m, inputs, n), k);
    hide Partition, Conserved;
    forall p | 0 <= p < n ensures ProcOk(k, k.procs[p]) && Alive(k.procs[p]) && p in k.ready {
      assert Booted(k.procs[p], inputs[p]);
      assert k.ready[p] == p;
    }
  }

  /** From any input that boots: unless some process finishes its last search while being swapped in, the
      simulation stops with every process completed and counted; and whatever happens, the degree of
      multiprogramming it reports is at least six if anything was ever swapped out. */
  lemma Simulation(m: nat, inputs: seq<Input>)
    requires InputOk(m, inputs) && Boot(m, inputs).Some?
    ensures StartReady(m, inputs)
    ensures var e := Run(Boot(m, inputs).value, 0, 0);
      && EndOk(|inputs|, 0, e)
      && (e.missed == 0 ==> !e.spinning && e.counted == |inputs| && forall p :: 0 <= p < |inputs| ==> e.k.procs[p].completed)
      && (e.k.swaps > 0 ==> e.k.minActive >= 6)
  {
    StartInv(m, inputs);
    RunResult(Boot(m, inputs).value, 0, 0);
  }

  ghost predicate StartReady(m: nat, inputs: seq<Input>) {
    Boot(m, inputs).Some? && Shape(Boot(m, inputs).value) && Inv(Boot(m, inputs).value, {})
  }

  // ----- kernels in order can spin

  /** A kernel in order from which one turn leaves the loop spinning: three processes, each with one search to do. */
  function SmallKernel(): Kernel {
    var p0 := Proc(1, [0], Essentials(), 0, ESSENTIAL, false, false);
    var out := Proc(1, [0], EmptyTable(), 0, 0, false, true);
    Kernel(1, [p0, out, out], seq(USABLE - ESSENTIAL, i => i + ESSENTIAL), [0], [1, 2], 0, 0, 2, 6)
  }

  function Essentials(): (t: seq<Option<nat>>)
    ensures |t| == PAGES
  {
    seq(PAGES, g => if 0 <= g < ESSENTIAL then Some(g) else None)
  }

  lemma {:induction false} EssentialsHeld(i: nat)
    requires i <= PAGES
    ensures CountValid(Essentials(), i) == if i < ESSENTIAL then i else ESSENTIAL
  {
    if i > 0 { EssentialsHeld(i - 1); }
  }

  lemma SmallKernelFrames()
    ensures Partition(SmallKernel()) && Conserved(SmallKernel())
  {
    var k := SmallKernel();
    var owner := seq(USABLE, f requires 0 <= f < USABLE => if f < ESSENTIAL then Page(0, f) else Free(f - ESSENTIAL));
    assert Owns(k, owner);
    hide CountValid;
    EssentialsHeld(PAGES);
    CountBound(EmptyTable(), PAGES);
    assert ResidentTotal(k.procs, 1) == ResidentTotal(k.procs, 0) + ESSENTIAL;
    assert ResidentTotal(k.procs, 2) == ResidentTotal(k.procs, 1);
    assert ResidentTotal(k.procs, 3) == ResidentTotal(k.procs, 2);
  }

  lemma SpinningHappens()
    ensures Shape(SmallKernel()) && Inv(SmallKernel(), {}) && SmallKernel().ready != []
    ensures Spinning(TakeTurn(SmallKernel()).k)
  {
    hide Partition, Conserved, CountValid, TakeTurn;
    var k := SmallKernel();
    SmallKernelFrames();
    EssentialsHeld(PAGES);
    CountBound(EmptyTable(), PAGES);
    assert Inv(k, {});
    SpinsExactlyWhen(k);
  }
}
