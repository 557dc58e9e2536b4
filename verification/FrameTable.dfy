/** Page-table entries, and the process and frame state of the paging kernel, with the partition of the frames. */
module FrameTable {

  // An entry packs a valid bit (bit 15) and a fifteen-bit frame number into sixteen bits; the masks 0x8000 and
  // 0x7FFF are written out as division and remainder, and proved equal to that. Above that, a page table is a
  // sequence of optional frames. At every moment the frames of the machine are split between the free stack and
  // the valid entries of the tables, each frame in exactly one place.

  import opened Words

  datatype Option<T> = None | Some(value: T)

  const USABLE: nat := 12288
  const PAGES: nat := 2048
  const ESSENTIAL: nat := 10

  // ----- packed entries

  newtype Entry = e: int | 0 <= e < 0x1_0000

  const VALID_BIT: Entry := 0x8000

  predicate IsValid(e: Entry) { e / VALID_BIT % 2 == 1 }

  function GetFrame(e: Entry): nat { (e % VALID_BIT) as nat }

  function ClearValid(e: Entry): Entry { if IsValid(e) then e - VALID_BIT else e }

  function SetValid(e: Entry): Entry { if IsValid(e) then e else e + VALID_BIT }

  function CreateEntry(frame: nat): Entry
    requires frame < 0x1_0000
  {
    SetValid(frame as Entry)
  }

  /** What an entry says. */
  function Decode(e: Entry): Option<nat> {
    if IsValid(e) then Some(GetFrame(e)) else None
  }

  /** Packing keeps a frame number exactly when it fits fifteen bits; clearing invalidates and keeps the frame bits. */
  lemma EntryRoundTrip(frame: nat, e: Entry)
    requires frame < 0x1_0000
    ensures IsValid(CreateEntry(frame))
    ensures Decode(CreateEntry(frame)) == Some(frame) <==> frame < 0x8000
    ensures Decode(ClearValid(e)) == None && GetFrame(ClearValid(e)) == GetFrame(e)
  {
  }

  lemma EntryInNumbers(v: nat)
    requires v < 0x1_0000
    ensures IsValid(v as Entry) <==> v >= 0x8000
    ensures GetFrame(v as Entry) == v % 0x8000 && ClearValid(v as Entry) as int == v % 0x8000
    ensures CreateEntry(v) as int == if v >= 0x8000 then v else v + 0x8000
  {
  }

  /** The masks of sixteen-bit words do the same: 0x8000 tells validity and sets it, 0x7FFF gives the frame, and
      the complement of 0x8000 clears. */
  lemma MasksAgree(w: bv16)
    ensures IsValid(Value(w) as Entry) <==> w & 0x8000 != 0
    ensures GetFrame(Value(w) as Entry) == Value(w & 0x7FFF)
    ensures ClearValid(Value(w) as Entry) as int == Value(w & !0x8000)
    ensures CreateEntry(Value(w)) as int == Value(w | 0x8000)
  {
    hide Value, IsValid, GetFrame, ClearValid, CreateEntry;
    Masks(w);
    EntryInNumbers(Value(w));
  }

  // ----- the kernel's tables

  datatype Proc = Proc(
    size: int, keys: seq<int>, table: seq<Option<nat>>, current: nat, frames: nat,
    completed: bool, swappedOut: bool)

  /** `searches` is how many searches each process has to do; `free` is the stack of free frames, its
      top last; the queues are listed front first. */
  datatype Kernel = Kernel(
    searches: nat, procs: seq<Proc>, free: seq<nat>, ready: seq<nat>, swapped: seq<nat>,
    accesses: nat, faults: nat, swaps: nat, minActive: nat)

  function EmptyTable(): (t: seq<Option<nat>>)
    ensures |t| == PAGES && forall g :: 0 <= g < PAGES ==> t[g] == None
  {
    seq(PAGES, _ => None)
  }

  predicate Shape(k: Kernel) {
    forall p :: 0 <= p < |k.procs| ==> |k.procs[p].table| == PAGES
  }

  function WithProc(k: Kernel, pid: nat, p: Proc): Kernel
    requires pid < |k.procs|
  {
    k.(procs := k.procs[pid := p])
  }

  /** A frame from the top of the stack goes to a page. */
  function Assign(k: Kernel, pid: nat, page: nat): (k': Kernel)
    requires Shape(k) && pid < |k.procs| && page < PAGES && k.free != []
    ensures Shape(k') && |k'.procs| == |k.procs|
  {
    var top, p := |k.free| - 1, k.procs[pid];
    WithProc(k.(free := k.free[..top]), pid, p.(table := p.table[page := Some(k.free[top])], frames := p.frames + 1))
  }

  /** The frame of a page, if it has one, goes back on the stack. */
  function ReleasePage(k: Kernel, pid: nat, page: nat): (k': Kernel)
    requires Shape(k) && pid < |k.procs| && page < PAGES
    ensures Shape(k') && |k'.procs| == |k.procs|
  {
    var p := k.procs[pid];
    match p.table[page]
    case None => k
    case Some(f) => WithProc(k.(free := k.free + [f]), pid, p.(table := p.table[page := None]))
  }

  function ReleaseUpTo(k: Kernel, pid: nat, i: nat): (k': Kernel)
    requires Shape(k) && pid < |k.procs| && i <= PAGES
    ensures Shape(k') && |k'.procs| == |k.procs|
  {
    if i == 0 then k else ReleasePage(ReleaseUpTo(k, pid, i - 1), pid, i - 1)
  }

  function FreeProcessFrames(k: Kernel, pid: nat): (k': Kernel)
    requires Shape(k) && pid < |k.procs|
    ensures Shape(k') && |k'.procs| == |k.procs|
  {
    var k1 := ReleaseUpTo(k, pid, PAGES);
    WithProc(k1, pid, k1.procs[pid].(frames := 0))
  }

  // ----- who owns a frame

  datatype Owner = Free(at: nat) | Page(pid: nat, page: nat)

  ghost predicate StackOwned(k: Kernel, owner: seq<Owner>)
    requires |owner| == USABLE
  {
    forall i :: 0 <= i < |k.free| ==> k.free[i] < USABLE && owner[k.free[i]] == Free(i)
  }

  ghost predicate PagesOwned(k: Kernel, owner: seq<Owner>)
    requires |owner| == USABLE && Shape(k)
  {
    forall p, g :: 0 <= p < |k.procs| && 0 <= g < PAGES && k.procs[p].table[g].Some? ==>
      k.procs[p].table[g].value < USABLE && owner[k.procs[p].table[g].value] == Page(p, g)
  }

  ghost predicate OwnerRight(k: Kernel, f: nat, o: Owner)
    requires Shape(k)
  {
    match o
    case Free(i) => i < |k.free| && k.free[i] == f
    case Page(p, g) => p < |k.procs| && g < PAGES && k.procs[p].table[g] == Some(f)
  }

  /** `owner` names, for each frame, the one place that holds it; and nothing else is held anywhere. */
  ghost predicate Owns(k: Kernel, owner: seq<Owner>)
    requires Shape(k)
  {
    && |owner| == USABLE
    && StackOwned(k, owner)
    && PagesOwned(k, owner)
    && (forall f :: 0 <= f < USABLE ==> OwnerRight(k, f, owner[f]))
  }

  ghost predicate Partition(k: Kernel) {
    Shape(k) && exists owner :: Owns(k, owner)
  }

  predicate Holds(k: Kernel, p: nat, g: nat, f: nat)
    requires Shape(k)
  {
    p < |k.procs| && g < PAGES && k.procs[p].table[g] == Some(f)
  }

  /** No frame is listed twice: not on the stack, not in two pages, not in both. */
  lemma PartitionIsExclusive(k: Kernel, f: nat)
    requires Partition(k) && f < USABLE
    ensures forall i, j :: 0 <= i < j < |k.free| ==> k.free[i] != k.free[j]
    ensures f in k.free <==> !exists p, g :: Holds(k, p, g, f)
    ensures forall p, g, q, h :: Holds(k, p, g, f) && Holds(k, q, h, f) ==> p == q && g == h
  {
    var owner: seq<Owner> :| Owns(k, owner);
    if f in k.free {
      var i :| 0 <= i < |k.free| && k.free[i] == f;
    } else {
      assert owner[f].Page? && Holds(k, owner[f].pid, owner[f].page, f);
    }
  }

  lemma AssignKeepsPagesOwned(k: Kernel, pid: nat, page: nat, owner: seq<Owner>)
    requires Shape(k) && Owns(k, owner) && pid < |k.procs| && page < PAGES && k.free != []
    ensures PagesOwned(Assign(k, pid, page), owner[k.free[|k.free| - 1] := Page(pid, page)])
  {
    hide OwnerRight;
    var k' := Assign(k, pid, page);
    forall p, g | 0 <= p < |k'.procs| && 0 <= g < PAGES && k'.procs[p].table[g].Some? && (p != pid || g != page)
      ensures k'.procs[p].table[g] == k.procs[p].table[g]
    {
    }
  }

  lemma AssignKeepsPartition(k: Kernel, pid: nat, page: nat)
    requires Partition(k) && pid < |k.procs| && page < PAGES && k.free != []
    requires k.procs[pid].table[page] == None
    ensures Partition(Assign(k, pid, page))
  {
    hide PagesOwned;
    var owner: seq<Owner> :| Owns(k, owner);
    var f := k.free[|k.free| - 1];
    AssignKeepsPagesOwned(k, pid, page, owner);
    assert Owns(Assign(k, pid, page), owner[f := Page(pid, page)]);
  }

  lemma ReleasePageKeepsPartition(k: Kernel, pid: nat, page: nat)
    requires Partition(k) && pid < |k.procs| && page < PAGES
    ensures Partition(ReleasePage(k, pid, page))
  {
    var owner: seq<Owner> :| Owns(k, owner);
    match k.procs[pid].table[page]
    case None =>
    case Some(f) =>
      assert Owns(ReleasePage(k, pid, page), owner[f := Free(|k.free|)]);
  }

  lemma {:induction false} ReleaseUpToKeepsPartition(k: Kernel, pid: nat, i: nat)
    requires Partition(k) && pid < |k.procs| && i <= PAGES
    ensures Partition(ReleaseUpTo(k, pid, i))
  {
    if i > 0 {
      ReleaseUpToKeepsPartition(k, pid, i - 1);
      ReleasePageKeepsPartition(ReleaseUpTo(k, pid, i - 1), pid, i - 1);
    }
  }

  /** Freeing a process touches nothing but its own frames and table, and leaves every entry invalid. */
  lemma {:induction false} ReleaseUpToEffect(k: Kernel, pid: nat, i: nat)
    requires Shape(k) && pid < |k.procs| && i <= PAGES
    ensures var k' := ReleaseUpTo(k, pid, i);
      && k' == k.(procs := k'.procs, free := k'.free)
      && k'.procs == k.procs[pid := k.procs[pid].(table := k'.procs[pid].table)]
      && (forall g :: 0 <= g < i ==> k'.procs[pid].table[g] == None)
      && (forall g :: i <= g < PAGES ==> k'.procs[pid].table[g] == k.procs[pid].table[g])
  {
    if i > 0 {
      ReleaseUpToEffect(k, pid, i - 1);
    }
  }

  lemma FreeKeepsPartition(k: Kernel, pid: nat)
    requires Partition(k) && pid < |k.procs|
    ensures Partition(FreeProcessFrames(k, pid))
    ensures var k' := FreeProcessFrames(k, pid);
      && k' == k.(procs := k'.procs, free := k'.free)
      && k'.procs == k.procs[pid := k.procs[pid].(table := EmptyTable(), frames := 0)]
  {
    ReleaseUpToKeepsPartition(k, pid, PAGES);
    ReleaseUpToEffect(k, pid, PAGES);
    var k1 := ReleaseUpTo(k, pid, PAGES);
    assert k1.procs[pid].table == EmptyTable();
    assert FreeProcessFrames(k, pid).procs == k.procs[pid := k1.procs[pid].(frames := 0)];
    var owner: seq<Owner> :| Owns(k1, owner);
    assert Owns(FreeProcessFrames(k, pid), owner);
  }

  // ----- counting frames

  function CountValid(table: seq<Option<nat>>, i: nat): nat
    requires i <= |table|
  {
    if i == 0 then 0 else CountValid(table, i - 1) + if table[i - 1].Some? then 1 else 0
  }

  function Resident(p: Proc): nat {
    CountValid(p.table, |p.table|)
  }

  function ResidentTotal(procs: seq<Proc>, i: nat): nat
    requires i <= |procs|
  {
    if i == 0 then 0 else ResidentTotal(procs, i - 1) + Resident(procs[i - 1])
  }

  lemma {:induction false} CountBound(table: seq<Option<nat>>, i: nat)
    requires i <= |table|
    ensures CountValid(table, i) <= i
    ensures (exists g :: 0 <= g < i && table[g] == None) ==> CountValid(table, i) < i
    ensures (forall g :: 0 <= g < i ==> table[g] == None) ==> CountValid(table, i) == 0
    ensures (forall g :: 0 <= g < i ==> table[g].Some?) ==> CountValid(table, i) == i
  {
    if i > 0 { CountBound(table, i - 1); }
  }

  lemma {:induction false} CountUpdate(table: seq<Option<nat>>, page: nat, v: Option<nat>, i: nat)
    requires page < |table| && i <= |table|
    ensures CountValid(table[page := v], i) == CountValid(table, i)
      + (if page < i && v.Some? then 1 else 0) - (if page < i && table[page].Some? then 1 else 0)
  {
    if i > 0 { CountUpdate(table, page, v, i - 1); }
  }

  lemma {:induction false} CountGrows(table: seq<Option<nat>>, i: nat, j: nat)
    requires i <= j <= |table|
    ensures CountValid(table, i) <= CountValid(table, j)
  {
    if i < j { CountGrows(table, i, j - 1); }
  }

  lemma {:induction false} TotalUpdate(procs: seq<Proc>, pid: nat, p: Proc, i: nat)
    requires pid < |procs| && i <= |procs|
    ensures ResidentTotal(procs[pid := p], i) == ResidentTotal(procs, i)
      + if pid < i then Resident(p) - Resident(procs[pid]) else 0
  {
    if i > 0 { TotalUpdate(procs, pid, p, i - 1); }
  }

  /** The stack and the tables together hold as many frames as the machine has. */
  predicate Conserved(k: Kernel) {
    |k.free| + ResidentTotal(k.procs, |k.procs|) == USABLE
  }

  lemma AssignConserves(k: Kernel, pid: nat, page: nat)
    requires Shape(k) && Conserved(k) && pid < |k.procs| && page < PAGES && k.free != []
    requires k.procs[pid].table[page] == None
    ensures Conserved(Assign(k, pid, page))
    ensures Resident(Assign(k, pid, page).procs[pid]) == Resident(k.procs[pid]) + 1
  {
    var p' := Assign(k, pid, page).procs[pid];
    CountUpdate(k.procs[pid].table, page, p'.table[page], PAGES);
    TotalUpdate(k.procs, pid, p', |k.procs|);
  }

  lemma ReleasePageConserves(k: Kernel, pid: nat, page: nat)
    requires Shape(k) && Conserved(k) && pid < |k.procs| && page < PAGES
    ensures Conserved(ReleasePage(k, pid, page))
    ensures Resident(ReleasePage(k, pid, page).procs[pid]) + |ReleasePage(k, pid, page).free|
         == Resident(k.procs[pid]) + |k.free|
  {
    var p' := ReleasePage(k, pid, page).procs[pid];
    CountUpdate(k.procs[pid].table, page, None, PAGES);
    if k.procs[pid].table[page].Some? {
      TotalUpdate(k.procs, pid, p', |k.procs|);
    }
  }

  lemma {:induction false} ReleaseUpToConserves(k: Kernel, pid: nat, i: nat)
    requires Shape(k) && Conserved(k) && pid < |k.procs| && i <= PAGES
    ensures Conserved(ReleaseUpTo(k, pid, i))
    ensures Resident(ReleaseUpTo(k, pid, i).procs[pid]) + |ReleaseUpTo(k, pid, i).free|
         == Resident(k.procs[pid]) + |k.free|
  {
    if i > 0 {
      ReleaseUpToConserves(k, pid, i - 1);
      ReleasePageConserves(ReleaseUpTo(k, pid, i - 1), pid, i - 1);
    }
  }

  /** Freeing a process puts exactly its resident frames on the stack. */
  lemma FreeConserves(k: Kernel, pid: nat)
    requires Shape(k) && Conserved(k) && pid < |k.procs|
    ensures Conserved(FreeProcessFrames(k, pid))
    ensures |FreeProcessFrames(k, pid).free| == |k.free| + Resident(k.procs[pid])
  {
    ReleaseUpToConserves(k, pid, PAGES);
    ReleaseUpToEffect(k, pid, PAGES);
    var k1, k2 := ReleaseUpTo(k, pid, PAGES), FreeProcessFrames(k, pid);
    CountBound(k1.procs[pid].table, PAGES);
    TotalUpdate(k1.procs, pid, k2.procs[pid], |k.procs|);
  }
}
