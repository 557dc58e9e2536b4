/** The scheduler's event queue: a binary heap in an array, refining a multiset of events from which a least
    one is taken. */
module EventHeap {

  // Events are sifted in place by swaps; a least one, by time and then process number, is taken.

  datatype Kind = Arrival | CpuCompletion | IoCompletion | CpuTimeout

  datatype Event = Event(time: int, process: nat, kind: Kind)

  /** Negative, zero or positive as `a` comes before, level with or after `b`; `id` gives the process numbers. */
  function Compare(id: nat -> int, a: Event, b: Event): int {
    if a.time != b.time then a.time - b.time else id(a.process) - id(b.process)
  }

  predicate NotAfter(id: nat -> int, a: Event, b: Event) { Compare(id, a, b) <= 0 }

  function Parent(i: nat): (p: nat)
    requires i > 0
    ensures p < i
  {
    (i - 1) / 2
  }

  predicate HeapAt(id: nat -> int, s: seq<Event>, i: nat)
    requires 0 < i < |s|
  {
    NotAfter(id, s[Parent(i)], s[i])
  }

  predicate IsHeap(id: nat -> int, s: seq<Event>) {
    forall i :: 0 < i < |s| ==> HeapAt(id, s, i)
  }

  /** The root of a heap is a least event: none is earlier, and none at its time has a smaller process number. */
  lemma {:induction false} RootIsLeast(id: nat -> int, s: seq<Event>, i: nat)
    requires IsHeap(id, s) && i < |s|
    ensures NotAfter(id, s[0], s[i])
    ensures s[0].time < s[i].time || (s[0].time == s[i].time && id(s[0].process) <= id(s[i].process))
  {
    if i > 0 {
      RootIsLeast(id, s, Parent(i));
      assert HeapAt(id, s, i);
    }
  }

  // ----- sifting up

  /** A heap but for the event at `hole`, which may come before its parent. */
  predicate HeapButUp(id: nat -> int, s: seq<Event>, hole: nat) {
    && (forall i :: 0 < i < |s| && i != hole ==> HeapAt(id, s, i))
    && (forall i :: 0 < i < |s| && Parent(i) == hole && hole > 0 ==> NotAfter(id, s[Parent(hole)], s[i]))
  }

  function Swapped(s: seq<Event>, i: nat, j: nat): (t: seq<Event>)
    requires i < |s| && j < |s|
    ensures multiset(t) == multiset(s)
  {
    s[i := s[j]][j := s[i]]
  }

  lemma SiftUpStep(id: nat -> int, s: seq<Event>, i: nat)
    requires HeapButUp(id, s, i) && 0 < i < |s| && !HeapAt(id, s, i)
    ensures HeapButUp(id, Swapped(s, i, Parent(i)), Parent(i))
  {
    var p, t := Parent(i), Swapped(s, i, Parent(i));
    forall k | 0 < k < |s| && k != p ensures HeapAt(id, t, k) {
      assert k != i ==> HeapAt(id, s, k);
    }
    forall k | 0 < k < |s| && Parent(k) == p && p > 0 ensures NotAfter(id, t[Parent(p)], t[k]) {
      assert HeapAt(id, s, p);
      assert k != i ==> HeapAt(id, s, k);
    }
  }

  lemma SiftUpDone(id: nat -> int, s: seq<Event>, i: nat)
    requires HeapButUp(id, s, i) && i < |s| && (i > 0 ==> HeapAt(id, s, i))
    ensures IsHeap(id, s)
  {
  }

  lemma AppendHeap(id: nat -> int, s: seq<Event>, e: Event)
    requires IsHeap(id, s)
    ensures HeapButUp(id, s + [e], |s|)
  {
    forall i | 0 < i < |s| ensures HeapAt(id, s + [e], i) { assert HeapAt(id, s, i); }
  }

  // ----- sifting down

  /** A heap but for the event at `hole`, which may come after its children. */
  predicate HeapButDown(id: nat -> int, s: seq<Event>, hole: nat) {
    && (forall i :: 0 < i < |s| && Parent(i) != hole ==> HeapAt(id, s, i))
    && (forall i :: 0 < i < |s| && Parent(i) == hole && hole > 0 ==> NotAfter(id, s[Parent(hole)], s[i]))
  }

  function SmallestOf(id: nat -> int, s: seq<Event>, i: nat): (c: nat)
    requires i < |s|
    ensures c < |s| && (c == i || (c > 0 && Parent(c) == i && Compare(id, s[c], s[i]) < 0))
    ensures NotAfter(id, s[c], s[i])
    ensures forall k :: 0 < k < |s| && Parent(k) == i ==> NotAfter(id, s[c], s[k])
  {
    var left, right := 2 * i + 1, 2 * i + 2;
    var first := if left < |s| && Compare(id, s[left], s[i]) < 0 then left else i;
    var c := if right < |s| && Compare(id, s[right], s[first]) < 0 then right else first;
    assert forall k :: 0 < k < |s| && Parent(k) == i ==> k == left || k == right;
    c
  }

  lemma SiftDownStep(id: nat -> int, s: seq<Event>, i: nat)
    requires HeapButDown(id, s, i) && i < |s| && SmallestOf(id, s, i) != i
    ensures HeapButDown(id, Swapped(s, i, SmallestOf(id, s, i)), SmallestOf(id, s, i))
  {
    var c := SmallestOf(id, s, i);
    var t := Swapped(s, i, c);
    forall k | 0 < k < |s| && Parent(k) != c ensures HeapAt(id, t, k) {
      assert Parent(k) != i ==> HeapAt(id, s, k);
    }
    forall k | 0 < k < |s| && Parent(k) == c ensures NotAfter(id, t[Parent(c)], t[k]) {
      assert HeapAt(id, s, k);
    }
  }

  lemma SiftDownDone(id: nat -> int, s: seq<Event>, i: nat)
    requires HeapButDown(id, s, i) && (i < |s| ==> SmallestOf(id, s, i) == i)
    ensures IsHeap(id, s)
  {
    forall k | 0 < k < |s| ensures HeapAt(id, s, k) {
      assert Parent(k) != i ==> HeapAt(id, s, k);
    }
  }

  /** The events with the last one in the place of the first. */
  function LastToRoot(s: seq<Event>): seq<Event>
    requires |s| > 0
  {
    s[0 := s[|s| - 1]][..|s| - 1]
  }

  lemma TakeRoot(id: nat -> int, s: seq<Event>)
    requires IsHeap(id, s) && |s| > 0
    ensures HeapButDown(id, LastToRoot(s), 0)
    ensures multiset(LastToRoot(s)) == multiset(s) - multiset{s[0]}
  {
    hide Compare;
    var t := LastToRoot(s);
    forall i | 0 < i < |t| && Parent(i) != 0 ensures HeapAt(id, t, i) { assert HeapAt(id, s, i); }
    if |s| == 1 {
      assert s == [s[0]];
    } else {
      assert s == [s[0]] + s[1..|s| - 1] + [s[|s| - 1]];
      assert t == [s[|s| - 1]] + s[1..|s| - 1];
    }
  }

  class EventQueue {
    const id: nat -> int
    const capacity: nat
    const events: array<Event>
    var size: nat

    ghost predicate Valid()
      reads this, events
    {
      events.Length == capacity && size <= capacity && IsHeap(id, events[..size])
    }

    ghost function Contents(): multiset<Event>
      requires size <= events.Length
      reads this, events
    {
      multiset(events[..size])
    }

    constructor (id: nat -> int, capacity: nat)
      ensures Valid() && Contents() == multiset{} && fresh(events) && this.capacity == capacity && this.id == id
    {
      this.id, this.capacity := id, capacity;
      events := new Event[capacity](_ => Event(0, 0, Arrival));
      size := 0;
    }

    method SwapEvents(i: nat, j: nat)
      requires i < size <= events.Length && j < size
      modifies events
      ensures events[..size] == Swapped(old(events[..size]), i, j)
    {
      events[i], events[j] := events[j], events[i];
    }

    /** A full queue drops the event. */
    method AddEvent(time: int, process: nat, kind: Kind)
      requires Valid()
      modifies this`size, events
      ensures Valid()
      ensures Contents() == if old(size) == capacity then old(Contents()) else old(Contents()) + multiset{Event(time, process, kind)}
    {
      if size == capacity { return; }
      var e := Event(time, process, kind);
      ghost var was := events[..size];
      events[size] := e;
      var i: nat := size;
      size := size + 1;
      assert events[..size] == was + [e];
      AppendHeap(id, was, e);
      assert Contents() == multiset(was) + multiset{e};
      hide HeapButUp;
      while i > 0
        invariant i < size == |was| + 1 <= events.Length
        invariant HeapButUp(id, events[..size], i)
        invariant Contents() == multiset(was) + multiset{e}
      {
        var parent := (i - 1) / 2;
        assert HeapAt(id, events[..size], i) == (Compare(id, events[i], events[parent]) >= 0);
        if Compare(id, events[i], events[parent]) < 0 {
          SiftUpStep(id, events[..size], i);
          SwapEvents(i, parent);
          i := parent;
        } else {
          break;
        }
      }
      SiftUpDone(id, events[..size], i);
    }

    /** Removes a least event and returns it: no event is earlier, and none at the same time has a smaller process
        number. */
    method GetNextEvent() returns (top: Event)
      requires Valid() && size > 0
      modifies this`size, events
      ensures Valid() && size == old(size) - 1
      ensures top in old(Contents()) && Contents() == old(Contents()) - multiset{top}
      ensures IsLeast(id, top, old(Contents()))
      ensures forall e :: e in old(Contents()) ==>
        top.time < e.time || (top.time == e.time && id(top.process) <= id(e.process))
    {
      hide HeapButDown, NotAfter, IsLeast, IsHeap, LastToRoot;
      ghost var was := events[..size];
      LeastOf(id, was);
      LeastMeans(id, was[0], multiset(was));
      TakeRoot(id, was);
      top := events[0];
      DropRoot();
      SiftDown();
    }

    method DropRoot()
      requires 0 < size <= events.Length
      modifies this`size, events
      ensures size == old(size) - 1 && events[..size] == LastToRoot(old(events[..size]))
    {
      size := size - 1;
      events[0] := events[size];
    }

    /** The sift-down loop of `GetNextEvent`. */
    method SiftDown()
      requires size < events.Length == capacity && HeapButDown(id, events[..size], 0)
      modifies events
      ensures IsHeap(id, events[..size]) && Contents() == old(Contents())
    {
      hide HeapButDown, SmallestOf, IsHeap;
      var i := 0;
      while true
        invariant i < size || i == 0
        invariant HeapButDown(id, events[..size], i)
        invariant Contents() == old(Contents())
        decreases size - i
      {
        if i >= size { break; }
        var smallest := Smallest(i);
        if smallest != i {
          SiftDownStep(id, events[..size], i);
          SwapEvents(i, smallest);
          i := smallest;
        } else {
          break;
        }
      }
      SiftDownDone(id, events[..size], i);
    }

    method Smallest(i: nat) returns (c: nat)
      requires i < size <= events.Length
      ensures c == SmallestOf(id, events[..size], i)
    {
      var left, right := 2 * i + 1, 2 * i + 2;
      c := i;
      if left < size && Compare(id, events[left], events[c]) < 0 { c := left; }
      if right < size && Compare(id, events[right], events[c]) < 0 { c := right; }
    }

    /** Taking events until none is left yields all of them in order. */
    method Drain() returns (out: seq<Event>)
      requires Valid()
      modifies this`size, events
      ensures Valid() && size == 0
      ensures multiset(out) == old(Contents())
      ensures forall i, j :: 0 <= i < j < |out| ==>
        out[i].time < out[j].time || (out[i].time == out[j].time && id(out[i].process) <= id(out[j].process))
    {
      hide IsHeap, NotAfter, Compare, IsLeast, Ordered;
      out := [];
      EmptyLeads(id, Contents());
      while size > 0
        invariant Valid()
        invariant multiset(out) + Contents() == old(Contents())
        invariant Leads(id, out, Contents())
        decreases size
      {
        ghost var rest := Contents();
        var e := GetNextEvent();
        LeadsOn(id, out, rest, e);
        out := out + [e];
      }
      OrderedMeans(id, out);
    }
  }

  /** No event of `from` comes before `top`. */
  ghost predicate IsLeast(id: nat -> int, top: Event, from: multiset<Event>) {
    forall e :: e in from ==> NotAfter(id, top, e)
  }

  predicate Ordered(id: nat -> int, out: seq<Event>) {
    forall i, j :: 0 <= i < j < |out| ==> NotAfter(id, out[i], out[j])
  }

  /** `out` is in order and comes before all of `rest`. */
  ghost predicate Leads(id: nat -> int, out: seq<Event>, rest: multiset<Event>) {
    Ordered(id, out) && forall i :: 0 <= i < |out| ==> IsLeast(id, out[i], rest)
  }

  /** What a least event is, in times and process numbers. */
  lemma LeastMeans(id: nat -> int, top: Event, from: multiset<Event>)
    ensures IsLeast(id, top, from) <==> forall e :: e in from ==>
      top.time < e.time || (top.time == e.time && id(top.process) <= id(e.process))
  {
    forall e | e in from ensures NotAfter(id, top, e) <==>
      top.time < e.time || (top.time == e.time && id(top.process) <= id(e.process)) {}
    hide NotAfter;
  }

  lemma OrderedMeans(id: nat -> int, out: seq<Event>)
    ensures Ordered(id, out) <==> forall i, j :: 0 <= i < j < |out| ==>
      out[i].time < out[j].time || (out[i].time == out[j].time && id(out[i].process) <= id(out[j].process))
  {
    forall i, j | 0 <= i < j < |out| ensures NotAfter(id, out[i], out[j]) <==>
      out[i].time < out[j].time || (out[i].time == out[j].time && id(out[i].process) <= id(out[j].process)) {}
  }

  lemma EmptyLeads(id: nat -> int, rest: multiset<Event>)
    ensures Leads(id, [], rest)
  {
  }

  lemma LeadsOn(id: nat -> int, out: seq<Event>, rest: multiset<Event>, top: Event)
    requires Leads(id, out, rest) && top in rest && IsLeast(id, top, rest)
    ensures Leads(id, out + [top], rest - multiset{top})
    ensures multiset(out + [top]) + (rest - multiset{top}) == multiset(out) + rest
  {
    hide NotAfter;
  }

  lemma LeastOf(id: nat -> int, s: seq<Event>)
    requires IsHeap(id, s) && |s| > 0
    ensures IsLeast(id, s[0], multiset(s))
    ensures s[0] in multiset(s)
  {
    forall e | e in multiset(s) ensures NotAfter(id, s[0], e) {
      var i :| 0 <= i < |s| && s[i] == e;
      RootIsLeast(id, s, i);
    }
  }
}
