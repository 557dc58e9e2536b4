/** The binary search a process performs, apart from memory: which indices it probes, which pages those lie in,
    and how long an array may be for all of them to lie inside the page table. */
module BinarySearch {
  import opened FrameTable

  const PER_PAGE: nat := 1024

  /** The longest array whose searches stay inside the table: its last element is never probed. */
  const MAX_ARRAY: nat := (PAGES - ESSENTIAL) * PER_PAGE + 1

  function PageOf(index: nat): nat { index / PER_PAGE + ESSENTIAL }

  /** The interval of indices still in question. */
  datatype Window = Window(lo: nat, hi: int) {
    predicate Open() { lo < hi }

    function Middle(): nat
      requires Open()
    {
      (lo + hi) / 2
    }

    function Narrow(key: int): (w: Window)
      requires Open()
      ensures lo <= w.lo && w.hi <= hi && w.hi - w.lo < hi - lo
    {
      if key <= Middle() then Window(lo, Middle()) else Window(Middle() + 1, hi)
    }
  }

  function Probes(w: Window, key: int): seq<nat>
    decreases w.hi - w.lo
  {
    if w.Open() then [w.Middle()] + Probes(w.Narrow(key), key) else []
  }

  function Final(w: Window, key: int): Window
    decreases w.hi - w.lo
  {
    if w.Open() then Final(w.Narrow(key), key) else w
  }

  function Pages(probes: seq<nat>): seq<nat> {
    if probes == [] then [] else [PageOf(probes[0])] + Pages(probes[1..])
  }

  /** The pages that a search of an array of `size` elements touches, in order. */
  function PagesFor(size: int, key: int): seq<nat> { Pages(Probes(Window(0, size - 1), key)) }

  function PowerOfTwo(b: nat): nat {
    if b == 0 then 1 else 2 * PowerOfTwo(b - 1)
  }

  /** An uninterrupted search closes in on its key, or on the end of the array nearest to it. */
  lemma {:induction false} SearchFindsKey(w: Window, key: int)
    requires w.lo <= w.hi
    ensures var at := if key < w.lo then w.lo else if key > w.hi then w.hi else key; Final(w, key) == Window(at, at)
    decreases w.hi - w.lo
  {
    if w.Open() {
      SearchFindsKey(w.Narrow(key), key);
    }
  }

  lemma {:induction false} SearchIsShort(w: Window, key: int, b: nat)
    requires w.hi - w.lo + 1 <= PowerOfTwo(b)
    ensures |Probes(w, key)| <= b
    decreases b
  {
    if w.Open() {
      assert w.Narrow(key).hi - w.Narrow(key).lo + 1 <= PowerOfTwo(b - 1);
      SearchIsShort(w.Narrow(key), key, b - 1);
    }
  }

  lemma {:induction false} ProbesInside(w: Window, key: int, i: nat)
    requires i < |Probes(w, key)|
    ensures w.lo <= Probes(w, key)[i] < w.hi
    decreases w.hi - w.lo
  {
    if i > 0 { ProbesInside(w.Narrow(key), key, i - 1); }
  }

  lemma {:induction false} PagesAt(probes: seq<nat>, i: nat)
    requires i < |probes|
    ensures |Pages(probes)| == |probes| && Pages(probes)[i] == PageOf(probes[i])
  {
    if i > 0 {
      PagesAt(probes[1..], i - 1);
    } else if |probes| > 1 {
      PagesAt(probes[1..], 0);
    }
  }

  /** A search of an array of at most MAX_ARRAY elements touches data pages of the table only. */
  lemma SearchPages(w: Window, key: int)
    requires w.hi < MAX_ARRAY
    ensures |Pages(Probes(w, key))| == |Probes(w, key)|
    ensures forall i :: 0 <= i < |Probes(w, key)| ==> ESSENTIAL <= Pages(Probes(w, key))[i] < PAGES
  {
    var probes := Probes(w, key);
    if probes != [] { PagesAt(probes, 0); }
    forall i | 0 <= i < |probes| ensures ESSENTIAL <= Pages(probes)[i] < PAGES {
      ProbesInside(w, key, i);
      PagesAt(probes, i);
    }
  }

  /** A search for something at or beyond the end probes the last index but one. */
  lemma {:induction false} ProbesLastButOne(w: Window, key: int)
    requires w.Open() && key >= w.hi
    ensures Probes(w, key) != [] && Probes(w, key)[|Probes(w, key)| - 1] == w.hi - 1
    decreases w.hi - w.lo
  {
    if w.Narrow(key).Open() {
      ProbesLastButOne(w.Narrow(key), key);
    }
  }

  /** All searches of an array stay inside the table. */
  ghost predicate StaysInside(size: int) {
    forall key, i :: 0 <= i < |PagesFor(size, key)| ==> PagesFor(size, key)[i] < PAGES
  }

  /** The bound on arrays is exact. */
  lemma MaxArrayIsExact(size: int)
    ensures StaysInside(size) <==> size <= MAX_ARRAY
  {
    var w := Window(0, size - 1);
    if size <= MAX_ARRAY {
      forall key, i | 0 <= i < |PagesFor(size, key)| ensures PagesFor(size, key)[i] < PAGES {
        SearchPages(w, key);
      }
    } else {
      var probes := Probes(w, w.hi);
      ProbesLastButOne(w, w.hi);
      PagesAt(probes, |probes| - 1);
      assert PagesFor(size, w.hi)[|probes| - 1] >= PAGES;
    }
  }
}
