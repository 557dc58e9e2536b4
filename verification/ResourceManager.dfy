/** The banker's master: matrices updated in place and a linked list of pending requests.

    Each method is proved to compute the corresponding function of Bank, PendingPass and MasterStep.  The
    safety check works on the tables themselves: it pretends to grant, sweeps over the threads and restores
    what it changed.  The pass over the list unlinks nodes as it goes; the ghost sequence of nodes says which
    list the links spell. */
module ResourceManager {
  import opened Collections
  import opened Bank
  import opened PendingPass
  import opened MasterStep

  class RequestNode {
    const thread: nat
    const amount: seq<int>
    var next: RequestNode?

    constructor (thread: nat, amount: seq<int>)
      ensures this.thread == thread && this.amount == amount && next == null
    {
      this.thread, this.amount, next := thread, amount, null;
    }
  }

  /** The node at place `i`, or null off either end. */
  ghost function NodeAt(nodes: seq<RequestNode>, i: int): RequestNode? {
    if 0 <= i < |nodes| then nodes[i] else null
  }

  lemma NodeAtWithout(nodes: seq<RequestNode>, k: nat, i: int)
    requires k < |nodes|
    ensures NodeAt(nodes[..k] + nodes[k + 1..], i) == NodeAt(nodes, if i < k then i else i + 1)
  {
  }

  lemma Relinked(was: seq<RequestNode>, k: nat)
    requires k < |was|
    requires forall i :: 0 <= i < |was| && i != k - 1 ==> was[i].next == NodeAt(was, i + 1)
    requires 0 < k ==> was[k - 1].next == NodeAt(was, k + 1)
    ensures var nodes := was[..k] + was[k + 1..];
      forall i :: 0 <= i < |nodes| ==> nodes[i].next == NodeAt(nodes, i + 1)
  {
    var nodes := was[..k] + was[k + 1..];
    forall i | 0 <= i < |nodes| ensures nodes[i].next == NodeAt(nodes, i + 1) {
      NodeAtWithout(was, k, i + 1);
      assert nodes[i] == was[if i < k then i else i + 1];
    }
  }

  ghost function Row(a: array2<int>, i: nat): (s: seq<int>)
    requires i < a.Length0
    reads a
    ensures |s| == a.Length1 && forall j :: 0 <= j < a.Length1 ==> s[j] == a[i, j]
  {
    seq(a.Length1, j requires 0 <= j < a.Length1 reads a => a[i, j])
  }

  ghost function Rows(a: array2<int>): (s: seq<seq<int>>)
    reads a
    ensures |s| == a.Length0 && forall i :: 0 <= i < a.Length0 ==> s[i] == Row(a, i)
  {
    seq(a.Length0, i requires 0 <= i < a.Length0 reads a => Row(a, i))
  }

  /** Where a safety check stands: the threads marked in `finish` are those of `order`, which
      completes, and `work` is what they leave behind. */
  ghost predicate Progress(b: WellShaped, work: seq<int>, finish: seq<bool>, order: seq<nat>) {
    && |work| == b.Types() && |finish| == b.Threads()
    && Completes(b, order)
    && (forall t :: 0 <= t < |finish| ==> (finish[t] <==> t in Before(order, |order|)))
    && (forall j :: 0 <= j < |work| ==> work[j] == Work(b, Before(order, |order|), j))
  }

  lemma UndoPretend(b: WellShaped, t: nat, r: seq<int>)
    requires t < b.Threads() && |r| == b.Types()
    ensures var c := Grant(b, t, r);
      && c.alloc[t := Plus(c.alloc[t], Negated(r))] == b.alloc
      && c.need[t := Minus(c.need[t], Negated(r))] == b.need
  {
    var c := Grant(b, t, r);
    assert Plus(c.alloc[t], Negated(r)) == b.alloc[t] && Minus(c.need[t], Negated(r)) == b.need[t];
  }

  lemma StartOfCheck(b: WellShaped, work: seq<int>, finish: seq<bool>)
    requires work == b.avail && |finish| == b.Threads()
    requires forall t :: 0 <= t < |finish| ==> !finish[t]
    ensures Progress(b, work, finish, [])
  {
    forall j | 0 <= j < b.Types() ensures work[j] == Work(b, {}, j) { HeldEmpty(b, {}, j, b.Threads()); }
  }

  lemma ProgressFinish(b: WellShaped, work: seq<int>, finish: seq<bool>, order: seq<nat>, t: nat, work': seq<int>)
    requires Progress(b, work, finish, order) && t < b.Threads() && !finish[t]
    requires CanFinish(b, t, Before(order, |order|))
    requires |work'| == |work| && forall j :: 0 <= j < |work| ==> work'[j] == work[j] + b.alloc[t][j]
    ensures Progress(b, work', finish[t := true], order + [t])
    ensures |order| < b.Threads()
  {
    CompletesExtend(b, order, t);
    forall j | 0 <= j < |work| ensures work'[j] == Work(b, Before(order, |order|) + {t}, j) {
      HeldAdd(b, Before(order, |order|), t, j, b.Threads());
    }
  }

  /** When a sweep finds nobody, all threads being finished is what decides safety. */
  lemma CheckVerdict(b: WellShaped, work: seq<int>, finish: seq<bool>, order: seq<nat>)
    requires Progress(b, work, finish, order)
    requires forall t :: 0 <= t < b.Threads() && !finish[t] ==> !CanFinish(b, t, Before(order, |order|))
    ensures (forall t :: 0 <= t < |finish| ==> finish[t]) ==> Safe(b)
    ensures b.HoldsNonNegative() && Safe(b) ==> forall t :: 0 <= t < |finish| ==> finish[t]
  {
    hide CanFinish, Work;
    var done := Before(order, |order|);
    if forall t :: 0 <= t < |finish| ==> finish[t] {
      assert Upto(b.Threads()) <= done;
      SubsetSize(Upto(b.Threads()), done);
      BeforeSize(order, b.Threads(), |order|);
      assert |order| == b.Threads();
    } else if b.HoldsNonNegative() && Safe(b) {
      SafeNotStuck(b, done);
    }
  }

  lemma GrantableIsSafe(b: WellShaped, q: seq<Request>, k: nat)
    requires QueueOk(b, q) && k < |q|
    ensures RequestOk(b, q[k]) && (Grantable(b, q[k]) ==> Safe(Grant(b, q[k].thread, q[k].amount)))
  {
  }

  /** What a pass still comes to when it has kept the first `k` requests of `q`. */
  ghost function Resume(b: WellShaped, q: seq<Request>, k: nat, granted: bool): Outcome
    requires QueueOk(b, q) && k <= |q|
  {
    var o := Pass(b, q[k..]);
    Outcome(o.bank, q[..k] + o.kept, granted || o.granted)
  }

  lemma StillOk(b: WellShaped, c: WellShaped, q: seq<Request>, k: nat)
    requires QueueOk(b, q) && k < |q| && c.Threads() == b.Threads() && c.Types() == b.Types()
    ensures QueueOk(c, q[..k] + q[k + 1..])
  {
    var shorter := q[..k] + q[k + 1..];
    forall i | 0 <= i < |shorter| ensures RequestOk(c, shorter[i]) {
      assert shorter[i] == q[if i < k then i else i + 1];
    }
  }

  lemma ResumeStep(b: WellShaped, q: seq<Request>, k: nat, granted: bool)
    requires QueueOk(b, q) && k < |q|
    ensures Grantable(b, q[k]) ==>
      Resume(b, q, k, granted) == Resume(Grant(b, q[k].thread, q[k].amount), q[..k] + q[k + 1..], k, true)
    ensures !Grantable(b, q[k]) ==> Resume(b, q, k, granted) == Resume(b, q, k + 1, granted)
  {
    assert q[k..][1..] == q[k + 1..];
    var shorter := q[..k] + q[k + 1..];
    assert shorter[k..] == q[k + 1..] && shorter[..k] == q[..k];
    assert q[..k + 1] == q[..k] + [q[k]];
    if !Grantable(b, q[k]) {
      var o := Pass(b, q[k + 1..]);
      assert q[..k] + ([q[k]] + o.kept) == q[..k + 1] + o.kept;
    }
  }

  class Manager {
    const m: nat
    const n: nat
    const available: array<int>
    const allocation: array2<int>
    const need: array2<int>
    var head: RequestNode?
    var tail: RequestNode?
    var activeThreads: int
    ghost var nodes: seq<RequestNode>

    ghost predicate Tables()
      reads this
    {
      && available.Length == m
      && allocation.Length0 == need.Length0 == n
      && allocation.Length1 == need.Length1 == m
      && allocation != need
    }

    ghost predicate Linked()
      reads this, nodes
    {
      && head == NodeAt(nodes, 0)
      && tail == NodeAt(nodes, |nodes| - 1)
      && (forall i :: 0 <= i < |nodes| ==> nodes[i].next == NodeAt(nodes, i + 1))
      && (forall i, j :: 0 <= i < j < |nodes| ==> nodes[i] != nodes[j])
    }

    ghost function State(): (b: WellShaped)
      requires Tables()
      reads this, available, allocation, need
      ensures b.Types() == m && b.Threads() == n
    {
      Bank(available[..], Rows(allocation), Rows(need))
    }

    /** The queue, head first. */
    ghost function Pending(): (q: seq<Request>)
      reads this
      ensures |q| == |nodes|
    {
      seq(|nodes|, i requires 0 <= i < |nodes| reads this => Request(nodes[i].thread, nodes[i].amount))
    }

    ghost predicate Valid()
      reads this, available, allocation, need, nodes
    {
      Tables() && Linked() && QueueOk(State(), Pending())
    }

    ghost function View(): Master
      requires Valid()
      reads this, available, allocation, need, nodes
    {
      Master(State(), Pending(), activeThreads)
    }

    /** Everybody starts with nothing and needs its declared maximum. */
    constructor (total: seq<int>, max: seq<seq<int>>)
      requires forall t :: 0 <= t < |max| ==> |max[t]| == |total|
      ensures Valid() && fresh(available) && fresh(allocation) && fresh(need)
      ensures m == |total| && n == |max|
      ensures View() == Master(Bank(total, seq(|max|, _ => seq(|total|, _ => 0)), max), [], |max|)
    {
      m, n := |total|, |max|;
      available := new int[|total|](i requires 0 <= i < |total| => total[i]);
      allocation := new int[|max|, |total|]((i, j) => 0);
      need := new int[|max|, |total|]((i, j) requires 0 <= i < |max| && 0 <= j < |total| => max[i][j]);
      head, tail, activeThreads := null, null, |max|;
      nodes := [];
      new;
      assert forall t :: 0 <= t < n ==> Row(need, t) == max[t] && Row(allocation, t) == seq(|total|, _ => 0);
    }

    /** Adds `sign * r` to the allocation of `t` and takes it from its need. */
    method Pretend(t: nat, r: seq<int>)
      requires Tables() && t < n && |r| == m
      modifies allocation, need
      ensures Rows(allocation) == old(State()).alloc[t := Plus(old(State()).alloc[t], r)]
      ensures Rows(need) == old(State()).need[t := Minus(old(State()).need[t], r)]
    {
      ghost var b := State();
      for i := 0 to m
        invariant forall u, j :: 0 <= u < n && 0 <= j < m ==>
          && allocation[u, j] == b.alloc[u][j] + (if u == t && j < i then r[j] else 0)
          && need[u, j] == b.need[u][j] - (if u == t && j < i then r[j] else 0)
      {
        allocation[t, i] := allocation[t, i] + r[i];
        need[t, i] := need[t, i] - r[i];
      }
      forall u | 0 <= u < n
        ensures Row(allocation, u) == b.alloc[t := Plus(b.alloc[t], r)][u]
        ensures Row(need, u) == b.need[t := Minus(b.need[t], r)][u]
      {
      }
    }

    method CanSatisfy(i: nat, work: array<int>) returns (can: bool)
      requires Tables() && i < n && work.Length == m
      ensures can <==> forall j :: 0 <= j < m ==> need[i, j] <= work[j]
    {
      for j := 0 to m
        invariant forall k :: 0 <= k < j ==> need[i, k] <= work[k]
      {
        if need[i, j] > work[j] { return false; }
      }
      return true;
    }

    /** Adds what thread `i` holds to `work`. */
    method Absorb(ghost c: WellShaped, i: nat, work: array<int>)
      requires Tables() && c.Types() == m && c.Threads() == n && Rows(allocation) == c.alloc
      requires i < n && work.Length == m && work != available
      modifies work
      ensures forall k :: 0 <= k < m ==> work[k] == old(work[k]) + c.alloc[i][k]
    {
      assert Row(allocation, i) == c.alloc[i];
      for j := 0 to m
        invariant forall k :: 0 <= k < m ==> work[k] == old(work[k]) + if k < j then c.alloc[i][k] else 0
      {
        work[j] := work[j] + allocation[i, j];
      }
    }

    /** One sweep over the threads: every thread that can finish hands its allocation to `work`.
        Reports whether any did; if none did, no unfinished thread can. */
    method Sweep(ghost c: WellShaped, work: array<int>, finish: array<bool>, ghost before: seq<nat>)
      returns (found: bool, ghost order: seq<nat>)
      requires Tables() && c.Types() == m && c.Threads() == n
      requires work.Length == m && finish.Length == n && work != available
      requires Rows(allocation) == c.alloc && Rows(need) == c.need
      requires Progress(c, work[..], finish[..], before)
      modifies work, finish
      ensures Progress(c, work[..], finish[..], order)
      ensures found ==> |before| < |order| <= n
      ensures !found ==> order == before && forall t :: 0 <= t < n && !finish[t] ==> !CanFinish(c, t, Before(order, |order|))
    {
      hide Progress, CanFinish, Before;
      found, order := false, before;
      for i := 0 to n
        invariant Progress(c, work[..], finish[..], order)
        invariant found ==> |before| < |order| <= n
        invariant !found ==> order == before && forall t :: 0 <= t < i && !finish[t] ==> !CanFinish(c, t, Before(order, |order|))
      {
        if !finish[i] {
          var can;
          can, order := Consider(c, i, work, finish, order);
          found := found || can;
        }
      }
    }

    /** Lets thread `i` finish if it can. */
    method Consider(ghost c: WellShaped, i: nat, work: array<int>, finish: array<bool>, ghost before: seq<nat>)
      returns (can: bool, ghost order: seq<nat>)
      requires Tables() && c.Types() == m && c.Threads() == n && i < n
      requires work.Length == m && finish.Length == n && work != available && !finish[i]
      requires Rows(allocation) == c.alloc && Rows(need) == c.need
      requires Progress(c, work[..], finish[..], before)
      modifies work, finish
      ensures Progress(c, work[..], finish[..], order)
      ensures can ==> order == before + [i] && |order| <= n
      ensures !can ==> order == before && finish[..] == old(finish[..]) && !CanFinish(c, i, Before(before, |before|))
    {
      order := before;
      can := CanSatisfy(i, work);
      assert can <==> CanFinish(c, i, Before(order, |order|)) by {
        assert Row(need, i) == c.need[i];
      }
      if can {
        ghost var w := work[..];
        Absorb(c, i, work);
        ProgressFinish(c, w, finish[..], order, i, work[..]);
        finish[i] := true;
        order := order + [i];
      }
    }

    /** Sweeps until nobody else can finish, and reports whether everybody has. */
    method Greedy(ghost c: WellShaped, work: array<int>, finish: array<bool>) returns (safe: bool)
      requires Tables() && c.Types() == m && c.Threads() == n
      requires work.Length == m && finish.Length == n && work != available
      requires Rows(allocation) == c.alloc && Rows(need) == c.need
      requires Progress(c, work[..], finish[..], [])
      modifies work, finish
      ensures safe ==> Safe(c)
      ensures c.HoldsNonNegative() ==> (safe <==> Safe(c))
    {
      hide Progress, CanFinish, Before, Safe;
      ghost var order: seq<nat> := [];
      while true
        invariant Progress(c, work[..], finish[..], order) && |order| <= n
        decreases n - |order|
      {
        var found;
        found, order := Sweep(c, work, finish, order);
        if !found { break; }
      }
      CheckVerdict(c, work[..], finish[..], order);
      for i := 0 to n
        invariant forall t :: 0 <= t < i ==> finish[..][t]
      {
        if !finish[i] {
          assert !finish[..][i];
          return false;
        }
      }
      return true;
    }

    /** Whether granting `r` to `t` leaves a safe state.  Allocation and need are changed for the
        check and restored exactly. */
    method IsSafeState(t: nat, r: seq<int>) returns (safe: bool)
      requires Tables() && t < n && |r| == m
      modifies allocation, need
      ensures State() == old(State())
      ensures safe ==> Safe(Grant(State(), t, r))
      ensures Grant(State(), t, r).HoldsNonNegative() ==> (safe <==> Safe(Grant(State(), t, r)))
    {
      ghost var b := State();
      ghost var c := Grant(b, t, r);
      var work := new int[m](i requires 0 <= i < m && available.Length == m && |r| == m reads available => available[i] - r[i]);
      var finish := new bool[n](i => false);
      Pretend(t, r);
      assert work[..] == c.avail;
      StartOfCheck(c, work[..], finish[..]);
      safe := Greedy(c, work, finish);
      assert Rows(allocation) == c.alloc && Rows(need) == c.need;
      Pretend(t, Negated(r));
      UndoPretend(b, t, r);
    }

    method Fits(r: seq<int>) returns (fits: bool)
      requires Tables() && |r| == m
      ensures fits <==> AtMost(r, State().avail)
    {
      for i := 0 to m
        invariant forall j :: 0 <= j < i ==> r[j] <= available[j]
      {
        if r[i] > available[i] { return false; }
      }
      return true;
    }

    method CanGrant(t: nat, r: seq<int>) returns (can: bool)
      requires Tables() && RequestOk(State(), Request(t, r))
      modifies allocation, need
      ensures State() == old(State())
      ensures can ==> Grantable(State(), Request(t, r))
      ensures State().HoldsNonNegative() ==> (can <==> Grantable(State(), Request(t, r)))
    {
      can := Fits(r);
      if can {
        can := IsSafeState(t, r);
      }
    }

    method Take(r: seq<int>)
      requires Tables() && |r| == m
      modifies available
      ensures available[..] == Minus(old(available[..]), r)
    {
      for i := 0 to m
        invariant forall j :: 0 <= j < m ==> available[j] == old(available[j]) - if j < i then r[j] else 0
      {
        available[i] := available[i] - r[i];
      }
    }

    method GrantRequest(t: nat, r: seq<int>)
      requires Tables() && t < n && |r| == m
      modifies available, allocation, need
      ensures State() == Grant(old(State()), t, r)
    {
      Take(r);
      Pretend(t, r);
    }

    method EnqueueRequest(t: nat, r: seq<int>)
      requires Valid() && RequestOk(State(), Request(t, r))
      modifies this`head, this`tail, this`nodes, nodes
      ensures Valid() && State() == old(State())
      ensures Pending() == old(Pending()) + [Request(t, r)]
      ensures forall i :: 0 <= i < |nodes| ==> nodes[i] in old(nodes) || fresh(nodes[i])
    {
      var node := new RequestNode(t, r);
      if tail == null {
        head, tail := node, node;
      } else {
        tail.next := node;
        tail := node;
      }
      nodes := nodes + [node];
      assert Pending() == old(Pending()) + [Request(t, r)];
    }

    /** Takes the node at place `k` out of the list. */
    method Unlink(prev: RequestNode?, current: RequestNode, ghost k: nat)
      requires Linked() && k < |nodes| && current == nodes[k]
      requires prev == NodeAt(nodes, k - 1)
      modifies this`head, this`tail, this`nodes, prev
      ensures Linked() && nodes == old(nodes)[..k] + old(nodes)[k + 1..]
    {
      ghost var was := nodes;
      if prev == null {
        head := current.next;
      } else {
        prev.next := current.next;
      }
      if current == tail {
        tail := prev;
      }
      nodes := was[..k] + was[k + 1..];
      NodeAtWithout(was, k, 0);
      NodeAtWithout(was, k, |nodes| - 1);
      Relinked(was, k);
    }

    method GrantAndUnlink(prev: RequestNode?, current: RequestNode, ghost k: nat)
      requires Valid() && k < |nodes| && current == nodes[k] && prev == NodeAt(nodes, k - 1)
      requires RequestOk(State(), Request(current.thread, current.amount))
      modifies this`head, this`tail, this`nodes, prev, available, allocation, need
      ensures Valid() && nodes == old(nodes)[..k] + old(nodes)[k + 1..]
      ensures State() == Grant(old(State()), current.thread, current.amount)
      ensures Pending() == old(Pending())[..k] + old(Pending())[k + 1..]
    {
      hide Linked, Grant;
      ghost var b, q := State(), Pending();
      GrantRequest(current.thread, current.amount);
      Unlink(prev, current, k);
      assert Pending() == q[..k] + q[k + 1..];
      StillOk(b, State(), q, k);
    }

    /** Grants the request at place `k` and unlinks it, or leaves everything as it is. */
    method Visit(prev: RequestNode?, current: RequestNode, ghost k: nat) returns (granted: bool)
      requires Valid() && k < |nodes| && current == nodes[k] && prev == NodeAt(nodes, k - 1)
      modifies this`head, this`tail, this`nodes, prev, available, allocation, need
      ensures Valid()
      ensures granted ==> Grantable(old(State()), old(Pending())[k])
      ensures old(State()).HoldsNonNegative() ==>
        State().HoldsNonNegative() && (granted <==> Grantable(old(State()), old(Pending())[k]))
      ensures granted ==>
        && nodes == old(nodes)[..k] + old(nodes)[k + 1..]
        && Pending() == old(Pending())[..k] + old(Pending())[k + 1..]
        && State() == Grant(old(State()), current.thread, current.amount)
      ensures !granted ==> nodes == old(nodes) && Pending() == old(Pending()) && State() == old(State())
    {
      ghost var b, q := State(), Pending();
      assert q[k] == Request(current.thread, current.amount);
      granted := CanGrant(current.thread, current.amount);
      assert Pending() == q && Linked();
      if granted {
        GrantAndUnlink(prev, current, k);
      }
    }

    /** One pass over the list, unlinking what is granted: exactly the function Pass when nobody holds less than
        nothing, and safe whenever it began so. */
    method ProcessPendingRequests() returns (anyGranted: bool)
      requires Valid()
      modifies this`head, this`tail, this`nodes, nodes, available, allocation, need
      ensures Valid()
      ensures old(State()).HoldsNonNegative() ==>
        Outcome(State(), Pending(), anyGranted) == Pass(old(State()), old(Pending()))
      ensures Safe(old(State())) ==> Safe(State())
    {
      hide Linked, Grant, Grantable, Resume, Pass, QueueOk, Safe;
      ghost var k: nat := 0;
      ghost var b := State();
      ghost var goal, was := Pass(State(), Pending()), set x | x in nodes;
      StartOfPass();
      var current := head;
      var prev: RequestNode? := null;
      anyGranted := false;
      while current != null
        invariant Valid() && (b.HoldsNonNegative() ==> State().HoldsNonNegative()) && (Safe(b) ==> Safe(State()))
        invariant k <= |nodes| && current == NodeAt(nodes, k) && prev == NodeAt(nodes, k - 1)
        invariant forall i :: 0 <= i < |nodes| ==> nodes[i] in was
        invariant b.HoldsNonNegative() ==> goal == Resume(State(), Pending(), k, anyGranted)
        decreases |nodes| - k
      {
        ResumeStep(State(), Pending(), k, anyGranted);
        GrantableIsSafe(State(), Pending(), k);
        NextOf(k);
        var next := current.next;
        var granted := Visit(prev, current, k);
        anyGranted := anyGranted || granted;
        if !granted {
          prev := current;
          k := k + 1;
        }
        current := next;
      }
      EndOfPass(k, anyGranted);
    }

    /** The effect of a transfer to `t` on the tables, entry by entry up to resource `i`. */
    ghost predicate Moved(b: WellShaped, t: nat, r: seq<int>, i: nat)
      requires Tables() && b.Types() == m && b.Threads() == n && t < n && |r| == m
      reads this, available, allocation, need
    {
      && (forall j :: 0 <= j < m ==> available[j] == b.avail[j] - if j < i then r[j] else 0)
      && (forall u, j :: 0 <= u < n && 0 <= j < m ==>
            allocation[u, j] == b.alloc[u][j] + if u == t && j < i then r[j] else 0)
      && Rows(need) == b.need
    }

    lemma MovedAll(b: WellShaped, t: nat, r: seq<int>)
      requires Tables() && b.Types() == m && b.Threads() == n && t < n && |r| == m
      requires Moved(b, t, r, m)
      ensures State() == Move(b, t, r)
    {
      assert available[..] == Minus(b.avail, r);
      forall u | 0 <= u < n ensures Row(allocation, u) == b.alloc[t := Plus(b.alloc[t], r)][u] {}
    }

    method HandleReleaseRequest(t: nat, request: array<int>)
      requires Tables() && t < n && request.Length == m && request != available
      modifies available, allocation
      ensures State() == Move(old(State()), t, request[..])
    {
      ghost var b, r := State(), request[..];
      for i := 0 to m
        invariant Moved(b, t, r, i)
      {
        available[i] := available[i] - request[i];
        allocation[t, i] := allocation[t, i] + request[i];
      }
      MovedAll(b, t, r);
    }

    method HandleQuit(t: nat)
      requires Tables() && t < n
      modifies available, allocation, this`activeThreads
      ensures State() == Move(old(State()), t, Negated(old(State()).alloc[t]))
      ensures activeThreads == old(activeThreads) - 1
    {
      ghost var b := State();
      ghost var r := Negated(b.alloc[t]);
      for i := 0 to m
        invariant Moved(b, t, r, i) && activeThreads == old(activeThreads)
      {
        available[i] := available[i] + allocation[t, i];
        allocation[t, i] := 0;
      }
      MovedAll(b, t, r);
      activeThreads := activeThreads - 1;
    }

    /** Takes back the negative entries of a mixed request at once and clears them in the request. */
    method HandleReleasePart(t: nat, request: array<int>)
      requires Tables() && t < n && request.Length == m && request != available
      modifies available, allocation, request
      ensures State() == Move(old(State()), t, Returned(old(request[..])))
      ensures request[..] == Asked(old(request[..]))
    {
      ghost var b, r := State(), request[..];
      for i := 0 to m
        invariant Moved(b, t, Returned(r), i)
        invariant forall j :: 0 <= j < m ==> request[j] == if j < i then Asked(r)[j] else r[j]
      {
        if request[i] < 0 {
          available[i] := available[i] - request[i];
          allocation[t, i] := allocation[t, i] + request[i];
          request[i] := 0;
        }
      }
      MovedAll(b, t, Returned(r));
    }

    lemma MoveKeepsQueueOk(b: WellShaped, t: nat, r: seq<int>, q: seq<Request>)
      requires t < b.Threads() && |r| == b.Types() && QueueOk(b, q)
      ensures QueueOk(Move(b, t, r), q)
    {
    }

    /** One round of the master loop: receive the request, then try to grant what is pending. */
    method HandleRequest(t: nat, kind: Kind, request: array<int>)
      requires Valid() && t < n && request.Length == m && request != available
      modifies this`head, this`tail, this`nodes, this`activeThreads, nodes, available, allocation, need, request
      ensures Valid()
      ensures var (s, r) := old((View(), request[..]));
        && (Affordable(s, t, kind, r) && s.bank.HoldsNonNegative() && NonNegative(s.bank.avail) ==> View() == Step(s, t, kind, r))
        && (OfItsKind(s, t, kind, r) && Safe(s.bank) ==> Safe(State()))
    {
      hide Safe, MasterStep.Receive, Affordable, OfItsKind;
      ghost var s, r := View(), request[..];
      Receive(t, kind, request);
      if Affordable(s, t, kind, r) && s.bank.HoldsNonNegative() && NonNegative(s.bank.avail) {
        ReceiveKeepsNonNegative(s, t, kind, r);
      }
      if OfItsKind(s, t, kind, r) && Safe(s.bank) { ReceiveKeepsSafe(s, t, kind, r); }
      var _ := ProcessPendingRequests();
    }

    method Receive(t: nat, kind: Kind, request: array<int>)
      requires Valid() && t < n && request.Length == m && request != available
      modifies this`head, this`tail, this`nodes, this`activeThreads, nodes, available, allocation, request
      ensures Valid()
      ensures View() == MasterStep.Receive(old(View()), t, kind, old(request[..]))
      ensures forall i :: 0 <= i < |nodes| ==> nodes[i] in old(nodes) || fresh(nodes[i])
    {
      hide Move;
      ghost var b, q, r := State(), Pending(), request[..];
      match kind {
        case Release =>
          HandleReleaseRequest(t, request);
          MoveKeepsQueueOk(b, t, r, q);
          assert Pending() == q;
        case Quit =>
          HandleQuit(t);
          MoveKeepsQueueOk(b, t, Negated(b.alloc[t]), q);
          assert Pending() == q;
        case Additional =>
          HandleAdditional(t, request);
      }
    }

    method HandleAdditional(t: nat, request: array<int>)
      requires Valid() && t < n && request.Length == m && request != available
      modifies this`head, this`tail, this`nodes, nodes, available, allocation, request
      ensures Valid()
      ensures View() == MasterStep.Receive(old(View()), t, Additional, old(request[..]))
      ensures forall i :: 0 <= i < |nodes| ==> nodes[i] in old(nodes) || fresh(nodes[i])
    {
      hide Move, Linked;
      ghost var b, q, r := State(), Pending(), request[..];
      HandleReleasePart(t, request);
      MoveKeepsQueueOk(b, t, Returned(r), q);
      assert Pending() == q;
      assert Linked();
      EnqueueRequest(t, request[..]);
    }

    lemma NextOf(k: nat)
      requires Linked() && k < |nodes|
      ensures nodes[k].next == NodeAt(nodes, k + 1)
    {
    }

    lemma StartOfPass()
      requires Valid()
      ensures head == NodeAt(nodes, 0)
      ensures Resume(State(), Pending(), 0, false) == Pass(State(), Pending())
    {
      assert Pending()[0..] == Pending();
    }

    lemma EndOfPass(k: nat, granted: bool)
      requires Valid() && k == |nodes|
      ensures Resume(State(), Pending(), k, granted) == Outcome(State(), Pending(), granted)
    {
      assert Pending()[k..] == [] && Pending()[..k] == Pending();
    }
  }
}
