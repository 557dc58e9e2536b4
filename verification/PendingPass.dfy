/** One pass over the queue of pending requests. */
module PendingPass {

  // The pass visits the requests once, in arrival order, and grants each one that fits what is available and
  // leaves a safe state. The main results: the requests it leaves behind cannot be granted in the state it ends
  // in, so one pass is all there is to do; what it grants and what it keeps are the two halves of the queue, each
  // in arrival order; it never leaves safety; and it does grant something when every thread that can still ask is
  // waiting for no more than its need.

  import opened Collections
  import opened Bank

  datatype Request = Request(thread: nat, amount: seq<int>)

  predicate RequestOk(b: WellShaped, q: Request) {
    q.thread < b.Threads() && |q.amount| == b.Types() && NonNegative(q.amount)
  }

  predicate QueueOk(b: WellShaped, q: seq<Request>) {
    forall i :: 0 <= i < |q| ==> RequestOk(b, q[i])
  }

  ghost predicate Grantable(b: WellShaped, q: Request)
    requires RequestOk(b, q)
  {
    AtMost(q.amount, b.avail) && Safe(Grant(b, q.thread, q.amount))
  }

  datatype Outcome = Outcome(bank: WellShaped, kept: seq<Request>, granted: bool)

  ghost function Pass(b: WellShaped, q: seq<Request>): (o: Outcome)
    requires QueueOk(b, q)
    ensures o.bank.Threads() == b.Threads() && o.bank.Types() == b.Types()
    ensures QueueOk(o.bank, o.kept)
    decreases |q|
  {
    if q == [] then Outcome(b, [], false)
    else if Grantable(b, q[0]) then
      Pass(Grant(b, q[0].thread, q[0].amount), q[1..]).(granted := true)
    else
      var rest := Pass(b, q[1..]);
      rest.(kept := [q[0]] + rest.kept)
  }

  // ----- a refused request stays refused until something is given back

  lemma GrantsCommute(b: WellShaped, p: Request, q: Request)
    requires RequestOk(b, p) && RequestOk(b, q)
    ensures Grant(Grant(b, p.thread, p.amount), q.thread, q.amount)
         == Grant(Grant(b, q.thread, q.amount), p.thread, p.amount)
  {
    var x := Grant(Grant(b, p.thread, p.amount), q.thread, q.amount);
    var y := Grant(Grant(b, q.thread, q.amount), p.thread, p.amount);
    assert x.avail == y.avail;
    forall t | 0 <= t < b.Threads() ensures x.alloc[t] == y.alloc[t] && x.need[t] == y.need[t] {}
    assert x.alloc == y.alloc && x.need == y.need;
  }

  lemma GrantableEarlier(b: WellShaped, p: Request, q: Request)
    requires RequestOk(b, p) && RequestOk(b, q)
    requires Grantable(Grant(b, p.thread, p.amount), q)
    ensures Grantable(b, q)
  {
    GrantsCommute(b, p, q);
    UndoGrantKeepsSafe(Grant(b, q.thread, q.amount), p.thread, p.amount);
  }

  lemma {:induction false} GrantableBeforePass(b: WellShaped, q: seq<Request>, x: Request)
    requires QueueOk(b, q) && RequestOk(b, x)
    requires Grantable(Pass(b, q).bank, x)
    ensures Grantable(b, x)
    decreases |q|
  {
    if q != [] {
      if Grantable(b, q[0]) {
        GrantableBeforePass(Grant(b, q[0].thread, q[0].amount), q[1..], x);
        GrantableEarlier(b, q[0], x);
      } else {
        GrantableBeforePass(b, q[1..], x);
      }
    }
  }

  /** Nothing the pass keeps can be granted in the state it ends in. */
  lemma {:induction false} KeptAreRefused(b: WellShaped, q: seq<Request>)
    requires QueueOk(b, q)
    ensures forall i :: 0 <= i < |Pass(b, q).kept| ==> !Grantable(Pass(b, q).bank, Pass(b, q).kept[i])
    decreases |q|
  {
    if q != [] {
      if Grantable(b, q[0]) {
        KeptAreRefused(Grant(b, q[0].thread, q[0].amount), q[1..]);
      } else {
        KeptAreRefused(b, q[1..]);
        if Grantable(Pass(b, q).bank, q[0]) {
          GrantableBeforePass(b, q[1..], q[0]);
        }
      }
    }
  }

  lemma {:induction false} PassRefusingAll(b: WellShaped, q: seq<Request>)
    requires QueueOk(b, q)
    requires forall i :: 0 <= i < |q| ==> !Grantable(b, q[i])
    ensures Pass(b, q) == Outcome(b, q, false)
  {
    if q != [] {
      PassRefusingAll(b, q[1..]);
    }
  }

  /** A second pass grants nothing and changes nothing. */
  lemma PassIsFixpoint(b: WellShaped, q: seq<Request>)
    requires QueueOk(b, q)
    ensures var o := Pass(b, q); Pass(o.bank, o.kept) == Outcome(o.bank, o.kept, false)
  {
    KeptAreRefused(b, q);
    PassRefusingAll(Pass(b, q).bank, Pass(b, q).kept);
  }

  // ----- what is granted and what is kept

  /** The entries of `q` whose mark equals `which`, in order. */
  function Select(q: seq<Request>, marks: seq<bool>, which: bool): seq<Request>
    requires |marks| == |q|
  {
    if q == [] then []
    else (if marks[0] == which then [q[0]] else []) + Select(q[1..], marks[1..], which)
  }

  /** The state after granting every request of `q` in turn, with no questions asked. */
  function GrantAll(b: WellShaped, q: seq<Request>): (c: WellShaped)
    requires QueueOk(b, q)
    decreases |q|
  {
    if q == [] then b else GrantAll(Grant(b, q[0].thread, q[0].amount), q[1..])
  }

  ghost predicate Splits(b: WellShaped, q: seq<Request>, marks: seq<bool>)
    requires QueueOk(b, q)
  {
    && |marks| == |q|
    && QueueOk(b, Select(q, marks, true))
    && Pass(b, q).kept == Select(q, marks, false)
    && Pass(b, q).bank == GrantAll(b, Select(q, marks, true))
    && (Pass(b, q).granted <==> Select(q, marks, true) != [])
  }

  lemma {:induction false} SelectOk(b: WellShaped, q: seq<Request>, marks: seq<bool>, which: bool)
    requires QueueOk(b, q) && |marks| == |q|
    ensures QueueOk(b, Select(q, marks, which))
  {
    if q != [] {
      SelectOk(b, q[1..], marks[1..], which);
    }
  }

  lemma SplitsCons(b: WellShaped, q: seq<Request>, next: WellShaped, marks: seq<bool>)
    requires QueueOk(b, q) && q != []
    requires next == if Grantable(b, q[0]) then Grant(b, q[0].thread, q[0].amount) else b
    requires QueueOk(next, q[1..]) && Splits(next, q[1..], marks)
    ensures Splits(b, q, [Grantable(b, q[0])] + marks)
  {
    var yes := Grantable(b, q[0]);
    var all := [yes] + marks;
    var part, other := Select(q[1..], marks, true), Select(q[1..], marks, false);
    SelectOk(b, q, all, true);
    assert all[1..] == marks;
    if yes {
      assert Select(q, all, true) == [q[0]] + part;
      assert Select(q, all, false) == other;
      assert ([q[0]] + part)[1..] == part;
    } else {
      assert Select(q, all, true) == part;
      assert Select(q, all, false) == [q[0]] + other;
    }
  }

  /** The pass divides the queue in two: it grants one part, in order, and keeps exactly the other, in order. */
  lemma {:induction false} PassSplitsQueue(b: WellShaped, q: seq<Request>)
    requires QueueOk(b, q)
    ensures exists marks :: Splits(b, q, marks)
    decreases |q|
  {
    if q == [] {
      assert Splits(b, q, []);
    } else {
      var next := if Grantable(b, q[0]) then Grant(b, q[0].thread, q[0].amount) else b;
      PassSplitsQueue(next, q[1..]);
      var marks :| Splits(next, q[1..], marks);
      SplitsCons(b, q, next, marks);
    }
  }

  // ----- safety, invariants and progress of a pass

  lemma {:induction false} PassKeepsSafe(b: WellShaped, q: seq<Request>)
    requires QueueOk(b, q) && Safe(b)
    ensures Safe(Pass(b, q).bank)
    decreases |q|
  {
    if q != [] {
      if Grantable(b, q[0]) {
        PassKeepsSafe(Grant(b, q[0].thread, q[0].amount), q[1..]);
      } else {
        PassKeepsSafe(b, q[1..]);
      }
    }
  }

  lemma {:induction false} PassKeepsNonNegative(b: WellShaped, q: seq<Request>)
    requires QueueOk(b, q) && b.HoldsNonNegative() && NonNegative(b.avail)
    ensures Pass(b, q).bank.HoldsNonNegative() && NonNegative(Pass(b, q).bank.avail)
    decreases |q|
  {
    if q != [] {
      if Grantable(b, q[0]) {
        PassKeepsNonNegative(Grant(b, q[0].thread, q[0].amount), q[1..]);
      } else {
        PassKeepsNonNegative(b, q[1..]);
      }
    }
  }

  /** Either some request is granted, or every one of them was refused in the very state the pass began in. */
  lemma {:induction false} PassGrantsOrRefusesAll(b: WellShaped, q: seq<Request>)
    requires QueueOk(b, q)
    ensures Pass(b, q).granted <==> exists i :: 0 <= i < |q| && Grantable(b, q[i])
    ensures !Pass(b, q).granted ==> Pass(b, q) == Outcome(b, q, false)
  {
    if q != [] {
      if Grantable(b, q[0]) {
      } else {
        PassGrantsOrRefusesAll(b, q[1..]);
        assert forall i :: 0 <= i < |q[1..]| ==> q[1..][i] == q[i + 1];
        if i :| 0 <= i < |q| && Grantable(b, q[i]) {
          assert q[1..][i - 1] == q[i];
        }
      }
    }
  }

  /** The request asks for nothing that its thread's need does not cover. */
  predicate WithinNeed(b: WellShaped, q: Request)
    requires RequestOk(b, q)
  {
    forall j :: 0 <= j < b.Types() ==> q.amount[j] == 0 || q.amount[j] <= b.need[q.thread][j]
  }

  /** Thread `t` has a pending request that its need covers. */
  predicate WaitsWithinNeed(b: WellShaped, q: seq<Request>, t: nat)
    requires QueueOk(b, q) && t < b.Threads()
  {
    exists i :: 0 <= i < |q| && q[i].thread == t && WithinNeed(b, q[i])
  }

  /** A thread that could finish at once is granted what fits. */
  lemma FinisherIsGranted(b: WellShaped, q: Request)
    requires RequestOk(b, q) && b.HoldsNonNegative() && NonNegative(b.avail) && Safe(b)
    requires AtMost(b.need[q.thread], b.avail) && (WithinNeed(b, q) || AtMost(q.amount, b.avail))
    ensures Grantable(b, q)
  {
    forall j | 0 <= j < b.Types() ensures b.need[q.thread][j] <= Work(b, {}, j) && q.amount[j] <= b.avail[j] {
      HeldEmpty(b, {}, j, b.Threads());
    }
    GrantWithinNeedSafe(b, q.thread, q.amount);
  }

  /** No all-blocked state: if every thread that still holds a place in the session waits for no more
      than its need, a pass from a safe state grants something.  Threads outside `active` hold nothing. */
  lemma SomeoneIsGranted(b: WellShaped, q: seq<Request>, active: set<nat>)
    requires QueueOk(b, q) && b.HoldsNonNegative() && NonNegative(b.avail) && Safe(b)
    requires forall t :: t in active ==> t < b.Threads() && WaitsWithinNeed(b, q, t)
    requires forall t, j :: 0 <= t < b.Threads() && t !in active && 0 <= j < b.Types() ==> b.alloc[t][j] == 0
    requires active != {}
    ensures Pass(b, q).granted
  {
    var gone := Upto(b.Threads()) - active;
    SafeNotStuck(b, gone);
    var a :| a in active;
    assert a < b.Threads() && a !in gone;
    var t: nat :| 0 <= t < b.Threads() && t !in gone && CanFinish(b, t, gone);
    assert t in active;
    var i :| 0 <= i < |q| && q[i].thread == t && WithinNeed(b, q[i]);
    forall j | 0 <= j < b.Types() ensures b.need[t][j] <= b.avail[j] {
      HeldEmpty(b, gone, j, b.Threads());
      assert b.need[t][j] <= Work(b, gone, j);
    }
    FinisherIsGranted(b, q[i]);
    PassGrantsOrRefusesAll(b, q);
  }
}
