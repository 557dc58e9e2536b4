/** What the master thread does with one request, as a function on its state. */
module MasterStep {
  import opened Collections
  import opened Bank
  import opened PendingPass

  datatype Kind = Release | Additional | Quit

  /** A request with a positive entry asks for more; any other request is a release. */
  function KindOf(r: seq<int>): Kind {
    if exists j :: 0 <= j < |r| && r[j] > 0 then Additional else Release
  }

  function Asked(r: seq<int>): (a: seq<int>)
    ensures |a| == |r| && NonNegative(a)
  {
    seq(|r|, j requires 0 <= j < |r| => if r[j] < 0 then 0 else r[j])
  }

  function Returned(r: seq<int>): (a: seq<int>)
    ensures |a| == |r| && forall j :: 0 <= j < |r| ==> a[j] <= 0
  {
    seq(|r|, j requires 0 <= j < |r| => if r[j] < 0 then r[j] else 0)
  }

  function Negated(r: seq<int>): (a: seq<int>)
    ensures |a| == |r|
  {
    seq(|r|, j requires 0 <= j < |r| => -r[j])
  }

  datatype Master = Master(bank: WellShaped, pending: seq<Request>, active: int)

  predicate MasterOk(s: Master) {
    QueueOk(s.bank, s.pending)
  }

  /** The effect of a request before the pass over the queue. */
  function Receive(s: Master, t: nat, kind: Kind, r: seq<int>): (s': Master)
    requires MasterOk(s) && t < s.bank.Threads() && |r| == s.bank.Types()
    ensures MasterOk(s')
    ensures s'.bank.Threads() == s.bank.Threads() && s'.bank.Types() == s.bank.Types()
  {
    match kind
    case Release => s.(bank := Move(s.bank, t, r))
    case Additional => Master(Move(s.bank, t, Returned(r)), s.pending + [Request(t, Asked(r))], s.active)
    case Quit => Master(Move(s.bank, t, Negated(s.bank.alloc[t])), s.pending, s.active - 1)
  }

  ghost function Settle(s: Master): (s': Master)
    requires MasterOk(s)
    ensures MasterOk(s')
    ensures s'.bank.Threads() == s.bank.Threads() && s'.bank.Types() == s.bank.Types()
  {
    var o := Pass(s.bank, s.pending);
    Master(o.bank, o.kept, s.active)
  }

  ghost function Step(s: Master, t: nat, kind: Kind, r: seq<int>): (s': Master)
    requires MasterOk(s) && t < s.bank.Threads() && |r| == s.bank.Types()
    ensures MasterOk(s')
    ensures s'.bank.Threads() == s.bank.Threads() && s'.bank.Types() == s.bank.Types()
  {
    Settle(Receive(s, t, kind, r))
  }

  /** A request may be sent by a thread that returns no more than it holds. */
  predicate Affordable(s: Master, t: nat, kind: Kind, r: seq<int>)
    requires t < s.bank.Threads() && |r| == s.bank.Types()
  {
    && (kind == Release ==> NonNegative(Negated(r)))
    && (kind != Quit ==> NonNegative(Plus(s.bank.alloc[t], Returned(r))))
  }

  /** A message is put in the queue exactly when it asks for something; what it asks for is queued and what it returns
      goes back at once, and the two make up the message. */
  lemma QueuedIffAsks(s: Master, t: nat, r: seq<int>, j: nat)
    requires MasterOk(s) && t < s.bank.Threads() && |r| == s.bank.Types() && j < |r|
    ensures var s' := Receive(s, t, KindOf(r), r);
      && (if exists i :: 0 <= i < |r| && r[i] > 0 then
            |s'.pending| == |s.pending| + 1 && s'.pending[..|s.pending|] == s.pending && s'.pending[|s.pending|].thread == t
            && s'.pending[|s.pending|].amount[j] == r[j] - (s'.bank.alloc[t][j] - s.bank.alloc[t][j])
          else
            s'.pending == s.pending && s'.bank.alloc[t][j] == s.bank.alloc[t][j] + r[j])
      && s'.bank.alloc[t][j] - s.bank.alloc[t][j] == (if r[j] < 0 then r[j] else 0)
      && s'.bank.avail[j] - s.bank.avail[j] == s.bank.alloc[t][j] - s'.bank.alloc[t][j]
  {
  }

  lemma ReceiveKeepsNonNegative(s: Master, t: nat, kind: Kind, r: seq<int>)
    requires MasterOk(s) && t < s.bank.Threads() && |r| == s.bank.Types()
    requires Affordable(s, t, kind, r)
    requires s.bank.HoldsNonNegative() && NonNegative(s.bank.avail)
    ensures Receive(s, t, kind, r).bank.HoldsNonNegative() && NonNegative(Receive(s, t, kind, r).bank.avail)
  {
    if kind == Release {
      forall j | 0 <= j < |r| ensures r[j] <= 0 && Returned(r)[j] == r[j] {
        assert Negated(r)[j] >= 0;
      }
      assert Returned(r) == r;
    }
    var c := Receive(s, t, kind, r).bank;
    assert NonNegative(c.alloc[t]);
    assert NonNegative(s.bank.alloc[t]);
  }

  /** The request is of its kind: a release asks for nothing, and who quits owes nothing. */
  predicate OfItsKind(s: Master, t: nat, kind: Kind, r: seq<int>)
    requires t < s.bank.Threads()
  {
    && (kind == Release ==> NonNegative(Negated(r)))
    && (kind == Quit ==> NonNegative(s.bank.alloc[t]))
  }

  lemma ReceiveKeepsSafe(s: Master, t: nat, kind: Kind, r: seq<int>)
    requires MasterOk(s) && t < s.bank.Threads() && |r| == s.bank.Types()
    requires OfItsKind(s, t, kind, r) && Safe(s.bank)
    ensures Safe(Receive(s, t, kind, r).bank)
  {
    match kind {
      case Release =>
        forall j | 0 <= j < |r| ensures r[j] <= 0 { assert Negated(r)[j] >= 0; }
        ReleaseKeepsSafe(s.bank, t, r);
      case Additional =>
        ReleaseKeepsSafe(s.bank, t, Returned(r));
      case Quit =>
        ReleaseKeepsSafe(s.bank, t, Negated(s.bank.alloc[t]));
    }
  }

  /** Every step of the master keeps the state safe, although neither a release nor a quit restores NEED;
      when the thread returns no more than it holds, nothing becomes negative either. */
  lemma StepKeepsSafe(s: Master, t: nat, kind: Kind, r: seq<int>)
    requires MasterOk(s) && t < s.bank.Threads() && |r| == s.bank.Types()
    requires OfItsKind(s, t, kind, r) && Safe(s.bank)
    ensures Safe(Step(s, t, kind, r).bank)
    ensures Affordable(s, t, kind, r) && s.bank.HoldsNonNegative() && NonNegative(s.bank.avail) ==>
      Step(s, t, kind, r).bank.HoldsNonNegative() && NonNegative(Step(s, t, kind, r).bank.avail)
  {
    var c := Receive(s, t, kind, r);
    ReceiveKeepsSafe(s, t, kind, r);
    PassKeepsSafe(c.bank, c.pending);
    if Affordable(s, t, kind, r) && s.bank.HoldsNonNegative() && NonNegative(s.bank.avail) {
      ReceiveKeepsNonNegative(s, t, kind, r);
      PassKeepsNonNegative(c.bank, c.pending);
    }
  }

  lemma {:induction false} SumOfRows(b: WellShaped, j: nat, k: nat)
    requires j < b.Types() && k <= b.Threads()
    ensures Held(b, Upto(b.Threads()), j, k) == ColumnSum(b, j, k)
  {
    if k > 0 { SumOfRows(b, j, k - 1); }
  }

  /** All that is out with the first `k` threads of resource `j`. */
  function ColumnSum(b: WellShaped, j: nat, k: nat): int
    requires j < b.Types() && k <= b.Threads()
  {
    if k == 0 then 0 else ColumnSum(b, j, k - 1) + b.alloc[k - 1][j]
  }

  /** What the system owns of resource `j`, in the pool or out with the threads. */
  function Total(b: WellShaped, j: nat): int
    requires j < b.Types()
  {
    b.avail[j] + ColumnSum(b, j, b.Threads())
  }

  lemma MoveConserves(b: WellShaped, c: WellShaped, t: nat, r: seq<int>, j: nat)
    requires t < b.Threads() && |r| == b.Types() && j < b.Types()
    requires c == Move(b, t, r) || c == Grant(b, t, r)
    ensures Total(c, j) == Total(b, j)
  {
    WorkMove(b, c, t, r, Upto(b.Threads()), j);
    SumOfRows(b, j, b.Threads());
    SumOfRows(c, j, b.Threads());
  }

  lemma {:induction false} PassConserves(b: WellShaped, q: seq<Request>, j: nat)
    requires QueueOk(b, q) && j < b.Types()
    ensures Total(Pass(b, q).bank, j) == Total(b, j)
    decreases |q|
  {
    if q != [] {
      if Grantable(b, q[0]) {
        var c := Grant(b, q[0].thread, q[0].amount);
        MoveConserves(b, c, q[0].thread, q[0].amount, j);
        PassConserves(c, q[1..], j);
      } else {
        PassConserves(b, q[1..], j);
      }
    }
  }

  /** No step creates or destroys resources. */
  lemma StepConserves(s: Master, t: nat, kind: Kind, r: seq<int>, j: nat)
    requires MasterOk(s) && t < s.bank.Threads() && |r| == s.bank.Types() && j < s.bank.Types()
    ensures Total(Step(s, t, kind, r).bank, j) == Total(s.bank, j)
  {
    var c := Receive(s, t, kind, r);
    match kind {
      case Release => MoveConserves(s.bank, c.bank, t, r, j);
      case Additional => MoveConserves(s.bank, c.bank, t, Returned(r), j);
      case Quit => MoveConserves(s.bank, c.bank, t, Negated(s.bank.alloc[t]), j);
    }
    PassConserves(c.bank, c.pending, j);
  }
}
